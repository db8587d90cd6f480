/** The telegram decoder (internal/decoder/decoder.go). */
module Decoder {
  import opened Text

  // ---------- the decoded telegram ----------

  /** The generated lookup tables; an absent key reads as "". */
  datatype Tables = Tables(
    codeType: map<string, string>,
    section: map<string, string>,
    msgType: map<string, string>,
    warnType: map<string, string>,
    epicenter: map<string, string>,
    area: map<string, string>,
    shindo: map<string, string>,
    rk1: map<string, string>,
    rk2: map<string, string>,
    rk3: map<string, string>,
    rt1: map<string, string>,
    ebiY1: map<string, string>,
    ebiY2: map<string, string>)

  function Look(table: map<string, string>, key: string): string {
    if key in table then table[key] else ""
  }

  datatype Header = Header(
    code: string, codeType: string,
    sectionCode: string, section: string,
    msgTypeCode: int, msgType: string,
    warnTime: string,
    commandCode: string)

  datatype Report = Report(
    eqID: string,
    warnCode: string, warnType: string,
    ncnType: int,
    warnNum: int)

  /** Latitude, longitude and magnitude are in tenths. */
  datatype Hypocenter = Hypocenter(
    centerCode: string, centerName: string,
    lat: int, lng: int,
    depth: int,
    magnitude: int,
    shindoCode: string, shindo: string,
    centerAccurateCode: string, centerAccurate: string,
    depthAccurateCode: string, depthAccurate: string,
    magnitudeAccurateCode: string, magnitudeAccurate: string,
    isSeaCode: string, isSea: string,
    isWarnded: string)

  datatype EBIEntry = EBIEntry(
    name: string,
    shindo1: string, shindo1Code: string,
    shindo2: string, shindo2Code: string,
    time: string,
    isWarnded: string, isWarndedCode: string,
    arrive: string, arriveCode: string)

  /** The fields of a Telegram, grouped by the kind of line that sets them. */
  datatype Fields = Fields(
    header: Header,
    eqTime: string,
    report: Report,
    hypocenter: Hypocenter,
    ebi: map<string, EBIEntry>)
  {
    predicate IsFinal() {
      report.ncnType > 0
    }

    predicate IsCancellation() {
      header.msgTypeCode == 10
    }
  }

  const NO_HEADER := Header("", "", "", "", 0, "", "", "")
  const NO_REPORT := Report("", "", "", 0, 0)
  const NO_HYPOCENTER := Hypocenter("", "", 0, 0, 0, 0, "", "", "", "", "", "", "", "", "", "", "")
  const BLANK := Fields(NO_HEADER, "", NO_REPORT, NO_HYPOCENTER, map[])

  // ---------- the five patterns ----------

  datatype Class = Digit | Slashed | Level | OpenLevel | Bit | Upper

  predicate Is(c: char, k: Class) {
    match k
    case Digit => IsDigit(c)
    case Slashed => IsDigit(c) || c == '/'
    case Level => '0' <= c <= '7' || c == '-' || c == '+'
    case OpenLevel => '0' <= c <= '7' || c == '-' || c == '+' || c == '/'
    case Bit => c == '0' || c == '1'
    case Upper => IsUpper(c)
  }

  predicate All(s: string, k: Class) {
    forall i :: 0 <= i < |s| ==> Is(s[i], k)
  }

  predicate Span(s: string, lo: nat, hi: nat, k: Class)
    requires hi <= |s|
  {
    forall i :: lo <= i < hi ==> Is(s[i], k)
  }

  /** The end of the longest run of a class from a position. */
  function RunEnd(s: string, from: nat, k: Class): (e: nat)
    requires from <= |s|
    ensures from <= e <= |s| && Span(s, from, e, k)
    ensures e < |s| ==> !Is(s[e], k)
    decreases |s| - from
  {
    if from < |s| && Is(s[from], k) then RunEnd(s, from + 1, k) else from
  }

  datatype Pattern = HeaderRE | NdRE | HypocenterRE | EbiRE

  /** The pattern matches from position i on. */
  predicate MatchesAt(p: Pattern, s: string, i: nat) {
    match p
    case HeaderRE =>
      && i + 25 <= |s|
      && Span(s, i, i + 2, Digit) && s[i + 2] == ' '
      && Span(s, i + 3, i + 5, Digit) && s[i + 5] == ' '
      && Span(s, i + 6, i + 8, Digit) && s[i + 8] == ' '
      && Span(s, i + 9, i + 21, Digit) && s[i + 21] == ' ' && s[i + 22] == 'C'
      && Span(s, i + 23, i + 25, Digit)
    case NdRE =>
      && i + 19 <= |s|
      && s[i] == 'N' && s[i + 1] == 'D' && Span(s, i + 2, i + 16, Digit) && s[i + 16] == ' '
      && Is(s[i + 17], Upper)
      && RunEnd(s, i + 17, Upper) < |s| && IsDigit(s[RunEnd(s, i + 17, Upper)])
    case HypocenterRE =>
      && i + 48 <= |s|
      && Span(s, i, i + 3, Slashed) && s[i + 3] == ' ' && s[i + 4] == 'N'
      && Span(s, i + 5, i + 8, Slashed) && s[i + 8] == ' ' && s[i + 9] == 'E'
      && Span(s, i + 10, i + 14, Slashed) && s[i + 14] == ' '
      && Span(s, i + 15, i + 18, Slashed) && s[i + 18] == ' '
      && Span(s, i + 19, i + 21, Slashed) && s[i + 21] == ' '
      && Span(s, i + 22, i + 24, OpenLevel) && s[i + 24] == ' '
      && s[i + 25] == 'R' && s[i + 26] == 'K' && Span(s, i + 27, i + 32, Slashed) && s[i + 32] == ' '
      && s[i + 33] == 'R' && s[i + 34] == 'T' && Span(s, i + 35, i + 40, Slashed) && s[i + 40] == ' '
      && s[i + 41] == 'R' && s[i + 42] == 'C' && Span(s, i + 43, i + 48, Slashed)
    case EbiRE =>
      && i + 19 <= |s|
      && Span(s, i, i + 3, Digit) && s[i + 3] == ' ' && s[i + 4] == 'S'
      && Span(s, i + 5, i + 7, Level) && Span(s, i + 7, i + 9, OpenLevel) && s[i + 9] == ' '
      && Span(s, i + 10, i + 16, Slashed) && s[i + 16] == ' '
      && Span(s, i + 17, i + 19, Bit)
  }

  lemma {:induction false} RunEndIs(s: string, from: nat, e: nat, k: Class)
    requires from <= e <= |s| && Span(s, from, e, k) && (e < |s| ==> !Is(s[e], k))
    ensures RunEnd(s, from, k) == e
    decreases e - from
  {
    if from < e {
      RunEndIs(s, from + 1, e, k);
    }
  }

  lemma {:induction false} RunEndAtLeast(s: string, from: nat, e: nat, k: Class)
    requires from <= e <= |s| && Span(s, from, e, k)
    ensures RunEnd(s, from, k) >= e
    decreases e - from
  {
    if from < e {
      RunEndAtLeast(s, from + 1, e, k);
    }
  }

  /** In `ND(\d{14}) ([A-Z]+)(\d+)` the two repetitions leave no choice but the length of the
      last one, and the greedy match takes all of it. */
  lemma NdGroupsAreForced(s: string, i: nat, a: nat, b: nat)
    requires i + 17 < a < b <= |s| && Span(s, i + 17, a, Upper) && Span(s, a, b, Digit)
    ensures a == RunEnd(s, i + 17, Upper) && b <= RunEnd(s, a, Digit)
  {
    assert Is(s[a], Digit);
    RunEndIs(s, i + 17, a, Upper);
    RunEndAtLeast(s, a, b, Digit);
  }

  /** The leftmost match from a position on, or -1. */
  function Search(p: Pattern, s: string, from: nat): (i: int)
    ensures i == -1 || (from <= i && MatchesAt(p, s, i))
    ensures forall k: nat :: from <= k && (i < 0 || k < i) ==> !MatchesAt(p, s, k)
    decreases |s| - from
  {
    if from >= |s| then -1
    else if MatchesAt(p, s, from) then from
    else Search(p, s, from + 1)
  }

  predicate IsEqTime(s: string) {
    |s| >= 12 && Span(s, 0, 12, Digit)
  }

  /** The pattern that Decode applies to a line: the first that matches. */
  datatype Kind = HeaderKind | EqTimeKind | NdKind | HypocenterKind | EbiKind | NoKind

  function KindOf(line: string): Kind {
    if Search(HeaderRE, line, 0) >= 0 then HeaderKind
    else if IsEqTime(line) then EqTimeKind
    else if Search(NdRE, line, 0) >= 0 then NdKind
    else if Search(HypocenterRE, line, 0) >= 0 then HypocenterKind
    else if Search(EbiRE, line, 0) >= 0 then EbiKind
    else NoKind
  }

  // ---------- what a line says ----------

  function ParseIntOrZero(s: string): int {
    match Atoi(TrimSpace(s))
    case Some(n) => n
    case None => 0
  }

  function CharAt(s: string, i: int): string {
    if i < 0 || i >= |s| then "" else s[i..i + 1]
  }

  function HeaderFrom(t: Tables, code: string, section: string, msgType: string,
                      warnTime: string, command: string): Header
  {
    Header(code, Look(t.codeType, code), section, Look(t.section, section),
           ParseIntOrZero(msgType), Look(t.msgType, msgType), warnTime, command)
  }

  function HeaderAt(t: Tables, s: string, i: nat): Header
    requires MatchesAt(HeaderRE, s, i)
  {
    HeaderFrom(t, s[i..i + 2], s[i + 3..i + 5], s[i + 6..i + 8], s[i + 9..i + 21], s[i + 23..i + 25])
  }

  /** A one-digit tail carries no report number, so the previous one stays. */
  function ReportFrom(t: Tables, eqID: string, warnCode: string, trailing: string, previous: int): Report
    requires trailing != ""
  {
    Report(eqID, warnCode, Look(t.warnType, warnCode), ParseIntOrZero(trailing[..1]),
           if |trailing| >= 3 then ParseIntOrZero(trailing[1..3])
           else if |trailing| > 1 then ParseIntOrZero(trailing[1..])
           else previous)
  }

  function Trailing(s: string, i: nat): (d: string)
    requires MatchesAt(NdRE, s, i)
    ensures d != "" && AllDigits(d)
  {
    var e := RunEnd(s, i + 17, Upper);
    s[e..RunEnd(s, e, Digit)]
  }

  function ReportAt(t: Tables, s: string, i: nat, previous: int): Report
    requires MatchesAt(NdRE, s, i)
  {
    ReportFrom(t, s[i + 2..i + 16], s[i + 17..RunEnd(s, i + 17, Upper)], Trailing(s, i), previous)
  }

  function HypocenterFrom(t: Tables, code: string, lat: string, lng: string, depth: string,
                          mag: string, shindo: string, rk: string, rt: string): Hypocenter
  {
    Hypocenter(code, Look(t.epicenter, code),
               ParseIntOrZero(lat), ParseIntOrZero(lng), ParseIntOrZero(depth), ParseIntOrZero(mag),
               shindo, Look(t.shindo, shindo),
               CharAt(rk, 0), Look(t.rk1, CharAt(rk, 0)),
               CharAt(rk, 1), Look(t.rk2, CharAt(rk, 1)),
               CharAt(rk, 2), Look(t.rk3, CharAt(rk, 2)),
               CharAt(rt, 0), Look(t.rt1, CharAt(rt, 0)),
               CharAt(rt, 1))
  }

  function HypocenterAt(t: Tables, s: string, i: nat): Hypocenter
    requires MatchesAt(HypocenterRE, s, i)
  {
    HypocenterFrom(t, s[i..i + 3], s[i + 5..i + 8], s[i + 10..i + 14], s[i + 15..i + 18],
                   s[i + 19..i + 21], s[i + 22..i + 24], s[i + 27..i + 32], s[i + 35..i + 40])
  }

  function EntryFrom(t: Tables, area: string, s1: string, s2: string, time: string, y: string): EBIEntry {
    EBIEntry(Look(t.area, area), Look(t.shindo, s1), s1, Look(t.shindo, s2), s2, time,
             Look(t.ebiY1, CharAt(y, 0)), CharAt(y, 0), Look(t.ebiY2, CharAt(y, 1)), CharAt(y, 1))
  }

  function EntryAt(t: Tables, s: string, i: nat): EBIEntry
    requires MatchesAt(EbiRE, s, i)
  {
    EntryFrom(t, s[i..i + 3], s[i + 5..i + 7], s[i + 7..i + 9], s[i + 10..i + 16], s[i + 17..i + 19])
  }

  /** The entries of all non-overlapping matches from a position on, put into a map in turn. */
  function Entries(t: Tables, s: string, from: nat, ebi: map<string, EBIEntry>): map<string, EBIEntry>
    decreases |s| - from
  {
    var i := Search(EbiRE, s, from);
    if i < 0 then ebi
    else Entries(t, s, i + 19, ebi[s[i..i + 3] := EntryAt(t, s, i)])
  }

  // ---------- Decode as a function ----------

  function ApplyLine(t: Tables, f: Fields, line: string): Fields {
    match KindOf(line)
    case HeaderKind => f.(header := HeaderAt(t, line, Search(HeaderRE, line, 0)))
    case EqTimeKind => f.(eqTime := line[..12])
    case NdKind => f.(report := ReportAt(t, line, Search(NdRE, line, 0), f.report.warnNum))
    case HypocenterKind => f.(hypocenter := HypocenterAt(t, line, Search(HypocenterRE, line, 0)))
    case EbiKind => f.(ebi := Entries(t, line, 0, f.ebi))
    case NoKind => f
  }

  function Fold(t: Tables, f: Fields, lines: seq<string>): Fields {
    if lines == [] then f
    else ApplyLine(t, Fold(t, f, lines[..|lines| - 1]), lines[|lines| - 1])
  }

  predicate IsBreak(c: char) {
    c == '\r' || c == '\n'
  }

  function LineLength(s: string): (n: nat)
    ensures n <= |s|
    ensures s != "" && !IsBreak(s[0]) ==> n > 0
  {
    if s == "" || IsBreak(s[0]) then 0 else 1 + LineLength(s[1..])
  }

  /** strings.FieldsFunc on CR and LF: the non-empty runs between them. */
  function SplitLines(s: string): seq<string>
    decreases |s|
  {
    if s == "" then []
    else if IsBreak(s[0]) then SplitLines(s[1..])
    else [s[..LineLength(s)]] + SplitLines(s[LineLength(s)..])
  }

  function Decoded(t: Tables, raw: string): Fields {
    Fold(t, BLANK, SplitLines(raw))
  }

  // ---------- Decode as the program has it ----------

  class Telegram {
    var header: Header
    var eqTime: string
    var report: Report
    var hypocenter: Hypocenter
    var ebi: map<string, EBIEntry>

    ghost function View(): Fields
      reads this
    {
      Fields(header, eqTime, report, hypocenter, ebi)
    }

    constructor ()
      ensures View() == BLANK
    {
      header, eqTime, report, hypocenter, ebi := NO_HEADER, "", NO_REPORT, NO_HYPOCENTER, map[];
    }

    method TryHeader(t: Tables, line: string) returns (ok: bool)
      modifies this`header
      ensures ok == (Search(HeaderRE, line, 0) >= 0)
      ensures header == if ok then HeaderAt(t, line, Search(HeaderRE, line, 0)) else old(header)
    {
      var i := Search(HeaderRE, line, 0);
      if i < 0 {
        return false;
      }
      header := HeaderAt(t, line, i);
      return true;
    }

    method TryEqTime(line: string) returns (ok: bool)
      modifies this`eqTime
      ensures ok == IsEqTime(line)
      ensures eqTime == if ok then line[..12] else old(eqTime)
    {
      if !IsEqTime(line) {
        return false;
      }
      eqTime := line[..12];
      return true;
    }

    method TryND(t: Tables, line: string) returns (ok: bool)
      modifies this`report
      ensures ok == (Search(NdRE, line, 0) >= 0)
      ensures report == if ok then ReportAt(t, line, Search(NdRE, line, 0), old(report).warnNum)
                        else old(report)
    {
      var i := Search(NdRE, line, 0);
      if i < 0 {
        return false;
      }
      var e := RunEnd(line, i + 17, Upper);
      var code, trailing := line[i + 17..e], Trailing(line, i);
      report := report.(eqID := line[i + 2..i + 16], warnCode := code, warnType := Look(t.warnType, code));
      report := report.(ncnType := ParseIntOrZero(trailing[..1]));
      if |trailing| >= 3 {
        report := report.(warnNum := ParseIntOrZero(trailing[1..3]));
      } else if |trailing| > 1 {
        report := report.(warnNum := ParseIntOrZero(trailing[1..]));
      }
      return true;
    }

    method TryHypocenter(t: Tables, line: string) returns (ok: bool)
      modifies this`hypocenter
      ensures ok == (Search(HypocenterRE, line, 0) >= 0)
      ensures hypocenter == if ok then HypocenterAt(t, line, Search(HypocenterRE, line, 0))
                            else old(hypocenter)
    {
      var i := Search(HypocenterRE, line, 0);
      if i < 0 {
        return false;
      }
      hypocenter := HypocenterAt(t, line, i);
      return true;
    }

    method TryEBI(t: Tables, line: string) returns (ok: bool)
      modifies this`ebi
      ensures ok == (Search(EbiRE, line, 0) >= 0)
      ensures ebi == Entries(t, line, 0, old(ebi))
    {
      var i := Search(EbiRE, line, 0);
      ok := i >= 0;
      ghost var from := 0;
      while i >= 0
        invariant 0 <= from && i == Search(EbiRE, line, from)
        invariant Entries(t, line, from, ebi) == Entries(t, line, 0, old(ebi))
        decreases if i < 0 then 0 else |line| - i
      {
        ebi := ebi[line[i..i + 3] := EntryAt(t, line, i)];
        from := i + 19;
        i := Search(EbiRE, line, i + 19);
      }
    }

    method ReadLine(t: Tables, line: string)
      modifies this
      ensures View() == ApplyLine(t, old(View()), line)
    {
      hide MatchesAt, Entries, HeaderAt, ReportAt, HypocenterAt, IsEqTime;
      var done := TryHeader(t, line);
      if !done {
        done := TryEqTime(line);
      }
      if !done {
        done := TryND(t, line);
      }
      if !done {
        done := TryHypocenter(t, line);
      }
      if !done {
        done := TryEBI(t, line);
        if !done {
          NoEntries(t, line, old(ebi));
        }
      }
    }
  }

  lemma NoEntries(t: Tables, line: string, ebi: map<string, EBIEntry>)
    requires Search(EbiRE, line, 0) < 0
    ensures Entries(t, line, 0, ebi) == ebi
  {}

  method Decode(t: Tables, raw: string) returns (tel: Telegram)
    ensures fresh(tel) && tel.View() == Decoded(t, raw)
  {
    hide ApplyLine;
    tel := new Telegram();
    var lines := SplitLines(raw);
    assert lines[..0] == [];
    for i := 0 to |lines|
      invariant fresh(tel) && tel.View() == Fold(t, BLANK, lines[..i])
    {
      assert lines[..i + 1][..i] == lines[..i];
      tel.ReadLine(t, lines[i]);
    }
    assert lines[..|lines|] == lines;
  }
}
