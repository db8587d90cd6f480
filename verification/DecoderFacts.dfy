/** What decoding guarantees for every input (internal/decoder/decoder.go). */
module DecoderFacts {
  import opened Text
  import opened Decoder

  // ---------- lines of different kinds are independent ----------

  /** The part of a telegram that lines of one kind set. */
  function Part(f: Fields, k: Kind): Fields {
    match k
    case HeaderKind => BLANK.(header := f.header)
    case EqTimeKind => BLANK.(eqTime := f.eqTime)
    case NdKind => BLANK.(report := f.report)
    case HypocenterKind => BLANK.(hypocenter := f.hypocenter)
    case EbiKind => BLANK.(ebi := f.ebi)
    case NoKind => BLANK
  }

  function OfKind(lines: seq<string>, k: Kind): seq<string> {
    if lines == [] then []
    else
      var last := lines[|lines| - 1];
      OfKind(lines[..|lines| - 1], k) + if KindOf(last) == k then [last] else []
  }

  lemma PartStep(t: Tables, f: Fields, g: Fields, line: string, k: Kind)
    requires Part(f, k) == Part(g, k)
    ensures Part(ApplyLine(t, f, line), k) == if KindOf(line) == k then Part(ApplyLine(t, g, line), k) else Part(g, k)
  {
    hide KindOf, HeaderAt, HypocenterAt, ReportFrom, Entries;
  }

  lemma {:induction false} PartOfFold(t: Tables, f: Fields, lines: seq<string>, k: Kind)
    ensures Part(Fold(t, f, lines), k) == Part(Fold(t, f, OfKind(lines, k)), k)
  {
    hide ApplyLine, KindOf, Part;
    if lines != [] {
      var front, last := lines[..|lines| - 1], lines[|lines| - 1];
      PartOfFold(t, f, front, k);
      var g := Fold(t, f, OfKind(front, k));
      PartStep(t, Fold(t, f, front), g, last, k);
      if KindOf(last) == k {
        assert (OfKind(front, k) + [last])[..|OfKind(front, k)|] == OfKind(front, k);
      } else {
        assert OfKind(lines, k) == OfKind(front, k);
      }
    }
  }

  lemma PartsMakeFields(f: Fields, g: Fields)
    requires forall k :: Part(f, k) == Part(g, k)
    ensures f == g
  {
    assert Part(f, HeaderKind) == Part(g, HeaderKind);
    assert Part(f, EqTimeKind) == Part(g, EqTimeKind);
    assert Part(f, NdKind) == Part(g, NdKind);
    assert Part(f, HypocenterKind) == Part(g, HypocenterKind);
    assert Part(f, EbiKind) == Part(g, EbiKind);
  }

  /** Decoding depends only on the lines of each kind and their order among themselves: any
      interleaving of the kinds, and any further lines that match nothing, give the same
      telegram. */
  lemma KindsAreIndependent(t: Tables, f: Fields, a: seq<string>, b: seq<string>)
    requires forall k :: k != NoKind ==> OfKind(a, k) == OfKind(b, k)
    ensures Fold(t, f, a) == Fold(t, f, b)
  {
    hide ApplyLine, KindOf;
    forall k
      ensures Part(Fold(t, f, a), k) == Part(Fold(t, f, b), k)
    {
      if k != NoKind {
        PartOfFold(t, f, a, k);
        PartOfFold(t, f, b, k);
      }
    }
    PartsMakeFields(Fold(t, f, a), Fold(t, f, b));
  }

  /** Number of digits after the letters of an ND line. */
  function TailLength(line: string): nat
    requires KindOf(line) == NdKind
  {
    |Trailing(line, Search(NdRE, line, 0))|
  }

  /** Of two lines of one kind the later wins outright, with two exceptions: EBI areas
      accumulate, and an ND line hides the earlier one if and only if its tail has a second
      digit or the earlier one did not change the report number. */
  lemma LaterLineWins(t: Tables, f: Fields, a: string, b: string)
    requires KindOf(a) == KindOf(b)
    ensures
      var both, second := ApplyLine(t, ApplyLine(t, f, a), b), ApplyLine(t, f, b);
      match KindOf(b)
      case NdKind => both == second <==> TailLength(b) > 1 || ApplyLine(t, f, a).report.warnNum == f.report.warnNum
      case EbiKind => both == second.(ebi := Entries(t, b, 0, Entries(t, a, 0, f.ebi)))
      case _ => both == second
  {
    hide KindOf, HeaderAt, HypocenterAt, Entries, MatchesAt, Look;
  }

  // ---------- ranges ----------

  lemma ParseDigits(s: string)
    requires AllDigits(s) && 0 < |s| <= 4
    ensures ParseIntOrZero(s) == Value(s) && Value(s) <= 9999
    ensures |s| <= 2 ==> Value(s) <= 99
  {
    TrimmedIsFixed(s);
    ValueBound(s);
    assert IsDigit(s[0]);
  }

  lemma ParseBounds(s: string)
    requires All(s, Slashed) && 0 < |s| <= 4
    ensures 0 <= ParseIntOrZero(s) <= 9999
    ensures (|s| <= 3 ==> ParseIntOrZero(s) <= 999) && (|s| <= 2 ==> ParseIntOrZero(s) <= 99)
  {
    if AllDigits(s) {
      ParseDigits(s);
      SmallValue(s);
    } else {
      TrimmedIsFixed(s);
      assert Is(s[0], Slashed);
    }
  }

  predicate Digits(s: string, n: nat) {
    |s| == n && AllDigits(s)
  }

  /** A table's value, or nothing. */
  predicate FromTable(table: map<string, string>, s: string) {
    s == "" || s in table.Values
  }

  predicate Ranges(t: Tables, f: Fields) {
    && (f.header.warnTime == "" || Digits(f.header.warnTime, 12))
    && 0 <= f.header.msgTypeCode <= 99
    && (f.eqTime == "" || Digits(f.eqTime, 12))
    && (f.report.eqID == "" || Digits(f.report.eqID, 14))
    && 0 <= f.report.ncnType <= 9 && 0 <= f.report.warnNum <= 99
    && 0 <= f.hypocenter.lat <= 999 && 0 <= f.hypocenter.lng <= 9999
    && 0 <= f.hypocenter.depth <= 999 && 0 <= f.hypocenter.magnitude <= 99
    && FromTable(t.epicenter, f.hypocenter.centerName)
    && FromTable(t.shindo, f.hypocenter.shindo)
    && FromTable(t.warnType, f.report.warnType)
  }

  lemma SpanDigits(s: string, lo: nat, hi: nat)
    requires lo <= hi <= |s| && Span(s, lo, hi, Digit)
    ensures Digits(s[lo..hi], hi - lo)
  {}

  lemma SpanSlashed(s: string, lo: nat, hi: nat)
    requires lo <= hi <= |s| && Span(s, lo, hi, Slashed)
    ensures All(s[lo..hi], Slashed)
  {}

  lemma HeaderRanges(t: Tables, s: string, i: nat)
    requires MatchesAt(HeaderRE, s, i)
    ensures
      var h := HeaderAt(t, s, i);
      Digits(h.warnTime, 12) && 0 <= h.msgTypeCode <= 99
  {
    hide Look, ParseIntOrZero;
    SpanDigits(s, i + 9, i + 21);
    SpanDigits(s, i + 6, i + 8);
    ParseDigits(s[i + 6..i + 8]);
  }

  lemma ReportRanges(t: Tables, s: string, i: nat, previous: int)
    requires MatchesAt(NdRE, s, i) && 0 <= previous <= 99
    ensures
      var r := ReportAt(t, s, i, previous);
      && Digits(r.eqID, 14) && 0 <= r.ncnType <= 9 && 0 <= r.warnNum <= 99
      && FromTable(t.warnType, r.warnType)
  {
    hide ParseIntOrZero;
    SpanDigits(s, i + 2, i + 16);
    var d := Trailing(s, i);
    ParseDigits(d[..1]);
    SmallValue(d[..1]);
    if |d| >= 3 {
      ParseDigits(d[1..3]);
    } else if |d| == 2 {
      ParseDigits(d[1..]);
    }
  }

  lemma HypocenterRanges(t: Tables, s: string, i: nat)
    requires MatchesAt(HypocenterRE, s, i)
    ensures
      var h := HypocenterAt(t, s, i);
      && 0 <= h.lat <= 999 && 0 <= h.lng <= 9999 && 0 <= h.depth <= 999 && 0 <= h.magnitude <= 99
      && FromTable(t.epicenter, h.centerName) && FromTable(t.shindo, h.shindo)
  {
    hide ParseIntOrZero, CharAt;
    SpanSlashed(s, i + 5, i + 8);
    SpanSlashed(s, i + 10, i + 14);
    SpanSlashed(s, i + 15, i + 18);
    SpanSlashed(s, i + 19, i + 21);
    ParseBounds(s[i + 5..i + 8]);
    ParseBounds(s[i + 10..i + 14]);
    ParseBounds(s[i + 15..i + 18]);
    ParseBounds(s[i + 19..i + 21]);
  }

  lemma RangesStep(t: Tables, f: Fields, line: string)
    requires Ranges(t, f)
    ensures Ranges(t, ApplyLine(t, f, line))
  {
    hide MatchesAt, HeaderAt, ReportAt, HypocenterAt, Entries, FromTable;
    match KindOf(line) {
      case HeaderKind => HeaderRanges(t, line, Search(HeaderRE, line, 0));
      case EqTimeKind => SpanDigits(line, 0, 12);
      case NdKind => ReportRanges(t, line, Search(NdRE, line, 0), f.report.warnNum);
      case HypocenterKind => HypocenterRanges(t, line, Search(HypocenterRE, line, 0));
      case EbiKind =>
      case NoKind =>
    }
  }

  lemma {:induction false} FoldRanges(t: Tables, f: Fields, lines: seq<string>)
    requires Ranges(t, f)
    ensures Ranges(t, Fold(t, f, lines))
  {
    hide Ranges, ApplyLine;
    if lines != [] {
      FoldRanges(t, f, lines[..|lines| - 1]);
      RangesStep(t, Fold(t, f, lines[..|lines| - 1]), lines[|lines| - 1]);
    }
  }

  /** Whatever bytes arrive, times are empty or 12 digits, the eq_id is empty or 14 digits, the
      report number has at most two digits, and names come from the tables. */
  lemma DecodedRanges(t: Tables, raw: string)
    ensures Ranges(t, Decoded(t, raw))
  {
    FoldRanges(t, BLANK, SplitLines(raw));
  }
}
