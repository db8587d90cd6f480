/** Telegrams as the agency lays them out, and decoding as the inverse of printing. */
module TelegramText {
  import opened Text
  import opened Decoder
  import opened DecoderFacts

  // ---------- the five lines ----------

  datatype HeaderText = HeaderText(code: string, section: string, msgType: string, warnTime: string, command: string)

  /** `tail` is what follows the report number, such as " JD////////////// JN///". */
  datatype ReportText = ReportText(eqID: string, warnCode: string, ncn: nat, num: nat, tail: string)

  /** None stands for the slashes of a field that is not set. Latitude, longitude and magnitude
      are in tenths. */
  datatype HypocenterText = HypocenterText(
    code: string,
    lat: Option<nat>, lng: Option<nat>, depth: Option<nat>, magnitude: Option<nat>,
    shindo: string, rk: string, rt: string, rc: string)

  datatype AreaText = AreaText(area: string, s1: string, s2: string, time: string, flags: string)

  datatype Bulletin = Bulletin(
    header: HeaderText,
    eqTime: string,
    report: ReportText,
    hypocenter: Option<HypocenterText>,
    ebi: seq<seq<AreaText>>)

  function Number(n: Option<nat>, w: nat): string {
    match n
    case Some(v) => Padded(v, w)
    case None => seq(w, _ => '/')
  }

  predicate FitsWidth(n: Option<nat>, w: nat) {
    n.Some? ==> n.value < if w == 1 then 10 else if w == 2 then 100 else if w == 3 then 1000 else 10000
  }

  function Reading(n: Option<nat>): nat {
    if n.Some? then n.value else 0
  }

  predicate Of(s: string, n: nat, k: Class) {
    |s| == n && All(s, k)
  }

  predicate HeaderShaped(h: HeaderText) {
    Of(h.code, 2, Digit) && Of(h.section, 2, Digit) && Of(h.msgType, 2, Digit)
    && Of(h.warnTime, 12, Digit) && Of(h.command, 2, Digit)
  }

  predicate ReportShaped(r: ReportText) {
    && Of(r.eqID, 14, Digit)
    && r.warnCode != "" && All(r.warnCode, Upper)
    && r.ncn < 10 && r.num < 100
    && forall i :: 0 <= i < |r.tail| ==> !IsBreak(r.tail[i])
  }

  /** The header pattern matches within the report number and the tail, as in a tail that quotes a
      header line. */
  predicate HoldsHeader(r: ReportText) {
    Search(HeaderRE, Padded(r.num, 2) + r.tail, 0) >= 0
  }

  predicate HypocenterShaped(h: HypocenterText) {
    && Of(h.code, 3, Slashed)
    && FitsWidth(h.lat, 3) && FitsWidth(h.lng, 4) && FitsWidth(h.depth, 3) && FitsWidth(h.magnitude, 2)
    && Of(h.shindo, 2, OpenLevel)
    && Of(h.rk, 5, Slashed) && Of(h.rt, 5, Slashed) && Of(h.rc, 5, Slashed)
  }

  predicate AreaShaped(a: AreaText) {
    Of(a.area, 3, Digit) && Of(a.s1, 2, Level) && Of(a.s2, 2, OpenLevel) && Of(a.time, 6, Slashed)
    && Of(a.flags, 2, Bit)
  }

  predicate EbiShaped(areas: seq<AreaText>) {
    areas != [] && forall i :: 0 <= i < |areas| ==> AreaShaped(areas[i])
  }

  predicate Shaped(x: Bulletin) {
    && HeaderShaped(x.header) && Of(x.eqTime, 12, Digit)
    && ReportShaped(x.report) && !HoldsHeader(x.report)
    && (x.hypocenter.Some? ==> HypocenterShaped(x.hypocenter.value))
    && forall i :: 0 <= i < |x.ebi| ==> EbiShaped(x.ebi[i])
  }

  function HeaderParts(h: HeaderText): seq<string> {
    [h.code, " ", h.section, " ", h.msgType, " ", h.warnTime, " C", h.command]
  }

  function ReportParts(r: ReportText): seq<string> {
    ["ND", r.eqID, " ", r.warnCode, Padded(r.ncn, 1), Padded(r.num, 2), r.tail]
  }

  function HypocenterParts(h: HypocenterText): seq<string> {
    [h.code, " N", Number(h.lat, 3), " E", Number(h.lng, 4), " ", Number(h.depth, 3), " ",
     Number(h.magnitude, 2), " ", h.shindo, " RK", h.rk, " RT", h.rt, " RC", h.rc]
  }

  function AreaParts(a: AreaText): seq<string> {
    [a.area, " S", a.s1, a.s2, " ", a.time, " ", a.flags]
  }

  function Areas(areas: seq<AreaText>): string {
    if areas == [] then ""
    else if |areas| == 1 then Flatten(AreaParts(areas[0]))
    else Flatten(AreaParts(areas[0])) + " " + Areas(areas[1..])
  }

  /** Only the first EBI line carries the "EBI " tag. */
  function EbiLines(ebi: seq<seq<AreaText>>, tag: string): seq<string> {
    if ebi == [] then [] else [tag + Areas(ebi[0])] + EbiLines(ebi[1..], "")
  }

  function BulletinLines(x: Bulletin): seq<string> {
    [Flatten(HeaderParts(x.header)), x.eqTime, Flatten(ReportParts(x.report))]
    + (if x.hypocenter.Some? then [Flatten(HypocenterParts(x.hypocenter.value))] else [])
    + EbiLines(x.ebi, "EBI ")
  }

  // ---------- what they decode to ----------

  function EntryOf(t: Tables, a: AreaText): EBIEntry {
    EBIEntry(Look(t.area, a.area), Look(t.shindo, a.s1), a.s1, Look(t.shindo, a.s2), a.s2, a.time,
             Look(t.ebiY1, CharAt(a.flags, 0)), CharAt(a.flags, 0),
             Look(t.ebiY2, CharAt(a.flags, 1)), CharAt(a.flags, 1))
  }

  function PutAreas(t: Tables, areas: seq<AreaText>, ebi: map<string, EBIEntry>): map<string, EBIEntry> {
    if areas == [] then ebi
    else
      var a := areas[0];
      PutAreas(t, areas[1..], ebi[a.area := EntryOf(t, a)])
  }

  function PutLines(t: Tables, ebi: seq<seq<AreaText>>, m: map<string, EBIEntry>): map<string, EBIEntry> {
    if ebi == [] then m else PutLines(t, ebi[1..], PutAreas(t, ebi[0], m))
  }

  function HeaderValue(t: Tables, h: HeaderText): Header {
    Header(h.code, Look(t.codeType, h.code), h.section, Look(t.section, h.section),
           if AllDigits(h.msgType) then Value(h.msgType) else 0, Look(t.msgType, h.msgType),
           h.warnTime, h.command)
  }

  function ReportValue(t: Tables, r: ReportText): Report {
    Report(r.eqID, r.warnCode, Look(t.warnType, r.warnCode), r.ncn, r.num)
  }

  function HypocenterValue(t: Tables, h: HypocenterText): Hypocenter {
    Hypocenter(h.code, Look(t.epicenter, h.code),
               Reading(h.lat), Reading(h.lng), Reading(h.depth), Reading(h.magnitude),
               h.shindo, Look(t.shindo, h.shindo),
               CharAt(h.rk, 0), Look(t.rk1, CharAt(h.rk, 0)),
               CharAt(h.rk, 1), Look(t.rk2, CharAt(h.rk, 1)),
               CharAt(h.rk, 2), Look(t.rk3, CharAt(h.rk, 2)),
               CharAt(h.rt, 0), Look(t.rt1, CharAt(h.rt, 0)),
               CharAt(h.rt, 1))
  }

  /** The telegram's own values, with the table texts beside them. */
  function Meaning(t: Tables, x: Bulletin): Fields {
    Fields(HeaderValue(t, x.header), x.eqTime, ReportValue(t, x.report),
           if x.hypocenter.Some? then HypocenterValue(t, x.hypocenter.value) else NO_HYPOCENTER,
           PutLines(t, x.ebi, map[]))
  }

  // ---------- pieces of a line ----------

  lemma PieceOfClass(s: string, lo: nat, hi: nat, k: Class)
    requires lo <= hi <= |s| && All(s[lo..hi], k)
    ensures Span(s, lo, hi, k)
  {
    forall i | lo <= i < hi
      ensures Is(s[i], k)
    {
      assert s[lo..hi][i - lo] == s[i];
    }
  }

  lemma PieceChars(s: string, lo: nat, piece: string)
    requires lo + |piece| <= |s| && s[lo..lo + |piece|] == piece
    ensures forall i :: 0 <= i < |piece| ==> s[lo + i] == piece[i]
  {
    forall i | 0 <= i < |piece|
      ensures s[lo + i] == piece[i]
    {
      assert s[lo..lo + |piece|][i] == s[lo + i];
    }
  }

  /** The fixed text of a line, character by character. */
  lemma PieceStart(s: string, lo: nat, piece: string)
    requires 1 <= |piece| && lo + |piece| <= |s| && s[lo..lo + |piece|] == piece
    ensures s[lo] == piece[0]
    ensures |piece| >= 2 ==> s[lo + 1] == piece[1]
    ensures |piece| >= 3 ==> s[lo + 2] == piece[2]
  {
    var p := s[lo..lo + |piece|];
    assert p[0] == s[lo];
    assert |piece| >= 2 ==> p[1] == s[lo + 1];
    assert |piece| >= 3 ==> p[2] == s[lo + 2];
  }

  lemma SearchFindsStart(p: Pattern, s: string)
    requires s != "" && MatchesAt(p, s, 0)
    ensures Search(p, s, 0) == 0
  {
    hide MatchesAt;
  }

  lemma SearchFails(p: Pattern, s: string)
    requires forall i: nat :: !MatchesAt(p, s, i)
    ensures Search(p, s, 0) < 0
  {
    hide MatchesAt;
  }

  lemma NoPatternWithout(s: string)
    ensures 'C' !in s ==> Search(HeaderRE, s, 0) < 0
    ensures 'N' !in s ==> Search(NdRE, s, 0) < 0 && Search(HypocenterRE, s, 0) < 0
    ensures 'D' !in s ==> Search(NdRE, s, 0) < 0
  {}

  // ---------- header and time ----------

  lemma HeaderLayout(h: HeaderText)
    requires HeaderShaped(h)
    ensures
      var s := Flatten(HeaderParts(h));
      && |s| == 25 && MatchesAt(HeaderRE, s, 0)
      && s[0..2] == h.code && s[3..5] == h.section && s[6..8] == h.msgType
      && s[9..21] == h.warnTime && s[23..25] == h.command
  {
    hide Offset, Flatten;
    var ps := HeaderParts(h);
    var s := Flatten(ps);
    AllOffsets(ps);
    assert |ps[0]| == |ps[2]| == |ps[4]| == |ps[7]| == |ps[8]| == 2 && |ps[6]| == 12;
    assert |ps[1]| == |ps[3]| == |ps[5]| == 1;
    assert |s| == 25;
    hide HeaderParts;
    AllParts(ps);
    PieceOfClass(s, 0, 2, Digit);
    PieceStart(s, 2, " ");
    PieceOfClass(s, 3, 5, Digit);
    PieceStart(s, 5, " ");
    PieceOfClass(s, 6, 8, Digit);
    PieceStart(s, 8, " ");
    PieceOfClass(s, 9, 21, Digit);
    PieceStart(s, 21, " C");
    PieceOfClass(s, 23, 25, Digit);
  }

  lemma HeaderDecodes(t: Tables, f: Fields, h: HeaderText)
    requires HeaderShaped(h)
    ensures
      var s := Flatten(HeaderParts(h));
      KindOf(s) == HeaderKind && ApplyLine(t, f, s) == f.(header := HeaderValue(t, h))
  {
    ParseDigits(h.msgType);
    hide MatchesAt, Flatten, ParseIntOrZero, Value;
    HeaderLayout(h);
    SearchFindsStart(HeaderRE, Flatten(HeaderParts(h)));
  }

  lemma EqTimeDecodes(t: Tables, f: Fields, s: string)
    requires Of(s, 12, Digit)
    ensures KindOf(s) == EqTimeKind && ApplyLine(t, f, s) == f.(eqTime := s)
  {
    NoPatternWithout(s);
    assert s[..12] == s;
  }

  // ---------- the ND line ----------

  lemma ReportLengths(r: ReportText)
    requires ReportShaped(r)
    ensures
      var ps := ReportParts(r);
      && |ps| == 7 && ps[0] == "ND" && ps[1] == r.eqID && ps[2] == " " && ps[3] == r.warnCode
      && ps[4] == Padded(r.ncn, 1) && ps[5] == Padded(r.num, 2) && ps[6] == r.tail
      && |ps[1]| == 14 && |ps[4]| == 1 && |ps[5]| == 2
  {
    PaddedPrints(r.ncn, 1);
    PaddedPrints(r.num, 2);
  }

  lemma ReportLayout(r: ReportText)
    requires ReportShaped(r)
    ensures
      var s, e := Flatten(ReportParts(r)), 17 + |r.warnCode|;
      && |s| == e + 3 + |r.tail|
      && s[0] == 'N' && s[1] == 'D' && s[16] == ' '
      && s[2..16] == r.eqID && s[17..e] == r.warnCode
      && s[e..e + 1] == Padded(r.ncn, 1) && s[e + 1..e + 3] == Padded(r.num, 2) && s[e + 3..] == r.tail
  {
    var ps := ReportParts(r);
    var s, e := Flatten(ps), 17 + |r.warnCode|;
    hide Offset, Flatten, Padded, ReportParts, ReportShaped;
    ReportLengths(r);
    AllOffsets(ps);
    AllParts(ps);
    PieceStart(s, 0, "ND");
    PieceStart(s, 16, " ");
    assert s[e + 3..] == s[e + 3..e + 3 + |r.tail|];
  }

  lemma ReportMatches(r: ReportText)
    requires ReportShaped(r)
    ensures
      var s, e := Flatten(ReportParts(r)), 17 + |r.warnCode|;
      && e + 3 <= |s|
      && Span(s, 2, 16, Digit) && Span(s, 17, e, Upper) && Span(s, e, e + 3, Digit)
      && RunEnd(s, 17, Upper) == e && RunEnd(s, e, Digit) >= e + 3 && MatchesAt(NdRE, s, 0)
  {
    ReportLayout(r);
    hide Flatten, ReportParts;
    var s, e := Flatten(ReportParts(r)), 17 + |r.warnCode|;
    PaddedPrints(r.ncn, 1);
    PaddedPrints(r.num, 2);
    hide Padded;
    PieceOfClass(s, 2, 16, Digit);
    PieceOfClass(s, 17, e, Upper);
    PieceOfClass(s, e, e + 1, Digit);
    PieceOfClass(s, e + 1, e + 3, Digit);
    assert s[17] == s[17..e][0];
    assert IsDigit(s[e]);
    RunEndIs(s, 17, e, Upper);
    RunEndAtLeast(s, e, e + 3, Digit);
  }

  lemma SpanMoves(s: string, k: nat, lo: nat, hi: nat, c: Class)
    requires k <= |s| && lo <= hi && k + hi <= |s|
    ensures Span(s[k..], lo, hi, c) <==> Span(s, k + lo, k + hi, c)
  {
    var u := s[k..];
    assert forall i :: k + lo <= i < k + hi ==> s[i] == u[i - k];
    assert forall i :: lo <= i < hi ==> u[i] == s[i + k];
  }

  lemma HeaderMatchMoves(s: string, k: nat, i: nat)
    requires k <= |s|
    ensures MatchesAt(HeaderRE, s[k..], i) <==> MatchesAt(HeaderRE, s, k + i)
  {
    if k + i + 25 <= |s| {
      SpanMoves(s, k, i, i + 2, Digit);
      SpanMoves(s, k, i + 3, i + 5, Digit);
      SpanMoves(s, k, i + 6, i + 8, Digit);
      SpanMoves(s, k, i + 9, i + 21, Digit);
      SpanMoves(s, k, i + 23, i + 25, Digit);
      hide Span;
    }
  }

  /** A header match begins with two digits and a space, and digits follow. */
  lemma HeaderStart(s: string, i: nat)
    requires MatchesAt(HeaderRE, s, i)
    ensures i + 25 <= |s| && IsDigit(s[i]) && IsDigit(s[i + 1]) && s[i + 2] == ' ' && IsDigit(s[i + 3])
  {
    assert Is(s[i], Digit) && Is(s[i + 1], Digit) && Is(s[i + 3], Digit);
  }

  lemma HeaderBeginsLate(r: ReportText, i: nat)
    requires ReportShaped(r) && MatchesAt(HeaderRE, Flatten(ReportParts(r)), i)
    ensures i > 17 + |r.warnCode|
  {
    ReportLayout(r);
    ReportMatches(r);
    hide Flatten, ReportParts, Padded, ReportShaped;
    var s, e := Flatten(ReportParts(r)), 17 + |r.warnCode|;
    HeaderStart(s, i);
    hide MatchesAt;
    assert forall j :: 2 <= j < 16 ==> Is(s[j], Digit);
    assert forall j :: 17 <= j < e ==> Is(s[j], Upper);
    assert forall j :: e <= j < e + 3 ==> Is(s[j], Digit);
  }

  /** A header can begin in an ND line no earlier than in its report number. */
  lemma HeaderInReport(r: ReportText)
    requires ReportShaped(r)
    ensures Search(HeaderRE, Flatten(ReportParts(r)), 0) >= 0 <==> HoldsHeader(r)
  {
    ReportLayout(r);
    var s, k := Flatten(ReportParts(r)), 18 + |r.warnCode|;
    assert s[k..] == s[k..k + 2] + s[k + 2..];
    assert s[k..] == Padded(r.num, 2) + r.tail;
    hide Flatten, ReportParts, Padded, MatchesAt;
    var i := Search(HeaderRE, s, 0);
    if i >= 0 {
      HeaderBeginsLate(r, i);
      HeaderMatchMoves(s, k, i - k);
    }
    var j := Search(HeaderRE, s[k..], 0);
    if j >= 0 {
      HeaderMatchMoves(s, k, j);
    }
  }

  lemma ReportKind(r: ReportText)
    requires ReportShaped(r)
    ensures
      var s := Flatten(ReportParts(r));
      && KindOf(s) == (if HoldsHeader(r) then HeaderKind else NdKind)
      && s != "" && MatchesAt(NdRE, s, 0) && Search(NdRE, s, 0) == 0
  {
    ReportLayout(r);
    ReportMatches(r);
    HeaderInReport(r);
    hide HoldsHeader, Flatten, ReportParts, MatchesAt, RunEnd;
    var s := Flatten(ReportParts(r));
    SearchFindsStart(NdRE, s);
    assert !IsEqTime(s) by {
      assert !Is(s[0], Digit);
    }
  }

  lemma ReportDigits(r: ReportText)
    requires ReportShaped(r) && MatchesAt(NdRE, Flatten(ReportParts(r)), 0)
    ensures
      var s := Flatten(ReportParts(r));
      var d := Trailing(s, 0);
      && |d| >= 3 && d[..1] == Padded(r.ncn, 1) && d[1..3] == Padded(r.num, 2)
      && RunEnd(s, 17, Upper) == 17 + |r.warnCode|
  {
    var s, e := Flatten(ReportParts(r)), 17 + |r.warnCode|;
    ReportLayout(r);
    ReportMatches(r);
    hide Flatten, ReportParts, ReportShaped, Padded, MatchesAt, Span, RunEnd;
    var b := RunEnd(s, e, Digit);
    assert Trailing(s, 0) == s[e..b];
    hide Trailing, AllDigits;
    FirstThree(s, e, b);
  }

  lemma FirstThree(s: string, lo: nat, hi: nat)
    requires lo + 3 <= hi <= |s|
    ensures s[lo..hi][..1] == s[lo..lo + 1] && s[lo..hi][1..3] == s[lo + 1..lo + 3]
  {
    var u := s[lo..hi];
    assert u[1..3] == [u[1], u[2]] && s[lo + 1..lo + 3] == [s[lo + 1], s[lo + 2]];
  }

  lemma ReportNumbers(r: ReportText)
    requires ReportShaped(r)
    ensures ParseIntOrZero(Padded(r.ncn, 1)) == r.ncn && ParseIntOrZero(Padded(r.num, 2)) == r.num
  {
    PaddedPrints(r.ncn, 1);
    PaddedPrints(r.num, 2);
    ParseDigits(Padded(r.ncn, 1));
    ParseDigits(Padded(r.num, 2));
  }

  lemma ReportReads(t: Tables, r: ReportText, previous: int)
    requires ReportShaped(r) && MatchesAt(NdRE, Flatten(ReportParts(r)), 0)
    ensures ReportAt(t, Flatten(ReportParts(r)), 0, previous) == ReportValue(t, r)
  {
    ReportLayout(r);
    ReportDigits(r);
    ReportNumbers(r);
    hide Flatten, ReportParts, ReportShaped, Padded, MatchesAt, ParseIntOrZero, Look, Span, RunEnd, Trailing;
  }

  /** A printed ND line is taken for one exactly when no header can be read out of its end, and
      then gives back its values. */
  lemma ReportDecodes(t: Tables, f: Fields, r: ReportText)
    requires ReportShaped(r)
    ensures
      var s := Flatten(ReportParts(r));
      && KindOf(s) == (if HoldsHeader(r) then HeaderKind else NdKind)
      && (!HoldsHeader(r) ==> ApplyLine(t, f, s) == f.(report := ReportValue(t, r)))
  {
    ReportKind(r);
    ReportReads(t, r, f.report.warnNum);
    hide HoldsHeader, Flatten, ReportParts, MatchesAt, KindOf, ReportAt, ReportValue;
  }

  // ---------- the hypocenter line ----------

  lemma NumberShape(n: Option<nat>, w: nat)
    requires 1 <= w <= 4 && FitsWidth(n, w)
    ensures Of(Number(n, w), w, Slashed)
    ensures ParseIntOrZero(Number(n, w)) == Reading(n)
  {
    if n.Some? {
      PaddedPrints(n.value, w);
      ParseDigits(Padded(n.value, w));
    } else {
      var s := Number(n, w);
      TrimmedIsFixed(s);
      assert !IsDigit(s[0]);
    }
  }

  lemma NumberLength(n: Option<nat>, w: nat)
    requires 1 <= w <= 4 && FitsWidth(n, w)
    ensures |Number(n, w)| == w
  {
    if n.Some? {
      PaddedPrints(n.value, w);
    }
  }

  lemma HypocenterLengths(h: HypocenterText)
    requires HypocenterShaped(h)
    ensures
      var ps := HypocenterParts(h);
      && |ps| == 17 && |ps[0]| == 3 && |ps[1]| == 2 && |ps[2]| == 3 && |ps[3]| == 2 && |ps[4]| == 4
      && |ps[5]| == 1 && |ps[6]| == 3 && |ps[7]| == 1 && |ps[8]| == 2 && |ps[9]| == 1 && |ps[10]| == 2
      && |ps[11]| == 3 && |ps[12]| == 5 && |ps[13]| == 3 && |ps[14]| == 5 && |ps[15]| == 3 && |ps[16]| == 5
  {
    hide Number, All, FitsWidth;
    NumberLength(h.lat, 3);
    NumberLength(h.lng, 4);
    NumberLength(h.depth, 3);
    NumberLength(h.magnitude, 2);
  }

  lemma HypocenterOffsets(h: HypocenterText)
    requires HypocenterShaped(h)
    ensures
      var ps := HypocenterParts(h);
      && |ps| == 17
      && Offset(ps, 0) == 0 && Offset(ps, 1) == 3 && Offset(ps, 2) == 5 && Offset(ps, 3) == 8
      && Offset(ps, 4) == 10 && Offset(ps, 5) == 14 && Offset(ps, 6) == 15 && Offset(ps, 7) == 18
      && Offset(ps, 8) == 19 && Offset(ps, 9) == 21 && Offset(ps, 10) == 22 && Offset(ps, 11) == 24
      && Offset(ps, 12) == 27 && Offset(ps, 13) == 32 && Offset(ps, 14) == 35 && Offset(ps, 15) == 40
      && Offset(ps, 16) == 43 && Offset(ps, 17) == 48
  {
    hide Offset, HypocenterParts, HypocenterShaped;
    HypocenterLengths(h);
    var ps := HypocenterParts(h);
    AllOffsets(ps);
  }

  /** Every character of the line, by position. */
  lemma HypocenterLayout(h: HypocenterText)
    requires HypocenterShaped(h)
    ensures
      var s := Flatten(HypocenterParts(h));
      && |s| == 48
      && s[0..3] == h.code && s[5..8] == Number(h.lat, 3) && s[10..14] == Number(h.lng, 4)
      && s[15..18] == Number(h.depth, 3) && s[19..21] == Number(h.magnitude, 2)
      && s[22..24] == h.shindo && s[27..32] == h.rk && s[35..40] == h.rt && s[43..48] == h.rc
      && s[3..5] == " N" && s[8..10] == " E" && s[14..15] == " " && s[18..19] == " " && s[21..22] == " "
      && s[24..27] == " RK" && s[32..35] == " RT" && s[40..43] == " RC"
  {
    HypocenterOffsets(h);
    var ps := HypocenterParts(h);
    LengthOf(ps);
    hide Flatten, Offset, Number, All;
    AllParts(ps);
  }

  lemma HypocenterMatches(h: HypocenterText)
    requires HypocenterShaped(h)
    ensures |Flatten(HypocenterParts(h))| == 48 && MatchesAt(HypocenterRE, Flatten(HypocenterParts(h)), 0)
  {
    HypocenterLayout(h);
    NumberShape(h.lat, 3);
    NumberShape(h.lng, 4);
    NumberShape(h.depth, 3);
    NumberShape(h.magnitude, 2);
    hide Flatten, HypocenterParts, Number, All, Span, ParseIntOrZero;
    var s := Flatten(HypocenterParts(h));
    PieceOfClass(s, 0, 3, Slashed);
    PieceStart(s, 3, " N");
    PieceOfClass(s, 5, 8, Slashed);
    PieceStart(s, 8, " E");
    PieceOfClass(s, 10, 14, Slashed);
    PieceStart(s, 14, " ");
    PieceOfClass(s, 15, 18, Slashed);
    PieceStart(s, 18, " ");
    PieceOfClass(s, 19, 21, Slashed);
    PieceStart(s, 21, " ");
    PieceOfClass(s, 22, 24, OpenLevel);
    PieceStart(s, 24, " RK");
    PieceOfClass(s, 27, 32, Slashed);
    PieceStart(s, 32, " RT");
    PieceOfClass(s, 35, 40, Slashed);
    PieceStart(s, 40, " RC");
    PieceOfClass(s, 43, 48, Slashed);
  }

  /** The only 'C' in the line follows an 'R', and there is no 'D'. */
  lemma HypocenterLetters(s: string)
    requires |s| == 48 && MatchesAt(HypocenterRE, s, 0)
    ensures forall j :: 0 <= j < 48 ==> s[j] != 'D' && !IsBreak(s[j]) && (s[j] == 'C' ==> j == 42)
  {
    forall j | 0 <= j < 48
      ensures s[j] != 'D' && !IsBreak(s[j]) && (s[j] == 'C' ==> j == 42)
    {
      if j < 3 { assert Is(s[j], Slashed); }
      else if 5 <= j < 8 { assert Is(s[j], Slashed); }
      else if 10 <= j < 14 { assert Is(s[j], Slashed); }
      else if 15 <= j < 18 { assert Is(s[j], Slashed); }
      else if 19 <= j < 21 { assert Is(s[j], Slashed); }
      else if 22 <= j < 24 { assert Is(s[j], OpenLevel); }
      else if 27 <= j < 32 { assert Is(s[j], Slashed); }
      else if 35 <= j < 40 { assert Is(s[j], Slashed); }
      else if 43 <= j { assert Is(s[j], Slashed); }
    }
  }

  lemma HypocenterIsNothingElse(s: string)
    requires |s| == 48 && MatchesAt(HypocenterRE, s, 0)
    ensures KindOf(s) == HypocenterKind
  {
    HypocenterLetters(s);
    assert s[41] == 'R' && s[3] == ' ';
    forall i: nat
      ensures !MatchesAt(HeaderRE, s, i)
    {
      assert i + 25 <= 48 ==> (s[i + 22] == 'C' ==> s[i + 21] == 'R');
    }
    SearchFails(HeaderRE, s);
    assert 'D' !in s;
    NoPatternWithout(s);
    assert !IsEqTime(s) by {
      assert !Is(s[3], Digit);
    }
    SearchFindsStart(HypocenterRE, s);
  }

  lemma HypocenterReads(t: Tables, h: HypocenterText)
    requires HypocenterShaped(h)
    ensures HypocenterFrom(t, h.code, Number(h.lat, 3), Number(h.lng, 4), Number(h.depth, 3),
                           Number(h.magnitude, 2), h.shindo, h.rk, h.rt)
            == HypocenterValue(t, h)
  {
    NumberShape(h.lat, 3);
    NumberShape(h.lng, 4);
    NumberShape(h.depth, 3);
    NumberShape(h.magnitude, 2);
    hide Number, All, ParseIntOrZero, Look, CharAt;
  }

  lemma HypocenterHere(t: Tables, h: HypocenterText)
    requires HypocenterShaped(h) && MatchesAt(HypocenterRE, Flatten(HypocenterParts(h)), 0)
    ensures HypocenterAt(t, Flatten(HypocenterParts(h)), 0) == HypocenterValue(t, h)
  {
    HypocenterLayout(h);
    HypocenterReads(t, h);
    hide Flatten, HypocenterParts, Number, All, MatchesAt, HypocenterFrom, HypocenterValue, HypocenterShaped;
  }

  lemma HypocenterDecodes(t: Tables, f: Fields, h: HypocenterText)
    requires HypocenterShaped(h)
    ensures
      var s := Flatten(HypocenterParts(h));
      KindOf(s) == HypocenterKind && ApplyLine(t, f, s) == f.(hypocenter := HypocenterValue(t, h))
  {
    hide Flatten, HypocenterParts, MatchesAt, KindOf, HypocenterAt, HypocenterValue, HypocenterShaped;
    HypocenterMatches(h);
    HypocenterHere(t, h);
    var s := Flatten(HypocenterParts(h));
    HypocenterIsNothingElse(s);
    SearchFindsStart(HypocenterRE, s);
  }
}
