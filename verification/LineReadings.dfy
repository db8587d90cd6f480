/** What every line of a telegram does to the fields decoded so far, field by field and character by
    character (internal/decoder/decoder.go). */
module LineReadings {
  import opened Text
  import opened Decoder
  import opened DecoderFacts
  import opened Regexps

  // ---------- numbers ----------

  lemma OneDigit(s: string, i: nat)
    requires Within(s, i, i + 1, DIGITS)
    ensures ParseIntOrZero(s[i..i + 1]) == s[i] as int - 48
  {
    CharClasses(s[i]);
    var d := s[i..i + 1];
    ParseDigits(d);
    assert d[..0] == "" && d[0] == s[i];
  }

  lemma ValueOfTwo(d: string)
    requires |d| == 2 && AllDigits(d)
    ensures Value(d) == 10 * (d[0] as int - 48) + (d[1] as int - 48)
  {
    var f := d[..1];
    assert f[..0] == "" && Value(f) == f[0] as int - 48;
  }

  lemma TwoDigits(s: string, i: nat)
    requires Within(s, i, i + 2, DIGITS)
    ensures ParseIntOrZero(s[i..i + 2]) == 10 * (s[i] as int - 48) + (s[i + 1] as int - 48)
  {
    CharClasses(s[i]);
    CharClasses(s[i + 1]);
    hide Value, ParseIntOrZero, DIGITS;
    var d := s[i..i + 2];
    assert d[0] == s[i] && d[1] == s[i + 1];
    ParseDigits(d);
    ValueOfTwo(d);
  }

  /** A field of digits and slashes is its number, or 0 if it holds a slash. */
  lemma NumberOr0(s: string, i: nat, n: nat)
    requires 1 <= n <= 4 && Within(s, i, i + n, SLASHED)
    ensures
      var d := s[i..i + n];
      ParseIntOrZero(d) == if AllDigits(d) then Value(d) else 0
  {
    var d := s[i..i + n];
    forall k | 0 <= k < n
      ensures d[k] == s[i + k] && Is(d[k], Slashed)
    {
      CharClasses(s[i + k]);
    }
    if AllDigits(d) {
      ParseDigits(d);
    } else {
      TrimmedIsFixed(d);
    }
  }

  // ---------- which pattern is applied ----------

  ghost function Expression(p: Pattern): seq<Piece> {
    match p
    case HeaderRE => HEADER_RE
    case NdRE => ND_RE
    case HypocenterRE => HYPOCENTER_RE
    case EbiRE => EBI_RE
  }

  /** No match begins from a position on. */
  ghost predicate Without(re: seq<Piece>, s: string, from: nat) {
    forall i: nat, e: nat :: from <= i ==> !Matches(re, 0, s, i, e)
  }

  /** This is the first match from a position on. */
  ghost predicate Next(re: seq<Piece>, s: string, from: nat, i: nat, e: nat) {
    from <= i && Matches(re, 0, s, i, e) && forall j: nat, b: nat :: from <= j < i ==> !Matches(re, 0, s, j, b)
  }

  lemma NdEnd(s: string, i: nat) returns (e: nat)
    requires MatchesAt(NdRE, s, i)
    ensures Matches(ND_RE, 0, s, i, e)
  {
    var a := RunEnd(s, i + 17, Upper);
    e := a + 1;
    hide Matches;
    NdRegexp(s, i, e);
    assert Span(s, a, e, Digit);
    assert a > i + 17;
  }

  lemma NdBegins(s: string, i: nat, e: nat)
    requires Matches(ND_RE, 0, s, i, e)
    ensures i < |s| && MatchesAt(NdRE, s, i)
  {
    hide Matches;
    NdRegexp(s, i, e);
    var a: nat :| i + 17 < a < e && Span(s, i + 17, a, Upper) && Span(s, a, e, Digit);
    NdGroupsAreForced(s, i, a, e);
    assert Is(s[a], Digit) && Is(s[i + 17], Upper);
  }

  lemma MatchBegins(p: Pattern, s: string, i: nat, e: nat)
    requires Matches(Expression(p), 0, s, i, e)
    ensures i < |s| && MatchesAt(p, s, i)
  {
    HeaderRegexp(s, i, e);
    HypocenterRegexp(s, i, e);
    EbiRegexp(s, i, e);
    if p == NdRE {
      NdBegins(s, i, e);
    }
    hide Matches, Span;
  }

  lemma MatchEnds(p: Pattern, s: string, i: nat) returns (e: nat)
    requires MatchesAt(p, s, i)
    ensures Matches(Expression(p), 0, s, i, e)
  {
    e := if p == HypocenterRE then i + 48 else if p == HeaderRE then i + 25 else i + 19;
    HeaderRegexp(s, i, e);
    HypocenterRegexp(s, i, e);
    EbiRegexp(s, i, e);
    if p == NdRE {
      e := NdEnd(s, i);
    }
  }

  lemma SearchFinds(p: Pattern, s: string, from: nat, i: nat, e: nat)
    requires Next(Expression(p), s, from, i, e)
    ensures Search(p, s, from) == i
  {
    hide MatchesAt, Matches;
    MatchBegins(p, s, i, e);
    var k := Search(p, s, from);
    if 0 <= k < i {
      var b := MatchEnds(p, s, k);
      assert false;
    }
  }

  lemma SearchFindsNone(p: Pattern, s: string, from: nat)
    ensures Search(p, s, from) < 0 <==> Without(Expression(p), s, from)
  {
    hide MatchesAt, Matches;
    var k := Search(p, s, from);
    if k >= 0 {
      var b := MatchEnds(p, s, k);
    } else {
      forall i: nat, e: nat | from <= i && Matches(Expression(p), 0, s, i, e)
        ensures false
      {
        MatchBegins(p, s, i, e);
      }
    }
  }

  // ---------- the lines ----------

  /** The first header in a line decides, whatever else the line holds. */
  lemma HeaderLine(t: Tables, f: Fields, s: string, i: nat)
    requires Next(HEADER_RE, s, 0, i, i + 25)
    ensures i + 25 <= |s|
    ensures
      var code, section, kind := s[i..i + 2], s[i + 3..i + 5], s[i + 6..i + 8];
      ApplyLine(t, f, s) == f.(header := Header(
        code, if code in t.codeType then t.codeType[code] else "",
        section, if section in t.section then t.section[section] else "",
        10 * (s[i + 6] as int - 48) + (s[i + 7] as int - 48), if kind in t.msgType then t.msgType[kind] else "",
        s[i + 9..i + 21], s[i + 23..i + 25]))
  {
    SearchFinds(HeaderRE, s, 0, i, i + 25);
    MatchBegins(HeaderRE, s, i, i + 25);
    Classes(s);
    assert Within(s, i + 6, i + 8, DIGITS);
    TwoDigits(s, i + 6);
    hide Matches, Span, Within, ParseIntOrZero;
  }

  /** A line without a header that begins with twelve digits. */
  lemma EqTimeLine(t: Tables, f: Fields, s: string)
    requires Without(HEADER_RE, s, 0) && Matches(TIME_RE, 0, s, 0, 12)
    ensures 12 <= |s| && ApplyLine(t, f, s) == f.(eqTime := s[..12])
  {
    SearchFindsNone(HeaderRE, s, 0);
    TimeRegexp(s, 12);
    hide Matches, MatchesAt;
  }

  lemma NdDigits(s: string, i: nat, a: nat, b: nat)
    requires MatchesAt(NdRE, s, i) && i + 17 < a < b <= |s|
    requires Span(s, i + 17, a, Upper) && Span(s, a, b, Digit) && (b < |s| ==> s[b] !in DIGITS)
    ensures RunEnd(s, i + 17, Upper) == a && Trailing(s, i) == s[a..b]
  {
    NdGroupsAreForced(s, i, a, b);
    if b < |s| {
      CharClasses(s[b]);
    }
    RunEndIs(s, a, b, Digit);
  }

  lemma TrailingDigits(s: string, a: nat, b: nat)
    requires a < b && Within(s, a, b, DIGITS)
    ensures
      var d := s[a..b];
      && ParseIntOrZero(d[..1]) == s[a] as int - 48
      && (|d| >= 3 ==> ParseIntOrZero(d[1..3]) == 10 * (s[a + 1] as int - 48) + (s[a + 2] as int - 48))
      && (|d| == 2 ==> ParseIntOrZero(d[1..]) == s[a + 1] as int - 48)
  {
    hide ParseIntOrZero;
    var d := s[a..b];
    OneDigit(s, a);
    assert d[..1] == s[a..a + 1];
    if |d| >= 3 {
      TwoDigits(s, a + 1);
      assert d[1..3] == s[a + 1..a + 3];
    } else if |d| == 2 {
      OneDigit(s, a + 1);
      assert d[1..] == s[a + 1..a + 2];
    }
  }

  lemma NdReads(t: Tables, s: string, i: nat, a: nat, b: nat, previous: int)
    requires MatchesAt(NdRE, s, i) && i + 17 < a < b <= |s|
    requires RunEnd(s, i + 17, Upper) == a && Trailing(s, i) == s[a..b] && Within(s, a, b, DIGITS)
    ensures
      var code := s[i + 17..a];
      ReportAt(t, s, i, previous) == Report(
        s[i + 2..i + 16],
        code, if code in t.warnType then t.warnType[code] else "",
        s[a] as int - 48,
        if b - a >= 3 then 10 * (s[a + 1] as int - 48) + (s[a + 2] as int - 48)
        else if b - a == 2 then s[a + 1] as int - 48
        else previous)
  {
    TrailingDigits(s, a, b);
    hide ParseIntOrZero, MatchesAt, Trailing, RunEnd, Within;
  }

  lemma NdIsTaken(s: string, i: nat, b: nat)
    requires Without(HEADER_RE, s, 0) && !Matches(TIME_RE, 0, s, 0, 12) && Next(ND_RE, s, 0, i, b)
    ensures KindOf(s) == NdKind && Search(NdRE, s, 0) == i && MatchesAt(NdRE, s, i)
    ensures i + 17 < b <= |s|
  {
    SearchFindsNone(HeaderRE, s, 0);
    TimeRegexp(s, 12);
    SearchFinds(NdRE, s, 0, i, b);
    MatchBegins(NdRE, s, i, b);
    hide Matches, MatchesAt;
    NdRegexp(s, i, b);
  }

  /** The first ND of a line: the capitals run from i + 17 to a, the digits from there to b. The first
      digit is the revision, the next two are the report number, or the one that is left; if none is
      left the number read before stays. */
  lemma NdLine(t: Tables, f: Fields, s: string, i: nat, a: nat, b: nat)
    requires Without(HEADER_RE, s, 0) && !Matches(TIME_RE, 0, s, 0, 12) && Next(ND_RE, s, 0, i, b)
    requires i + 17 < a < b && Within(s, i + 17, a, CAPITALS)
    requires Within(s, a, b, DIGITS) && (b < |s| ==> s[b] !in DIGITS)
    ensures
      var code := s[i + 17..a];
      ApplyLine(t, f, s) == f.(report := Report(
        s[i + 2..i + 16],
        code, if code in t.warnType then t.warnType[code] else "",
        s[a] as int - 48,
        if b - a >= 3 then 10 * (s[a + 1] as int - 48) + (s[a + 2] as int - 48)
        else if b - a == 2 then s[a + 1] as int - 48
        else f.report.warnNum))
  {
    NdIsTaken(s, i, b);
    Classes(s);
    NdDigits(s, i, a, b);
    hide Matches, MatchesAt, KindOf, ReportAt, Within, Span, Trailing, RunEnd;
    NdReads(t, s, i, a, b, f.report.warnNum);
  }

  lemma OneOf(s: string, lo: nat, hi: nat, k: nat)
    requires lo + k < hi <= |s|
    ensures CharAt(s[lo..hi], k) == s[lo + k..lo + k + 1]
  {
    assert s[lo..hi][k] == s[lo + k];
  }

  lemma HypocenterIsTaken(s: string, i: nat)
    requires Without(HEADER_RE, s, 0) && !Matches(TIME_RE, 0, s, 0, 12) && Without(ND_RE, s, 0)
    requires Next(HYPOCENTER_RE, s, 0, i, i + 48)
    ensures KindOf(s) == HypocenterKind && Search(HypocenterRE, s, 0) == i && MatchesAt(HypocenterRE, s, i)
  {
    SearchFindsNone(HeaderRE, s, 0);
    TimeRegexp(s, 12);
    SearchFindsNone(NdRE, s, 0);
    SearchFinds(HypocenterRE, s, 0, i, i + 48);
    MatchBegins(HypocenterRE, s, i, i + 48);
    hide Matches, MatchesAt;
  }

  lemma HypocenterNumbers(s: string, i: nat)
    requires MatchesAt(HypocenterRE, s, i)
    ensures
      var lat, lng, depth, magnitude := s[i + 5..i + 8], s[i + 10..i + 14], s[i + 15..i + 18], s[i + 19..i + 21];
      && ParseIntOrZero(lat) == (if AllDigits(lat) then Value(lat) else 0)
      && ParseIntOrZero(lng) == (if AllDigits(lng) then Value(lng) else 0)
      && ParseIntOrZero(depth) == (if AllDigits(depth) then Value(depth) else 0)
      && ParseIntOrZero(magnitude) == (if AllDigits(magnitude) then Value(magnitude) else 0)
  {
    Classes(s);
    assert Within(s, i + 5, i + 8, SLASHED) && Within(s, i + 10, i + 14, SLASHED);
    assert Within(s, i + 15, i + 18, SLASHED) && Within(s, i + 19, i + 21, SLASHED);
    hide ParseIntOrZero, MatchesAt, Within, Span, Value, AllDigits;
    NumberOr0(s, i + 5, 3);
    NumberOr0(s, i + 10, 4);
    NumberOr0(s, i + 15, 3);
    NumberOr0(s, i + 19, 2);
  }

  lemma HypocenterCodes(s: string, i: nat)
    requires MatchesAt(HypocenterRE, s, i)
    ensures
      var rk, rt := s[i + 27..i + 32], s[i + 35..i + 40];
      && CharAt(rk, 0) == s[i + 27..i + 28] && CharAt(rk, 1) == s[i + 28..i + 29] && CharAt(rk, 2) == s[i + 29..i + 30]
      && CharAt(rt, 0) == s[i + 35..i + 36] && CharAt(rt, 1) == s[i + 36..i + 37]
  {
    hide CharAt;
    OneOf(s, i + 27, i + 32, 0);
    OneOf(s, i + 27, i + 32, 1);
    OneOf(s, i + 27, i + 32, 2);
    OneOf(s, i + 35, i + 40, 0);
    OneOf(s, i + 35, i + 40, 1);
  }

  lemma HypocenterApplies(t: Tables, f: Fields, s: string, i: nat)
    requires KindOf(s) == HypocenterKind && Search(HypocenterRE, s, 0) == i && MatchesAt(HypocenterRE, s, i)
    ensures ApplyLine(t, f, s) == f.(hypocenter := HypocenterAt(t, s, i))
  {
    hide KindOf, MatchesAt, HypocenterAt;
  }

  lemma HypocenterReads(t: Tables, s: string, i: nat)
    requires MatchesAt(HypocenterRE, s, i)
    ensures i + 48 <= |s|
    ensures
      var code, shindo := s[i..i + 3], s[i + 22..i + 24];
      var lat, lng, depth, magnitude := s[i + 5..i + 8], s[i + 10..i + 14], s[i + 15..i + 18], s[i + 19..i + 21];
      var center, deep, strong := s[i + 27..i + 28], s[i + 28..i + 29], s[i + 29..i + 30];
      var sea, warned := s[i + 35..i + 36], s[i + 36..i + 37];
      HypocenterAt(t, s, i) == Hypocenter(
        code, if code in t.epicenter then t.epicenter[code] else "",
        if AllDigits(lat) then Value(lat) else 0,
        if AllDigits(lng) then Value(lng) else 0,
        if AllDigits(depth) then Value(depth) else 0,
        if AllDigits(magnitude) then Value(magnitude) else 0,
        shindo, if shindo in t.shindo then t.shindo[shindo] else "",
        center, if center in t.rk1 then t.rk1[center] else "",
        deep, if deep in t.rk2 then t.rk2[deep] else "",
        strong, if strong in t.rk3 then t.rk3[strong] else "",
        sea, if sea in t.rt1 then t.rt1[sea] else "",
        warned)
  {
    HypocenterNumbers(s, i);
    HypocenterCodes(s, i);
    hide CharAt, ParseIntOrZero, Value, AllDigits;
  }

  /** The first hypocenter of a line; a number holding a slash reads as 0. */
  lemma HypocenterLine(t: Tables, f: Fields, s: string, i: nat)
    requires Without(HEADER_RE, s, 0) && !Matches(TIME_RE, 0, s, 0, 12) && Without(ND_RE, s, 0)
    requires Next(HYPOCENTER_RE, s, 0, i, i + 48)
    ensures i + 48 <= |s|
    ensures
      var code, shindo := s[i..i + 3], s[i + 22..i + 24];
      var lat, lng, depth, magnitude := s[i + 5..i + 8], s[i + 10..i + 14], s[i + 15..i + 18], s[i + 19..i + 21];
      var center, deep, strong := s[i + 27..i + 28], s[i + 28..i + 29], s[i + 29..i + 30];
      var sea, warned := s[i + 35..i + 36], s[i + 36..i + 37];
      ApplyLine(t, f, s) == f.(hypocenter := Hypocenter(
        code, if code in t.epicenter then t.epicenter[code] else "",
        if AllDigits(lat) then Value(lat) else 0,
        if AllDigits(lng) then Value(lng) else 0,
        if AllDigits(depth) then Value(depth) else 0,
        if AllDigits(magnitude) then Value(magnitude) else 0,
        shindo, if shindo in t.shindo then t.shindo[shindo] else "",
        center, if center in t.rk1 then t.rk1[center] else "",
        deep, if deep in t.rk2 then t.rk2[deep] else "",
        strong, if strong in t.rk3 then t.rk3[strong] else "",
        sea, if sea in t.rt1 then t.rt1[sea] else "",
        warned))
  {
    HypocenterIsTaken(s, i);
    HypocenterApplies(t, f, s, i);
    hide Matches, MatchesAt, KindOf, ApplyLine, Value, AllDigits, HypocenterAt, Without, Next, Search;
    HypocenterReads(t, s, i);
  }

  // ---------- EBI ----------

  /** The matches from a position on that do not overlap, from left to right. */
  ghost predicate Places(s: string, from: nat, at: seq<nat>) {
    && (forall k :: 0 <= k < |at| ==> Next(EBI_RE, s, if k == 0 then from else at[k - 1] + 19, at[k], at[k] + 19))
    && Without(EBI_RE, s, if at == [] then from else at[|at| - 1] + 19)
  }

  /** What the match at i says of its area. */
  predicate Says(t: Tables, s: string, i: nat, x: EBIEntry) {
    && i + 19 <= |s|
    && var area, s1, s2 := s[i..i + 3], s[i + 5..i + 7], s[i + 7..i + 9];
    var warned, arrive := s[i + 17..i + 18], s[i + 18..i + 19];
    && x.name == (if area in t.area then t.area[area] else "")
    && x.shindo1Code == s1 && x.shindo1 == (if s1 in t.shindo then t.shindo[s1] else "")
    && x.shindo2Code == s2 && x.shindo2 == (if s2 in t.shindo then t.shindo[s2] else "")
    && x.time == s[i + 10..i + 16]
    && x.isWarndedCode == warned && x.isWarnded == (if warned in t.ebiY1 then t.ebiY1[warned] else "")
    && x.arriveCode == arrive && x.arrive == (if arrive in t.ebiY2 then t.ebiY2[arrive] else "")
  }

  predicate AreaIs(s: string, i: nat, area: string) {
    i + 3 <= |s| && s[i..i + 3] == area
  }

  /** The last of the positions at which an area is named, as an index, or -1. */
  function LastOf(s: string, at: seq<nat>, area: string): (k: int)
    ensures k == -1 || (0 <= k < |at| && AreaIs(s, at[k], area))
    ensures forall l :: k < l < |at| && 0 <= l ==> !AreaIs(s, at[l], area)
  {
    if at == [] then -1
    else
      var k := LastOf(s, at[1..], area);
      assert forall l :: 1 <= l < |at| ==> at[l] == at[1..][l - 1];
      if k >= 0 then k + 1 else if AreaIs(s, at[0], area) then 0 else -1
  }

  /** Each area named at one of the positions has what the last of them says; the others stay. */
  ghost predicate Updates(t: Tables, s: string, at: seq<nat>, m: map<string, EBIEntry>, r: map<string, EBIEntry>) {
    forall area ::
      var k := LastOf(s, at, area);
      if k >= 0 then area in r && Says(t, s, at[k], r[area])
      else (area in r <==> area in m) && (area in r ==> r[area] == m[area])
  }

  lemma EntrySays(t: Tables, s: string, i: nat)
    requires MatchesAt(EbiRE, s, i)
    ensures Says(t, s, i, EntryAt(t, s, i))
  {
    OneOf(s, i + 17, i + 19, 0);
    OneOf(s, i + 17, i + 19, 1);
    hide CharAt, Span;
  }

  lemma NoPlaces(t: Tables, s: string, from: nat, m: map<string, EBIEntry>)
    requires Without(EBI_RE, s, from)
    ensures Places(s, from, []) && Updates(t, s, [], m, m)
  {
    hide Without;
  }

  lemma PlacesStep(s: string, from: nat, i: nat, more: seq<nat>)
    requires Next(EBI_RE, s, from, i, i + 19) && Places(s, i + 19, more)
    ensures Places(s, from, [i] + more)
  {
    hide Next, Without;
    var at := [i] + more;
    forall k | 0 <= k < |at|
      ensures Next(EBI_RE, s, if k == 0 then from else at[k - 1] + 19, at[k], at[k] + 19)
    {
      if k == 1 {
        assert at[1] == more[0];
      } else if k > 1 {
        assert at[k] == more[k - 1] && at[k - 1] == more[k - 2];
      }
    }
  }

  lemma UpdatesStep(t: Tables, s: string, i: nat, more: seq<nat>, m: map<string, EBIEntry>, x: EBIEntry,
                    r: map<string, EBIEntry>)
    requires i + 19 <= |s| && Says(t, s, i, x) && Updates(t, s, more, m[s[i..i + 3] := x], r)
    ensures Updates(t, s, [i] + more, m, r)
  {
    hide Says;
    var at := [i] + more;
    assert at[1..] == more;
    forall area
      ensures
        var k := LastOf(s, at, area);
        if k >= 0 then area in r && Says(t, s, at[k], r[area])
        else (area in r <==> area in m) && (area in r ==> r[area] == m[area])
    {
      assert AreaIs(s, i, area) <==> area == s[i..i + 3];
    }
  }

  lemma {:induction false} EntriesUpdate(t: Tables, s: string, from: nat, m: map<string, EBIEntry>)
    returns (at: seq<nat>)
    ensures Places(s, from, at) && Updates(t, s, at, m, Entries(t, s, from, m))
    ensures at == [] <==> Search(EbiRE, s, from) < 0
    decreases |s| - from
  {
    SearchFindsNone(EbiRE, s, from);
    hide Matches, Without, Next, Says, Updates, Places, MatchesAt, EntryAt;
    var i := Search(EbiRE, s, from);
    at := [];
    if i >= 0 {
      EbiNext(s, from, i);
      EntrySays(t, s, i);
      var area, x := s[i..i + 3], EntryAt(t, s, i);
      var more := EntriesUpdate(t, s, i + 19, m[area := x]);
      at := [i] + more;
      PlacesStep(s, from, i, more);
      UpdatesStep(t, s, i, more, m, x, Entries(t, s, from, m));
    } else {
      assert Places(s, from, []) && Updates(t, s, [], m, m) by {
        NoPlaces(t, s, from, m);
      }
    }
  }

  lemma EbiNext(s: string, from: nat, i: nat)
    requires Search(EbiRE, s, from) == i
    ensures Next(EBI_RE, s, from, i, i + 19) && i + 19 <= |s|
  {
    EbiRegexp(s, i, i + 19);
    hide Matches, MatchesAt;
    forall j: nat, b: nat | from <= j < i
      ensures !Matches(EBI_RE, 0, s, j, b)
    {
      EbiRegexp(s, j, b);
    }
  }

  lemma EbiIsTaken(s: string)
    requires Without(HEADER_RE, s, 0) && !Matches(TIME_RE, 0, s, 0, 12) && Without(ND_RE, s, 0)
    requires Without(HYPOCENTER_RE, s, 0) && !Without(EBI_RE, s, 0)
    ensures KindOf(s) == EbiKind && Search(EbiRE, s, 0) >= 0
  {
    SearchFindsNone(HeaderRE, s, 0);
    TimeRegexp(s, 12);
    SearchFindsNone(NdRE, s, 0);
    SearchFindsNone(HypocenterRE, s, 0);
    SearchFindsNone(EbiRE, s, 0);
    hide Matches, MatchesAt, Without;
  }

  /** All matches of the EBI pattern in a line add their areas, the last one of an area standing. */
  lemma EbiLine(t: Tables, f: Fields, s: string) returns (at: seq<nat>)
    requires Without(HEADER_RE, s, 0) && !Matches(TIME_RE, 0, s, 0, 12) && Without(ND_RE, s, 0)
    requires Without(HYPOCENTER_RE, s, 0) && !Without(EBI_RE, s, 0)
    ensures Places(s, 0, at) && at != []
    ensures
      var g := ApplyLine(t, f, s);
      Updates(t, s, at, f.ebi, g.ebi) && g == f.(ebi := g.ebi)
  {
    hide Matches, MatchesAt, Updates, Places, Entries, Without;
    EbiIsTaken(s);
    at := EntriesUpdate(t, s, 0, f.ebi);
  }

  /** A line that none of the patterns matches is ignored. */
  lemma OtherLine(t: Tables, f: Fields, s: string)
    requires Without(HEADER_RE, s, 0) && !Matches(TIME_RE, 0, s, 0, 12) && Without(ND_RE, s, 0)
    requires Without(HYPOCENTER_RE, s, 0) && Without(EBI_RE, s, 0)
    ensures ApplyLine(t, f, s) == f
  {
    SearchFindsNone(HeaderRE, s, 0);
    TimeRegexp(s, 12);
    SearchFindsNone(NdRE, s, 0);
    SearchFindsNone(HypocenterRE, s, 0);
    SearchFindsNone(EbiRE, s, 0);
    hide Matches, MatchesAt;
  }

  // ---------- lines, one after the other ----------

  lemma {:induction false} LineLengthMeans(s: string)
    ensures
      var n := LineLength(s);
      && (forall i :: 0 <= i < n ==> s[i] as int != 13 && s[i] as int != 10)
      && (n < |s| ==> s[n] as int == 13 || s[n] as int == 10)
  {
    if s != "" {
      LineLengthMeans(s[1..]);
    }
  }

  lemma LineLengthIs(s: string, n: nat)
    requires n <= |s| && (forall i :: 0 <= i < n ==> !IsBreak(s[i])) && (n < |s| ==> IsBreak(s[n]))
    ensures LineLength(s) == n
  {
    LineLengthMeans(s);
  }

  /** A CR or LF separates what comes before it from what comes after it. */
  lemma {:induction false} BreakSeparates(a: string, c: char, b: string)
    requires c as int == 13 || c as int == 10
    ensures SplitLines(a + [c] + b) == SplitLines(a) + SplitLines(b)
    decreases |a|
  {
    var s := a + [c] + b;
    if a == "" {
      assert s[0] == c && s[1..] == b;
    } else if IsBreak(a[0]) {
      BreakSeparates(a[1..], c, b);
      assert s[1..] == a[1..] + [c] + b;
    } else {
      var n := LineLength(a);
      LineLengthMeans(a);
      LineLengthIs(s, n);
      BreakSeparates(a[n..], c, b);
      assert s[n..] == a[n..] + [c] + b && s[..n] == a[..n];
    }
  }

  lemma OneLine(line: string)
    requires forall i :: 0 <= i < |line| ==> line[i] as int != 13 && line[i] as int != 10
    ensures SplitLines(line) == if line == "" then [] else [line]
  {
    if line != "" {
      LineLengthIs(line, |line|);
      assert line[..|line|] == line && line[|line|..] == "";
    }
  }

  /** A further line, after a CR or LF, acts on what the lines before it decoded to; an empty one does
      not act. */
  lemma LastLineActs(t: Tables, raw: string, c: char, line: string)
    requires c as int == 13 || c as int == 10
    requires forall i :: 0 <= i < |line| ==> line[i] as int != 13 && line[i] as int != 10
    ensures Decoded(t, raw + [c] + line) == if line == "" then Decoded(t, raw) else ApplyLine(t, Decoded(t, raw), line)
    ensures
      var unset := Fields(Header("", "", "", "", 0, "", "", ""), "", Report("", "", "", 0, 0),
                          Hypocenter("", "", 0, 0, 0, 0, "", "", "", "", "", "", "", "", "", "", ""), map[]);
      Decoded(t, line) == if line == "" then unset else ApplyLine(t, unset, line)
  {
    hide ApplyLine;
    BreakSeparates(raw, c, line);
    OneLine(line);
    var lines := SplitLines(raw);
    if line == "" {
      assert lines + [] == lines;
    } else {
      assert (lines + [line])[..|lines|] == lines;
      assert [line][..0] == [];
      assert Fold(t, BLANK, [line]) == ApplyLine(t, BLANK, line);
    }
  }
}
