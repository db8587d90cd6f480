/** The message text can be read back: telegrams with the same text agree on everything that the
    text shows (internal/eewmsg/format.go). */
module MessageReading {
  import opened Text
  import opened Decoder
  import opened DecoderFacts
  import opened Messages

  // ---------- texts made of digits and separators ----------

  lemma SameDigits(a: string, x: string, b: string, y: string)
    requires AllDigits(a) && AllDigits(b) && a + x == b + y
    requires x != "" && y != "" && !IsDigit(x[0]) && !IsDigit(y[0])
    ensures a == b && x == y
  {
    var s := a + x;
    assert s[|a|] == x[0] && s[|b|] == y[0];
    assert forall i :: 0 <= i < |a| ==> s[i] == a[i];
    assert forall i :: 0 <= i < |b| ==> s[i] == b[i];
    assert s[..|a|] == a && s[|a|..] == x && s[..|b|] == b && s[|b|..] == y;
  }

  /** What follows the name of an epicenter. */
  const SEPARATOR := ")深さ"

  /** No two occurrences of the separator overlap, so an earlier one lies inside the longer name. */
  lemma EarlierSeparator(a: string, x: string, b: string, y: string)
    requires a + SEPARATOR + x == b + SEPARATOR + y && |a| < |b|
    ensures Contains(b, SEPARATOR)
  {
    var s := a + SEPARATOR + x;
    assert forall i :: 0 <= i < 3 ==> s[|a| + i] == SEPARATOR[i];
    assert s[|b| + 0] == SEPARATOR[0];
    assert s[|a| + 1] == '深' && s[|a| + 2] == 'さ';
    assert |b| >= |a| + 3;
    assert b == s[..|b|];
    assert OccursAt(b, SEPARATOR, |a|);
  }

  lemma SameUntilSeparator(a: string, x: string, b: string, y: string)
    requires !Contains(a, SEPARATOR) && !Contains(b, SEPARATOR)
    requires a + SEPARATOR + x == b + SEPARATOR + y
    ensures a == b && x == y
  {
    hide Contains;
    if |a| < |b| {
      EarlierSeparator(a, x, b, y);
    } else if |b| < |a| {
      EarlierSeparator(b, y, a, x);
    } else {
      var s := a + SEPARATOR + x;
      assert s[..|a|] == a && s[..|a|] == b;
      assert s[|a| + 3..] == x && s[|a| + 3..] == y;
    }
  }

  lemma SamePrefix(p: string, x: string, y: string)
    requires p + x == p + y
    ensures x == y
  {
    assert (p + x)[|p|..] == x && (p + y)[|p|..] == y;
  }

  /** Numbers, each followed by its separator, and then the rest. */
  function Interleave(numbers: seq<string>, seps: seq<string>, rest: string): string
    requires |numbers| == |seps|
  {
    if numbers == [] then rest else numbers[0] + (seps[0] + Interleave(numbers[1..], seps[1..], rest))
  }

  predicate AreNumbers(numbers: seq<string>) {
    forall i :: 0 <= i < |numbers| ==> AllDigits(numbers[i])
  }

  predicate AreSeparators(seps: seq<string>) {
    forall i :: 0 <= i < |seps| ==> seps[i] != "" && !IsDigit(seps[i][0])
  }

  lemma {:induction false} InterleaveTells(a: seq<string>, b: seq<string>, seps: seq<string>, x: string, y: string)
    requires |a| == |b| == |seps| && AreNumbers(a) && AreNumbers(b) && AreSeparators(seps)
    requires Interleave(a, seps, x) == Interleave(b, seps, y)
    ensures a == b && x == y
    decreases |a|
  {
    hide AllDigits, IsDigit;
    if a != [] {
      var x', y' := Interleave(a[1..], seps[1..], x), Interleave(b[1..], seps[1..], y);
      SameDigits(a[0], seps[0] + x', b[0], seps[0] + y');
      SamePrefix(seps[0], x', y');
      InterleaveTells(a[1..], b[1..], seps[1..], x, y);
      assert a == [a[0]] + a[1..] && b == [b[0]] + b[1..];
    }
  }

  lemma InterleaveNext(n: seq<string>, s: seq<string>, rest: string)
    requires |n| == |s| && n != []
    ensures Interleave(n, s, rest) == n[0] + (s[0] + Interleave(n[1..], s[1..], rest))
  {}

  lemma InterleaveNothing(n: seq<string>, s: seq<string>, rest: string)
    requires |n| == |s| == 0
    ensures Interleave(n, s, rest) == rest
  {}

  lemma InterleaveFour(n: seq<string>, s: seq<string>, rest: string)
    requires |n| == |s| == 4
    ensures Interleave(n, s, rest) == n[0] + s[0] + n[1] + s[1] + n[2] + s[2] + n[3] + s[3] + rest
  {
    hide Interleave;
    InterleaveNext(n, s, rest);
    InterleaveNext(n[1..], s[1..], rest);
    InterleaveNext(n[2..], s[2..], rest);
    InterleaveNext(n[3..], s[3..], rest);
    InterleaveNothing(n[4..], s[4..], rest);
    assert n[1..][1..] == n[2..] && n[2..][1..] == n[3..] && n[3..][1..] == n[4..];
    assert s[1..][1..] == s[2..] && s[2..][1..] == s[3..] && s[3..][1..] == s[4..];
  }

  // ---------- times ----------

  lemma {:induction false} AtPairs(s: string, i: nat)
    ensures At(Pairs(s), i) == if 2 * i + 2 <= |s| then s[2 * i..2 * i + 2] else ""
    decreases i
  {
    if |s| >= 2 && i > 0 {
      AtPairs(s[2..], i - 1);
      assert At(Pairs(s), i) == At(Pairs(s[2..]), i - 1);
    }
  }

  function DateParts(p: seq<string>): seq<string> {
    [At(p, 0), At(p, 1), At(p, 2), At(p, 3)]
  }

  /** The part of a stamp after the first four numbers. */
  function StampEnd(p: seq<string>, rest: string): string {
    At(p, 4) + (":" + (At(p, 5) + rest))
  }

  lemma StampLaid(p: seq<string>, rest: string)
    ensures Stamp(p) + rest
            == "20" + Interleave(DateParts(p), ["/", "/", " ", ":"], StampEnd(p, rest))
  {
    hide At;
    InterleaveFour(DateParts(p), ["/", "/", " ", ":"], StampEnd(p, rest));
  }

  lemma PairDigits(s: string)
    requires AllDigits(s)
    ensures AreNumbers(DateParts(Pairs(s))) && AllDigits(At(Pairs(s), 4)) && AllDigits(At(Pairs(s), 5))
  {
    hide At, AllDigits, Pairs;
    forall i | 0 <= i < 6
      ensures AllDigits(At(Pairs(s), i))
    {
      CleanAt(s, i);
    }
  }

  lemma StampTells(s: string, x: string, t: string, y: string)
    requires AllDigits(s) && AllDigits(t) && Stamp(Pairs(s)) + x == Stamp(Pairs(t)) + y
    requires x != "" && y != "" && !IsDigit(x[0]) && !IsDigit(y[0])
    ensures x == y
    ensures DateParts(Pairs(s)) == DateParts(Pairs(t))
    ensures At(Pairs(s), 4) == At(Pairs(t), 4) && At(Pairs(s), 5) == At(Pairs(t), 5)
  {
    var p, q := Pairs(s), Pairs(t);
    StampLaid(p, x);
    StampLaid(q, y);
    PairDigits(s);
    PairDigits(t);
    hide Stamp, At, AllDigits, Interleave, Pairs, AreNumbers, DateParts;
    var a, b := DateParts(p), DateParts(q);
    var seps := ["/", "/", " ", ":"];
    SamePrefix("20", Interleave(a, seps, StampEnd(p, x)), Interleave(b, seps, StampEnd(q, y)));
    InterleaveTells(a, b, seps, StampEnd(p, x), StampEnd(q, y));
    SameDigits(At(p, 4), ":" + (At(p, 5) + x), At(q, 4), ":" + (At(q, 5) + y));
    SamePrefix(":", At(p, 5) + x, At(q, 5) + y);
    SameDigits(At(p, 5), x, At(q, 5), y);
  }

  lemma PairsTell(s: string, t: string)
    requires s == "" || Digits(s, 12)
    requires t == "" || Digits(t, 12)
    requires DateParts(Pairs(s)) == DateParts(Pairs(t))
    requires At(Pairs(s), 4) == At(Pairs(t), 4) && At(Pairs(s), 5) == At(Pairs(t), 5)
    ensures s == t
  {
    hide At, Pairs;
    var a, b := DateParts(Pairs(s)), DateParts(Pairs(t));
    assert a[0] == b[0] && a[1] == b[1] && a[2] == b[2] && a[3] == b[3];
    forall i | 0 <= i < 6
      ensures 2 * i + 2 <= |s| <==> 2 * i + 2 <= |t|
      ensures 2 * i + 2 <= |s| ==> s[2 * i..2 * i + 2] == t[2 * i..2 * i + 2]
    {
      AtPairs(s, i);
      AtPairs(t, i);
    }
    assert |s| == |t| by {
      assert 2 * 0 + 2 <= |s| <==> 2 * 0 + 2 <= |t|;
    }
    forall k | 0 <= k < |s|
      ensures s[k] == t[k]
    {
      var i := k / 2;
      assert s[2 * i..2 * i + 2][k - 2 * i] == s[k] && t[2 * i..2 * i + 2][k - 2 * i] == t[k];
    }
  }

  lemma TimeTells(s: string, x: string, t: string, y: string)
    requires (s == "" || Digits(s, 12)) && (t == "" || Digits(t, 12))
    requires Stamp(Pairs(s)) + x == Stamp(Pairs(t)) + y
    requires x != "" && y != "" && !IsDigit(x[0]) && !IsDigit(y[0])
    ensures s == t && x == y
  {
    hide Stamp, Pairs, At, DateParts;
    StampTells(s, x, t, y);
    PairsTell(s, t);
  }

  // ---------- the opening ----------

  function Mark(f: Fields): string {
    if f.IsFinal() then "(最終)" else ""
  }

  lemma OpeningLaid(f: Fields, rest: string)
    requires f.report.warnNum >= 0
    ensures Opening(f) + rest
            == Stamp(Pairs(f.header.warnTime))
               + (" 第" + (Decimal(f.report.warnNum)
                  + ("報" + (Mark(f) + (" (" + (Stamp(Pairs(f.eqTime)) + ("発生)" + rest)))))))
  {
    hide Stamp, Pairs, Decimal;
  }

  lemma OpeningTells(t: Tables, f: Fields, x: string, g: Fields, y: string)
    requires Ranges(t, f) && Ranges(t, g) && Opening(f) + x == Opening(g) + y
    ensures f.header.warnTime == g.header.warnTime && f.eqTime == g.eqTime
    ensures f.report.warnNum == g.report.warnNum && f.IsFinal() == g.IsFinal() && x == y
  {
    OpeningLaid(f, x);
    OpeningLaid(g, y);
    hide Opening, Stamp, Pairs, Decimal, AllDigits;
    var u, v := "発生)" + x, "発生)" + y;
    var u2, v2 := " (" + (Stamp(Pairs(f.eqTime)) + u), " (" + (Stamp(Pairs(g.eqTime)) + v);
    var u3, v3 := "報" + (Mark(f) + u2), "報" + (Mark(g) + v2);
    var u4, v4 := Decimal(f.report.warnNum) + u3, Decimal(g.report.warnNum) + v3;
    TimeTells(f.header.warnTime, " 第" + u4, g.header.warnTime, " 第" + v4);
    SamePrefix(" 第", u4, v4);
    SameDigits(Decimal(f.report.warnNum), u3, Decimal(g.report.warnNum), v3);
    DecimalInjective(f.report.warnNum, g.report.warnNum);
    SamePrefix("報", Mark(f) + u2, Mark(g) + v2);
    assert (Mark(f) + u2)[0] == (if f.IsFinal() then '(' else ' ');
    assert (Mark(g) + v2)[0] == (if g.IsFinal() then '(' else ' ');
    SamePrefix(Mark(f), u2, v2);
    SamePrefix(" (", Stamp(Pairs(f.eqTime)) + u, Stamp(Pairs(g.eqTime)) + v);
    TimeTells(f.eqTime, u, g.eqTime, v);
    SamePrefix("発生)", x, y);
  }

  // ---------- the rest ----------

  /** The digits of a number of tenths. */
  function TenthsParts(n: nat): seq<string> {
    [Decimal(n / 10), [DigitChar(n % 10)]]
  }

  /** Two numbers of tenths, such as a position, and what stands between and behind them. */
  function Position(lat: nat, lng: nat, comma: string, rest: string): string {
    Tenths(lat) + comma + Tenths(lng) + rest
  }

  lemma TenthsAre(n: nat)
    ensures |TenthsParts(n)| == 2 && Tenths(n) == TenthsParts(n)[0] + "." + TenthsParts(n)[1]
  {
    hide Decimal;
  }

  lemma PositionLaid(lat: nat, lng: nat, comma: string, rest: string)
    requires rest != ""
    ensures Position(lat, lng, comma, rest)
            == Interleave(TenthsParts(lat) + TenthsParts(lng), [".", comma, ".", rest[..1]], rest[1..])
  {
    TenthsAre(lat);
    TenthsAre(lng);
    hide Decimal, Tenths, TenthsParts;
    var n, s := TenthsParts(lat) + TenthsParts(lng), [".", comma, ".", rest[..1]];
    InterleaveFour(n, s, rest[1..]);
    assert n[0] == TenthsParts(lat)[0] && n[1] == TenthsParts(lat)[1];
    assert n[2] == TenthsParts(lng)[0] && n[3] == TenthsParts(lng)[1];
    assert rest == rest[..1] + rest[1..];
  }

  lemma TenthsTell(m: nat, n: nat)
    requires TenthsParts(m) == TenthsParts(n)
    ensures m == n
  {
    hide Decimal;
    assert TenthsParts(m)[0] == TenthsParts(n)[0] && TenthsParts(m)[1] == TenthsParts(n)[1];
    DecimalInjective(m / 10, n / 10);
    assert TenthsParts(m)[1][0] == TenthsParts(n)[1][0];
    assert DigitValue(DigitChar(m % 10)) == m % 10 && DigitValue(DigitChar(n % 10)) == n % 10;
  }

  lemma PartsTell(lat: nat, lng: nat, lat': nat, lng': nat)
    requires TenthsParts(lat) + TenthsParts(lng) == TenthsParts(lat') + TenthsParts(lng')
    ensures lat == lat' && lng == lng'
  {
    var a, b := TenthsParts(lat) + TenthsParts(lng), TenthsParts(lat') + TenthsParts(lng');
    assert a[..2] == TenthsParts(lat) && b[..2] == TenthsParts(lat');
    assert a[2..] == TenthsParts(lng) && b[2..] == TenthsParts(lng');
    TenthsTell(lat, lat');
    TenthsTell(lng, lng');
  }

  lemma TenthsAreNumbers(lat: nat, lng: nat)
    ensures AreNumbers(TenthsParts(lat) + TenthsParts(lng))
  {
    hide Decimal;
  }

  lemma PositionTells(lat: nat, lng: nat, x: string, lat': nat, lng': nat, y: string, comma: string)
    requires comma != "" && !IsDigit(comma[0])
    requires x != "" && y != "" && x[0] == y[0] && !IsDigit(x[0])
    requires Position(lat, lng, comma, x) == Position(lat', lng', comma, y)
    ensures lat == lat' && lng == lng' && x == y
  {
    PositionLaid(lat, lng, comma, x);
    PositionLaid(lat', lng', comma, y);
    TenthsAreNumbers(lat, lng);
    TenthsAreNumbers(lat', lng');
    hide Position, AreNumbers, TenthsParts;
    var a, b := TenthsParts(lat) + TenthsParts(lng), TenthsParts(lat') + TenthsParts(lng');
    assert x[..1] == y[..1] && x == x[..1] + x[1..] && y == y[..1] + y[1..];
    InterleaveTells(a, b, [".", comma, ".", x[..1]], x[1..], y[1..]);
    PartsTell(lat, lng, lat', lng');
  }

  lemma LinkLaid(h: Hypocenter)
    requires h.lat >= 0 && h.lng >= 0
    ensures LinkText(h) + Closing(h)
            == "<" + ("http://maps.google.com/maps?q="
                      + Position(h.lat, h.lng, ",", "|" + (Label(h) + (">" + Closing(h)))))
  {
    hide Tenths, Closing, Label;
  }

  lemma LabelLaid(h: Hypocenter)
    requires h.lat >= 0 && h.lng >= 0
    ensures Label(h) + Closing(h) == "N" + Position(h.lat, h.lng, "/E", Closing(h))
  {
    hide Tenths, Closing;
  }

  lemma ClosingStarts(h: Hypocenter)
    ensures Closing(h) != "" && Closing(h)[0] == '('
  {}

  lemma LinkTells(h: Hypocenter, k: Hypocenter)
    requires h.lat >= 0 && h.lng >= 0 && k.lat >= 0 && k.lng >= 0
    requires LinkText(h) + Closing(h) == LinkText(k) + Closing(k)
    ensures h.lat == k.lat && h.lng == k.lng && Closing(h) == Closing(k)
  {
    LinkLaid(h);
    LinkLaid(k);
    hide LinkText, Closing, Position;
    var x, y := "|" + (Label(h) + (">" + Closing(h))), "|" + (Label(k) + (">" + Closing(k)));
    var q := "http://maps.google.com/maps?q=";
    SamePrefix("<", q + Position(h.lat, h.lng, ",", x), q + Position(k.lat, k.lng, ",", y));
    SamePrefix(q, Position(h.lat, h.lng, ",", x), Position(k.lat, k.lng, ",", y));
    PositionTells(h.lat, h.lng, x, k.lat, k.lng, y, ",");
    assert Label(h) == Label(k);
    hide Label;
    SamePrefix("|", Label(h) + (">" + Closing(h)), Label(h) + (">" + Closing(k)));
    SamePrefix(Label(h), ">" + Closing(h), ">" + Closing(k));
    SamePrefix(">", Closing(h), Closing(k));
  }

  lemma LabelTells(h: Hypocenter, k: Hypocenter)
    requires h.lat >= 0 && h.lng >= 0 && k.lat >= 0 && k.lng >= 0
    requires Label(h) + Closing(h) == Label(k) + Closing(k)
    ensures h.lat == k.lat && h.lng == k.lng && Closing(h) == Closing(k)
  {
    LabelLaid(h);
    LabelLaid(k);
    ClosingStarts(h);
    ClosingStarts(k);
    hide Label, Closing, Position;
    SamePrefix("N", Position(h.lat, h.lng, "/E", Closing(h)), Position(k.lat, k.lng, "/E", Closing(k)));
    PositionTells(h.lat, h.lng, Closing(h), k.lat, k.lng, Closing(k), "/E");
  }

  lemma ClosingLaid(h: Hypocenter)
    requires h.depth >= 0 && h.magnitude >= 0
    ensures Closing(h)
            == "(" + (h.centerName + SEPARATOR + (Decimal(h.depth)
               + ("km 最大:M" + (Tenths(h.magnitude) + (" 震度" + h.shindo)))))
  {
    hide Tenths, Decimal;
  }

  lemma ClosingTells(h: Hypocenter, k: Hypocenter)
    requires h.depth >= 0 && h.magnitude >= 0 && k.depth >= 0 && k.magnitude >= 0
    requires !Contains(h.centerName, SEPARATOR) && !Contains(k.centerName, SEPARATOR)
    requires Closing(h) == Closing(k)
    ensures h.centerName == k.centerName && h.depth == k.depth && h.magnitude == k.magnitude
    ensures h.shindo == k.shindo
  {
    ClosingLaid(h);
    ClosingLaid(k);
    hide Closing, Decimal, Tenths, AllDigits, Contains, SEPARATOR;
    var x, y := Tenths(h.magnitude) + (" 震度" + h.shindo), Tenths(k.magnitude) + (" 震度" + k.shindo);
    var u, v := Decimal(h.depth) + ("km 最大:M" + x), Decimal(k.depth) + ("km 最大:M" + y);
    SamePrefix("(", h.centerName + SEPARATOR + u, k.centerName + SEPARATOR + v);
    SameUntilSeparator(h.centerName, u, k.centerName, v);
    SameDigits(Decimal(h.depth), "km 最大:M" + x, Decimal(k.depth), "km 最大:M" + y);
    DecimalInjective(h.depth, k.depth);
    SamePrefix("km 最大:M", x, y);
    TenthsThen(h.magnitude, " 震度" + h.shindo, k.magnitude, " 震度" + k.shindo);
    SamePrefix(" 震度", h.shindo, k.shindo);
  }

  lemma TenthsLaid(n: nat, rest: string)
    ensures Tenths(n) + rest == Decimal(n / 10) + ("." + ([DigitChar(n % 10)] + rest))
  {
    hide Decimal;
  }

  lemma TenthsThen(m: nat, x: string, n: nat, y: string)
    requires Tenths(m) + x == Tenths(n) + y
    ensures m == n && x == y
  {
    var a, b := [DigitChar(m % 10)], [DigitChar(n % 10)];
    TenthsLaid(m, x);
    TenthsLaid(n, y);
    hide Tenths, Decimal, DigitChar, AllDigits;
    SameDigits(Decimal(m / 10), "." + (a + x), Decimal(n / 10), "." + (b + y));
    SamePrefix(".", a + x, b + y);
    assert (a + x)[0] == a[0] && (b + y)[0] == b[0] && (a + x)[1..] == x && (b + y)[1..] == y;
    DecimalInjective(m / 10, n / 10);
    assert DigitValue(a[0]) == m % 10 && DigitValue(b[0]) == n % 10;
  }

  // ---------- the whole text ----------

  /** Two telegrams agree on what a message shows beside the earthquake's place and size. */
  predicate SameOpening(f: Fields, g: Fields) {
    && f.header.warnTime == g.header.warnTime && f.eqTime == g.eqTime
    && f.report.warnNum == g.report.warnNum
    && f.IsFinal() == g.IsFinal() && f.IsCancellation() == g.IsCancellation()
  }

  predicate SamePlace(h: Hypocenter, k: Hypocenter) {
    && h.lat == k.lat && h.lng == k.lng && h.centerName == k.centerName
    && h.depth == k.depth && h.magnitude == k.magnitude && h.shindo == k.shindo
  }

  lemma AroundTells(t: Tables, f: Fields, p: string, g: Fields, q: string)
    requires Ranges(t, f) && Ranges(t, g) && Around(f, p) == Around(g, q)
    ensures SameOpening(f, g)
    ensures !f.IsCancellation() ==> p + Closing(f.hypocenter) == q + Closing(g.hypocenter)
  {
    hide Opening, Closing, Ranges;
    var x := if f.IsCancellation() then " 取り消されました" else "震央:" + (p + Closing(f.hypocenter));
    var y := if g.IsCancellation() then " 取り消されました" else "震央:" + (q + Closing(g.hypocenter));
    assert Around(f, p) == Opening(f) + x && Around(g, q) == Opening(g) + y;
    OpeningTells(t, f, x, g, y);
    assert x[0] == (if f.IsCancellation() then ' ' else '震') && y[0] == (if g.IsCancellation() then ' ' else '震');
    if !f.IsCancellation() {
      SamePrefix("震央:", p + Closing(f.hypocenter), q + Closing(g.hypocenter));
    }
  }

  /** No name of the table can be mistaken for the end of a name and a depth. */
  predicate NamesEnd(table: map<string, string>) {
    forall k :: k in table ==> !Contains(table[k], SEPARATOR)
  }

  lemma NameEnds(t: Tables, f: Fields)
    requires Ranges(t, f) && NamesEnd(t.epicenter)
    ensures !Contains(f.hypocenter.centerName, SEPARATOR)
  {
    hide Contains;
    var s := f.hypocenter.centerName;
    if s == "" {
      NothingContains();
    } else {
      var k :| k in t.epicenter && t.epicenter[k] == s;
    }
  }

  lemma NothingContains()
    ensures !Contains("", SEPARATOR)
  {}

  const UNSET := "未設定(キャンセル時)"

  /** The program's table meets the condition: the only name in it that holds a closing parenthesis
      is that of a cancelled telegram. */
  lemma ParenthesesInUnsetOnly(table: map<string, string>)
    requires forall k :: k in table ==> ')' !in table[k] || table[k] == UNSET
    ensures NamesEnd(table)
  {
    hide Contains;
    forall k | k in table
      ensures !Contains(table[k], SEPARATOR)
    {
      if ')' !in table[k] {
        assert SEPARATOR[0] == ')';
        ContainsNeedsChar(table[k], SEPARATOR, ')');
      } else {
        UnsetNameEnds();
      }
    }
  }

  lemma UnsetNameEnds()
    ensures !Contains(UNSET, SEPARATOR)
  {
    ContainsNeedsChar(UNSET, SEPARATOR, 'さ') by {
      assert SEPARATOR[2] == 'さ';
    }
  }

  /** The telegrams tell a reader of the message the same. */
  predicate SameReport(f: Fields, g: Fields) {
    SameOpening(f, g) && (!f.IsCancellation() ==> SamePlace(f.hypocenter, g.hypocenter))
  }

  lemma SameReportSameText(f: Fields, g: Fields)
    requires SameReport(f, g)
    ensures Around(f, LinkText(f.hypocenter)) == Around(g, LinkText(g.hypocenter))
    ensures Around(f, Label(f.hypocenter)) == Around(g, Label(g.hypocenter))
  {
    hide Stamp, Pairs, Signed, Tenths;
  }

  /** Whatever two raw telegrams are, their messages are equal if and only if they report the
      same: the two times, the number, finality and cancellation, and unless cancelled the place,
      depth, magnitude and intensity. So every value is in the text, and none hides another. */
  lemma TextTellsReport(t: Tables, raw: string, other: string)
    requires NamesEnd(t.epicenter)
    ensures
      var f, g := Decoded(t, raw), Decoded(t, other);
      FormattedText(f) == FormattedText(g) <==> SameReport(f, g)
  {
    hide Decoded, Around, Ranges, LinkText, Label, Closing;
    DecodedRanges(t, raw);
    DecodedRanges(t, other);
    var f, g := Decoded(t, raw), Decoded(t, other);
    if FormattedText(f) == FormattedText(g) {
      AroundTells(t, f, LinkText(f.hypocenter), g, LinkText(g.hypocenter));
      if !f.IsCancellation() {
        PlaceRanges(t, f);
        PlaceRanges(t, g);
        LinkTells(f.hypocenter, g.hypocenter);
        NameEnds(t, f);
        NameEnds(t, g);
        ClosingTells(f.hypocenter, g.hypocenter);
      }
    }
    if SameReport(f, g) {
      SameReportSameText(f, g);
    }
  }

  /** So do the texts that IRC gets, without the link. */
  lemma IrcTextTellsReport(t: Tables, raw: string, other: string)
    requires NamesEnd(t.epicenter) && CleanTable(t.epicenter) && CleanTable(t.shindo)
    ensures
      var f, g := Decoded(t, raw), Decoded(t, other);
      StripLinks(FormattedText(f)) == StripLinks(FormattedText(g)) <==> SameReport(f, g)
  {
    hide Decoded, Around, Ranges, Label, LinkText, Closing, StripLinks, FormattedText, CleanTable;
    DecodedRanges(t, raw);
    DecodedRanges(t, other);
    StripOfFormat(t, raw);
    StripOfFormat(t, other);
    var f, g := Decoded(t, raw), Decoded(t, other);
    if Around(f, Label(f.hypocenter)) == Around(g, Label(g.hypocenter)) {
      AroundTells(t, f, Label(f.hypocenter), g, Label(g.hypocenter));
      if !f.IsCancellation() {
        PlaceRanges(t, f);
        PlaceRanges(t, g);
        LabelTells(f.hypocenter, g.hypocenter);
        NameEnds(t, f);
        NameEnds(t, g);
        ClosingTells(f.hypocenter, g.hypocenter);
      }
    }
    if SameReport(f, g) {
      SameReportSameText(f, g);
    }
  }

  lemma PlaceRanges(t: Tables, f: Fields)
    requires Ranges(t, f)
    ensures
      var h := f.hypocenter;
      h.lat >= 0 && h.lng >= 0 && h.depth >= 0 && h.magnitude >= 0
  {}

  /** The title tells the kind of warning. */
  lemma TitleTellsType(f: Fields, g: Fields)
    ensures FormattedTitle(f) == FormattedTitle(g) <==> f.report.warnType == g.report.warnType
  {
    var a, b := f.report.warnType, g.report.warnType;
    assert FormattedTitle(f) == a + "緊急地震速報" && FormattedTitle(g) == b + "緊急地震速報";
    assert (a + "緊急地震速報")[..|a|] == a && (b + "緊急地震速報")[..|b|] == b;
  }
}
