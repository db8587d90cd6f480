/** The message text (internal/eewmsg/format.go) and the removal of its link for IRC
    (internal/irc/link.go). */
module Messages {
  import opened Text
  import opened Decoder
  import opened DecoderFacts

  // ---------- StripLinks ----------

  /** The first c at or after a position, with no newline in between; or -1. */
  function FindOnLine(s: string, c: char, from: nat): (i: int)
    requires c != '\n'
    ensures i == -1 || (from <= i < |s| && s[i] == c)
    ensures i >= 0 ==> forall k :: from <= k < i ==> s[k] != c && s[k] != '\n'
    decreases |s| - from
  {
    if from >= |s| || s[from] == '\n' then -1
    else if s[from] == c then from
    else FindOnLine(s, c, from + 1)
  }

  lemma {:induction false} FindOnLineFinds(s: string, c: char, from: nat, k: nat)
    requires c != '\n' && from <= k < |s| && s[k] == c
    requires forall j :: from <= j < k ==> s[j] != '\n'
    ensures from <= FindOnLine(s, c, from) <= k
    decreases k - from
  {
    if from < k && s[from] != c {
      FindOnLineFinds(s, c, from + 1, k);
    }
  }

  function Bar(s: string): int {
    FindOnLine(s, '|', 1)
  }

  function Bracket(s: string): int {
    if Bar(s) < 0 then -1 else FindOnLine(s, '>', Bar(s) + 1)
  }

  /** `<(.*?)\|(.*?)>` matches at the start of s with these positions of '|' and '>'. */
  predicate LinkMatch(s: string, b: nat, e: nat) {
    && 1 <= b < e < |s| && s[0] == '<' && s[b] == '|' && s[e] == '>'
    && (forall k :: 0 < k < e ==> s[k] != '\n')
  }

  /** The lazy repetitions have a match at the start of s exactly when Bracket finds one, and they
      choose the shortest first group that allows a match and then the shortest second one. */
  lemma LazyMatch(s: string)
    ensures (exists b: nat, e: nat :: LinkMatch(s, b, e)) <==> s != "" && s[0] == '<' && Bracket(s) >= 0
    ensures s != "" && s[0] == '<' && Bracket(s) >= 0 ==> LinkMatch(s, Bar(s), Bracket(s))
    ensures forall b: nat, e: nat :: LinkMatch(s, b, e) ==> Bar(s) <= b && (b == Bar(s) ==> Bracket(s) <= e)
  {
    if s != "" && s[0] == '<' && Bracket(s) >= 0 {
      assert LinkMatch(s, Bar(s), Bracket(s));
    }
    forall b: nat, e: nat | LinkMatch(s, b, e)
      ensures 0 <= Bar(s) <= b && Bracket(s) >= 0 && (b == Bar(s) ==> Bracket(s) <= e)
    {
      FindOnLineFinds(s, '|', 1, b);
      FindOnLineFinds(s, '>', Bar(s) + 1, e);
    }
  }

  function StripLinks(s: string): string
    decreases |s|
  {
    if s == "" then ""
    else if s[0] == '<' && Bracket(s) >= 0 then
      s[Bar(s) + 1..Bracket(s)] + StripLinks(s[Bracket(s) + 1..])
    else [s[0]] + StripLinks(s[1..])
  }

  lemma {:induction false} StripPrefix(a: string, rest: string)
    requires '<' !in a
    ensures StripLinks(a + rest) == a + StripLinks(rest)
    decreases |a|
  {
    hide Bar, Bracket;
    if a == "" {
      assert a + rest == rest;
    } else {
      assert (a + rest)[1..] == a[1..] + rest;
      StripPrefix(a[1..], rest);
      assert a == [a[0]] + a[1..];
    }
  }

  lemma StripPlain(s: string)
    requires '<' !in s
    ensures StripLinks(s) == s
  {
    StripPrefix(s, "");
    assert s + "" == s;
  }

  /** s begins with a link whose bar and bracket are the only ones of their kind before them. */
  predicate LinkParts(s: string, b: nat, e: nat) {
    && 1 <= b < e < |s| && s[0] == '<' && s[b] == '|' && s[e] == '>'
    && (forall k :: 1 <= k < b ==> s[k] != '|' && s[k] != '\n')
    && (forall k :: b + 1 <= k < e ==> s[k] != '>' && s[k] != '\n')
  }

  /** The parts of a string that begins with a link, by position. */
  lemma LinkLayout(uri: string, caption: string, rest: string)
    requires '|' !in uri && '\n' !in uri && '>' !in caption && '\n' !in caption
    ensures
      var s := "<" + uri + "|" + caption + ">" + rest;
      var b, e := 1 + |uri|, 2 + |uri| + |caption|;
      LinkParts(s, b, e) && s[b + 1..e] == caption && s[e + 1..] == rest
  {
    var s := "<" + uri + "|" + caption + ">" + rest;
    var b, e := 1 + |uri|, 2 + |uri| + |caption|;
    assert s[b] == '|' && s[e] == '>';
    forall k | 1 <= k < b
      ensures s[k] != '|' && s[k] != '\n'
    {
      assert s[k] == uri[k - 1];
    }
    forall k | b + 1 <= k < e
      ensures s[k] != '>' && s[k] != '\n'
    {
      assert s[k] == caption[k - b - 1];
    }
  }

  lemma LinkFound(s: string, b: nat, e: nat)
    requires LinkParts(s, b, e)
    ensures Bar(s) == b && Bracket(s) == e
  {
    hide FindOnLine;
    FindOnLineFinds(s, '|', 1, b);
    FindOnLineFinds(s, '>', b + 1, e);
  }

  lemma StripLinkCase(s: string)
    requires s != "" && s[0] == '<' && Bracket(s) >= 0
    ensures StripLinks(s) == s[Bar(s) + 1..Bracket(s)] + StripLinks(s[Bracket(s) + 1..])
  {}

  lemma StripAt(s: string, b: nat, e: nat)
    requires LinkParts(s, b, e)
    ensures StripLinks(s) == s[b + 1..e] + StripLinks(s[e + 1..])
  {
    hide StripLinks, Bar, Bracket;
    LinkFound(s, b, e);
    StripLinkCase(s);
  }

  lemma StripOne(uri: string, caption: string, rest: string)
    requires '|' !in uri && '\n' !in uri && '>' !in caption && '\n' !in caption
    ensures StripLinks("<" + uri + "|" + caption + ">" + rest) == caption + StripLinks(rest)
  {
    hide StripLinks, LinkParts;
    LinkLayout(uri, caption, rest);
    StripAt("<" + uri + "|" + caption + ">" + rest, 1 + |uri|, 2 + |uri| + |caption|);
  }

  // ---------- Format ----------

  /** Consecutive two-character chunks; an odd last character is dropped. */
  function Pairs(s: string): seq<string> {
    if |s| < 2 then [] else [s[..2]] + Pairs(s[2..])
  }

  lemma {:induction false} PairsAppend(s: string, n: nat)
    requires 2 * n + 2 <= |s|
    ensures Pairs(s[..2 * n + 2]) == Pairs(s[..2 * n]) + [s[2 * n..2 * n + 2]]
    decreases n
  {
    if n > 0 {
      assert s[..2 * n + 2][2..] == s[2..][..2 * (n - 1) + 2];
      assert s[..2 * n][2..] == s[2..][..2 * (n - 1)];
      PairsAppend(s[2..], n - 1);
      assert s[..2 * n + 2][..2] == s[..2 * n][..2];
    } else {
      assert s[..2][..2] == s[..2] && s[..2][2..] == "" && s[..0] == "";
    }
  }

  lemma {:induction false} PairsIgnoreOdd(s: string, n: nat)
    requires |s| <= 2 * n + 1 && 2 * n <= |s|
    ensures Pairs(s[..2 * n]) == Pairs(s)
    decreases n
  {
    if n > 0 {
      PairsIgnoreOdd(s[2..], n - 1);
      assert s[..2 * n][2..] == s[2..][..2 * (n - 1)];
      assert s[..2 * n][..2] == s[..2];
    }
  }

  method SplitPairs(s: string) returns (out: seq<string>)
    ensures out == Pairs(s)
    ensures |out| == |s| / 2 && forall k :: 0 <= k < |out| ==> out[k] == s[2 * k..2 * k + 2]
  {
    out := [];
    var i := 0;
    ghost var n := 0;
    while i + 2 <= |s|
      invariant i == 2 * n <= |s|
      invariant out == Pairs(s[..i])
      invariant |out| == n && forall k :: 0 <= k < n ==> out[k] == s[2 * k..2 * k + 2]
    {
      PairsAppend(s, n);
      out := out + [s[i..i + 2]];
      i := i + 2;
      n := n + 1;
    }
    PairsIgnoreOdd(s, n);
  }

  function At(parts: seq<string>, i: int): string {
    if i < 0 || i >= |parts| then "" else parts[i]
  }

  function Stamp(p: seq<string>): string {
    "20" + At(p, 0) + "/" + At(p, 1) + "/" + At(p, 2) + " " + At(p, 3) + ":" + At(p, 4) + ":" + At(p, 5)
  }

  /** fmt's %.1f of a number of tenths. */
  function Tenths(n: int): string {
    if n < 0 then "-" + PlainTenths(-n) else PlainTenths(n)
  }

  function PlainTenths(n: nat): string {
    Decimal(n / 10) + "." + [DigitChar(n % 10)]
  }

  function Times(f: Fields): string {
    if f.IsFinal() then " 第" + Signed(f.report.warnNum) + "報" + "(最終)"
    else " 第" + Signed(f.report.warnNum) + "報"
  }

  /** Everything before the link. */
  function Opening(f: Fields): string {
    Stamp(Pairs(f.header.warnTime)) + Times(f) + " (" + Stamp(Pairs(f.eqTime)) + "発生)"
  }

  function Uri(h: Hypocenter): string {
    "http://maps.google.com/maps?q=" + Tenths(h.lat) + "," + Tenths(h.lng)
  }

  function Label(h: Hypocenter): string {
    "N" + Tenths(h.lat) + "/E" + Tenths(h.lng)
  }

  /** Everything after the link. */
  function Closing(h: Hypocenter): string {
    "(" + h.centerName + ")深さ" + Signed(h.depth) + "km" + " 最大:M" + Tenths(h.magnitude) + " 震度" + h.shindo
  }

  function LinkText(h: Hypocenter): string {
    "<" + Uri(h) + "|" + Label(h) + ">"
  }

  /** The message around the place where the link, or its label, stands. */
  function Around(f: Fields, place: string): string {
    if f.IsCancellation() then Opening(f) + " 取り消されました"
    else Opening(f) + "震央:" + (place + Closing(f.hypocenter))
  }

  function FormattedText(f: Fields): string {
    Around(f, LinkText(f.hypocenter))
  }

  function FormattedTitle(f: Fields): string {
    if f.report.warnType != "" then f.report.warnType + "緊急地震速報" else "緊急地震速報"
  }

  method Format(f: Fields) returns (text: string, title: string)
    ensures text == FormattedText(f) && title == FormattedTitle(f)
  {
    hide Stamp, Tenths, Signed, Pairs;
    var warnParts := SplitPairs(f.header.warnTime);
    var eqParts := SplitPairs(f.eqTime);
    var warnmsg := Stamp(warnParts);
    var eqmsg := Stamp(eqParts);
    var times := " 第" + Signed(f.report.warnNum) + "報";
    if f.IsFinal() {
      times := times + "(最終)";
    }
    if f.IsCancellation() {
      text := warnmsg + times + " (" + eqmsg + "発生)" + " 取り消されました";
    } else {
      var h := f.hypocenter;
      text := warnmsg + times + " (" + eqmsg + "発生)" + "震央:" + (LinkText(h) + Closing(h));
    }
    title := "緊急地震速報";
    if f.report.warnType != "" {
      title := f.report.warnType + title;
    }
  }

  // ---------- no markup but the link ----------

  /** Free of the characters the link markup is made of. */
  predicate Clean(s: string) {
    '<' !in s && '|' !in s && '>' !in s
  }

  lemma CleanAppend(a: string, b: string)
    ensures Clean(a + b) <==> Clean(a) && Clean(b)
  {
    assert forall c :: c in a + b <==> c in a || c in b;
  }

  lemma CleanDigits(s: string)
    requires AllDigits(s)
    ensures Clean(s) && '\n' !in s
  {}

  predicate CleanTable(table: map<string, string>) {
    forall k :: k in table ==> Clean(table[k])
  }

  lemma CleanFromTable(table: map<string, string>, s: string)
    requires CleanTable(table) && FromTable(table, s)
    ensures Clean(s)
  {
    if s != "" {
      var k :| k in table && table[k] == s;
    }
  }

  lemma CleanTenths(n: nat)
    ensures Clean(Tenths(n)) && '\n' !in Tenths(n)
  {
    CleanDigits(Decimal(n / 10));
    CleanDigits([DigitChar(n % 10)]);
  }

  lemma CleanAt(s: string, i: int)
    requires AllDigits(s)
    ensures AllDigits(At(Pairs(s), i))
    decreases |s|
  {
    if |s| >= 2 && i > 0 {
      CleanAt(s[2..], i - 1);
    }
  }

  lemma CleanStamp(s: string)
    requires AllDigits(s)
    ensures Clean(Stamp(Pairs(s)))
  {
    var p := Pairs(s);
    forall i | 0 <= i < 6
      ensures Clean(At(p, i))
    {
      CleanAt(s, i);
      CleanDigits(At(p, i));
    }
    assert Clean(At(p, 0)) && Clean(At(p, 1)) && Clean(At(p, 2)) && Clean(At(p, 3)) && Clean(At(p, 4))
        && Clean(At(p, 5));
  }

  lemma CleanTimes(f: Fields)
    requires f.report.warnNum >= 0
    ensures Clean(Times(f))
  {
    hide Decimal;
    CleanDigits(Decimal(f.report.warnNum));
  }

  lemma CleanOpening(t: Tables, f: Fields)
    requires Ranges(t, f)
    ensures Clean(Opening(f))
  {
    CleanTimes(f);
    CleanWords();
    hide Stamp, Pairs, Times, Clean;
    CleanStamp(f.header.warnTime);
    CleanStamp(f.eqTime);
    var a, b := Stamp(Pairs(f.header.warnTime)), Stamp(Pairs(f.eqTime));
    CleanAppend(a, Times(f));
    CleanAppend(a + Times(f), " (");
    CleanAppend(a + Times(f) + " (", b);
    CleanAppend(a + Times(f) + " (" + b, "発生)");
  }

  lemma CleanWords()
    ensures Clean(" (") && Clean("発生)")
  {}

  lemma CleanLabel(h: Hypocenter)
    requires h.lat >= 0 && h.lng >= 0
    ensures Clean(Label(h)) && '\n' !in Label(h)
  {
    hide Tenths;
    CleanTenths(h.lat);
    CleanTenths(h.lng);
  }

  lemma PlainUri(h: Hypocenter)
    requires h.lat >= 0 && h.lng >= 0
    ensures '|' !in Uri(h) && '\n' !in Uri(h)
  {
    hide Tenths;
    CleanTenths(h.lat);
    CleanTenths(h.lng);
  }

  lemma CleanClosing(t: Tables, f: Fields)
    requires Ranges(t, f) && CleanTable(t.epicenter) && CleanTable(t.shindo)
    ensures Clean(Closing(f.hypocenter))
  {
    hide Tenths, Decimal, CleanTable, FromTable;
    var h := f.hypocenter;
    CleanFromTable(t.epicenter, h.centerName);
    CleanFromTable(t.shindo, h.shindo);
    CleanDigits(Decimal(h.depth));
    CleanTenths(h.magnitude);
  }

  /** For every raw telegram, stripping the formatted text leaves the same text with the link
      replaced by its label; no markup is left, and stripping again changes nothing. */
  lemma StripOfFormat(t: Tables, raw: string)
    requires CleanTable(t.epicenter) && CleanTable(t.shindo)
    ensures
      var f := Decoded(t, raw);
      var plain := StripLinks(FormattedText(f));
      && plain == Around(f, Label(f.hypocenter))
      && Clean(plain)
      && StripLinks(plain) == plain
  {
    hide Decoded, Opening, Closing, Label, Uri, CleanTable, Clean, StripLinks;
    DecodedRanges(t, raw);
    var f := Decoded(t, raw);
    var h := f.hypocenter;
    CleanOpening(t, f);
    CleanFixed();
    var plain := Around(f, Label(h));
    if f.IsCancellation() {
      CleanAppend(Opening(f), " 取り消されました");
      CleanHasNoBracket(plain);
      StripPlain(plain);
    } else {
      CleanClosing(t, f);
      CleanLabel(h);
      PlainUri(h);
      CleanAppend(Opening(f), "震央:");
      CleanAppend(Label(h), Closing(h));
      CleanAppend(Opening(f) + "震央:", Label(h) + Closing(h));
      CleanHasNoBracket(Opening(f) + "震央:");
      CleanHasNoBracket(Closing(h));
      CleanHasNoBracket(Label(h));
      CleanHasNoBracket(plain);
      StripPrefix(Opening(f) + "震央:", LinkText(h) + Closing(h));
      StripOne(Uri(h), Label(h), Closing(h));
      StripPlain(Closing(h));
      StripPlain(plain);
    }
  }

  lemma CleanFixed()
    ensures Clean(" 取り消されました") && Clean("震央:")
  {}

  lemma CleanHasNoBracket(s: string)
    requires Clean(s)
    ensures '<' !in s && '>' !in s
  {}
}
