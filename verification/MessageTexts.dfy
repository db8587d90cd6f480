/** The messages, spelled out (internal/eewmsg/format.go, internal/irc/link.go). */
module MessageTexts {
  import opened Text
  import opened Decoder
  import opened DecoderFacts
  import opened Messages
  import opened MessageReading

  // ---------- the parts ----------

  /** YYMMDDhhmmss as a date and a time. A time that no line has set leaves the separators. */
  function Date(time: string): string {
    if |time| == 12 then
      "20" + time[..2] + "/" + time[2..4] + "/" + time[4..6] + " " + time[6..8] + ":" + time[8..10] + ":" + time[10..12]
    else "20// ::"
  }

  function OneDecimal(n: nat): string {
    Decimal(n / 10) + "." + Decimal(n % 10)
  }

  lemma StampReads(time: string)
    requires time == "" || |time| == 12
    ensures Stamp(Pairs(time)) == Date(time)
  {
    forall i | 0 <= i < 6
      ensures At(Pairs(time), i) == if time == "" then "" else time[2 * i..2 * i + 2]
    {
      AtPairs(time, i);
    }
    hide Pairs, At;
    assert At(Pairs(time), 0) == if time == "" then "" else time[..2];
    assert At(Pairs(time), 1) == if time == "" then "" else time[2..4];
    assert At(Pairs(time), 2) == if time == "" then "" else time[4..6];
    assert At(Pairs(time), 3) == if time == "" then "" else time[6..8];
    assert At(Pairs(time), 4) == if time == "" then "" else time[8..10];
    assert At(Pairs(time), 5) == if time == "" then "" else time[10..12];
    if time == "" {
      assert Stamp(Pairs(time)) == "20// ::";
    }
  }

  lemma TenthsReads(n: nat)
    ensures Tenths(n) == OneDecimal(n)
  {}

  // ---------- the text ----------

  /** What a reader finds in a message: the two times, the number, whether the report is final, and then
      either that it is cancelled or the place, name, depth, magnitude and intensity. */
  predicate Reads(text: string, f: Fields, place: string) {
    var r, h := f.report, f.hypocenter;
    && r.warnNum >= 0 && h.depth >= 0 && h.magnitude >= 0
    && text == Date(f.header.warnTime) + " 第" + Decimal(r.warnNum) + (if r.ncnType > 0 then "報(最終)" else "報")
               + " (" + Date(f.eqTime) + "発生)"
               + if f.header.msgTypeCode == 10 then " 取り消されました"
                 else "震央:" + place + "(" + h.centerName + ")深さ" + Decimal(h.depth)
                      + "km 最大:M" + OneDecimal(h.magnitude) + " 震度" + h.shindo
  }

  lemma OpeningReads(t: Tables, f: Fields)
    requires Ranges(t, f)
    ensures Opening(f) == Date(f.header.warnTime) + " 第" + Decimal(f.report.warnNum)
                          + (if f.report.ncnType > 0 then "報(最終)" else "報") + " (" + Date(f.eqTime) + "発生)"
  {
    hide Stamp, Pairs, Date, Decimal, FromTable;
    StampReads(f.header.warnTime);
    StampReads(f.eqTime);
    var a, n := Date(f.header.warnTime), Decimal(f.report.warnNum);
    assert "報" + "(最終)" == "報(最終)";
    assert a + (" 第" + n + "報" + "(最終)") == a + " 第" + n + "報(最終)";
    assert a + (" 第" + n + "報") == a + " 第" + n + "報";
    assert a + Times(f) == a + " 第" + n + (if f.report.ncnType > 0 then "報(最終)" else "報");
    hide Times;
  }

  lemma ClosingReads(place: string, h: Hypocenter)
    requires h.depth >= 0 && h.magnitude >= 0
    ensures "震央:" + (place + Closing(h))
            == "震央:" + place + "(" + h.centerName + ")深さ" + Decimal(h.depth)
               + "km 最大:M" + OneDecimal(h.magnitude) + " 震度" + h.shindo
  {
    TenthsReads(h.magnitude);
    hide Tenths, OneDecimal, Decimal;
    assert "km" + " 最大:M" == "km 最大:M";
  }

  lemma AroundReads(t: Tables, f: Fields, place: string)
    requires Ranges(t, f)
    ensures Reads(Around(f, place), f, place)
  {
    OpeningReads(t, f);
    ClosingReads(place, f.hypocenter);
    hide Opening, Closing, Date, Decimal, OneDecimal, FromTable;
  }

  lemma LinkReads(h: Hypocenter)
    requires h.lat >= 0 && h.lng >= 0
    ensures Label(h) == "N" + OneDecimal(h.lat) + "/E" + OneDecimal(h.lng)
    ensures LinkText(h) == "<http://maps.google.com/maps?q=" + OneDecimal(h.lat) + "," + OneDecimal(h.lng)
                           + "|N" + OneDecimal(h.lat) + "/E" + OneDecimal(h.lng) + ">"
  {
    hide Tenths, OneDecimal;
    TenthsReads(h.lat);
    TenthsReads(h.lng);
    assert "<" + "http://maps.google.com/maps?q=" == "<http://maps.google.com/maps?q=";
    assert "|" + "N" == "|N";
  }

  /** The message for Slack of any raw telegram, and its title. */
  lemma SlackTextReads(t: Tables, raw: string)
    ensures
      var f := Decoded(t, raw);
      && f.hypocenter.lat >= 0 && f.hypocenter.lng >= 0
      && var lat, lng := OneDecimal(f.hypocenter.lat), OneDecimal(f.hypocenter.lng);
      && Reads(FormattedText(f), f,
               "<http://maps.google.com/maps?q=" + lat + "," + lng + "|N" + lat + "/E" + lng + ">")
      && FormattedTitle(f) == f.report.warnType + "緊急地震速報"
  {
    hide Decoded, Around, Reads, LinkText, OneDecimal;
    DecodedRanges(t, raw);
    var f := Decoded(t, raw);
    LinkReads(f.hypocenter);
    AroundReads(t, f, LinkText(f.hypocenter));
  }

  /** The message that IRC gets: the same with the link's label in its place. */
  lemma IrcTextReads(t: Tables, raw: string)
    requires CleanTable(t.epicenter) && CleanTable(t.shindo)
    ensures
      var f := Decoded(t, raw);
      && f.hypocenter.lat >= 0 && f.hypocenter.lng >= 0
      && Reads(StripLinks(FormattedText(f)), f,
               "N" + OneDecimal(f.hypocenter.lat) + "/E" + OneDecimal(f.hypocenter.lng))
  {
    hide Decoded, Around, Reads, Label, OneDecimal, StripLinks, CleanTable;
    DecodedRanges(t, raw);
    StripOfFormat(t, raw);
    var f := Decoded(t, raw);
    LinkReads(f.hypocenter);
    AroundReads(t, f, Label(f.hypocenter));
  }

  // ---------- cancellations ----------

  predicate EndsWith(s: string, end: string) {
    |s| >= |end| && s[|s| - |end|..] == end
  }

  lemma EndOfEnd(a: string, b: string, end: string)
    requires |b| >= |end|
    ensures EndsWith(a + b, end) <==> EndsWith(b, end)
  {
    assert (a + b)[|a + b| - |end|..] == b[|b| - |end|..];
  }

  /** A text that ends in an intensity ends in the words of a cancellation only if the intensity does. */
  lemma IntensityEnds(a: string, shindo: string)
    ensures EndsWith(a + "震度" + shindo, " 取り消されました") <==> EndsWith(shindo, " 取り消されました")
  {
    var end := " 取り消されました";
    var s := a + "震度" + shindo;
    if |shindo| >= 9 {
      EndOfEnd(a + "震度", shindo, end);
    } else if |s| >= 9 {
      var k := 8 - |shindo|;
      assert s[|s| - 9..][k] == s[|a| + 1] == '度';
      assert end[k] != '度';
    }
  }

  lemma CancelledReads(text: string, f: Fields, place: string)
    requires Reads(text, f, place)
    ensures EndsWith(text, " 取り消されました") <==>
              f.header.msgTypeCode == 10 || EndsWith(f.hypocenter.shindo, " 取り消されました")
  {
    var end := " 取り消されました";
    var r, h := f.report, f.hypocenter;
    var opening := Date(f.header.warnTime) + " 第" + Decimal(r.warnNum)
                   + (if r.ncnType > 0 then "報(最終)" else "報") + " (" + Date(f.eqTime) + "発生)";
    if f.header.msgTypeCode == 10 {
      EndOfEnd(opening, end, end);
      assert end[0..] == end;
    } else {
      hide EndsWith, Date, Decimal, OneDecimal;
      var a := opening + ("震央:" + place + "(" + h.centerName + ")深さ" + Decimal(h.depth)
                          + "km 最大:M" + OneDecimal(h.magnitude) + " ");
      assert " " + "震度" == " 震度";
      assert text == a + "震度" + h.shindo;
      IntensityEnds(a, h.shindo);
    }
  }

  /** Whatever the telegram, its message ends in the words of a cancellation if and only if its type is
      10, for Slack and for IRC, as long as no intensity is itself named by a text with that end. */
  lemma OnlyCancellationsSaySo(t: Tables, raw: string)
    requires CleanTable(t.epicenter) && CleanTable(t.shindo)
    requires forall k :: k in t.shindo ==> !EndsWith(t.shindo[k], " 取り消されました")
    ensures
      var f := Decoded(t, raw);
      && (EndsWith(FormattedText(f), " 取り消されました") <==> f.header.msgTypeCode == 10)
      && (EndsWith(StripLinks(FormattedText(f)), " 取り消されました") <==> f.header.msgTypeCode == 10)
  {
    hide Decoded, Reads, StripLinks, FormattedText, EndsWith, CleanTable, OneDecimal;
    SlackTextReads(t, raw);
    IrcTextReads(t, raw);
    DecodedRanges(t, raw);
    var f := Decoded(t, raw);
    var lat, lng := OneDecimal(f.hypocenter.lat), OneDecimal(f.hypocenter.lng);
    CancelledReads(FormattedText(f), f,
                   "<http://maps.google.com/maps?q=" + lat + "," + lng + "|N" + lat + "/E" + lng + ">");
    CancelledReads(StripLinks(FormattedText(f)), f, "N" + lat + "/E" + lng);
    ShindoEnds(t, f);
  }

  lemma ShindoEnds(t: Tables, f: Fields)
    requires Ranges(t, f) && forall k :: k in t.shindo ==> !EndsWith(t.shindo[k], " 取り消されました")
    ensures !EndsWith(f.hypocenter.shindo, " 取り消されました")
  {
    var s := f.hypocenter.shindo;
    if s != "" {
      var k :| k in t.shindo && t.shindo[k] == s;
    }
  }

  // ---------- links ----------

  /** A '<' with which no link begins stays, and the search goes on behind it. */
  lemma NoLinkStays(s: string)
    requires s != "" && s[0] == '<'
    requires !exists b: nat, e: nat ::
               1 <= b < e < |s| && s[b] == '|' && s[e] == '>' && forall k :: 0 < k < e ==> s[k] as int != 10
    ensures StripLinks(s) == "<" + StripLinks(s[1..])
  {
    LazyMatch(s);
    hide Bar, Bracket;
    assert forall b: nat, e: nat :: !LinkMatch(s, b, e);
  }
}
