/** Decoding a printed telegram gives back its values (internal/decoder/decoder.go). */
module TelegramRoundTrip {
  import opened Text
  import opened Decoder
  import opened DecoderFacts
  import opened TelegramText

  // ---------- EBI lines ----------

  lemma AreaLayout(a: AreaText)
    requires AreaShaped(a)
    ensures
      var s := Flatten(AreaParts(a));
      && |s| == 19 && MatchesAt(EbiRE, s, 0)
      && s[0..3] == a.area && s[5..7] == a.s1 && s[7..9] == a.s2 && s[10..16] == a.time && s[17..19] == a.flags
  {
    hide Offset, Flatten;
    var ps := AreaParts(a);
    var s := Flatten(ps);
    AllOffsets(ps);
    assert |ps[0]| == 3 && |ps[1]| == |ps[2]| == |ps[3]| == |ps[7]| == 2;
    assert |ps[4]| == |ps[6]| == 1 && |ps[5]| == 6;
    assert |s| == 19;
    hide AreaParts;
    AllParts(ps);
    PieceOfClass(s, 0, 3, Digit);
    PieceStart(s, 3, " S");
    PieceOfClass(s, 5, 7, Level);
    PieceOfClass(s, 7, 9, OpenLevel);
    PieceStart(s, 9, " ");
    PieceOfClass(s, 10, 16, Slashed);
    PieceStart(s, 16, " ");
    PieceOfClass(s, 17, 19, Bit);
  }

  lemma PieceOfPiece(s: string, i: nat, piece: string, lo: nat, hi: nat)
    requires i + |piece| <= |s| && s[i..i + |piece|] == piece && lo <= hi <= |piece|
    ensures s[i + lo..i + hi] == piece[lo..hi]
  {
    forall k | 0 <= k < hi - lo
      ensures s[i + lo..i + hi][k] == piece[lo..hi][k]
    {
      assert s[i..i + |piece|][lo + k] == s[i + (lo + k)];
    }
  }

  /** A pattern's match depends only on the characters it covers. */
  lemma EbiMatchMoves(s: string, i: nat, piece: string)
    requires |piece| == 19 && MatchesAt(EbiRE, piece, 0)
    requires i + 19 <= |s| && s[i..i + 19] == piece
    ensures MatchesAt(EbiRE, s, i)
  {
    forall j | i <= j < i + 19
      ensures s[j] == piece[j - i]
    {
      assert s[i..i + 19][j - i] == s[j];
    }
    assert s[i + 3] == piece[3] && s[i + 4] == piece[4] && s[i + 9] == piece[9] && s[i + 16] == piece[16];
  }

  lemma SearchHere(p: Pattern, s: string, i: nat)
    requires i < |s| && MatchesAt(p, s, i)
    ensures Search(p, s, i) == i
  {
    hide MatchesAt;
  }

  lemma SearchSkips(p: Pattern, s: string, i: nat)
    requires i < |s| && !MatchesAt(p, s, i)
    ensures Search(p, s, i) == Search(p, s, i + 1)
  {
    hide MatchesAt;
  }

  lemma EntriesSkip(t: Tables, s: string, i: nat, m: map<string, EBIEntry>)
    requires i < |s| && !IsDigit(s[i])
    ensures Search(EbiRE, s, i) == Search(EbiRE, s, i + 1)
    ensures Entries(t, s, i, m) == Entries(t, s, i + 1, m)
  {
    assert !Is(s[i], Digit);
    SearchSkips(EbiRE, s, i);
  }

  lemma EntriesAtEnd(t: Tables, s: string, m: map<string, EBIEntry>)
    ensures Entries(t, s, |s|, m) == m
  {}

  lemma EntryHere(t: Tables, s: string, i: nat, piece: string, a: AreaText)
    requires |piece| == 19 && i + 19 <= |s| && s[i..i + 19] == piece && MatchesAt(EbiRE, s, i)
    requires piece[0..3] == a.area && piece[5..7] == a.s1 && piece[7..9] == a.s2
    requires piece[10..16] == a.time && piece[17..19] == a.flags
    ensures s[i..i + 3] == a.area && EntryAt(t, s, i) == EntryOf(t, a)
  {
    hide MatchesAt, Look, CharAt;
    PieceOfPiece(s, i, piece, 0, 3);
    PieceOfPiece(s, i, piece, 5, 7);
    PieceOfPiece(s, i, piece, 7, 9);
    PieceOfPiece(s, i, piece, 10, 16);
    PieceOfPiece(s, i, piece, 17, 19);
    assert i + 0 == i;
  }

  lemma EntriesTake(t: Tables, s: string, i: nat, a: AreaText, m: map<string, EBIEntry>)
    requires AreaShaped(a) && i + 19 <= |s| && s[i..i + 19] == Flatten(AreaParts(a))
    ensures Search(EbiRE, s, i) == i
    ensures Entries(t, s, i, m)
            == Entries(t, s, i + 19, m[a.area := EntryOf(t, a)])
  {
    AreaLayout(a);
    hide Flatten, AreaParts;
    var piece := Flatten(AreaParts(a));
    EbiMatchMoves(s, i, piece);
    EntryHere(t, s, i, piece, a);
    hide MatchesAt, EntryAt, EntryOf;
    SearchHere(EbiRE, s, i);
  }

  lemma AreasHead(areas: seq<AreaText>)
    requires areas != []
    ensures
      var head := Flatten(AreaParts(areas[0]));
      Areas(areas) == if |areas| == 1 then head else head + " " + Areas(areas[1..])
  {}

  /** FindAll picks up every area of the rest of the line, in order. */
  lemma {:induction false} EntriesOfAreas(t: Tables, s: string, i: nat, areas: seq<AreaText>, m: map<string, EBIEntry>)
    requires EbiShaped(areas) && i <= |s| && s[i..] == Areas(areas)
    ensures Search(EbiRE, s, i) == i
    ensures Entries(t, s, i, m) == PutAreas(t, areas, m)
    decreases |areas|
  {
    var a := areas[0];
    var head := Flatten(AreaParts(a));
    AreaLayout(a);
    AreasHead(areas);
    hide Flatten, AreaParts, Areas, MatchesAt, EntryOf, Entries, AreaShaped;
    assert s[i..i + 19] == s[i..][..19] == head;
    EntriesTake(t, s, i, a, m);
    var m' := m[a.area := EntryOf(t, a)];
    if |areas| == 1 {
      assert |s| == i + 19;
      EntriesAtEnd(t, s, m');
      assert areas[1..] == [];
    } else {
      assert s[i + 19] == s[i..][19] == ' ';
      EntriesSkip(t, s, i + 19, m');
      assert s[i + 20..] == s[i..][20..] == Areas(areas[1..]);
      EntriesOfAreas(t, s, i + 20, areas[1..], m');
    }
  }

  lemma AreaLetters(s: string)
    requires |s| == 19 && MatchesAt(EbiRE, s, 0)
    ensures 'C' !in s && 'N' !in s && '\r' !in s && '\n' !in s
  {
    forall j | 0 <= j < 19
      ensures s[j] != 'C' && s[j] != 'N' && s[j] != '\r' && s[j] != '\n'
    {
      if j < 3 { assert Is(s[j], Digit); }
      else if 5 <= j < 7 { assert Is(s[j], Level); }
      else if 7 <= j < 9 { assert Is(s[j], OpenLevel); }
      else if 10 <= j < 16 { assert Is(s[j], Slashed); }
      else if 17 <= j { assert Is(s[j], Bit); }
    }
  }

  lemma {:induction false} AreasLetters(areas: seq<AreaText>)
    requires EbiShaped(areas)
    ensures
      var s := Areas(areas);
      'C' !in s && 'N' !in s && '\r' !in s && '\n' !in s && |s| >= 19 && s[3] == ' '
    decreases |areas|
  {
    var head := Flatten(AreaParts(areas[0]));
    AreaLayout(areas[0]);
    AreaLetters(head);
    AreasHead(areas);
    hide Flatten, AreaParts, Areas;
    if |areas| > 1 {
      AreasLetters(areas[1..]);
    }
  }

  lemma EbiEntries(t: Tables, tag: string, areas: seq<AreaText>, m: map<string, EBIEntry>)
    requires EbiShaped(areas) && (tag == "" || tag == "EBI ")
    ensures
      var s := tag + Areas(areas);
      Search(EbiRE, s, 0) >= 0 && Entries(t, s, 0, m) == PutAreas(t, areas, m)
  {
    hide Areas, MatchesAt, Entries, PutAreas, EbiShaped, Search;
    var s := tag + Areas(areas);
    assert s[|tag|..] == Areas(areas);
    EntriesOfAreas(t, s, |tag|, areas, m);
    if tag != "" {
      assert s[0] == 'E' && s[1] == 'B' && s[2] == 'I' && s[3] == ' ';
      EntriesSkip(t, s, 0, m);
      EntriesSkip(t, s, 1, m);
      EntriesSkip(t, s, 2, m);
      EntriesSkip(t, s, 3, m);
    }
  }

  lemma EbiIsNothingElse(tag: string, areas: seq<AreaText>)
    requires EbiShaped(areas) && (tag == "" || tag == "EBI ")
    ensures
      var s := tag + Areas(areas);
      && IsLine(s) && !IsEqTime(s)
      && Search(HeaderRE, s, 0) < 0 && Search(NdRE, s, 0) < 0 && Search(HypocenterRE, s, 0) < 0
  {
    AreasLetters(areas);
    hide Areas, MatchesAt, EbiShaped;
    var s := tag + Areas(areas);
    assert 'C' !in s && 'N' !in s && '\r' !in s && '\n' !in s;
    NoPatternWithout(s);
    if tag == "" {
      assert s == Areas(areas);
      assert !Is(s[3], Digit);
    } else {
      assert !Is(s[0], Digit);
    }
  }

  lemma EbiDecodes(t: Tables, f: Fields, tag: string, areas: seq<AreaText>)
    requires EbiShaped(areas) && (tag == "" || tag == "EBI ")
    ensures
      var s := tag + Areas(areas);
      && KindOf(s) == EbiKind && ApplyLine(t, f, s) == f.(ebi := PutAreas(t, areas, f.ebi))
      && IsLine(s)
  {
    EbiEntries(t, tag, areas, f.ebi);
    EbiIsNothingElse(tag, areas);
    hide Areas, MatchesAt, Entries, PutAreas, EbiShaped, Search, IsLine, IsEqTime;
  }

  // ---------- lines and the raw bytes ----------

  /** A line proper: not empty, without CR and LF. */
  predicate IsLine(s: string) {
    s != "" && forall i :: 0 <= i < |s| ==> !IsBreak(s[i])
  }

  function Unlines(lines: seq<string>): string {
    if lines == [] then "" else lines[0] + "\n" + Unlines(lines[1..])
  }

  lemma {:induction false} LineLengthIs(s: string, rest: string)
    requires forall i :: 0 <= i < |s| ==> !IsBreak(s[i])
    ensures LineLength(s + "\n" + rest) == |s|
  {
    if s != "" {
      LineLengthIs(s[1..], rest);
      assert (s + "\n" + rest)[1..] == s[1..] + "\n" + rest;
    }
  }

  lemma {:induction false} SplitUnlines(lines: seq<string>)
    requires forall i :: 0 <= i < |lines| ==> IsLine(lines[i])
    ensures SplitLines(Unlines(lines)) == lines
  {
    if lines != [] {
      var line, rest := lines[0], Unlines(lines[1..]);
      var s := line + "\n" + rest;
      assert !IsBreak(s[0]);
      LineLengthIs(line, rest);
      var more := s[|line|..];
      assert more == "\n" + rest && more[1..] == rest;
      assert s[..|line|] == line;
      SplitUnlines(lines[1..]);
    }
  }

  // ---------- the whole telegram ----------

  lemma FoldOne(t: Tables, f: Fields, line: string)
    ensures Fold(t, f, [line]) == ApplyLine(t, f, line)
  {
    assert [line][..0] == [];
  }

  lemma {:induction false} FoldAppend(t: Tables, f: Fields, a: seq<string>, b: seq<string>)
    ensures Fold(t, f, a + b) == Fold(t, Fold(t, f, a), b)
    decreases |b|
  {
    hide ApplyLine;
    if b == [] {
      assert a + b == a;
    } else {
      var front := b[..|b| - 1];
      assert (a + b)[..|a + b| - 1] == a + front;
      FoldAppend(t, f, a, front);
    }
  }

  lemma {:induction false} FoldInert(t: Tables, f: Fields, lines: seq<string>)
    requires forall i :: 0 <= i < |lines| ==> KindOf(lines[i]) == NoKind
    ensures Fold(t, f, lines) == f
  {
    hide KindOf;
    if lines != [] {
      FoldInert(t, f, lines[..|lines| - 1]);
    }
  }

  lemma {:induction false} EbiLinesDecode(t: Tables, f: Fields, ebi: seq<seq<AreaText>>, tag: string)
    requires forall i :: 0 <= i < |ebi| ==> EbiShaped(ebi[i])
    requires tag == "" || tag == "EBI "
    ensures Fold(t, f, EbiLines(ebi, tag)) == f.(ebi := PutLines(t, ebi, f.ebi))
    ensures forall i :: 0 <= i < |EbiLines(ebi, tag)| ==> IsLine(EbiLines(ebi, tag)[i])
    decreases |ebi|
  {
    hide ApplyLine, PutAreas, Areas, IsLine;
    if ebi != [] {
      var line, rest := tag + Areas(ebi[0]), EbiLines(ebi[1..], "");
      EbiDecodes(t, f, tag, ebi[0]);
      var g := ApplyLine(t, f, line);
      EbiLinesDecode(t, g, ebi[1..], "");
      FoldAppend(t, f, [line], rest);
      FoldOne(t, f, line);
    }
  }

  lemma HypocenterIsLine(h: HypocenterText)
    requires HypocenterShaped(h)
    ensures IsLine(Flatten(HypocenterParts(h)))
  {
    HypocenterMatches(h);
    HypocenterLetters(Flatten(HypocenterParts(h)));
  }

  lemma HeaderIsLine(h: HeaderText)
    requires HeaderShaped(h)
    ensures IsLine(Flatten(HeaderParts(h)))
  {
    HeaderLayout(h);
    hide Flatten, HeaderParts;
    var s := Flatten(HeaderParts(h));
    forall j | 0 <= j < 25
      ensures !IsBreak(s[j])
    {
      if j < 2 { assert Is(s[j], Digit); }
      else if 3 <= j < 5 { assert Is(s[j], Digit); }
      else if 6 <= j < 8 { assert Is(s[j], Digit); }
      else if 9 <= j < 21 { assert Is(s[j], Digit); }
      else if 23 <= j { assert Is(s[j], Digit); }
    }
  }

  lemma ReportIsLine(r: ReportText)
    requires ReportShaped(r)
    ensures IsLine(Flatten(ReportParts(r)))
  {
    ReportLayout(r);
    ReportMatches(r);
    hide Flatten, ReportParts;
    var s, e := Flatten(ReportParts(r)), 17 + |r.warnCode|;
    PieceChars(s, e + 3, r.tail);
    forall j | 0 <= j < |s|
      ensures !IsBreak(s[j])
    {
      if 2 <= j < 16 { assert Is(s[j], Digit); }
      else if 17 <= j < e { assert Is(s[j], Upper); }
      else if e <= j < e + 3 { assert Is(s[j], Digit); }
      else if e + 3 <= j { assert s[e + 3 + (j - e - 3)] == r.tail[j - e - 3]; }
    }
  }

  /** Each line of a printed telegram is a line proper, and together they decode to its
      meaning. */
  lemma LinesDecode(t: Tables, x: Bulletin)
    requires Shaped(x)
    ensures Fold(t, BLANK, BulletinLines(x)) == Meaning(t, x)
    ensures forall i :: 0 <= i < |BulletinLines(x)| ==> IsLine(BulletinLines(x)[i])
  {
    hide ApplyLine, IsLine, Flatten, HeaderParts, ReportParts, HypocenterParts, HeaderShaped, ReportShaped,
      HypocenterShaped, EbiShaped, HoldsHeader, KindOf, PutLines, HeaderValue, ReportValue, HypocenterValue;
    var l1, l2, l3 := Flatten(HeaderParts(x.header)), x.eqTime, Flatten(ReportParts(x.report));
    var l4 := if x.hypocenter.Some? then [Flatten(HypocenterParts(x.hypocenter.value))] else [];
    var l5 := EbiLines(x.ebi, "EBI ");
    var f1 := BLANK.(header := HeaderValue(t, x.header));
    var f2 := f1.(eqTime := x.eqTime);
    var f3 := f2.(report := ReportValue(t, x.report));
    var f4 := if x.hypocenter.Some? then f3.(hypocenter := HypocenterValue(t, x.hypocenter.value)) else f3;
    HeaderDecodes(t, BLANK, x.header);
    EqTimeDecodes(t, f1, x.eqTime);
    ReportDecodes(t, f2, x.report);
    FoldOne(t, BLANK, l1);
    FoldOne(t, f1, l2);
    FoldOne(t, f2, l3);
    FoldAppend(t, BLANK, [l1], [l2]);
    FoldAppend(t, BLANK, [l1] + [l2], [l3]);
    FoldAppend(t, BLANK, [l1] + [l2] + [l3], l4);
    FoldAppend(t, BLANK, [l1] + [l2] + [l3] + l4, l5);
    assert BulletinLines(x) == [l1] + [l2] + [l3] + l4 + l5;
    if x.hypocenter.Some? {
      HypocenterDecodes(t, f3, x.hypocenter.value);
      FoldOne(t, f3, l4[0]);
      HypocenterIsLine(x.hypocenter.value);
    }
    EbiLinesDecode(t, f4, x.ebi, "EBI ");
    HeaderIsLine(x.header);
    TimeIsLine(x.eqTime);
    ReportIsLine(x.report);
  }

  lemma TimeIsLine(s: string)
    requires Of(s, 12, Digit)
    ensures IsLine(s)
  {
    assert forall i :: 0 <= i < |s| ==> Is(s[i], Digit);
  }

  /** Lines that no pattern matches may stand before and after the telegram. */
  predicate Inert(lines: seq<string>) {
    forall i :: 0 <= i < |lines| ==> IsLine(lines[i]) && KindOf(lines[i]) == NoKind
  }

  /** Decoding undoes printing, for every well-shaped telegram. */
  lemma DecodeOfPrinted(t: Tables, x: Bulletin, pre: seq<string>, post: seq<string>)
    requires Shaped(x) && Inert(pre) && Inert(post)
    ensures Decoded(t, Unlines(pre + BulletinLines(x) + post)) == Meaning(t, x)
  {
    hide Shaped, BulletinLines, KindOf, IsLine;
    LinesDecode(t, x);
    var all := pre + BulletinLines(x) + post;
    SplitUnlines(all);
    FoldAppend(t, BLANK, pre + BulletinLines(x), post);
    FoldAppend(t, BLANK, pre, BulletinLines(x));
    FoldInert(t, BLANK, pre);
    FoldInert(t, Meaning(t, x), post);
  }

  /** The order in which the kinds of lines come does not matter either. */
  lemma DecodeOfShuffled(t: Tables, x: Bulletin, lines: seq<string>)
    requires Shaped(x) && forall i :: 0 <= i < |lines| ==> IsLine(lines[i])
    requires forall k :: k != NoKind ==> OfKind(lines, k) == OfKind(BulletinLines(x), k)
    ensures Decoded(t, Unlines(lines)) == Meaning(t, x)
  {
    hide Shaped, BulletinLines, KindOf, IsLine;
    SplitUnlines(lines);
    LinesDecode(t, x);
    KindsAreIndependent(t, BLANK, lines, BulletinLines(x));
  }

  // ---------- repeated areas ----------

  predicate IsLastOf(areas: seq<AreaText>, i: nat) {
    i < |areas| && forall j :: i < j < |areas| ==> areas[j].area != areas[i].area
  }

  /** For every area reported, its last entry stands; nothing else changes. */
  lemma {:induction false} LaterAreasWin(t: Tables, areas: seq<AreaText>, m: map<string, EBIEntry>, area: string)
    ensures
      var r := PutAreas(t, areas, m);
      && (forall i :: 0 <= i < |areas| && areas[i].area == area && IsLastOf(areas, i) ==>
            area in r && r[area] == EntryOf(t, areas[i]))
      && ((forall i :: 0 <= i < |areas| ==> areas[i].area != area) ==>
            (area in r <==> area in m) && (area in m ==> r[area] == m[area]))
    decreases |areas|
  {
    hide EntryOf;
    if areas != [] {
      var a, rest := areas[0], areas[1..];
      LaterAreasWin(t, rest, m[a.area := EntryOf(t, a)], area);
      forall i | 0 <= i < |areas| && areas[i].area == area && IsLastOf(areas, i)
        ensures
          var r := PutAreas(t, areas, m);
          area in r && r[area] == EntryOf(t, areas[i])
      {
        assert forall j :: 0 <= j < |rest| ==> rest[j] == areas[j + 1];
        if i > 0 {
          assert rest[i - 1].area == area && IsLastOf(rest, i - 1);
        }
      }
    }
  }

  lemma {:induction false} PutAreasAppend(t: Tables, a: seq<AreaText>, b: seq<AreaText>, m: map<string, EBIEntry>)
    ensures PutAreas(t, a + b, m) == PutAreas(t, b, PutAreas(t, a, m))
    decreases |a|
  {
    hide EntryOf;
    if a == [] {
      assert a + b == b;
    } else {
      assert (a + b)[1..] == a[1..] + b;
      var h := a[0];
      PutAreasAppend(t, a[1..], b, m[h.area := EntryOf(t, h)]);
    }
  }

  /** The division into EBI lines does not matter. */
  lemma {:induction false} EbiLinesAreOneList(t: Tables, ebi: seq<seq<AreaText>>, m: map<string, EBIEntry>)
    ensures PutLines(t, ebi, m) == PutAreas(t, Concat(ebi), m)
    decreases |ebi|
  {
    hide PutAreas;
    if ebi == [] {
      NoAreas(t, m);
    } else {
      EbiLinesAreOneList(t, ebi[1..], PutAreas(t, ebi[0], m));
      PutAreasAppend(t, ebi[0], Concat(ebi[1..]), m);
    }
  }

  lemma NoAreas(t: Tables, m: map<string, EBIEntry>)
    ensures PutAreas(t, [], m) == m
  {}

  // ---------- field by field ----------

  lemma TenIsCancellation(kind: string)
    requires Of(kind, 2, Digit)
    ensures AllDigits(kind) && (Value(kind) == 10 <==> kind == "10")
  {
    assert Is(kind[0], Digit) && Is(kind[1], Digit);
    var f := kind[..1];
    assert f[..0] == "" && Value(f) == f[0] as int - 48;
    assert Value(kind) == 10 * (kind[0] as int - 48) + (kind[1] as int - 48);
    assert kind == [kind[0], kind[1]];
  }

  /** What a printed telegram decodes to, field by field. A telegram of type 10, and no other, is a
      cancellation; one with a revision digit above 0, and no other, is final. */
  lemma PrintedReads(t: Tables, x: Bulletin, pre: seq<string>, post: seq<string>)
    requires Shaped(x) && Inert(pre) && Inert(post)
    ensures
      var d, h, r := Decoded(t, Unlines(pre + BulletinLines(x) + post)), x.header, x.report;
      && d.header.code == h.code && d.header.codeType == (if h.code in t.codeType then t.codeType[h.code] else "")
      && d.header.sectionCode == h.section
      && d.header.section == (if h.section in t.section then t.section[h.section] else "")
      && AllDigits(h.msgType) && d.header.msgTypeCode == Value(h.msgType)
      && d.header.msgType == (if h.msgType in t.msgType then t.msgType[h.msgType] else "")
      && d.header.warnTime == h.warnTime && d.header.commandCode == h.command
      && d.eqTime == x.eqTime
      && d.report.eqID == r.eqID && d.report.warnCode == r.warnCode
      && d.report.warnType == (if r.warnCode in t.warnType then t.warnType[r.warnCode] else "")
      && d.report.ncnType == r.ncn && d.report.warnNum == r.num
      && (d.IsCancellation() <==> h.msgType == "10")
      && (d.IsFinal() <==> r.ncn > 0)
  {
    DecodeOfPrinted(t, x, pre, post);
    TenIsCancellation(x.header.msgType);
    hide HypocenterValue, BulletinLines, Inert, KindOf, PutLines, Value, AllDigits;
  }

  /** The hypocenter: the digits that are printed, 0 for a number that is not set, and what the tables
      say of the codes. */
  lemma PrintedHypocenterReads(t: Tables, x: Bulletin, pre: seq<string>, post: seq<string>)
    requires Shaped(x) && Inert(pre) && Inert(post) && x.hypocenter.Some?
    ensures
      var d, h := Decoded(t, Unlines(pre + BulletinLines(x) + post)).hypocenter, x.hypocenter.value;
      && |h.rk| == |h.rt| == 5
      && var center, deep, strong, sea := h.rk[..1], h.rk[1..2], h.rk[2..3], h.rt[..1];
      && d.centerCode == h.code && d.centerName == (if h.code in t.epicenter then t.epicenter[h.code] else "")
      && d.lat == (if h.lat.Some? then h.lat.value else 0) && d.lng == (if h.lng.Some? then h.lng.value else 0)
      && d.depth == (if h.depth.Some? then h.depth.value else 0)
      && d.magnitude == (if h.magnitude.Some? then h.magnitude.value else 0)
      && d.shindoCode == h.shindo && d.shindo == (if h.shindo in t.shindo then t.shindo[h.shindo] else "")
      && d.centerAccurateCode == center && d.centerAccurate == (if center in t.rk1 then t.rk1[center] else "")
      && d.depthAccurateCode == deep && d.depthAccurate == (if deep in t.rk2 then t.rk2[deep] else "")
      && d.magnitudeAccurateCode == strong && d.magnitudeAccurate == (if strong in t.rk3 then t.rk3[strong] else "")
      && d.isSeaCode == sea && d.isSea == (if sea in t.rt1 then t.rt1[sea] else "")
      && d.isWarnded == h.rt[1..2]
  {
    DecodeOfPrinted(t, x, pre, post);
    hide HeaderValue, ReportValue, BulletinLines, Inert, KindOf, PutLines;
  }

  /** The entry has the area's own codes and time, and the table texts of the codes. */
  predicate Tells(t: Tables, a: AreaText, e: EBIEntry) {
    && |a.flags| == 2
    && var warned, arrive := a.flags[..1], a.flags[1..];
    && e.name == (if a.area in t.area then t.area[a.area] else "")
    && e.shindo1Code == a.s1 && e.shindo1 == (if a.s1 in t.shindo then t.shindo[a.s1] else "")
    && e.shindo2Code == a.s2 && e.shindo2 == (if a.s2 in t.shindo then t.shindo[a.s2] else "")
    && e.time == a.time
    && e.isWarndedCode == warned && e.isWarnded == (if warned in t.ebiY1 then t.ebiY1[warned] else "")
    && e.arriveCode == arrive && e.arrive == (if arrive in t.ebiY2 then t.ebiY2[arrive] else "")
  }

  lemma EntryTells(t: Tables, a: AreaText)
    requires AreaShaped(a)
    ensures Tells(t, a, EntryOf(t, a))
  {}

  lemma AreasRead(t: Tables, areas: seq<AreaText>)
    requires forall i :: 0 <= i < |areas| ==> AreaShaped(areas[i])
    ensures
      var ebi := PutAreas(t, areas, map[]);
      && (forall area :: area in ebi ==> exists i :: 0 <= i < |areas| && areas[i].area == area)
      && forall i :: 0 <= i < |areas| && (forall j :: i < j < |areas| ==> areas[j].area != areas[i].area) ==>
        areas[i].area in ebi && Tells(t, areas[i], ebi[areas[i].area])
  {
    hide PutAreas, EntryOf, Tells, AreaShaped;
    var ebi := PutAreas(t, areas, map[]);
    forall area | area in ebi
      ensures exists i :: 0 <= i < |areas| && areas[i].area == area
    {
      LaterAreasWin(t, areas, map[], area);
    }
    forall i | 0 <= i < |areas| && forall j :: i < j < |areas| ==> areas[j].area != areas[i].area
      ensures areas[i].area in ebi && Tells(t, areas[i], ebi[areas[i].area])
    {
      assert IsLastOf(areas, i);
      LaterAreasWin(t, areas, map[], areas[i].area);
      EntryTells(t, areas[i]);
    }
  }

  lemma PrintedEbi(t: Tables, x: Bulletin, pre: seq<string>, post: seq<string>)
    requires Shaped(x) && Inert(pre) && Inert(post)
    ensures Decoded(t, Unlines(pre + BulletinLines(x) + post)).ebi == PutAreas(t, Concat(x.ebi), map[])
    ensures forall i :: 0 <= i < |Concat(x.ebi)| ==> AreaShaped(Concat(x.ebi)[i])
  {
    DecodeOfPrinted(t, x, pre, post);
    EbiLinesAreOneList(t, x.ebi, map[]);
    ConcatShaped(x.ebi);
    hide Decoded, Unlines, HeaderValue, ReportValue, HypocenterValue, BulletinLines, Inert, PutLines, PutAreas,
      AreaShaped, Concat;
  }

  /** The areas: each has what the last entry for it says, and there are no others. */
  lemma PrintedAreasRead(t: Tables, x: Bulletin, pre: seq<string>, post: seq<string>)
    requires Shaped(x) && Inert(pre) && Inert(post)
    ensures
      var ebi, areas := Decoded(t, Unlines(pre + BulletinLines(x) + post)).ebi, Concat(x.ebi);
      && (forall area :: area in ebi ==> exists i :: 0 <= i < |areas| && areas[i].area == area)
      && forall i :: 0 <= i < |areas| && (forall j :: i < j < |areas| ==> areas[j].area != areas[i].area) ==>
        areas[i].area in ebi && Tells(t, areas[i], ebi[areas[i].area])
  {
    hide Decoded, Unlines, BulletinLines, Shaped, Inert, PutAreas, Tells, AreaShaped, Concat;
    PrintedEbi(t, x, pre, post);
    AreasRead(t, Concat(x.ebi));
  }

  lemma {:induction false} ConcatShaped(ebi: seq<seq<AreaText>>)
    requires forall i :: 0 <= i < |ebi| ==> EbiShaped(ebi[i])
    ensures forall i :: 0 <= i < |Concat(ebi)| ==> AreaShaped(Concat(ebi)[i])
  {
    hide AreaShaped;
    if ebi != [] {
      ConcatShaped(ebi[1..]);
    }
  }
}
