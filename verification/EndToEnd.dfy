/** The components together: from the server's messages to the decoded telegram, its archive
    file and its IRC text. */
module EndToEnd {
  import opened Text
  import opened FrameAutomaton
  import opened Simulator
  import opened Clients
  import opened Decoder
  import opened TelegramText
  import opened TelegramRoundTrip
  import opened Messages
  import opened Archive

  /** Reads that deliver these chunks, every acknowledgement succeeding. */
  function Reads(chunks: seq<string>, now: string): (turns: seq<Turn>)
    ensures |turns| == |chunks|
    ensures forall i :: 0 <= i < |chunks| ==> turns[i] == Bytes(chunks[i], now, Sent)
  {
    seq(|chunks|, i requires 0 <= i < |chunks| => Bytes(chunks[i], now, Sent))
  }

  lemma {:induction false} HeardIsKept(s: State, chunks: seq<string>, now: string)
    ensures Heard(s, Reads(chunks, now)) == Kept(s, chunks)
    decreases |chunks|
  {
    hide Run;
    if chunks != [] {
      var r := Run(s, chunks[0]);
      assert Reads(chunks, now)[1..] == Reads(chunks[1..], now);
      if r.stop != Crash {
        HeardIsKept(if r.stop == Ping then INITIAL else r.state, chunks[1..], now);
      }
    }
  }

  lemma MessageHeard(h: Handlers, m: Message) returns (part: seq<Callback>)
    ensures part == Dispatch(h, FramesOf([Seen(m)]))
    ensures
      && (m.ResponseOK? ==>
            part == if h.onResponse then
              [OnResponse(map["X-WNI-ID" := "Response", "X-WNI-Result" := "OK", "X-WNI-Protocol-Version" := "2.1"])]
            else [])
      && (m.KeepAliveBlock? ==> part == if h.onKeepAlive then [OnKeepAlive] else [])
      && (m.DataBlock? ==> part == if h.onData then [OnData(m.digest, m.body)] else [])
      && (m.GetPing? ==> part == [])
  {
    var es := [Seen(m)];
    part := Dispatch(h, FramesOf(es));
    assert es[..0] == [] && FramesOf(es) == FramesOf([]) + match es[0] case Completed(f) => [f] case Acked => [];
    NothingToDo(h);
    if m.GetPing? {
      assert FramesOf(es) == [];
    } else {
      assert FramesOf(es) == [es[0].frame];
      assert [es[0].frame][..0] == [];
    }
  }

  /** The calls that messages make, one after the other. */
  lemma {:induction false} MessagesHeard(h: Handlers, ms: seq<Message>) returns (parts: seq<seq<Callback>>)
    ensures |parts| == |ms| && Dispatch(h, FramesOf(SeenAll(ms))) == Concat(parts)
    ensures forall k :: 0 <= k < |ms| ==>
              && (ms[k].ResponseOK? ==>
                    parts[k] == if h.onResponse then
                      [OnResponse(map["X-WNI-ID" := "Response", "X-WNI-Result" := "OK",
                                      "X-WNI-Protocol-Version" := "2.1"])]
                    else [])
              && (ms[k].KeepAliveBlock? ==> parts[k] == if h.onKeepAlive then [OnKeepAlive] else [])
              && (ms[k].DataBlock? ==>
                    parts[k] == if h.onData then [OnData(ms[k].digest, ms[k].body)] else [])
              && (ms[k].GetPing? ==> parts[k] == [])
  {
    hide Dispatch, FramesOf, Seen;
    if ms == [] {
      parts := [];
      NothingToDo(h);
      assert SeenAll(ms) == [];
    } else {
      var n := |ms| - 1;
      var front := MessagesHeard(h, ms[..n]);
      var last := MessageHeard(h, ms[n]);
      parts := front + [last];
      assert SeenAll(ms) == SeenAll(ms[..n]) + [Seen(ms[n])];
      FramesOfAppend(SeenAll(ms[..n]), [Seen(ms[n])]);
      DispatchAppend(h, FramesOf(SeenAll(ms[..n])), FramesOf([Seen(ms[n])]));
      ConcatAppend(front, last);
    }
  }

  /** A client that reads what the server writes calls its handlers for exactly the messages sent,
      in order, however the segments are cut: a login response gives the header of the response, a
      Data block its digest and body, a ping nothing, and nothing is called that is not set. */
  lemma ClientHearsServer(segments: seq<seq<Message>>, cuts: seq<seq<string>>, now: string, h: Handlers)
    returns (parts: seq<seq<Callback>>)
    requires |segments| == |cuts|
    requires forall i :: 0 <= i < |cuts| ==> Segment(segments[i]) && Flatten(cuts[i]) == WireAll(segments[i])
    ensures Sessions(INITIAL, Reads(Concat(cuts), now), h).callbacks == Concat(parts)
    ensures
      var ms := Concat(segments);
      |parts| == |ms| &&
      forall k :: 0 <= k < |ms| ==>
        && (ms[k].ResponseOK? ==>
              parts[k] == if h.onResponse then
                [OnResponse(map["X-WNI-ID" := "Response", "X-WNI-Result" := "OK",
                                "X-WNI-Protocol-Version" := "2.1"])]
              else [])
        && (ms[k].KeepAliveBlock? ==> parts[k] == if h.onKeepAlive then [OnKeepAlive] else [])
        && (ms[k].DataBlock? ==>
              parts[k] == if h.onData then [OnData(ms[k].digest, ms[k].body)] else [])
        && (ms[k].GetPing? ==> parts[k] == [])
  {
    hide Sessions, Stream, FeedAll, Kept, Segment, Heard, Dispatch;
    var chunks := Concat(cuts);
    ChunkedRoundTrip(segments, cuts);
    ChunksAreAStream(INITIAL, chunks);
    HeardIsKept(INITIAL, chunks, now);
    NoParsedFrameLost(INITIAL, Reads(chunks, now), h);
    parts := MessagesHeard(h, Concat(segments));
  }

  lemma {:induction false} PartOfConcat(parts: seq<seq<Callback>>, k: nat, c: Callback)
    requires k < |parts| && c in parts[k]
    ensures c in Concat(parts)
  {
    if k > 0 {
      PartOfConcat(parts[1..], k - 1, c);
    }
  }

  /** A telegram that the server sends reaches the data handler byte for byte; it decodes to the
      values it was printed from; the file it is archived under is the one the viewer opens for
      its name; its title names the kind of warning; and its IRC text is its message with the link
      reduced to the label. */
  lemma TelegramArrives(
    t: Tables, x: Bulletin, pre: seq<string>, post: seq<string>, digest: string,
    segments: seq<seq<Message>>, cuts: seq<seq<string>>, now: string, h: Handlers, k: nat,
    cwd: seq<string>, dir: Path)
    requires Shaped(x) && Inert(pre) && Inert(post) && h.onData
    requires CleanTable(t.epicenter) && CleanTable(t.shindo)
    requires |segments| == |cuts|
    requires forall i :: 0 <= i < |cuts| ==> Segment(segments[i]) && Flatten(cuts[i]) == WireAll(segments[i])
    requires k < |Concat(segments)|
    requires Concat(segments)[k] == DataBlock(Unlines(pre + BulletinLines(x) + post), digest)
    ensures
      var body := Unlines(pre + BulletinLines(x) + post);
      var f, name := Decoded(t, body), NameOf(x.report.eqID, Decimal(x.report.num));
      && OnData(digest, body) in Sessions(INITIAL, Reads(Concat(cuts), now), h).callbacks
      && f == Meaning(t, x)
      && IsDetailName(name)
      && TelegramPath(cwd, dir, name) == Some(FinalPath(dir, x.report.eqID, x.report.num))
      && FormattedTitle(f) == Look(t.warnType, x.report.warnCode) + "緊急地震速報"
      && StripLinks(FormattedText(f)) == Around(f, Label(f.hypocenter))
  {
    hide Sessions, Dispatch, FramesOf, Decoded, Segment, BulletinLines, Unlines, Shaped, Inert, CleanTable,
      FormattedText, FormattedTitle, StripLinks, Around, IsDetailName, TelegramPath, FinalPath, WireAll;
    var body := Unlines(pre + BulletinLines(x) + post);
    var parts := ClientHearsServer(segments, cuts, now, h);
    PartOfConcat(parts, k, OnData(digest, body));
    DecodeOfPrinted(t, x, pre, post);
    ReportHasId(x);
    TitleOf(Meaning(t, x));
    ArchiveRoundTrip(t, body, cwd, dir);
    StripOfFormat(t, body);
  }

  lemma TitleOf(f: Fields)
    ensures FormattedTitle(f) == f.report.warnType + "緊急地震速報"
  {}

  lemma ReportHasId(x: Bulletin)
    requires Shaped(x)
    ensures x.report.eqID != ""
  {}
}
