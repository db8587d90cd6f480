/** The fake WNI server's printer (internal/wnisim/server.go) and the round trip through
    the frame automaton. */
module Simulator {
  import opened Text
  import opened FrameAutomaton
  import opened HeaderBlocks

  /** One thing the server can send. `digest` stands for the hex MD5 of the body; the
      statements below hold whatever hex string it is. */
  datatype Message =
    | ResponseOK
    | KeepAliveBlock
    | DataBlock(body: string, digest: string)
    | GetPing

  predicate IsHex(s: string) {
    s != "" && forall i :: 0 <= i < |s| ==> IsDigit(s[i]) || 'a' <= s[i] <= 'f'
  }

  /** Lengths of Go slices fit an int. */
  predicate WellFormed(m: Message) {
    m.DataBlock? ==> IsHex(m.digest) && |m.body| <= MAX_INT
  }

  function DataBlockHeader(body: string, digest: string): string {
    HeaderLine("X-WNI-ID", "Data") +
    (HeaderLine("Content-Length", Decimal(|body|)) +
     (HeaderLine("X-WNI-Data-MD5", digest) + "\n"))
  }

  function ResponseBlock(): string {
    ("HTTP/1.0 200 OK" + "\n") +
    (HeaderLine("X-WNI-ID", "Response") +
     (HeaderLine("X-WNI-Result", "OK") +
      (HeaderLine("X-WNI-Protocol-Version", "2.1") + "\n")))
  }

  function KeepAliveBytes(): string {
    HeaderLine("X-WNI-ID", "Keep-Alive") + "\n"
  }

  /** The bytes of one message. */
  function Wire(m: Message): string {
    match m
    case ResponseOK => ResponseBlock()
    case KeepAliveBlock => KeepAliveBytes()
    case DataBlock(body, digest) => DataBlockHeader(body, digest) + body
    case GetPing => PING + "\n"
  }

  function WireAll(ms: seq<Message>): string {
    if ms == [] then "" else Wire(ms[0]) + WireAll(ms[1..])
  }

  lemma {:induction false} WireAllAppend(a: seq<Message>, b: seq<Message>)
    ensures WireAll(a + b) == WireAll(a) + WireAll(b)
  {
    if a == [] {
      assert a + b == b;
    } else {
      assert (a + b)[1..] == a[1..] + b;
      WireAllAppend(a[1..], b);
    }
  }

  /** A Data message carries the digest of its own body. */
  predicate DigestFits(m: Message, md5: string -> string) {
    m.DataBlock? ==> m.digest == md5(m.body)
  }

  /** The server side of a connection: what it has written. `script` are the messages sent up to
      the first write that failed, that one included, and `head` the bytes that got through until
      then. `md5` is the hex digest of a body, whatever function that is. */
  class Session {
    const md5: string -> string
    var written: string
    ghost var sound: bool  // no write has failed
    ghost var script: seq<Message>
    ghost var head: string

    ghost predicate Valid()
      reads this
    {
      && head <= written && head <= WireAll(script)
      && (sound ==> head == written == WireAll(script))
      && forall m :: m in script ==> DigestFits(m, md5)
    }

    constructor (md5: string -> string)
      ensures Valid() && sound && script == [] && this.md5 == md5
    {
      this.md5 := md5;
      written, sound, script, head := "", true, [], "";
    }

    method Send(bytes: string, ghost ms: seq<Message>, fate: Fate) returns (ok: bool)
      requires Valid() && bytes == WireAll(ms)
      requires forall m :: m in ms ==> DigestFits(m, md5)
      modifies this
      ensures Valid() && ok == fate.Sent? && sound == (old(sound) && ok)
      ensures written == old(written) + Delivered(bytes, fate)
      ensures script == if old(sound) then old(script) + ms else old(script)
    {
      hide WireAll;
      WireAllAppend(script, ms);
      written := written + Delivered(bytes, fate);
      ok := fate.Sent?;
      if sound {
        script, head := script + ms, written;
        sound := ok;
      }
    }

    method SendResponseOK(fate: Fate) returns (ok: bool)
      requires Valid()
      modifies this
      ensures Valid() && ok == fate.Sent? && sound == (old(sound) && ok)
      ensures written == old(written) + Delivered(Wire(ResponseOK), fate)
      ensures old(sound) ==> script == old(script) + [ResponseOK]
    {
      ok := Send(ResponseBlock(), [ResponseOK], fate);
    }

    method SendKeepAlive(fate: Fate) returns (ok: bool)
      requires Valid()
      modifies this
      ensures Valid() && ok == fate.Sent? && sound == (old(sound) && ok)
      ensures written == old(written) + Delivered(Wire(KeepAliveBlock), fate)
      ensures old(sound) ==> script == old(script) + [KeepAliveBlock]
    {
      ok := Send(KeepAliveBytes(), [KeepAliveBlock], fate);
    }

    method SendGETPing(fate: Fate) returns (ok: bool)
      requires Valid()
      modifies this
      ensures Valid() && ok == fate.Sent? && sound == (old(sound) && ok)
      ensures written == old(written) + Delivered(Wire(GetPing), fate)
      ensures old(sound) ==> script == old(script) + [GetPing]
    {
      ok := Send(PING + "\n", [GetPing], fate);
    }

    method SendData(body: string, fate: Fate) returns (ok: bool)
      requires Valid()
      modifies this
      ensures Valid() && ok == fate.Sent? && sound == (old(sound) && ok)
      ensures written == old(written) + Delivered(Wire(DataBlock(body, md5(body))), fate)
      ensures old(sound) ==> script == old(script) + [DataBlock(body, md5(body))]
    {
      ok := Send(DataBlockHeader(body, md5(body)) + body, [DataBlock(body, md5(body))], fate);
    }

    /** One write that holds a Data block and a ping. */
    method SendDataThenGETPing(body: string, fate: Fate) returns (ok: bool)
      requires Valid()
      modifies this
      ensures Valid() && ok == fate.Sent? && sound == (old(sound) && ok)
      ensures written == old(written) + Delivered(Wire(DataBlock(body, md5(body))) + Wire(GetPing), fate)
      ensures old(sound) ==> script == old(script) + [DataBlock(body, md5(body)), GetPing]
    {
      hide DataBlockHeader;
      var digest := md5(body);
      var block, ping := DataBlockHeader(body, digest) + body, PING + "\n";
      WireAllAppend([DataBlock(body, digest)], [GetPing]);
      assert [DataBlock(body, digest)] + [GetPing] == [DataBlock(body, digest), GetPing];
      ok := Send(block + ping, [DataBlock(body, digest), GetPing], fate);
    }
  }

  /** The bytes of each message, line by line. */
  lemma WireSpelled(m: Message)
    ensures m.ResponseOK? ==>
              Wire(m) == ("HTTP/1.0 200 OK" + "\n") +
                         (("X-WNI-ID" + ": " + "Response" + "\n") +
                          (("X-WNI-Result" + ": " + "OK" + "\n") +
                           (("X-WNI-Protocol-Version" + ": " + "2.1" + "\n") + "\n")))
    ensures m.KeepAliveBlock? ==> Wire(m) == ("X-WNI-ID" + ": " + "Keep-Alive" + "\n") + "\n"
    ensures m.GetPing? ==> Wire(m) == "GET / HTTP/1.1" + "\n"
    ensures m.DataBlock? ==>
              Wire(m) == ("X-WNI-ID" + ": " + "Data" + "\n") +
                         (("Content-Length" + ": " + Decimal(|m.body|) + "\n") +
                          (("X-WNI-Data-MD5" + ": " + m.digest + "\n") + "\n")) + m.body
  {
    hide Decimal;
  }

  // ---------- what a client must see ----------

  function DataHeader(body: string, digest: string): Headers {
    map["X-WNI-ID" := "Data", "Content-Length" := Decimal(|body|), "X-WNI-Data-MD5" := digest]
  }

  function ResponseHeader(): Headers {
    map["X-WNI-ID" := "Response", "X-WNI-Result" := "OK", "X-WNI-Protocol-Version" := "2.1"]
  }

  function Seen(m: Message): Event {
    match m
    case ResponseOK => Completed(Response(ResponseHeader()))
    case KeepAliveBlock => Completed(KeepAlive)
    case DataBlock(body, digest) => Completed(Data(DataHeader(body, digest), digest, body))
    case GetPing => Acked
  }

  function SeenAll(ms: seq<Message>): (es: seq<Event>)
    ensures |es| == |ms| && forall i :: 0 <= i < |ms| ==> es[i] == Seen(ms[i])
  {
    seq(|ms|, i requires 0 <= i < |ms| => Seen(ms[i]))
  }

  // ---------- messages ----------

  lemma PlainDecimal(n: nat)
    ensures Plain(Decimal(n))
  {
    var s := Decimal(n);
    assert forall i :: 0 <= i < |s| ==> IsDigit(s[i]);
  }

  lemma DataEndBlock(header: Headers, n: nat)
    requires Get(header, "X-WNI-ID") == "Data" && n <= MAX_INT
    requires "Content-Length" in header && header["Content-Length"] == Decimal(n)
    ensures EndBlock(header) == Open(header, n)
  {
    hide Open, Atoi, TrimSpace, Decimal;
    AtoiOfDecimal(n);
    PlainDecimal(n);
    TrimmedIsFixed(Decimal(n));
  }

  lemma StreamData(body: string, digest: string, rest: string)
    requires WellFormed(DataBlock(body, digest))
    ensures Stream(INITIAL, Wire(DataBlock(body, digest)) + rest)
            == Then([Seen(DataBlock(body, digest))], Stream(INITIAL, rest))
  {
    hide Stream, HeaderLine, Decimal, EndBlock, Open, Trimmed;
    var n := Decimal(|body|);
    var h1 := map["X-WNI-ID" := "Data"];
    var h2 := h1["Content-Length" := n];
    var h3 := h2["X-WNI-Data-MD5" := digest];
    var l1, l2, l3 := HeaderLine("X-WNI-ID", "Data"), HeaderLine("Content-Length", n),
                      HeaderLine("X-WNI-Data-MD5", digest);
    var tail := body + rest;
    assert Wire(DataBlock(body, digest)) + rest == l1 + (l2 + (l3 + ("\n" + tail))) by {
      Assoc(DataBlockHeader(body, digest), body, rest);
      Assoc(l1, l2 + (l3 + "\n"), tail);
      Assoc(l2, l3 + "\n", tail);
      Assoc(l3, "\n", tail);
    }
    PlainLiterals();
    PlainDecimal(|body|);
    PlainHex(digest);
    StreamField(map[], "X-WNI-ID", "Data", l2 + (l3 + ("\n" + tail)));
    StreamField(h1, "Content-Length", n, l3 + ("\n" + tail));
    StreamField(h2, "X-WNI-Data-MD5", digest, "\n" + tail);
    StreamBlank(h3, tail);
    DataEndBlock(h3, |body|);
    StreamBody(h3, body, rest);
    assert h3 == DataHeader(body, digest);
  }

  lemma PlainHex(s: string)
    requires IsHex(s)
    ensures Plain(s)
  {}

  /** The fixed header names and values. */
  lemma PlainNames()
    ensures Plain("X-WNI-ID") && ':' !in "X-WNI-ID"
    ensures Plain("Content-Length") && ':' !in "Content-Length"
  {}

  lemma PlainDigestName()
    ensures Plain("X-WNI-Data-MD5") && ':' !in "X-WNI-Data-MD5"
  {}

  lemma PlainResultName()
    ensures Plain("X-WNI-Result") && ':' !in "X-WNI-Result"
  {}

  lemma PlainVersionName()
    ensures Plain("X-WNI-Protocol-Version") && ':' !in "X-WNI-Protocol-Version"
  {}

  lemma PlainValues()
    ensures Plain("Data")
    ensures Plain("Response")
    ensures Plain("OK")
    ensures Plain("2.1")
  {}

  lemma PlainKeepAlive()
    ensures Plain("Keep-Alive")
  {}

  lemma PlainLiterals()
    ensures Plain("X-WNI-ID") && ':' !in "X-WNI-ID"
    ensures Plain("Content-Length") && ':' !in "Content-Length"
    ensures Plain("X-WNI-Data-MD5") && ':' !in "X-WNI-Data-MD5"
    ensures Plain("X-WNI-Result") && ':' !in "X-WNI-Result"
    ensures Plain("X-WNI-Protocol-Version") && ':' !in "X-WNI-Protocol-Version"
    ensures Plain("Data") && Plain("Response") && Plain("Keep-Alive") && Plain("OK") && Plain("2.1")
  {
    hide Plain;
    PlainNames();
    PlainDigestName();
    PlainResultName();
    PlainVersionName();
    PlainValues();
    PlainKeepAlive();
  }

  lemma ResponseEndBlock(header: Headers)
    requires Get(header, "X-WNI-ID") == "Response"
    ensures EndBlock(header) == Step(INITIAL, [Response(header)], Quiet)
  {
    hide Open, BodyLength;
  }

  lemma StreamResponse(rest: string)
    ensures Stream(INITIAL, Wire(ResponseOK) + rest) == Then([Seen(ResponseOK)], Stream(INITIAL, rest))
  {
    hide Stream, HeaderLine, EndLine, EndBlock, Trimmed, Plain;
    var h1 := map["X-WNI-ID" := "Response"];
    var h2 := h1["X-WNI-Result" := "OK"];
    var h3 := h2["X-WNI-Protocol-Version" := "2.1"];
    var l0 := "HTTP/1.0 200 OK" + "\n";
    var l1, l2, l3 := HeaderLine("X-WNI-ID", "Response"), HeaderLine("X-WNI-Result", "OK"),
                      HeaderLine("X-WNI-Protocol-Version", "2.1");
    assert Wire(ResponseOK) + rest == l0 + (l1 + (l2 + (l3 + ("\n" + rest)))) by {
      Assoc(l0, l1 + (l2 + (l3 + "\n")), rest);
      Assoc(l1, l2 + (l3 + "\n"), rest);
      Assoc(l2, l3 + "\n", rest);
      Assoc(l3, "\n", rest);
    }
    StreamStatusLine(l1 + (l2 + (l3 + ("\n" + rest))));
    PlainLiterals();
    StreamField(map[], "X-WNI-ID", "Response", l2 + (l3 + ("\n" + rest)));
    StreamField(h1, "X-WNI-Result", "OK", l3 + ("\n" + rest));
    StreamField(h2, "X-WNI-Protocol-Version", "2.1", "\n" + rest);
    StreamBlank(h3, rest);
    assert h3 == ResponseHeader();
    assert "X-WNI-ID" != "X-WNI-Result" && "X-WNI-ID" != "X-WNI-Protocol-Version";
    ResponseEndBlock(h3);
  }

  lemma StreamStatusLine(rest: string)
    ensures Stream(INITIAL, "HTTP/1.0 200 OK" + "\n" + rest) == Stream(INITIAL, rest)
  {
    hide Stream, EndBlock, TrimSpace;
    var line := "HTTP/1.0 200 OK";
    StreamLine(map[], line, rest);
    ContainsNeedsChar(line, PING, 'G') by {
      assert PING[0] == 'G';
    }
    assert ':' !in line;
    NothingThen(Stream(INITIAL, rest));
  }

  lemma StreamKeepAlive(rest: string)
    ensures Stream(INITIAL, Wire(KeepAliveBlock) + rest)
            == Then([Seen(KeepAliveBlock)], Stream(INITIAL, rest))
  {
    hide Stream, HeaderLine, EndLine, Trimmed;
    var h := map["X-WNI-ID" := "Keep-Alive"];
    Assoc(HeaderLine("X-WNI-ID", "Keep-Alive"), "\n", rest);
    PlainLiterals();
    StreamField(map[], "X-WNI-ID", "Keep-Alive", "\n" + rest);
    StreamBlank(h, rest);
  }

  lemma StreamPing(rest: string)
    ensures Stream(INITIAL, Wire(GetPing) + rest) == Then([Seen(GetPing)], Stream(INITIAL, rest))
  {
    hide Stream;
    assert Wire(GetPing) + rest == PING + "\n" + rest;
    StreamLine(map[], PING, rest);
    assert OccursAt(PING, PING, 0);
    assert Completions([]) + [Acked] == [Acked];
  }

  lemma StreamMessage(m: Message, rest: string)
    requires WellFormed(m)
    ensures Stream(INITIAL, Wire(m) + rest) == Then([Seen(m)], Stream(INITIAL, rest))
  {
    hide Stream, Wire;
    match m {
      case ResponseOK => StreamResponse(rest);
      case KeepAliveBlock => StreamKeepAlive(rest);
      case DataBlock(body, digest) => StreamData(body, digest, rest);
      case GetPing => StreamPing(rest);
    }
  }

  /** The automaton undoes the printer: it sees exactly the messages sent, in order, acks
      every ping, and is back in its initial state. Bodies are arbitrary. */
  lemma {:induction false} RoundTrip(ms: seq<Message>)
    requires forall m :: m in ms ==> WellFormed(m)
    ensures Stream(INITIAL, WireAll(ms)) == StreamResult(INITIAL, SeenAll(ms), false)
  {
    hide Stream, Wire;
    if ms == [] {
      StreamOnNothing(INITIAL);
    } else {
      StreamMessage(ms[0], WireAll(ms[1..]));
      RoundTrip(ms[1..]);
      assert SeenAll(ms) == [Seen(ms[0])] + SeenAll(ms[1..]);
    }
  }

  /** What a session has got through until its first failed write, however that write was cut off,
      reads back as the first messages of its script, whole and each body with its own digest; if
      none has failed, as all of them. */
  lemma SessionRoundTrip(s: Session)
    requires s.Valid() && forall m :: m in s.script ==> WellFormed(m)
    ensures
      var r := Stream(INITIAL, s.head);
      && r.events <= SeenAll(s.script)
      && (s.sound ==> s.head == s.written && r == StreamResult(INITIAL, SeenAll(s.script), false))
      && forall i :: 0 <= i < |r.events| && r.events[i].Completed? && r.events[i].frame.Data? ==>
           r.events[i].frame.md5 == s.md5(r.events[i].frame.body)
  {
    hide Stream, WireAll;
    RoundTrip(s.script);
    var wire := WireAll(s.script);
    assert wire == s.head + wire[|s.head|..];
    StreamOfPrefix(INITIAL, s.head, wire[|s.head|..]);
    forall i | 0 <= i < |s.script|
      ensures DigestFits(s.script[i], s.md5)
    {
      assert s.script[i] in s.script;
    }
  }

  // ---------- messages cut into chunks ----------

  /** What the server writes between two acknowledgements it waits for: pings only at the end. */
  predicate Segment(ms: seq<Message>) {
    && (forall m :: m in ms ==> WellFormed(m))
    && forall i :: 0 <= i < |ms| - 1 ==> ms[i] != GetPing
  }

  lemma SegmentAligned(ms: seq<Message>, chunks: seq<string>)
    requires Segment(ms) && Flatten(chunks) == WireAll(ms)
    ensures PingsEndChunks(INITIAL, chunks)
  {
    hide Stream, Wire, PingsEndChunks;
    if ms != [] && ms[|ms| - 1] == GetPing {
      var front := ms[..|ms| - 1];
      assert ms == front + [GetPing];
      WireAllAppend(front, [GetPing]);
      var w := WireAll(front) + PING;
      assert WireAll(ms) == w + "\n" by {
        WirePing();
      }
      RoundTrip(front);
      StreamOfUnfinishedPing(front);
      OnlyLastByteAcks(INITIAL, chunks, w);
    } else {
      RoundTrip(ms);
      OnlyLastByteAcks(INITIAL, chunks, WireAll(ms));
    }
  }

  lemma WirePing()
    ensures WireAll([GetPing]) == PING + "\n"
  {
    assert [GetPing][1..] == [];
    assert PING + "\n" + "" == PING + "\n";
  }

  lemma {:induction false} StreamOfUnfinishedPing(ms: seq<Message>)
    requires forall m :: m in ms ==> WellFormed(m)
    ensures Stream(INITIAL, WireAll(ms) + PING).events == SeenAll(ms)
  {
    hide Stream, Wire;
    if ms == [] {
      assert WireAll(ms) + PING == PING;
      PingIsHeld();
    } else {
      StreamOfUnfinishedPing(ms[1..]);
      Assoc(Wire(ms[0]), WireAll(ms[1..]), PING);
      StreamMessage(ms[0], WireAll(ms[1..]) + PING);
      assert SeenAll(ms) == [Seen(ms[0])] + SeenAll(ms[1..]);
    }
  }

  lemma PingIsHeld()
    ensures Stream(INITIAL, PING).events == []
  {
    hide Stream, Run;
    RunPartialLine(map[], "", PING);
    StreamByRuns(INITIAL, PING, "");
    assert PING + "" == PING && "" + PING == PING;
    StreamOnNothing(State(Lines, map[], PING));
  }

  /** The server's messages come out of the chunked parser unchanged and in order, every ping
      is acknowledged once, and the parser ends in its initial state: for every way of cutting
      each segment. `cuts[i]` are the chunks in which `segments[i]` arrives. */
  lemma {:induction false} ChunkedRoundTrip(segments: seq<seq<Message>>, cuts: seq<seq<string>>)
    requires |segments| == |cuts|
    requires forall i :: 0 <= i < |cuts| ==> Segment(segments[i]) && Flatten(cuts[i]) == WireAll(segments[i])
    ensures FeedAll(INITIAL, Concat(cuts)) == StreamResult(INITIAL, SeenAll(Concat(segments)), false)
  {
    hide Stream, Wire, PingsEndChunks, Segment, FeedAll, Flatten, WireAll;
    if cuts == [] {
      FeedNothing(INITIAL);
    } else {
      RoundTripOfSegment(segments[0], cuts[0]);
      ChunkedRoundTrip(segments[1..], cuts[1..]);
      FeedAllAppend(INITIAL, cuts[0], Concat(cuts[1..]));
      assert SeenAll(Concat(segments)) == SeenAll(segments[0]) + SeenAll(Concat(segments[1..]));
    }
  }

  lemma RoundTripOfSegment(ms: seq<Message>, chunks: seq<string>)
    requires Segment(ms) && Flatten(chunks) == WireAll(ms)
    ensures FeedAll(INITIAL, chunks) == StreamResult(INITIAL, SeenAll(ms), false)
  {
    hide Stream, Wire, PingsEndChunks;
    SegmentAligned(ms, chunks);
    RoundTrip(ms);
    AlignedChunks(INITIAL, chunks);
  }

  /** Why the pings have to be aligned: whatever follows a ping in its chunk is lost. */
  lemma PingSwallowsItsChunk(header: Headers, rest: string)
    ensures FeedAll(State(Lines, header, ""), [PING + "\n" + rest])
            == StreamResult(INITIAL, [Acked], false)
  {
    hide Run, TrimRightCR;
    RunLine(header, PING, rest);
    assert TrimRightCR(PING) == PING by {
      PingHasNoCR();
    }
    assert OccursAt(PING, PING, 0);
    assert Completions([]) + [Acked] == [Acked];
    FeedNothing(INITIAL);
  }

  lemma PingHasNoCR()
    ensures TrimRightCR(PING) == PING
  {}

  lemma FeedNothing(s: State)
    ensures FeedAll(s, []) == StreamResult(s, [], false)
  {}
}
