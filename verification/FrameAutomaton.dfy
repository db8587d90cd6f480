/** The WNI framing as a pure automaton that reads one byte at a time
    (internal/wni/protocol.go). It is the specification of FrameParser.Feed. */
module FrameAutomaton {
  import opened Text

  type Headers = map<string, string>

  datatype Frame =
    | Response(header: Headers)
    | KeepAlive
    | Data(header: Headers, md5: string, body: string)
    | Unknown(id: string, header: Headers)

  datatype Mode = Lines | Body(size: int)

  /** `held` is the unfinished header line, or the body bytes received so far. */
  datatype State = State(mode: Mode, header: Headers, held: string)

  /** What a byte asks of the driver: nothing, an acknowledgement, or (for a negative
      Content-Length) the slice-bounds panic of the original. */
  datatype Signal = Quiet | Ping | Crash

  datatype Step = Step(state: State, frames: seq<Frame>, signal: Signal)

  const INITIAL := State(Lines, map[], "")

  const PING := "GET / HTTP/1.1"

  /** Reading an absent key of a Go map gives "". */
  function Get(header: Headers, key: string): string {
    if key in header then header[key] else ""
  }

  // ---------- one byte ----------

  /** Nothing more can be done with what is held: no newline is waiting in line mode,
      and the body is incomplete in body mode. */
  predicate Quiescent(s: State) {
    match s.mode
    case Lines => '\n' !in s.held
    case Body(n) => |s.held| < n
  }

  /** A body of n bytes is now expected. An empty one is complete at once. */
  function Open(header: Headers, n: int): (o: Step)
    ensures o.signal != Ping && (o.signal == Quiet ==> Quiescent(o.state))
  {
    if n < 0 then Step(State(Body(n), header, ""), [], Crash)
    else if n == 0 then Step(INITIAL, [Data(header, Get(header, "X-WNI-Data-MD5"), "")], Quiet)
    else Step(State(Body(n), header, ""), [], Quiet)
  }

  function BodyLength(header: Headers): Option<int> {
    if "Content-Length" in header then Atoi(TrimSpace(header["Content-Length"])) else None
  }

  function EndBlock(header: Headers): (o: Step)
    ensures o.signal != Ping && (o.signal == Quiet ==> Quiescent(o.state))
  {
    var id := Get(header, "X-WNI-ID");
    if id == "Data" then
      match BodyLength(header)
      case Some(n) => Open(header, n)
      case None => Step(INITIAL, [], Quiet)
    else if id == "Response" then Step(INITIAL, [Response(header)], Quiet)
    else if id == "Keep-Alive" then Step(INITIAL, [KeepAlive], Quiet)
    else Step(INITIAL, [Unknown(id, header)], Quiet)
  }

  function EndLine(header: Headers, line: string): (o: Step)
    ensures o.signal == Quiet ==> Quiescent(o.state)
  {
    if Contains(line, PING) then
      Step(State(Lines, header, ""), [], Ping)
    else
      var colon := IndexOf(line, ':');
      if colon >= 0 then
        var name, val := TrimSpace(line[..colon]), TrimSpace(line[colon + 1..]);
        Step(State(Lines, header[name := val], ""), [], Quiet)
      else if line == "" then EndBlock(header)
      else Step(State(Lines, header, ""), [], Quiet)
  }

  function OnByte(s: State, b: char): Step {
    match s.mode
    case Lines =>
      if b == '\n' then EndLine(s.header, TrimRightCR(s.held))
      else Step(s.(held := s.held + [b]), [], Quiet)
    case Body(n) =>
      var held := s.held + [b];
      if |held| < n then Step(s.(held := held), [], Quiet)
      else Step(INITIAL, [Data(s.header, Get(s.header, "X-WNI-Data-MD5"), held)], Quiet)
  }

  /** b ends a header line that holds the ping text. */
  predicate EndsPing(s: State, b: char) {
    s.mode.Lines? && b == '\n' && Contains(TrimRightCR(s.held), PING)
  }

  /** b ends a Data block whose Content-Length is a negative number. */
  predicate EndsNegativeBlock(s: State, b: char) {
    && s.mode.Lines? && b == '\n' && TrimRightCR(s.held) == ""
    && Get(s.header, "X-WNI-ID") == "Data"
    && BodyLength(s.header).Some? && BodyLength(s.header).value < 0
  }

  /** The two ways a byte can interrupt the automaton. */
  lemma SignalsExactly(s: State, b: char)
    ensures OnByte(s, b).signal == Ping <==> EndsPing(s, b)
    ensures OnByte(s, b).signal == Crash <==> EndsNegativeBlock(s, b)
  {
    hide BodyLength, TrimSpace, Contains, IndexOf;
    var line := TrimRightCR(s.held);
    if line == "" {
      assert !Contains("", PING) && IndexOf("", ':') < 0 by {
        EmptyLine();
      }
    }
  }

  lemma EmptyLine()
    ensures !Contains("", PING) && IndexOf("", ':') < 0
  {
    assert PING[0] == 'G';
    ContainsNeedsChar("", PING, 'G');
  }

  // ---------- a run up to the first signal ----------

  datatype RunResult = RunResult(state: State, frames: seq<Frame>, stop: Signal, rest: string)

  function Run(s: State, input: string): (r: RunResult)
    ensures |r.rest| <= |input|
    ensures r.stop == Quiet ==> r.rest == ""
    decreases |input|
  {
    if input == "" then RunResult(s, [], Quiet, "")
    else
      var o := OnByte(s, input[0]);
      if o.signal != Quiet then RunResult(o.state, o.frames, o.signal, input[1..])
      else After(o.frames, Run(o.state, input[1..]))
  }

  function After(frames: seq<Frame>, r: RunResult): RunResult {
    r.(frames := frames + r.frames)
  }

  /** The part of the input a run has read. */
  function Consumed(s: State, input: string): string {
    input[..|input| - |Run(s, input).rest|]
  }

  /** A run stops with a signal exactly when some byte, read in the state that the quiet run over
      the bytes before it leads to, gives that signal. */
  lemma {:induction false} StopsExactly(s: State, input: string, signal: Signal)
    requires signal != Quiet
    ensures Run(s, input).stop == signal <==> exists i :: 0 <= i < |input| && StopsAt(s, input, i, signal)
    decreases |input|
  {
    hide OnByte;
    if input != "" {
      var o, tail := OnByte(s, input[0]), input[1..];
      assert StopsAt(s, input, 0, signal) <==> o.signal == signal by {
        assert input[..0] == "";
      }
      StopsExactly(o.state, tail, signal);
      forall i | 0 < i < |input|
        ensures StopsAt(s, input, i, signal) <==> o.signal == Quiet && StopsAt(o.state, tail, i - 1, signal)
      {
        StopsLater(s, input, i, signal);
      }
      if j :| 0 <= j < |tail| && StopsAt(o.state, tail, j, signal) {
        assert o.signal == Quiet ==> StopsAt(s, input, j + 1, signal);
      }
    }
  }

  predicate StopsAt(s: State, input: string, i: nat, signal: Signal)
    requires i < |input|
  {
    var before := Run(s, input[..i]);
    before.stop == Quiet && OnByte(before.state, input[i]).signal == signal
  }

  lemma StopsLater(s: State, input: string, i: nat, signal: Signal)
    requires 0 < i < |input|
    ensures
      var o := OnByte(s, input[0]);
      StopsAt(s, input, i, signal) <==> o.signal == Quiet && StopsAt(o.state, input[1..], i - 1, signal)
  {
    hide OnByte;
    assert input[..i] == [input[0]] + input[1..][..i - 1];
    RunStep(s, input[0], input[1..][..i - 1]);
  }

  lemma OnByteQuiescent(s: State, b: char)
    requires Quiescent(s) && OnByte(s, b).signal == Quiet
    ensures Quiescent(OnByte(s, b).state)
  {
    hide EndLine;
  }

  lemma {:induction false} RunQuiescent(s: State, input: string)
    requires Quiescent(s) && Run(s, input).stop == Quiet
    ensures Quiescent(Run(s, input).state)
    decreases |input|
  {
    hide OnByte;
    if input != "" {
      OnByteQuiescent(s, input[0]);
      RunQuiescent(OnByte(s, input[0]).state, input[1..]);
    }
  }

  /** What happens after a step: stop at its signal or run on. */
  function Proceed(o: Step, rest: string): RunResult {
    if o.signal != Quiet then RunResult(o.state, o.frames, o.signal, rest)
    else After(o.frames, Run(o.state, rest))
  }

  lemma RunStep(s: State, b: char, rest: string)
    ensures Run(s, [b] + rest) == Proceed(OnByte(s, b), rest)
  {
    assert ([b] + rest)[1..] == rest;
  }

  lemma AfterNothing(r: RunResult)
    ensures After([], r) == r
  {
    assert [] + r.frames == r.frames;
  }

  lemma AfterAfter(a: seq<Frame>, b: seq<Frame>, r: RunResult)
    ensures After(a, After(b, r)) == After(a + b, r)
  {
    assert a + (b + r.frames) == (a + b) + r.frames;
  }

  /** Cutting the input changes nothing: the second run goes on where the first ended. */
  lemma {:induction false} RunAppend(s: State, a: string, b: string)
    ensures
      var r := Run(s, a);
      Run(s, a + b) == if r.stop == Quiet then After(r.frames, Run(r.state, b))
                       else r.(rest := r.rest + b)
    decreases |a|
  {
    hide OnByte;
    if a == "" {
      assert a + b == b;
      AfterNothing(Run(s, b));
    } else {
      var o, tail := OnByte(s, a[0]), a[1..];
      assert a == [a[0]] + tail && a + b == [a[0]] + (tail + b);
      RunStep(s, a[0], tail);
      RunStep(s, a[0], tail + b);
      RunAppend(o.state, tail, b);
      var r := Run(o.state, tail);
      AfterAfter(o.frames, r.frames, Run(r.state, b));
    }
  }

  lemma {:induction false} RunPartialLine(header: Headers, held: string, more: string)
    requires '\n' !in more
    ensures Run(State(Lines, header, held), more)
            == RunResult(State(Lines, header, held + more), [], Quiet, "")
    decreases |more|
  {
    if more == "" {
      assert held + more == held;
    } else {
      assert held + more == held + [more[0]] + more[1..];
      RunPartialLine(header, held + [more[0]], more[1..]);
    }
  }

  lemma {:induction false} RunPartialBody(header: Headers, n: int, held: string, more: string)
    requires |held + more| < n
    ensures Run(State(Body(n), header, held), more)
            == RunResult(State(Body(n), header, held + more), [], Quiet, "")
    decreases |more|
  {
    if more == "" {
      assert held + more == held;
    } else {
      assert held + more == held + [more[0]] + more[1..];
      RunPartialBody(header, n, held + [more[0]], more[1..]);
    }
  }

  lemma RunLine(header: Headers, line: string, rest: string)
    requires '\n' !in line
    ensures Run(State(Lines, header, ""), line + "\n" + rest)
            == Proceed(EndLine(header, TrimRightCR(line)), rest)
  {
    hide EndLine, TrimRightCR;
    var s, t := State(Lines, header, ""), State(Lines, header, line);
    assert Run(s, line) == RunResult(t, [], Quiet, "") by {
      RunPartialLine(header, "", line);
      assert "" + line == line;
    }
    RunAppend(s, line, "\n" + rest);
    assert line + "\n" + rest == line + ("\n" + rest);
    RunStep(t, '\n', rest);
    AfterNothing(Run(t, "\n" + rest));
  }

  lemma LastBodyByte(header: Headers, front: string, last: char)
    ensures OnByte(State(Body(|front| + 1), header, front), last)
            == Step(INITIAL, [Data(header, Get(header, "X-WNI-Data-MD5"), front + [last])], Quiet)
  {}

  lemma RunBody(header: Headers, body: string, rest: string)
    ensures Proceed(Open(header, |body|), body + rest)
            == After([Data(header, Get(header, "X-WNI-Data-MD5"), body)], Run(INITIAL, rest))
  {
    if body == "" {
      assert body + rest == rest;
    } else {
      var front, last := body[..|body| - 1], body[|body| - 1];
      var tail := [last] + rest;
      var s, t := State(Body(|body|), header, ""), State(Body(|body|), header, front);
      assert body == front + [last] && body + rest == front + tail;
      RunPartialBody(header, |body|, "", front);
      assert "" + front == front;
      calc {
        Proceed(Open(header, |body|), body + rest);
        After([], Run(s, front + tail));
        { AfterNothing(Run(s, front + tail)); }
        Run(s, front + tail);
        { RunAppend(s, front, tail); }
        After([], Run(t, tail));
        { AfterNothing(Run(t, tail)); }
        Run(t, tail);
        { RunStep(t, last, rest); }
        Proceed(OnByte(t, last), rest);
        { LastBodyByte(header, front, last); }
        After([Data(header, Get(header, "X-WNI-Data-MD5"), body)], Run(INITIAL, rest));
      }
    }
  }

  // ---------- a whole stream ----------

  datatype Event = Completed(frame: Frame) | Acked

  datatype StreamResult = StreamResult(state: State, events: seq<Event>, crashed: bool)

  function Completions(frames: seq<Frame>): (es: seq<Event>)
    ensures |es| == |frames|
    ensures forall i :: 0 <= i < |frames| ==> es[i] == Completed(frames[i])
  {
    seq(|frames|, i requires 0 <= i < |frames| => Completed(frames[i]))
  }

  lemma CompletionsAppend(a: seq<Frame>, b: seq<Frame>)
    ensures Completions(a + b) == Completions(a) + Completions(b)
  {}

  function Then(events: seq<Event>, r: StreamResult): StreamResult {
    r.(events := events + r.events)
  }

  lemma ThenThen(a: seq<Event>, b: seq<Event>, r: StreamResult)
    ensures Then(a, Then(b, r)) == Then(a + b, r)
  {
    assert a + (b + r.events) == (a + b) + r.events;
  }

  /** The automaton on a stream whose pings are all acknowledged: a ping forgets the
      headers read so far, and no byte after it is lost. */
  function Stream(s: State, input: string): StreamResult
    decreases |input|
  {
    if input == "" then StreamResult(s, [], false)
    else
      var o := OnByte(s, input[0]);
      match o.signal
      case Quiet => Then(Completions(o.frames), Stream(o.state, input[1..]))
      case Ping => Then(Completions(o.frames) + [Acked], Stream(INITIAL, input[1..]))
      case Crash => StreamResult(o.state, Completions(o.frames), true)
  }

  /** What one run contributes to the stream; `next` is the stream after it. */
  function Contribution(r: RunResult, next: State -> StreamResult): StreamResult {
    match r.stop
    case Quiet => Then(Completions(r.frames), next(r.state))
    case Ping => Then(Completions(r.frames) + [Acked], next(INITIAL))
    case Crash => StreamResult(r.state, Completions(r.frames), true)
  }

  /** A stream may be read run by run. */
  lemma {:induction false} StreamByRuns(s: State, a: string, b: string)
    ensures Stream(s, Consumed(s, a) + b) == Contribution(Run(s, a), t => Stream(t, b))
    decreases |a|
  {
    hide OnByte;
    var input := Consumed(s, a) + b;
    if a == "" {
      assert input == b;
      assert Completions([]) == [];
      assert [] + Stream(s, b).events == Stream(s, b).events;
    } else {
      var o := OnByte(s, a[0]);
      if o.signal == Quiet {
        assert input[0] == a[0] && input[1..] == Consumed(o.state, a[1..]) + b;
        StreamByRuns(o.state, a[1..], b);
        var r := Run(o.state, a[1..]);
        CompletionsAppend(o.frames, r.frames);
        assert Completions(o.frames) + (Completions(r.frames) + [Acked])
            == Completions(o.frames) + Completions(r.frames) + [Acked];
        ThenThen(Completions(o.frames), Completions(r.frames), Stream(r.state, b));
        ThenThen(Completions(o.frames), Completions(r.frames) + [Acked], Stream(INITIAL, b));
      } else {
        assert Consumed(s, a) == [a[0]];
        assert input[0] == a[0] && input[1..] == b;
      }
    }
  }

  /** More bytes only add events. */
  lemma {:induction false} StreamOfPrefix(s: State, a: string, b: string)
    ensures Stream(s, a).events <= Stream(s, a + b).events
    decreases |a|
  {
    hide OnByte;
    if a != "" {
      var o := OnByte(s, a[0]);
      assert (a + b)[0] == a[0] && (a + b)[1..] == a[1..] + b;
      if o.signal != Crash {
        StreamOfPrefix(if o.signal == Ping then INITIAL else o.state, a[1..], b);
      }
    }
  }

  // ---------- a stream cut into chunks ----------

  /** What successive calls of Feed return, each call dropping what follows a ping in its
      chunk. The frames of the call that crashes are never returned. */
  function FeedAll(s: State, chunks: seq<string>): StreamResult
    decreases |chunks|
  {
    if chunks == [] then StreamResult(s, [], false)
    else
      var r := Run(s, chunks[0]);
      match r.stop
      case Quiet => Then(Completions(r.frames), FeedAll(r.state, chunks[1..]))
      case Ping => Then(Completions(r.frames) + [Acked], FeedAll(INITIAL, chunks[1..]))
      case Crash => StreamResult(r.state, [], true)
  }

  /** The bytes that are looked at when the stream arrives in these chunks. */
  function Kept(s: State, chunks: seq<string>): string
    decreases |chunks|
  {
    if chunks == [] then ""
    else
      var r := Run(s, chunks[0]);
      Consumed(s, chunks[0]) +
      match r.stop
      case Quiet => Kept(r.state, chunks[1..])
      case Ping => Kept(INITIAL, chunks[1..])
      case Crash => ""
  }

  /** Every header-mode ping ends the chunk it arrives in. */
  predicate PingsEndChunks(s: State, chunks: seq<string>)
    decreases |chunks|
  {
    chunks == [] ||
    var r := Run(s, chunks[0]);
    match r.stop
    case Quiet => PingsEndChunks(r.state, chunks[1..])
    case Ping => r.rest == "" && PingsEndChunks(INITIAL, chunks[1..])
    case Crash => true
  }

  /** For every chunking, Feed sees exactly the stream made of the kept bytes. */
  lemma {:induction false} ChunksAreAStream(s: State, chunks: seq<string>)
    ensures
      var whole, fed := Stream(s, Kept(s, chunks)), FeedAll(s, chunks);
      fed.crashed == whole.crashed && (!fed.crashed ==> fed == whole)
    decreases |chunks|
  {
    if chunks != [] {
      var r := Run(s, chunks[0]);
      var next := if r.stop == Ping then INITIAL else r.state;
      ChunksAreAStream(next, chunks[1..]);
      StreamByRuns(s, chunks[0], if r.stop == Crash then "" else Kept(next, chunks[1..]));
    }
  }

  /** Where no byte follows a ping in its chunk, Feed sees the whole stream. */
  lemma {:induction false} AlignedChunks(s: State, chunks: seq<string>)
    requires PingsEndChunks(s, chunks)
    ensures
      var whole, fed := Stream(s, Flatten(chunks)), FeedAll(s, chunks);
      fed.crashed == whole.crashed && (!fed.crashed ==> fed == whole)
    decreases |chunks|
  {
    hide Run, Stream;
    if chunks == [] {
      StreamOnNothing(s);
    } else {
      var r := Run(s, chunks[0]);
      var seen := Consumed(s, chunks[0]);
      var more := r.rest + Flatten(chunks[1..]);
      assert Flatten(chunks) == seen + more by {
        ConsumedThenRest(s, chunks[0]);
        assert seen + r.rest + Flatten(chunks[1..]) == seen + more;
      }
      StreamByRuns(s, chunks[0], more);
      if r.stop != Crash {
        AlignedChunks(if r.stop == Ping then INITIAL else r.state, chunks[1..]);
        assert more == Flatten(chunks[1..]);
      }
    }
  }

  lemma StreamOnNothing(s: State)
    ensures Stream(s, "") == StreamResult(s, [], false)
  {}

  /** A stream with every ping acknowledged crashes if and only if it holds the end of a Data
      block with a negative Content-Length. */
  lemma {:induction false} CrashesExactly(s: State, input: string)
    ensures Stream(s, input).crashed <==> exists i :: 0 <= i < |input| && CrashesAt(s, input, i)
    decreases |input|
  {
    hide OnByte;
    if input != "" {
      var o, tail := OnByte(s, input[0]), input[1..];
      var next := if o.signal == Ping then INITIAL else o.state;
      SignalsExactly(s, input[0]);
      hide EndsPing, EndsNegativeBlock;
      assert CrashesAt(s, input, 0) <==> o.signal == Crash by {
        assert input[..0] == "";
      }
      CrashesExactly(next, tail);
      forall i | 0 < i < |input|
        ensures CrashesAt(s, input, i) <==> o.signal != Crash && CrashesAt(next, tail, i - 1)
      {
        assert input[..i][0] == input[0] && input[..i][1..] == tail[..i - 1];
      }
      if j :| 0 <= j < |tail| && CrashesAt(next, tail, j) {
        assert o.signal != Crash ==> CrashesAt(s, input, j + 1);
      }
    }
  }

  predicate CrashesAt(s: State, input: string, i: nat)
    requires i < |input|
  {
    var before := Stream(s, input[..i]);
    !before.crashed && EndsNegativeBlock(before.state, input[i])
  }

  lemma {:induction false} ConsumedThenRest(s: State, input: string)
    ensures Consumed(s, input) + Run(s, input).rest == input
    decreases |input|
  {
    hide OnByte;
    if input != "" {
      var o := OnByte(s, input[0]);
      if o.signal == Quiet {
        ConsumedThenRest(o.state, input[1..]);
        assert Consumed(s, input) == [input[0]] + Consumed(o.state, input[1..]);
      }
    }
  }

  /** The frames, acknowledgements and final state do not depend on where the stream is cut,
      as long as every ping ends its chunk. */
  lemma ChunkingIndependence(s: State, chunks: seq<string>, others: seq<string>)
    requires Flatten(chunks) == Flatten(others)
    requires PingsEndChunks(s, chunks) && PingsEndChunks(s, others)
    ensures
      var a, b := FeedAll(s, chunks), FeedAll(s, others);
      a.crashed == b.crashed && (!a.crashed ==> a == b)
  {
    AlignedChunks(s, chunks);
    AlignedChunks(s, others);
  }

  /** A stream without an acknowledgement, except perhaps at its last byte, has its pings
      aligned however it is cut. */
  lemma {:induction false} OnlyLastByteAcks(s: State, chunks: seq<string>, front: string)
    requires front <= Flatten(chunks) && |Flatten(chunks)| <= |front| + 1
    requires Acked !in Stream(s, front).events
    ensures PingsEndChunks(s, chunks)
    decreases |chunks|
  {
    hide Run, Stream;
    if chunks != [] {
      var r := Run(s, chunks[0]);
      var seen := Consumed(s, chunks[0]);
      ConsumedThenRest(s, chunks[0]);
      assert Flatten(chunks) == seen + (r.rest + Flatten(chunks[1..]));
      if |seen| <= |front| {
        var more := front[|seen|..];
        assert front == seen + more;
        StreamByRuns(s, chunks[0], more);
        if r.stop == Quiet {
          OnlyLastByteAcks(r.state, chunks[1..], more);
        }
      } else if r.stop == Quiet {
        assert Flatten(chunks[1..]) == "";
        StreamOnNothing(r.state);
        OnlyLastByteAcks(r.state, chunks[1..], "");
      } else if r.stop == Ping {
        assert Flatten(chunks[1..]) == "";
        StreamOnNothing(INITIAL);
        OnlyLastByteAcks(INITIAL, chunks[1..], "");
      }
    }
  }

  /** Feeding one list of chunks and then another. */
  lemma {:induction false} FeedAllAppend(s: State, a: seq<string>, b: seq<string>)
    requires !FeedAll(s, a).crashed
    ensures
      var fed := FeedAll(s, a);
      && FeedAll(s, a + b) == Then(fed.events, FeedAll(fed.state, b))
      && (PingsEndChunks(s, a) && PingsEndChunks(fed.state, b) ==> PingsEndChunks(s, a + b))
    decreases |a|
  {
    hide Run;
    if a == [] {
      assert a + b == b;
      assert [] + FeedAll(s, b).events == FeedAll(s, b).events;
    } else {
      var r := Run(s, a[0]);
      var next := if r.stop == Ping then INITIAL else r.state;
      assert (a + b)[1..] == a[1..] + b;
      FeedAllAppend(next, a[1..], b);
      var now := Completions(r.frames) + if r.stop == Ping then [Acked] else [];
      assert Completions(r.frames) + [] == Completions(r.frames);
      var fed := FeedAll(next, a[1..]);
      ThenThen(now, fed.events, FeedAll(fed.state, b));
    }
  }
}
