/** The read loop that drives the parser and calls the handlers (internal/wni/client.go). */
module Clients {
  import opened Text
  import opened FrameAutomaton
  import opened FrameParsers

  /** What the environment does at one turn of the loop: the context is cancelled, the read
      fails (or times out), or some bytes arrive. `now` and `fate` serve an acknowledgement. */
  datatype Turn = Cancelled | ReadFails | Bytes(data: string, now: string, fate: Fate)

  /** Which handlers are set. */
  datatype Handlers = Handlers(onData: bool, onKeepAlive: bool, onResponse: bool)

  datatype Callback =
    | OnData(md5: string, body: string)
    | OnKeepAlive
    | OnResponse(header: Headers)

  datatype Ending = StillReading | ContextError | ReadError | AckError | Panic

  /** The call, if any, made for one frame. Unknown frames are ignored. */
  function CallbackFor(h: Handlers, f: Frame): seq<Callback> {
    match f
    case Data(_, md5, body) => if h.onData then [OnData(md5, body)] else []
    case KeepAlive => if h.onKeepAlive then [OnKeepAlive] else []
    case Response(header) => if h.onResponse then [OnResponse(header)] else []
    case Unknown(_, _) => []
  }

  function Dispatch(h: Handlers, frames: seq<Frame>): seq<Callback> {
    if frames == [] then []
    else Dispatch(h, frames[..|frames| - 1]) + CallbackFor(h, frames[|frames| - 1])
  }

  lemma {:induction false} DispatchAppend(h: Handlers, a: seq<Frame>, b: seq<Frame>)
    ensures Dispatch(h, a + b) == Dispatch(h, a) + Dispatch(h, b)
  {
    if b == [] {
      assert a + b == a;
    } else {
      assert (a + b)[..|a + b| - 1] == a + b[..|b| - 1];
      DispatchAppend(h, a, b[..|b| - 1]);
    }
  }

  /** Which call each frame makes, in the order of the frames. */
  lemma {:induction false} DispatchSpelled(h: Handlers, frames: seq<Frame>) returns (parts: seq<seq<Callback>>)
    ensures |parts| == |frames| && Dispatch(h, frames) == Concat(parts)
    ensures forall k :: 0 <= k < |frames| ==>
              && (frames[k].Data? ==>
                    parts[k] == if h.onData then [OnData(frames[k].md5, frames[k].body)] else [])
              && (frames[k].KeepAlive? ==> parts[k] == if h.onKeepAlive then [OnKeepAlive] else [])
              && (frames[k].Response? ==>
                    parts[k] == if h.onResponse then [OnResponse(frames[k].header)] else [])
              && (frames[k].Unknown? ==> parts[k] == [])
  {
    if frames == [] {
      parts := [];
    } else {
      var n := |frames| - 1;
      var front := DispatchSpelled(h, frames[..n]);
      parts := front + [CallbackFor(h, frames[n])];
      ConcatAppend(front, CallbackFor(h, frames[n]));
    }
  }

  /** Frames of unknown kinds call nothing. */
  lemma {:induction false} UnknownCallsNothing(h: Handlers, frames: seq<Frame>)
    requires forall k :: 0 <= k < |frames| ==> frames[k].Unknown?
    ensures Dispatch(h, frames) == []
  {
    if frames != [] {
      UnknownCallsNothing(h, frames[..|frames| - 1]);
    }
  }

  lemma DispatchNothing(h: Handlers, frames: seq<Frame>)
    ensures Dispatch(h, frames[..0]) == []
  {}

  lemma DispatchNext(h: Handlers, frames: seq<Frame>, i: nat)
    requires i < |frames|
    ensures Dispatch(h, frames[..i + 1]) == Dispatch(h, frames[..i]) + CallbackFor(h, frames[i])
  {
    assert frames[..i + 1][..i] == frames[..i];
  }

  /** The frames among a stream's events. */
  function FramesOf(es: seq<Event>): seq<Frame> {
    if es == [] then []
    else FramesOf(es[..|es| - 1])
         + match es[|es| - 1] case Completed(f) => [f] case Acked => []
  }

  lemma {:induction false} FramesOfAppend(a: seq<Event>, b: seq<Event>)
    ensures FramesOf(a + b) == FramesOf(a) + FramesOf(b)
  {
    if b == [] {
      assert a + b == a;
    } else {
      assert (a + b)[..|a + b| - 1] == a + b[..|b| - 1];
      FramesOfAppend(a, b[..|b| - 1]);
    }
  }

  lemma {:induction false} FramesOfCompletions(frames: seq<Frame>)
    ensures FramesOf(Completions(frames)) == frames
  {
    if frames != [] {
      var front := frames[..|frames| - 1];
      FramesOfCompletions(front);
      assert Completions(frames)[..|frames| - 1] == Completions(front);
      assert frames == front + [frames[|frames| - 1]];
    }
  }

  // ---------- the loop as a function of the turns ----------

  datatype Session = Session(callbacks: seq<Callback>, ending: Ending)

  function Preceded(earlier: seq<Callback>, s: Session): Session {
    s.(callbacks := earlier + s.callbacks)
  }

  lemma PrecededTwice(a: seq<Callback>, b: seq<Callback>, s: Session)
    ensures Preceded(a, Preceded(b, s)) == Preceded(a + b, s)
  {
    assert a + (b + s.callbacks) == (a + b) + s.callbacks;
  }

  lemma PrecededByNothing(s: Session)
    ensures Preceded([], s) == s
  {
    assert [] + s.callbacks == s.callbacks;
  }

  /** What Run does on a list of turns, the parser being in quiescent state s. */
  function Sessions(s: State, turns: seq<Turn>, h: Handlers): Session
    decreases |turns|, 0
  {
    if turns == [] then Session([], StillReading) else SessionFrom(s, turns[0], turns[1..], h)
  }

  function SessionFrom(s: State, turn: Turn, later: seq<Turn>, h: Handlers): Session
    decreases |later|, 1
  {
    match turn
    case Cancelled => Session([], ContextError)
    case ReadFails => Session([], ReadError)
    case Bytes(data, _, fate) =>
      var r := Run(s, data);
      match Outcome(r, fate.Sent?)
      case Fed(frames) => Preceded(Dispatch(h, frames), Sessions(Remains(r, fate.Sent?), later, h))
      case AckFailed(frames) => Session(Dispatch(h, frames), AckError)
      case Panicked => Session([], Panic)
  }

  lemma SessionsFrom(s: State, turns: seq<Turn>, i: nat, h: Handlers)
    requires i < |turns|
    ensures Sessions(s, turns[i..], h) == SessionFrom(s, turns[i], turns[i + 1..], h)
  {
    hide SessionFrom;
    assert turns[i..][0] == turns[i] && turns[i..][1..] == turns[i + 1..];
  }

  /** Why the loop ends: a cancellation, a failed read or a failed acknowledgement has happened, or
      all turns were reads and none of them ended it. */
  lemma {:induction false} EndingHasCause(s: State, turns: seq<Turn>, h: Handlers)
    ensures
      var ending := Sessions(s, turns, h).ending;
      && (ending == ContextError ==> exists i :: 0 <= i < |turns| && turns[i].Cancelled?)
      && (ending == ReadError ==> exists i :: 0 <= i < |turns| && turns[i].ReadFails?)
      && (ending == AckError ==> exists i :: 0 <= i < |turns| && turns[i].Bytes? && turns[i].fate.Broken?)
      && (ending == StillReading ==> forall i :: 0 <= i < |turns| ==> turns[i].Bytes?)
    decreases |turns|
  {
    hide Run, Dispatch;
    if turns != [] && turns[0].Bytes? {
      var r := Run(s, turns[0].data);
      var tail := turns[1..];
      EndingHasCause(Remains(r, turns[0].fate.Sent?), tail, h);
      assert forall i :: 0 <= i < |tail| ==> tail[i] == turns[i + 1];
      assert turns[0].fate.Broken? ==> turns[0].Bytes?;
      assert forall i :: 1 <= i < |turns| ==> turns[i] == tail[i - 1];
    }
  }

  /** The bytes the automaton gets to see: each read up to and including its first ping, and
      nothing after an ending. */
  function Heard(s: State, turns: seq<Turn>): string
    decreases |turns|
  {
    if turns == [] || !turns[0].Bytes? then ""
    else
      var r := Run(s, turns[0].data);
      Consumed(s, turns[0].data) +
      match Outcome(r, turns[0].fate.Sent?)
      case Fed(_) => Heard(Remains(r, turns[0].fate.Sent?), turns[1..])
      case AckFailed(_) => ""
      case Panicked => ""
  }

  /** Run loses no parsed frame. Whatever is read, and wherever an acknowledgement fails, the
      handlers have been called for exactly the frames the automaton completes on the bytes
      heard, in order, including those that precede the failing ping in the same read. The one
      exception is the panic, which loses the frames of its own read. */
  lemma {:induction false} NoParsedFrameLost(s: State, turns: seq<Turn>, h: Handlers)
    ensures
      var session, whole := Sessions(s, turns, h), Stream(s, Heard(s, turns));
      && (session.ending == Panic <==> whole.crashed)
      && (session.ending != Panic ==> session.callbacks == Dispatch(h, FramesOf(whole.events)))
    decreases |turns|
  {
    hide Run, Stream, FramesOf, Dispatch, Consumed;
    NothingToDo(h);
    if turns == [] || !turns[0].Bytes? {
      StreamOnNothing(s);
    } else {
      var data, ackOk := turns[0].data, turns[0].fate.Sent?;
      var r := Run(s, data);
      var next := if r.stop == Ping then INITIAL else r.state;
      var more := if Outcome(r, ackOk).Fed? then Heard(next, turns[1..]) else "";
      StreamByRuns(s, data, more);
      StreamOnNothing(INITIAL);
      FramesOfCompletions(r.frames);
      if Outcome(r, ackOk).Fed? {
        NoParsedFrameLost(next, turns[1..], h);
        var now := if r.stop == Ping then [Acked] else [];
        var later := Stream(next, more).events;
        FramesOfAcks(r.frames, now, later);
        assert Completions(r.frames) + [] == Completions(r.frames);
        DispatchAppend(h, r.frames, FramesOf(later));
      } else if r.stop == Ping {
        FramesOfAcks(r.frames, [Acked], []);
        assert r.frames + FramesOf([]) == r.frames;
      }
    }
  }

  /** The loop panics if and only if the bytes heard hold the end of a Data block with a negative
      Content-Length. */
  lemma ClientPanicsExactly(s: State, turns: seq<Turn>, h: Handlers)
    ensures
      var heard := Heard(s, turns);
      Sessions(s, turns, h).ending == Panic <==> exists i :: 0 <= i < |heard| && CrashesAt(s, heard, i)
  {
    NoParsedFrameLost(s, turns, h);
    CrashesExactly(s, Heard(s, turns));
  }

  lemma NothingToDo(h: Handlers)
    ensures FramesOf([]) == [] && Dispatch(h, []) == []
  {}

  lemma FramesOfAcks(frames: seq<Frame>, acks: seq<Event>, later: seq<Event>)
    requires acks == [] || acks == [Acked]
    ensures FramesOf(Completions(frames) + acks + later) == frames + FramesOf(later)
  {
    FramesOfAppend(Completions(frames) + acks, later);
    FramesOfAppend(Completions(frames), acks);
    FramesOfCompletions(frames);
    assert FramesOf(acks) == [] by {
      assert acks != [] ==> acks[..|acks| - 1] == [];
    }
    assert frames + [] == frames;
  }

  lemma NoTurnsLeft(s: State, turns: seq<Turn>, h: Handlers)
    requires turns == []
    ensures Sessions(s, turns, h) == Session([], StillReading)
  {}

  class Client {
    const parser: FrameParser

    constructor (p: FrameParser)
      ensures parser == p
    {
      parser := p;
    }

    /** `turns` is what the environment does, one element per iteration; StillReading means
        that it has been used up. */
    method Run(turns: seq<Turn>, h: Handlers) returns (callbacks: seq<Callback>, ending: Ending)
      requires parser.Valid() && Quiescent(parser.View())
      modifies parser, parser.ackWriter
      ensures Session(callbacks, ending) == Sessions(old(parser.View()), turns, h)
    {
      hide FrameAutomaton.Run, Dispatch, Quiescent, Backlog, Sessions, Remains;
      callbacks, ending := [], StillReading;
      var i := 0;
      ghost var whole := Sessions(parser.View(), turns, h);
      assert turns[0..] == turns;
      PrecededByNothing(whole);
      while i < |turns|
        invariant 0 <= i <= |turns|
        invariant parser.Valid() && Quiescent(parser.View())
        invariant ending == StillReading
        invariant whole == Preceded(callbacks, Sessions(parser.View(), turns[i..], h))
      {
        var turn := turns[i];
        SessionsFrom(parser.View(), turns, i, h);
        if turn.Cancelled? {
          ending := ContextError;
          return;
        }
        if turn.ReadFails? {
          ending := ReadError;
          return;
        }
        ghost var earlier := callbacks;
        QuiescentBacklog(parser.View(), turn.data);
        var res := parser.Feed(turn.data, turn.now, turn.fate);
        if res.Panicked? {
          ending := Panic;
          return;
        }
        callbacks := DispatchFrames(res.frames, h, callbacks);
        if res.AckFailed? {
          ending := AckError;
          return;
        }
        i := i + 1;
        PrecededTwice(earlier, Dispatch(h, res.frames), Sessions(parser.View(), turns[i..], h));
      }
      NoTurnsLeft(parser.View(), turns[i..], h);
    }

    method DispatchFrames(frames: seq<Frame>, h: Handlers, before: seq<Callback>)
      returns (callbacks: seq<Callback>)
      ensures callbacks == before + Dispatch(h, frames)
    {
      hide Dispatch;
      callbacks := before;
      DispatchNothing(h, frames);
      for i := 0 to |frames|
        invariant callbacks == before + Dispatch(h, frames[..i])
      {
        ghost var done := callbacks;
        DispatchNext(h, frames, i);
        match frames[i] {
          case Data(_, md5, body) =>
            if h.onData {
              callbacks := callbacks + [OnData(md5, body)];
            }
          case KeepAlive =>
            if h.onKeepAlive {
              callbacks := callbacks + [OnKeepAlive];
            }
          case Response(header) =>
            if h.onResponse {
              callbacks := callbacks + [OnResponse(header)];
            }
          case Unknown(_, _) =>
        }
        assert callbacks == done + CallbackFor(h, frames[i]);
      }
      assert frames[..|frames|] == frames;
    }
  }
}
