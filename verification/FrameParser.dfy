/** The incremental frame parser as the program has it (internal/wni/protocol.go): a
    buffer and a loop, proved against the byte automaton. */
module FrameParsers {
  import opened Text
  import opened FrameAutomaton

  /** The connection's write side. */
  class AckWriter {
    var sent: string

    constructor ()
      ensures sent == ""
    {
      sent := "";
    }

    method Write(msg: string, fate: Fate) returns (ok: bool)
      modifies this
      ensures ok == fate.Sent?
      ensures sent == old(sent) + Delivered(msg, fate)
    {
      sent := sent + Delivered(msg, fate);
      ok := fate.Sent?;
    }
  }

  /** `now` is the formatted clock reading. */
  function AckMessage(now: string): string {
    "HTTP/1.0 200 OK\n" +
    "Content-Type: application/fast-cast\n" +
    "Server: FastCaster/1.0.0 (Unix)\n" +
    "X-WNI-ID: Response\n" +
    "X-WNI-Result: OK\n" +
    "X-WNI-Protocol-Version: 2.1\n" +
    "X-WNI-Time: " + now + "\n" +
    "\n"
  }

  datatype FeedResult =
    | Fed(frames: seq<Frame>)
    | AckFailed(frames: seq<Frame>)
    | Panicked

  /** What Feed returns, given the automaton's run over everything buffered and new. */
  function Outcome(r: RunResult, ackOk: bool): FeedResult {
    match r.stop
    case Quiet => Fed(r.frames)
    case Ping => if ackOk then Fed(r.frames) else AckFailed(r.frames)
    case Crash => Panicked
  }

  /** The parser state Feed leaves behind. A failed acknowledgement leaves the headers
      and the unread bytes in place. */
  function Remains(r: RunResult, ackOk: bool): State {
    match r.stop
    case Quiet => r.state
    case Ping => if ackOk then INITIAL else State(Lines, r.state.header, r.rest)
    case Crash => r.state  // of no consequence
  }

  /** The automaton's run over what a parser in state s holds followed by new data. */
  function Backlog(s: State, data: string): RunResult {
    Run(s.(held := ""), s.held + data)
  }

  /** After a successful Feed the held bytes need not be read again: feeding is running the
      automaton on the new bytes alone. */
  lemma QuiescentBacklog(s: State, data: string)
    requires Quiescent(s)
    ensures Backlog(s, data) == Run(s, data)
  {
    var start := s.(held := "");
    match s.mode {
      case Lines => RunPartialLine(s.header, "", s.held);
      case Body(n) => RunPartialBody(s.header, n, "", s.held);
    }
    assert "" + s.held == s.held;
    RunAppend(start, s.held, data);
    AfterNothing(Run(s, data));
  }

  /** Feed panics if and only if some byte of the new data, read in the state that the quiet run
      over the bytes before it leads to, ends a Data block with a negative Content-Length. */
  lemma FeedPanicsExactly(s: State, data: string, ackOk: bool)
    requires Quiescent(s)
    ensures Outcome(Backlog(s, data), ackOk) == Panicked <==>
              exists i :: 0 <= i < |data| && PanicsAt(s, data, i)
  {
    hide OnByte, Run, Quiescent, Backlog, EndsNegativeBlock;
    QuiescentBacklog(s, data);
    StopsExactly(s, data, Crash);
    forall i | 0 <= i < |data|
      ensures StopsAt(s, data, i, Crash) <==> PanicsAt(s, data, i)
    {
      SignalsExactly(Run(s, data[..i]).state, data[i]);
    }
  }

  predicate PanicsAt(s: State, data: string, i: nat)
    requires i < |data|
  {
    var before := Run(s, data[..i]);
    before.stop == Quiet && EndsNegativeBlock(before.state, data[i])
  }

  // ---------- the loop's view: one line or one body at a time ----------

  /** The automaton's continuation from the loop's variables. When `hasSize` is set the
      body of `size` bytes is about to be read from `buf`. */
  function Drain(buf: string, header: Headers, size: int, hasSize: bool): RunResult {
    if hasSize then Proceed(Open(header, size), buf)
    else Run(State(Lines, header, ""), buf)
  }

  lemma DrainStart(s: State, size: int, data: string)
    requires s.mode.Body? ==> s.mode == Body(size) && |s.held| < size
    ensures Drain(s.held + data, s.header, size, s.mode.Body?) == Backlog(s, data)
  {
    hide Run;
    AfterNothing(Backlog(s, data));
  }

  lemma DrainNegative(buf: string, header: Headers, size: int)
    requires size < 0
    ensures Drain(buf, header, size, true).stop == Crash
  {}

  lemma DrainNoLine(buf: string, header: Headers, size: int)
    requires '\n' !in buf
    ensures Drain(buf, header, size, false) == RunResult(State(Lines, header, buf), [], Quiet, "")
  {
    RunPartialLine(header, "", buf);
    assert "" + buf == buf;
  }

  lemma DrainLine(buf: string, header: Headers, size: int, idx: nat)
    requires idx < |buf| && buf[idx] == '\n' && '\n' !in buf[..idx]
    ensures Drain(buf, header, size, false)
            == Proceed(EndLine(header, TrimRightCR(buf[..idx])), buf[idx + 1..])
  {
    assert buf == buf[..idx] + "\n" + buf[idx + 1..];
    RunLine(header, buf[..idx], buf[idx + 1..]);
  }

  lemma DrainShortBody(buf: string, header: Headers, size: int)
    requires |buf| < size
    ensures Drain(buf, header, size, true)
            == RunResult(State(Body(size), header, buf), [], Quiet, "")
  {
    RunPartialBody(header, size, "", buf);
    assert "" + buf == buf;
  }

  lemma DrainBody(buf: string, header: Headers, size: nat)
    requires size <= |buf|
    ensures Drain(buf, header, size, true)
            == After([Data(header, Get(header, "X-WNI-Data-MD5"), buf[..size])],
                     Run(INITIAL, buf[size..]))
  {
    assert buf == buf[..size] + buf[size..];
    RunBody(header, buf[..size], buf[size..]);
  }


  lemma PingKeepsHeader(header: Headers, line: string)
    requires EndLine(header, line).signal == Ping
    ensures EndLine(header, line) == Step(State(Lines, header, ""), [], Ping)
  {
    hide EndBlock, Contains, IndexOf, TrimSpace;
  }

  class FrameParser {
    const ackWriter: AckWriter
    var buf: string
    var header: Headers
    var size: int
    var hasSize: bool

    ghost function View(): State
      reads this
    {
      State(if hasSize then Body(size) else Lines, header, buf)
    }

    /** A body, once begun, is still incomplete. */
    ghost predicate Valid()
      reads this
    {
      hasSize ==> |buf| < size
    }

    constructor (w: AckWriter)
      ensures ackWriter == w && Valid() && View() == INITIAL
    {
      ackWriter := w;
      buf, header, size, hasSize := "", map[], 0, false;
    }

    method SendAck(now: string, fate: Fate) returns (ok: bool)
      modifies ackWriter
      ensures ok == fate.Sent?
      ensures ackWriter.sent == old(ackWriter.sent) + Delivered(AckMessage(now), fate)
      ensures ok ==>
        ackWriter.sent ==
          old(ackWriter.sent) +
          ("HTTP/1.0 200 OK\n" +
           "Content-Type: application/fast-cast\n" +
           "Server: FastCaster/1.0.0 (Unix)\n" +
           "X-WNI-ID: Response\n" +
           "X-WNI-Result: OK\n" +
           "X-WNI-Protocol-Version: 2.1\n" +
           "X-WNI-Time: " + now + "\n" +
           "\n")
    {
      ok := ackWriter.Write(AckMessage(now), fate);
    }

    /** The blank line that ends a header block. */
    method CloseBlock(frames: seq<Frame>) returns (out: seq<Frame>)
      requires !hasSize
      modifies this
      ensures buf == old(buf)
      ensures After(out, Drain(buf, header, size, hasSize))
              == After(frames, Proceed(EndBlock(old(header)), buf))
    {
      hide Run, Atoi, TrimSpace;
      out := frames;
      var id := Get(header, "X-WNI-ID");
      if id == "Data" {
        if "Content-Length" in header {
          var n := Atoi(TrimSpace(header["Content-Length"]));
          if n.Some? {
            size := n.value;
            hasSize := true;
          }
        }
      } else if id == "Response" {
        out := out + [Response(header)];
      } else if id == "Keep-Alive" {
        out := out + [KeepAlive];
      } else {
        out := out + [Unknown(id, header)];
      }
      if !hasSize {
        ghost var o := EndBlock(header);
        header := map[];
        assert out == frames + o.frames;
        AfterAfter(frames, o.frames, Run(o.state, buf));
      }
    }

    /** One header line, without its terminator. `buf` is what follows it. */
    method TakeLine(line: string, frames: seq<Frame>, now: string, fate: Fate)
      returns (out: seq<Frame>, ok: bool)
      requires !hasSize
      modifies this, ackWriter
      ensures
        var o := EndLine(old(header), line);
        if o.signal == Ping then
          && out == frames && ok == fate.Sent? && !hasSize
          && (if ok then View() == INITIAL else View() == old(View()))
          && ackWriter.sent == old(ackWriter.sent) + Delivered(AckMessage(now), fate)
        else
          && ok && buf == old(buf) && ackWriter.sent == old(ackWriter.sent)
          && After(out, Drain(buf, header, size, hasSize)) == After(frames, Proceed(o, buf))
    {
      hide Run, Contains, IndexOf, TrimSpace, EndBlock, Delivered, AckMessage;
      out, ok := frames, true;
      if Contains(line, PING) {
        ok := SendAck(now, fate);
        if ok {
          header := map[];
          buf := "";
        }
        return;
      }
      var colon := IndexOf(line, ':');
      if colon >= 0 {
        var name := TrimSpace(line[..colon]);
        var val := TrimSpace(line[colon + 1..]);
        header := header[name := val];
        AfterNothing(Run(State(Lines, header, ""), buf));
        return;
      }
      if |line| == 0 {
        out := CloseBlock(frames);
        return;
      }
      AfterNothing(Run(State(Lines, header, ""), buf));
    }

    /** The `size` body bytes at the front of `buf`. */
    method TakeBody(frames: seq<Frame>) returns (out: seq<Frame>)
      requires hasSize && 0 <= size <= |buf|
      modifies this
      ensures !hasSize && buf == old(buf[size..])
      ensures After(out, Drain(buf, header, size, hasSize))
              == After(frames, Drain(old(buf), old(header), old(size), true))
    {
      hide Run;
      DrainBody(buf, header, size);
      var frame := Data(header, Get(header, "X-WNI-Data-MD5"), buf[..size]);
      AfterAfter(frames, [frame], Run(INITIAL, buf[size..]));
      buf := buf[size..];
      out := frames + [frame];
      hasSize := false;
      header := map[];
    }

    /** `now` and `fate` are the clock and the fate of an acknowledgement write, should one
        be needed; there is never more than one. */
    method Feed(data: string, now: string, fate: Fate) returns (res: FeedResult)
      requires Valid()
      modifies this, ackWriter
      ensures
        var r := Backlog(old(View()), data);
        && res == Outcome(r, fate.Sent?)
        && (!res.Panicked? ==> Valid() && View() == Remains(r, fate.Sent?))
        && (res.Fed? ==> Quiescent(View()))
        && ackWriter.sent
           == old(ackWriter.sent) + if r.stop == Ping then Delivered(AckMessage(now), fate) else ""
    {
      hide Run, EndLine, IndexOf, TrimRightCR, OnByte, Drain, Backlog, Delivered, AckMessage;
      ghost var total := Backlog(View(), data);
      DrainStart(View(), size, data);
      ghost var pinged := false;
      buf := buf + data;
      var frames: seq<Frame> := [];
      AfterNothing(total);
      while true
        invariant hasSize ==> !pinged
        invariant !pinged ==> total == After(frames, Drain(buf, header, size, hasSize))
        invariant !pinged ==> ackWriter.sent == old(ackWriter.sent)
        invariant pinged ==>
          && total.stop == Ping && fate.Sent? && frames == total.frames
          && buf == "" && header == map[] && !hasSize
          && ackWriter.sent == old(ackWriter.sent) + Delivered(AckMessage(now), fate)
        decreases |buf|, if hasSize then 1 else 0
      {
        if !hasSize {
          var idx := IndexOf(buf, '\n');
          if idx < 0 {
            DrainNoLine(buf, header, size);
            break;
          }
          DrainLine(buf, header, size, idx);
          var line := TrimRightCR(buf[..idx]);
          buf := buf[idx + 1..];
          ghost var ping := EndLine(header, line).signal == Ping;
          if ping {
            PingKeepsHeader(header, line);
          }
          var ok;
          frames, ok := TakeLine(line, frames, now, fate);
          if !ok {
            return AckFailed(frames);
          }
          pinged := ping;
          continue;
        }

        if |buf| < size {
          DrainShortBody(buf, header, size);
          break;
        }
        if size < 0 {
          // buf[:size] is out of range in the original
          DrainNegative(buf, header, size);
          return Panicked;
        }
        frames := TakeBody(frames);
      }
      return Fed(frames);
    }
  }
}
