/** One IRC connection: what it queues, and the channels shared by its goroutines
    (internal/irc/connection.go). */
module Connections {
  import opened Decoder
  import opened Messages
  import opened Queues
  import opened QueueRuns
  import opened Dispatchers

  const QUEUE_CAPACITY := 32

  // ---------- what is queued ----------

  /** What befalls the queue of a connection: Notify is told of a telegram, the writer asks for
      the next notice, Run ends and closes it. */
  datatype Call = Told(t: Fields, text: string) | Asked | Ended

  function Telegrams(calls: seq<Call>): seq<Fields> {
    if calls == [] then []
    else
      var last := calls[|calls| - 1];
      Telegrams(calls[..|calls| - 1]) + if last.Told? then [last.t] else []
  }

  function ChannelsOf(all: seq<string>, limited: seq<string>, last: string, t: Fields): seq<string> {
    if LimitedFires(last, t) then Joined(all, limited) else Unique(all)
  }

  /** The notice made of a telegram, after a report of `last`. */
  function NoticeOf(all: seq<string>, limited: seq<string>, last: string, t: Fields, text: string): Notice {
    Notice(t.report.eqID, ChannelsOf(all, limited, last, t), StripLinks(text), PriorityFor(t))
  }

  /** The operations on the queue that one call makes; a notice for no channel is not enqueued. */
  function OpsOfCall(all: seq<string>, limited: seq<string>, last: string, call: Call): seq<Op> {
    match call
    case Told(t, text) =>
      if ChannelsOf(all, limited, last, t) == [] then []
      else [Op.Enqueue(NoticeOf(all, limited, last, t, text))]
    case Asked => [Op.Dequeue]
    case Ended => [Op.Close]
  }

  function OpsOf(all: seq<string>, limited: seq<string>, calls: seq<Call>): seq<Op> {
    if calls == [] then []
    else
      var front := calls[..|calls| - 1];
      OpsOf(all, limited, front) + OpsOfCall(all, limited, LastEqID(Telegrams(front)), calls[|calls| - 1])
  }

  lemma CallNext(all: seq<string>, limited: seq<string>, calls: seq<Call>, call: Call)
    ensures OpsOf(all, limited, calls + [call])
            == OpsOf(all, limited, calls) + OpsOfCall(all, limited, LastEqID(Telegrams(calls)), call)
    ensures LastEqID(Telegrams(calls + [call]))
            == if call.Told? then call.t.report.eqID else LastEqID(Telegrams(calls))
  {
    assert (calls + [call])[..|calls|] == calls;
    var ts := Telegrams(calls);
    if call.Told? {
      LastEqIDIsTheLatest(ts + [call.t]);
    } else {
      assert ts + [] == ts;
    }
  }

  /** Channel lists a notice may carry, given the configured ones. */
  predicate Proper(all: seq<string>, limited: seq<string>, n: Notice) {
    var joined := Joined(all, limited);
    && n.channels != [] && NoDuplicates(n.channels)
    && (forall ch :: ch in n.channels ==> ch in joined)
    && (n.priority != Normal ==> n.channels == joined)
    && (all == [] ==> n.channels == joined)
  }

  lemma DispatchedIsProper(all: seq<string>, limited: seq<string>, last: string, t: Fields, text: string)
    requires ChannelsOf(all, limited, last, t) != []
    ensures Proper(all, limited, NoticeOf(all, limited, last, t, text))
  {
    hide StripLinks;
    UniqueElements(all + limited);
    UniqueElements(all);
  }

  /** n is what Notify made of the telegram of call i. */
  predicate Tells(all: seq<string>, limited: seq<string>, calls: seq<Call>, i: nat, n: Notice)
    requires i < |calls|
  {
    var last := LastEqID(Telegrams(calls[..i]));
    calls[i].Told? && n == NoticeOf(all, limited, last, calls[i].t, calls[i].text)
  }

  /** n has proper channels and comes from a telegram. */
  predicate Founded(all: seq<string>, limited: seq<string>, calls: seq<Call>, n: Notice) {
    Proper(all, limited, n) && exists i :: 0 <= i < |calls| && Tells(all, limited, calls, i, n)
  }

  lemma {:induction false} EnqueuedIsFounded(all: seq<string>, limited: seq<string>, calls: seq<Call>, n: Notice)
    requires Op.Enqueue(n) in OpsOf(all, limited, calls)
    ensures Founded(all, limited, calls, n)
  {
    hide Proper, NoticeOf, ChannelsOf;
    var k := |calls| - 1;
    var front, call := calls[..k], calls[k];
    if Op.Enqueue(n) in OpsOf(all, limited, front) {
      EnqueuedIsFounded(all, limited, front, n);
      var i :| 0 <= i < k && Tells(all, limited, front, i, n);
      assert front[..i] == calls[..i];
      assert Tells(all, limited, calls, i, n);
    } else {
      DispatchedIsProper(all, limited, LastEqID(Telegrams(front)), call.t, call.text);
      assert Tells(all, limited, calls, k, n);
    }
  }

  /** Over every run of Notify, deliveries and Close, with coalescing and eviction: whatever is
      pending, delivered or evicted was made of a telegram, with its eq_id, priority and stripped
      text, and carries a non-empty list of distinct channels that the connection has joined; a
      final or cancelling notice carries all of them, and so does every notice when the
      all-notice list is empty. */
  lemma NoticesAreProper(all: seq<string>, limited: seq<string>, calls: seq<Call>)
    ensures
      var h := Run(QUEUE_CAPACITY, OpsOf(all, limited, calls));
      && (forall i :: 0 <= i < |h.pending| ==> Founded(all, limited, calls, h.pending[i].notice))
      && (forall i :: 0 <= i < |h.delivered| ==> Founded(all, limited, calls, h.delivered[i].slot.notice))
      && (forall i :: 0 <= i < |h.evicted| ==> Founded(all, limited, calls, h.evicted[i].slot.notice))
  {
    hide Founded, Run, SlotIsFaithful;
    var ops := OpsOf(all, limited, calls);
    SlotsHoldTheLatest(QUEUE_CAPACITY, ops);
    OpsOfRun(QUEUE_CAPACITY, ops);
    var h := Run(QUEUE_CAPACITY, ops);
    forall i | 0 <= i < |h.pending|
      ensures Founded(all, limited, calls, h.pending[i].notice)
    {
      SlotIsFounded(all, limited, calls, h.pending[i], |ops|);
    }
    forall i | 0 <= i < |h.delivered|
      ensures Founded(all, limited, calls, h.delivered[i].slot.notice)
    {
      SlotIsFounded(all, limited, calls, h.delivered[i].slot, h.delivered[i].at);
    }
    forall i | 0 <= i < |h.evicted|
      ensures Founded(all, limited, calls, h.evicted[i].slot.notice)
    {
      SlotIsFounded(all, limited, calls, h.evicted[i].slot, h.evicted[i].at);
    }
  }

  lemma SlotIsFounded(all: seq<string>, limited: seq<string>, calls: seq<Call>, s: Slot, until: nat)
    requires SlotIsFaithful(OpsOf(all, limited, calls), s, until)
    ensures Founded(all, limited, calls, s.notice)
  {
    hide Founded, OpsOf;
    assert s.Offers()[|s.earlier|] == s.notice;
    OfferedIsEnqueued(OpsOf(all, limited, calls), s.ticket, until, s.notice.eqID, s.notice);
    EnqueuedIsFounded(all, limited, calls, s.notice);
  }

  /** The channel names that the server's charset can express; the others are passed over. */
  function Encodable(channels: seq<string>, encodes: string -> bool): seq<string> {
    if channels == [] then []
    else
      var n := |channels| - 1;
      Encodable(channels[..n], encodes) + if encodes(channels[n]) then [channels[n]] else []
  }

  lemma {:induction false} EncodableElements(channels: seq<string>, encodes: string -> bool)
    ensures forall ch :: ch in Encodable(channels, encodes) <==> ch in channels && encodes(ch)
  {
    if channels != [] {
      var n := |channels| - 1;
      EncodableElements(channels[..n], encodes);
      assert channels == channels[..n] + [channels[n]];
    }
  }

  /** Every channel is kept or passed over for itself, and the order stays. */
  lemma {:induction false} EncodableKeepsOrder(a: seq<string>, ch: string, b: seq<string>, encodes: string -> bool)
    ensures Encodable(a + [ch] + b, encodes)
            == Encodable(a, encodes) + (if encodes(ch) then [ch] else []) + Encodable(b, encodes)
    decreases |b|
  {
    var s := a + [ch] + b;
    if b == [] {
      assert s[..|s| - 1] == a && s[|s| - 1] == ch;
    } else {
      var n := |b| - 1;
      assert s[..|s| - 1] == a + [ch] + b[..n] && s[|s| - 1] == b[n];
      EncodableKeepsOrder(a, ch, b[..n], encodes);
    }
  }

  method Encode(channels: seq<string>, encodes: string -> bool) returns (r: seq<string>)
    ensures r == Encodable(channels, encodes)
  {
    r := [];
    for i := 0 to |channels|
      invariant r == Encodable(channels[..i], encodes)
    {
      assert channels[..i + 1][..i] == channels[..i];
      if !encodes(channels[i]) {
        continue;
      }
      r := r + [channels[i]];
    }
    assert channels[..|channels|] == channels;
  }

  /** Whatever of a notice can be sent goes to a channel that has been joined. */
  lemma SentIsJoined(all: seq<string>, limited: seq<string>, calls: seq<Call>, n: Notice, encodes: string -> bool)
    requires Founded(all, limited, calls, n)
    ensures forall ch :: ch in Encodable(n.channels, encodes) ==>
              encodes(ch) && (ch in all || ch in limited) && ch in Encodable(Unique(all + limited), encodes)
  {
    hide Unique;
    UniqueElements(all + limited);
    EncodableElements(n.channels, encodes);
    EncodableElements(Unique(all + limited), encodes);
  }

  // ---------- the connection and its goroutines ----------

  /** Ready channels are numbered as they are made; `ready` is the one in c.ready. */
  datatype Gate = Gate(ready: nat, made: nat, closed: set<nat>, panicked: bool)

  /** handleConnected closes the ready channel; closing a closed one panics. */
  function Connect(g: Gate): Gate {
    if g.ready in g.closed then g.(panicked := true) else g.(closed := g.closed + {g.ready})
  }

  /** handleDisconnected replaces it. */
  function Disconnect(g: Gate): Gate {
    g.(ready := g.made, made := g.made + 1)
  }

  /** The writer goroutine: outside waitReady, waiting there on the channel it has read, past it,
      or gone because the context was cancelled. */
  datatype Writer = Outside | Waiting(ch: nat) | Past | Gone

  /** `waiting` is whether Run is at its select, and `token` the one-place reconnect channel. */
  datatype World = World(gate: Gate, writer: Writer, waiting: bool, token: bool, cancelled: bool)

  /** Connected and Disconnected come from the IRC library. Run arrives at its select (Up) and
      takes the token there; the writer looks at the ready channel, passes it, comes back for the
      next notice, and leaves when the context is cancelled. */
  datatype Event = Connected | Disconnected | Up | Take | Look | Pass | Loop | Cancel | Leave

  /** A step that is not possible changes nothing, and a panic ends everything. */
  function Happens(w: World, e: Event): World {
    if w.gate.panicked then w
    else
      match e
      case Connected => w.(gate := Connect(w.gate))
      case Disconnected => w.(gate := Disconnect(w.gate), token := true)
      case Up => w.(waiting := true)
      case Take => if w.waiting && w.token then w.(waiting := false, token := false) else w
      case Look => if w.writer == Outside then w.(writer := Waiting(w.gate.ready)) else w
      case Pass => if w.writer.Waiting? && w.writer.ch in w.gate.closed then w.(writer := Past) else w
      case Loop => if w.writer == Past then w.(writer := Outside) else w
      case Cancel => w.(cancelled := true)
      case Leave => if w.cancelled && w.writer.Waiting? then w.(writer := Gone) else w
  }

  const BEGIN := World(Gate(0, 1, {}, false), Outside, false, false, false)

  function After(events: seq<Event>): World {
    if events == [] then BEGIN else Happens(After(events[..|events| - 1]), events[|events| - 1])
  }

  lemma AfterNext(events: seq<Event>, e: Event)
    ensures After(events + [e]) == Happens(After(events), e)
  {
    assert (events + [e])[..|events|] == events;
  }

  class Connection {
    const dispatcher: Dispatcher
    const queue: Queue
    const encodes: string -> bool  // what the server's charset can express
    var gate: Gate
    var reconnect: bool
    ghost var calls: seq<Call>
    ghost var events: seq<Event>

    /** Every field is what the history of the connection leads to. */
    ghost predicate Valid()
      reads this, queue, dispatcher
    {
      && queue.Valid() && queue.capacity == QUEUE_CAPACITY
      && queue.history.ops == OpsOf(dispatcher.all, dispatcher.limited, calls)
      && dispatcher.lastEqID == LastEqID(Telegrams(calls))
      && gate == After(events).gate && reconnect == After(events).token
    }

    constructor (all: seq<string>, limited: seq<string>, encodes: string -> bool)
      ensures Valid() && fresh(queue) && fresh(dispatcher)
      ensures dispatcher.all == all && dispatcher.limited == limited && this.encodes == encodes
      ensures queue.capacity == 32 && calls == [] && events == []
    {
      dispatcher := new Dispatcher(all, limited);
      queue := new Queue(QUEUE_CAPACITY);
      this.encodes := encodes;
      gate, reconnect := BEGIN.gate, false;
      calls, events := [], [];
    }

    /** One notice is queued: its channels are those of both lists if the earthquake is not that of
        the report before or the report cancels or is final, else those of the all-notice list, each
        once; its text is free of links. Nothing is queued for no channel. */
    method Notify(t: Fields, slackText: string)
      requires Valid()
      modifies this`calls, dispatcher, queue
      ensures Valid() && calls == old(calls) + [Told(t, slackText)]
      ensures dispatcher.lastEqID == t.report.eqID
      ensures
        var cancels, ends := t.header.msgTypeCode == 10, t.report.ncnType > 0;
        var limitedToo := t.report.eqID != old(dispatcher.lastEqID) || cancels || ends;
        var channels := Unique(if limitedToo then dispatcher.all + dispatcher.limited else dispatcher.all);
        var priority := if cancels then Cancellation else if ends then Final else Normal;
        queue.history == if channels == [] then old(queue.history)
                         else Apply(32, old(queue.history),
                                    Op.Enqueue(Notice(t.report.eqID, channels, StripLinks(slackText), priority)))
    {
      hide Act, Consistent, Listing, Run, StripLinks, Unique, After, OpsOf, Telegrams, LastEqID;
      CallNext(dispatcher.all, dispatcher.limited, calls, Told(t, slackText));
      calls := calls + [Told(t, slackText)];
      var channels, priority := dispatcher.ChannelsFor(t);
      if |channels| == 0 {
        return;
      }
      queue.Enqueue(Notice(t.report.eqID, channels, StripLinks(slackText), priority));
    }

    /** The writer's call of Dequeue, as far as its first wait. */
    method Next() returns (t: Taken)
      requires Valid()
      modifies this`calls, queue
      ensures Valid() && calls == if t.MustWait? then old(calls) else old(calls) + [Asked]
      ensures t == if old(queue.View()) != [] then Got(old(queue.View())[0])
                   else if queue.closed then Finished else MustWait
      ensures queue.View() == if t.Got? then old(queue.View())[1..] else old(queue.View())
    {
      hide Act, Consistent, Listing, Run, After, OpsOf, Telegrams, LastEqID;
      CallNext(dispatcher.all, dispatcher.limited, calls, Asked);
      t := queue.TryDequeue();
      if !t.MustWait? {
        calls := calls + [Asked];
      }
    }

    /** The channels to which the writer sends a notice; none if its text cannot be encoded. */
    method Deliver(n: Notice) returns (sent: seq<string>)
      ensures sent == if encodes(n.text) then Encodable(n.channels, encodes) else []
    {
      if !encodes(n.text) {
        return [];
      }
      sent := Encode(n.channels, encodes);
    }

    /** The end of Run: no more notices. What is pending stays for the writer. */
    method Shutdown()
      requires Valid()
      modifies this`calls, queue
      ensures Valid() && calls == old(calls) + [Ended]
      ensures queue.closed && queue.View() == old(queue.View())
    {
      hide Act, Consistent, Listing, Run, After, OpsOf, Telegrams, LastEqID;
      CallNext(dispatcher.all, dispatcher.limited, calls, Ended);
      queue.Close();
      calls := calls + [Ended];
    }

    /** Joins every channel that can be encoded, and wakes every writer that waits on the current
        ready channel. It panics if and only if two CONNECTED have come in a row. */
    method HandleConnected() returns (joins: seq<string>)
      requires Valid() && !gate.panicked
      modifies this`gate, this`events
      ensures Valid() && events == old(events) + [Connected]
      ensures gate.panicked <==> DoubleConnect(Signals(events))
      ensures !gate.panicked ==> old(gate).ready in gate.closed && old(gate).closed <= gate.closed
      ensures joins == Encodable(Unique(dispatcher.all + dispatcher.limited), encodes)
    {
      hide Signals, DoubleConnect, OpsOf, Telegrams, LastEqID, After;
      var channels := dispatcher.JoinChannels();
      joins := Encode(channels, encodes);
      AfterNext(events, Connected);
      events := events + [Connected];
      PanicsExactly(events);
      if gate.ready in gate.closed {
        gate := gate.(panicked := true);
        return;
      }
      gate := gate.(closed := gate.closed + {gate.ready});
    }

    /** From here on a writer has to wait on a new channel, open and never used before, and a
        Run that waits has its token. */
    method HandleDisconnected()
      requires Valid() && !gate.panicked
      modifies this`gate, this`reconnect, this`events
      ensures Valid() && events == old(events) + [Disconnected]
      ensures !gate.panicked && gate.ready !in gate.closed && gate.ready == old(gate).made
      ensures gate.closed == old(gate).closed
      ensures reconnect
    {
      hide Signals, DoubleConnect, OpsOf, Telegrams, LastEqID, After;
      AfterNext(events, Disconnected);
      GateFollowsSignals(events);
      events := events + [Disconnected];
      gate := gate.(ready := gate.made, made := gate.made + 1);
      reconnect := true;
    }

    /** Run has connected and comes to its select. */
    ghost method Arrive()
      requires Valid()
      modifies this`events
      ensures Valid() && events == old(events) + [Up]
    {
      hide OpsOf, Telegrams, LastEqID, After;
      AfterNext(events, Up);
      events := events + [Up];
    }

    /** The receive in that select. It goes through if and only if a DISCONNECTED has come since
        the last one that went through. */
    method TakeToken() returns (dropped: bool)
      requires Valid() && !gate.panicked && After(events).waiting
      modifies this`reconnect, this`events
      ensures Valid() && events == old(events) + [Take] && !reconnect
      ensures dropped <==> DropPending(old(events))
    {
      hide OpsOf, Telegrams, LastEqID, After, DropPending;
      AfterNext(events, Take);
      TokenExactly(events);
      events := events + [Take];
      dropped := reconnect;
      reconnect := false;
    }
  }

  // ---------- the reconnect token ----------

  /** The event at j takes the token. */
  predicate Takes(events: seq<Event>, j: nat)
    requires j < |events|
  {
    events[j] == Take && After(events[..j]).waiting && After(events[..j]).token
  }

  predicate DropAfterTakes(events: seq<Event>, i: nat)
    requires i < |events|
  {
    events[i] == Disconnected && forall j :: i < j < |events| ==> !Takes(events, j)
  }

  /** A DISCONNECTED has come since the token was last taken. */
  predicate DropPending(events: seq<Event>) {
    exists i :: 0 <= i < |events| && DropAfterTakes(events, i)
  }

  lemma TakesOfPrefix(front: seq<Event>, e: Event)
    ensures forall j :: 0 <= j < |front| ==> (Takes(front + [e], j) <==> Takes(front, j))
    ensures Takes(front + [e], |front|) <==> e == Take && After(front).waiting && After(front).token
  {
    hide After;
    var events := front + [e];
    assert events[..|front|] == front;
    assert forall j :: 0 <= j < |front| ==> events[..j] == front[..j];
  }

  lemma DropPendingNext(front: seq<Event>, e: Event)
    ensures DropPending(front + [e]) <==>
              e == Disconnected || (DropPending(front) && !Takes(front + [e], |front|))
  {
    TakesOfPrefix(front, e);
    hide Takes;
    var events := front + [e];
    forall i | 0 <= i < |front|
      ensures DropAfterTakes(events, i) <==> DropAfterTakes(front, i) && !Takes(events, |front|)
    {
      assert events[i] == front[i];
    }
    if e == Disconnected {
      assert DropAfterTakes(events, |front|);
    }
    if i :| 0 <= i < |front| && DropAfterTakes(front, i) {
      assert !Takes(events, |front|) ==> DropAfterTakes(events, i);
    }
  }

  lemma TokenStep(w: World, e: Event)
    requires !Happens(w, e).gate.panicked
    ensures !w.gate.panicked
    ensures Happens(w, e).token <==> e == Disconnected || (w.token && !(e == Take && w.waiting))
  {}

  /** No drop is missed, and none is noticed twice: the token is there if and only if a
      DISCONNECTED has come since it was last taken, wherever Run was then. */
  lemma {:induction false} TokenExactly(events: seq<Event>)
    requires !After(events).gate.panicked
    ensures After(events).token <==> DropPending(events)
  {
    hide DropPending, Takes, After, Happens;
    if events == [] {
      NothingPending();
    } else {
      var front, e := events[..|events| - 1], events[|events| - 1];
      assert events == front + [e];
      AfterNext(front, e);
      TokenStep(After(front), e);
      TokenExactly(front);
      DropPendingNext(front, e);
      TakesOfPrefix(front, e);
    }
  }

  lemma NothingPending()
    ensures !DropPending([]) && !After([]).token
  {}

  /** Run has not been at its select since event i. */
  predicate AwaySince(events: seq<Event>, i: nat)
    requires i <= |events|
  {
    forall j :: i <= j <= |events| ==> !After(events[..j]).waiting
  }

  predicate LateDropAt(events: seq<Event>, i: nat)
    requires i < |events|
  {
    events[i] == Disconnected && AwaySince(events, i)
  }

  lemma AwayNext(front: seq<Event>, e: Event, i: nat)
    requires i <= |front|
    ensures AwaySince(front + [e], i) <==> AwaySince(front, i) && !After(front + [e]).waiting
  {
    hide After;
    var events := front + [e];
    assert events[..|events|] == events && front[..|front|] == front && events[..|front|] == front;
    forall j | 0 <= j <= |front|
      ensures events[..j] == front[..j]
    {}
  }

  /** While Run connects or sleeps, a token is left over if and only if a DISCONNECTED has come
      in that time: the next connection would be taken for dropped at once. So nothing is left
      over as long as each DISCONNECTED comes while Run waits. */
  lemma {:induction false} StaleTokenExactly(events: seq<Event>)
    requires !After(events).gate.panicked && !After(events).waiting
    ensures After(events).token <==> exists i :: 0 <= i < |events| && LateDropAt(events, i)
  {
    hide AwaySince, Connect, Disconnect;
    if events != [] {
      var front, e := events[..|events| - 1], events[|events| - 1];
      assert events == front + [e];
      forall i | 0 <= i < |front|
        ensures LateDropAt(events, i) <==> LateDropAt(front, i)
      {
        AwayNext(front, e, i);
      }
      AwayNext(front, e, |front|);
      AwayAtEnd(front);
      if After(front).waiting {
        NotAway(front);
      } else {
        StaleTokenExactly(front);
        if i :| 0 <= i < |front| && LateDropAt(front, i) {
          assert LateDropAt(events, i);
        }
        assert LateDropAt(events, |front|) <==> e == Disconnected;
      }
    }
  }

  lemma AwayAtEnd(events: seq<Event>)
    ensures AwaySince(events, |events|) <==> !After(events).waiting
  {
    assert events[..|events|] == events;
  }

  lemma NotAway(events: seq<Event>)
    requires After(events).waiting
    ensures forall i :: 0 <= i <= |events| ==> !AwaySince(events, i)
  {
    assert events[..|events|] == events;
  }

  // ---------- the ready channel ----------

  /** The library's events among those of a run. */
  function Signals(events: seq<Event>): seq<Event> {
    if events == [] then []
    else
      var e := events[|events| - 1];
      Signals(events[..|events| - 1]) + if e == Connected || e == Disconnected then [e] else []
  }

  predicate DoubleConnect(cs: seq<Event>) {
    exists i :: 0 < i < |cs| && cs[i - 1] == Connected && cs[i] == Connected
  }

  /** A drop that does not follow a CONNECTED. */
  predicate EarlyDrop(cs: seq<Event>) {
    exists i :: 0 <= i < |cs| && DropAt(cs, i)
  }

  predicate DropAt(cs: seq<Event>, i: nat)
    requires i < |cs|
  {
    cs[i] == Disconnected && (i == 0 || cs[i - 1] != Connected)
  }

  /** Channel numbers are used once, and the current channel is closed exactly while the
      connection is up. */
  predicate GateAgrees(g: Gate, cs: seq<Event>) {
    && g.ready < g.made
    && (forall c :: c in g.closed ==> c < g.made)
    && (g.ready in g.closed <==> cs != [] && cs[|cs| - 1] == Connected)
  }

  lemma {:induction false} GateFollowsSignals(events: seq<Event>)
    ensures
      var g, cs := After(events).gate, Signals(events);
      && (g.panicked <==> DoubleConnect(cs))
      && (!g.panicked ==> GateAgrees(g, cs))
  {
    if events != [] {
      var front, e := events[..|events| - 1], events[|events| - 1];
      GateFollowsSignals(front);
      var before, cs := Signals(front), Signals(events);
      if e == Connected || e == Disconnected {
        assert cs == before + [e];
        if DoubleConnect(before) {
          var i :| 0 < i < |before| && before[i - 1] == Connected && before[i] == Connected;
          assert cs[i - 1] == Connected && cs[i] == Connected;
        } else if e == Connected && before != [] && before[|before| - 1] == Connected {
          assert cs[|before| - 1] == Connected && cs[|before|] == Connected;
        }
      } else {
        assert cs == before;
      }
    }
  }

  /** close(c.ready) hits a closed channel in a run if and only if two CONNECTED come without a
      DISCONNECTED in between, whatever the writer does meanwhile. */
  lemma PanicsExactly(events: seq<Event>)
    ensures After(events).gate.panicked <==> DoubleConnect(Signals(events))
  {
    GateFollowsSignals(events);
  }

  /** The writer waits on a channel that nobody will ever close. */
  predicate Stranded(w: World) {
    w.writer.Waiting? && w.writer.ch != w.gate.ready && w.writer.ch !in w.gate.closed
  }

  /** The writer's channel was made, and it is the current one or closed. */
  predicate Served(w: World) {
    w.writer.Waiting? ==> w.writer.ch == w.gate.ready || w.writer.ch in w.gate.closed
  }

  lemma ServedStep(w: World, e: Event)
    requires Served(w) && (e == Disconnected ==> w.gate.ready in w.gate.closed || w.gate.panicked)
    ensures Served(Happens(w, e))
  {}

  lemma LateDrop(before: seq<Event>)
    requires !EarlyDrop(before + [Disconnected])
    ensures before != [] && before[|before| - 1] == Connected
  {
    var cs := before + [Disconnected];
    assert !DropAt(cs, |before|);
  }

  lemma {:induction false} NeverStranded(events: seq<Event>)
    requires !DoubleConnect(Signals(events)) && !EarlyDrop(Signals(events))
    ensures Served(After(events))
  {
    hide Happens, Served, DoubleConnect, EarlyDrop;
    if events == [] {
      ServedAtFirst();
    } else {
      var front, e := events[..|events| - 1], events[|events| - 1];
      assert events == front + [e];
      SignalsOfPrefix(front, e);
      NeverStranded(front);
      GateFollowsSignals(front);
      if e == Disconnected {
        LateDrop(Signals(front));
      }
      ServedStep(After(front), e);
    }
  }

  lemma ServedAtFirst()
    ensures Served(BEGIN)
  {}

  lemma SignalsOfPrefix(front: seq<Event>, e: Event)
    ensures
      var before, cs := Signals(front), Signals(front + [e]);
      && cs == (if e == Connected || e == Disconnected then before + [e] else before)
      && (!DoubleConnect(cs) ==> !DoubleConnect(before))
      && (!EarlyDrop(cs) ==> !EarlyDrop(before))
  {
    assert (front + [e])[..|front|] == front;
    var before, cs := Signals(front), Signals(front + [e]);
    assert forall i :: 0 <= i < |before| ==> cs[i] == before[i];
    if DoubleConnect(before) {
      var i :| 0 < i < |before| && before[i - 1] == Connected && before[i] == Connected;
      assert cs[i - 1] == Connected && cs[i] == Connected;
    }
    if EarlyDrop(before) {
      var i :| 0 <= i < |before| && DropAt(before, i);
      assert DropAt(cs, i);
    }
  }

  predicate AreSignals(cs: seq<Event>) {
    forall i :: 0 <= i < |cs| ==> cs[i] == Connected || cs[i] == Disconnected
  }

  predicate Alternating(cs: seq<Event>) {
    && (cs != [] ==> cs[0] == Connected)
    && (forall i :: 0 < i < |cs| ==>
          if cs[i - 1] == Connected then cs[i] == Disconnected else cs[i] == Connected)
    && AreSignals(cs)
  }

  /** While CONNECTED and DISCONNECTED alternate, CONNECTED first, nothing panics, and a waiting
      writer waits on the current channel or on one that is closed: it will get through. */
  lemma ReadyChannelIsSafe(events: seq<Event>)
    requires Alternating(Signals(events))
    ensures
      var w := After(events);
      && !w.gate.panicked
      && (w.writer.Waiting? ==> w.writer.ch == w.gate.ready || w.writer.ch in w.gate.closed)
  {
    var cs := Signals(events);
    assert !EarlyDrop(cs) by {
      forall i | 0 <= i < |cs|
        ensures !DropAt(cs, i)
      {
        assert i > 0 ==> cs[i - 1] == Connected || cs[i] == Connected;
      }
    }
    PanicsExactly(events);
    NeverStranded(events);
  }

  /** While the connection is up the writer gets past its gate, and while it is down a writer that
      comes to it has to wait. */
  lemma WriterGetsThrough(events: seq<Event>)
    requires Alternating(Signals(events))
    ensures
      var cs, w := Signals(events), After(events);
      var up := cs != [] && cs[|cs| - 1] == Connected;
      && (up && w.writer.Waiting? ==> After(events + [Pass]).writer == Past)
      && (w.writer == Outside ==> (After(events + [Look] + [Pass]).writer == Past <==> up))
      && (w.writer == Past ==> After(events + [Loop]).writer == Outside)
  {
    hide Connect, Disconnect, Alternating, DoubleConnect;
    ReadyChannelIsSafe(events);
    GateFollowsSignals(events);
    AfterNext(events, Pass);
    AfterNext(events, Loop);
    AfterNext(events, Look);
    AfterNext(events + [Look], Pass);
  }

  lemma {:induction false} SignalsAppend(a: seq<Event>, b: seq<Event>)
    ensures Signals(a + b) == Signals(a) + Signals(b)
    decreases |b|
  {
    if b == [] {
      assert a + b == a;
    } else {
      assert (a + b)[..|a + b| - 1] == a + b[..|b| - 1];
      SignalsAppend(a, b[..|b| - 1]);
    }
  }

  lemma {:induction false} SignalsOfSignals(cs: seq<Event>)
    requires AreSignals(cs)
    ensures Signals(cs) == cs && After(cs).writer == Outside
  {
    hide Connect, Disconnect;
    if cs != [] {
      SignalsOfSignals(cs[..|cs| - 1]);
    }
  }

  /** Channels are waited on after they are made, and only Cancel cancels. */
  lemma {:induction false} WaitedIsMade(events: seq<Event>)
    ensures
      var w := After(events);
      && w.gate.ready < w.gate.made && (w.writer.Waiting? ==> w.writer.ch < w.gate.made)
      && (w.cancelled || w.writer == Gone ==> Cancel in events)
  {
    hide After;
    if events == [] {
      NothingMade();
    } else {
      var front, e := events[..|events| - 1], events[|events| - 1];
      assert events == front + [e];
      AfterNext(front, e);
      WaitedIsMade(front);
    }
  }

  lemma NothingMade()
    ensures After([]) == BEGIN
  {}

  lemma StrandedStep(w: World, e: Event)
    requires Stranded(w) && w.writer.ch < w.gate.made
    ensures
      var w' := Happens(w, e);
      (w'.writer == w.writer && Stranded(w')) || (w.cancelled && w'.writer == Gone)
  {}

  /** Once stranded, always stranded, unless the context is cancelled. */
  lemma {:induction false} StrandedForever(events: seq<Event>, later: seq<Event>)
    requires Stranded(After(events)) && Cancel !in events + later
    ensures After(events + later).writer == After(events).writer && Stranded(After(events + later))
    decreases |later|
  {
    hide Happens, Stranded;
    if later == [] {
      assert events + later == events;
    } else {
      var front, e := later[..|later| - 1], later[|later| - 1];
      assert events + later == events + front + [e];
      AfterNext(events + front, e);
      StrandedForever(events, front);
      WaitedIsMade(events + front);
      StrandedWaits(After(events + front));
      StrandedStep(After(events + front), e);
    }
  }

  lemma StrandedWaits(w: World)
    requires Stranded(w)
    ensures w.writer.Waiting?
  {}

  /** Cancelling releases the writer wherever it waits. */
  lemma CancelReleases(events: seq<Event>)
    requires After(events).writer.Waiting? && !After(events).gate.panicked
    ensures After(events + [Cancel] + [Leave]).writer == Gone
  {
    AfterNext(events, Cancel);
    AfterNext(events + [Cancel], Leave);
  }

  /** Nothing but cancelling the context ends it, and that does. */
  lemma StrandedUntilCancel(events: seq<Event>)
    requires Stranded(After(events)) && !After(events).gate.panicked && Cancel !in events
    ensures forall later :: Cancel !in later ==>
              Stranded(After(events + later)) && After(events + later).writer == After(events).writer
    ensures exists later :: After(events + later).writer == Gone
  {
    hide After, Stranded;
    forall later | Cancel !in later
      ensures Stranded(After(events + later)) && After(events + later).writer == After(events).writer
    {
      StrandedForever(events, later);
    }
    StrandedWaits(After(events));
    CancelReleases(events);
    assert events + [Cancel] + [Leave] == events + [Cancel, Leave];
  }

  lemma DropStrands(pre: seq<Event>)
    requires AreSignals(pre) && !DoubleConnect(pre) && (pre == [] || pre[|pre| - 1] != Connected)
    ensures Stranded(After(pre + [Look] + [Disconnected]))
  {
    SignalsOfSignals(pre);
    GateFollowsSignals(pre);
    var looked := pre + [Look];
    assert looked[..|pre|] == pre && (looked + [Disconnected])[..|looked|] == looked;
  }

  lemma PrefixSignals(cs: seq<Event>, i: nat)
    requires AreSignals(cs) && !DoubleConnect(cs) && i <= |cs|
    ensures AreSignals(cs[..i]) && AreSignals(cs[i..]) && !DoubleConnect(cs[..i])
  {
    forall j | 0 < j < i
      ensures !(cs[..i][j - 1] == Connected && cs[..i][j] == Connected)
    {
      assert cs[..i][j - 1] == cs[j - 1] && cs[..i][j] == cs[j];
    }
  }

  /** An early drop can strand the writer: it looks just before. */
  lemma StrandingRun(cs: seq<Event>, i: nat) returns (events: seq<Event>)
    requires AreSignals(cs) && !DoubleConnect(cs) && i < |cs| && DropAt(cs, i)
    ensures Signals(events) == cs && Stranded(After(events))
  {
    hide After, Signals, Stranded, DoubleConnect;
    var pre, post := cs[..i], cs[i + 1..];
    PrefixSignals(cs, i);
    assert pre != [] ==> pre[|pre| - 1] == cs[i - 1];
    DropStrands(pre);
    var dropped := pre + [Look] + [Disconnected];
    StrandedForever(dropped, post);
    events := dropped + post;
    SignalsAppend(dropped, post);
    SignalsAppend(pre + [Look], [Disconnected]);
    SignalsAppend(pre, [Look]);
    SignalsOfSignals(pre);
    SignalsOfSignals(post);
    SignalsOfOne();
    assert pre + [] + [Disconnected] + post == cs;
  }

  lemma SignalsOfOne()
    ensures Signals([Look]) == [] && Signals([Disconnected]) == [Disconnected]
  {
    assert [Look][..0] == [] && [Disconnected][..0] == [];
  }

  /** For the signals of a run without a double CONNECTED: some timing of the writer strands it
      if and only if a DISCONNECTED does not follow a CONNECTED, such as a drop before
      registration. */
  lemma StrandedExactly(cs: seq<Event>)
    requires AreSignals(cs) && !DoubleConnect(cs)
    ensures (exists events :: Signals(events) == cs && Stranded(After(events))) <==> EarlyDrop(cs)
  {
    if EarlyDrop(cs) {
      var i :| 0 <= i < |cs| && DropAt(cs, i);
      var events := StrandingRun(cs, i);
      assert Signals(events) == cs && Stranded(After(events));
    } else {
      forall events | Signals(events) == cs
        ensures !Stranded(After(events))
      {
        NeverStranded(events);
      }
    }
  }
}
