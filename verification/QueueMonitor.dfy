/** The queue as a monitor shared by goroutines (internal/irc/queue.go): every method body is
    atomic under the mutex, except that Dequeue gives the mutex up inside cond.Wait. Any number
    of producers and of consumers is allowed. */
module QueueMonitor {
  import opened Queues
  import opened QueueRuns

  type Consumer = nat

  /** `parked` consumers are inside cond.Wait; `woken` ones have been signalled and wait for
      the mutex. */
  datatype Monitor = Monitor(
    slots: seq<Notice>,
    closed: bool,
    parked: set<Consumer>,
    woken: set<Consumer>)

  datatype Event =
    | Produce(n: Notice)
    | Shut
    | Enter(c: Consumer)   // c calls Dequeue
    | Resume(c: Consumer)  // c returns from cond.Wait

  const START := Monitor([], false, {}, {})

  /** cond.Signal: one parked consumer, whichever, is woken; without any, the signal is lost. */
  ghost predicate Signalled(m: Monitor, m': Monitor) {
    if m.parked == {} then m' == m
    else exists c :: c in m.parked && m' == m.(parked := m.parked - {c}, woken := m.woken + {c})
  }

  /** The head of Dequeue's wait loop, for consumer c holding the mutex. */
  function Attempt(m: Monitor, c: Consumer): Monitor {
    if m.slots != [] then m.(slots := m.slots[1..])
    else if m.closed then m
    else m.(parked := m.parked + {c})
  }

  ghost predicate Next(capacity: int, m: Monitor, e: Event, m': Monitor) {
    match e
    case Produce(n) =>
      if m.closed then m' == m
      else Signalled(m.(slots := Put(m.slots, capacity, n)), m')
    case Shut => m' == m.(closed := true, parked := {}, woken := m.woken + m.parked)
    case Enter(c) => c !in m.parked + m.woken && m' == Attempt(m, c)
    case Resume(c) => c in m.woken && m' == Attempt(m.(woken := m.woken - {c}), c)
  }

  /** Every interleaving of producers, consumers and Close. */
  ghost predicate IsRun(capacity: int, states: seq<Monitor>, events: seq<Event>) {
    && |states| == |events| + 1
    && states[0] == START
    && forall i :: 0 <= i < |events| ==> Next(capacity, states[i], events[i], states[i + 1])
  }

  /** As long as anyone is parked the queue is open, and every pending notice has a woken
      consumer on its way. */
  ghost predicate NoneForgotten(m: Monitor) {
    m.parked != {} ==> !m.closed && |m.slots| <= |m.woken|
  }

  lemma PutGrowsByOne(slots: seq<Notice>, capacity: int, n: Notice)
    ensures |Put(slots, capacity, n)| <= |slots| + 1
  {}

  lemma StepKeepsAwake(capacity: int, m: Monitor, e: Event, m': Monitor)
    requires m.parked !! m.woken && NoneForgotten(m) && Next(capacity, m, e, m')
    ensures m'.parked !! m'.woken && NoneForgotten(m')
  {
    hide Put;
    match e {
      case Produce(n) =>
        PutGrowsByOne(m.slots, capacity, n);
        if !m.closed && m.parked != {} {
          var c :| c in m.parked && m'.parked == m.parked - {c} && m'.woken == m.woken + {c};
          assert |m'.woken| == |m.woken| + 1;
        }
      case Shut =>
      case Enter(c) =>
      case Resume(c) =>
        assert |m.woken - {c}| == |m.woken| - 1;
    }
  }

  lemma {:induction false} RunKeepsAwake(capacity: int, states: seq<Monitor>, events: seq<Event>, i: nat)
    requires IsRun(capacity, states, events) && i < |states|
    ensures states[i].parked !! states[i].woken && NoneForgotten(states[i])
  {
    if i > 0 {
      RunKeepsAwake(capacity, states, events, i - 1);
      StepKeepsAwake(capacity, states[i - 1], events[i - 1], states[i]);
    }
  }

  /** No wake-up is lost: in every interleaving, a consumer parked while no wake-up is pending
      means that the queue is empty and still open; so after Close nobody stays parked. */
  lemma NoLostWakeUp(capacity: int, states: seq<Monitor>, events: seq<Event>, i: nat)
    requires IsRun(capacity, states, events) && i < |states|
    ensures
      var m := states[i];
      && (m.parked != {} && m.woken == {} ==> m.slots == [] && !m.closed)
      && (m.closed ==> m.parked == {})
      && (m.slots != [] && m.parked != {} ==> m.woken != {})
  {
    RunKeepsAwake(capacity, states, events, i);
  }

  // ---------- the monitor runs the queue ----------

  /** The operation that a step performs on the queue. */
  function OpOf(e: Event): Op {
    match e
    case Produce(n) => Op.Enqueue(n)
    case Shut => Op.Close
    case Enter(_) => Op.Dequeue
    case Resume(_) => Op.Dequeue
  }

  function OpsOf(events: seq<Event>): (ops: seq<Op>)
    ensures |ops| == |events| && forall i :: 0 <= i < |events| ==> ops[i] == OpOf(events[i])
  {
    seq(|events|, i requires 0 <= i < |events| => OpOf(events[i]))
  }

  lemma StepActsOnSlots(capacity: int, m: Monitor, e: Event, m': Monitor)
    requires Next(capacity, m, e, m')
    ensures m'.closed == (m.closed || OpOf(e).Close?)
    ensures
      match OpOf(e)
      case Enqueue(n) => m'.slots == if m.closed then m.slots else Put(m.slots, capacity, n)
      case Dequeue => m'.slots == if m.slots == [] then [] else m.slots[1..]
      case Close => m'.slots == m.slots
  {
    hide Put;
  }

  /** In every interleaving the slots are those of a run of the queue: of the operations done so
      far in the order in which the mutex was held. So what holds of every run holds here. */
  lemma {:induction false} MonitorRunsQueue(capacity: int, states: seq<Monitor>, events: seq<Event>, i: nat)
    requires IsRun(capacity, states, events) && i < |states|
    ensures
      var h := Run(capacity, OpsOf(events[..i]));
      states[i].slots == Notices(h.pending) && states[i].closed == h.closed
  {
    hide Put, Apply, Next;
    if i > 0 {
      MonitorRunsQueue(capacity, states, events, i - 1);
      var before, op := OpsOf(events[..i - 1]), OpOf(events[i - 1]);
      assert OpsOf(events[..i]) == before + [op];
      RunNext(capacity, before, op);
      ApplyRefines(capacity, Run(capacity, before), op);
      ClosedBy(capacity, Run(capacity, before), op);
      StepActsOnSlots(capacity, states[i - 1], events[i - 1], states[i]);
    }
  }

  /** For example, in every interleaving the pending eq_ids are distinct and at most
      max(capacity, 1). */
  lemma SlotsAreBounded(capacity: int, states: seq<Monitor>, events: seq<Event>, i: nat)
    requires IsRun(capacity, states, events) && i < |states|
    ensures Distinct(states[i].slots) && |states[i].slots| <= if capacity > 1 then capacity else 1
  {
    MonitorRunsQueue(capacity, states, events, i);
    PendingIsBounded(capacity, OpsOf(events[..i]));
  }
}
