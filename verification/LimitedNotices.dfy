/** Whether the limited-notice channels hear of an earthquake (internal/irc/dispatcher.go,
    internal/irc/queue.go, internal/irc/connection.go): a first report is made for them, but a
    routine one can take its place before it is sent. */
module LimitedNotices {
  import opened Decoder
  import opened Messages
  import opened Queues
  import opened QueueRuns
  import opened Dispatchers
  import opened Connections

  /** The queue of a connection after these calls. */
  function HistoryOf(all: seq<string>, limited: seq<string>, calls: seq<Call>): History {
    Run(QUEUE_CAPACITY, OpsOf(all, limited, calls))
  }

  lemma HistoryNext(all: seq<string>, limited: seq<string>, calls: seq<Call>, call: Call)
    ensures
      var h, ops := HistoryOf(all, limited, calls), OpsOfCall(all, limited, LastEqID(Telegrams(calls)), call);
      HistoryOf(all, limited, calls + [call]) == if ops == [] then h else Apply(QUEUE_CAPACITY, h, ops[0])
  {
    hide Run, Apply, NoticeOf, ChannelsOf, Telegrams, LastEqID;
    CallNext(all, limited, calls, call);
    var before, ops := OpsOf(all, limited, calls), OpsOfCall(all, limited, LastEqID(Telegrams(calls)), call);
    hide OpsOf;
    if ops == [] {
      assert before + ops == before;
    } else {
      assert ops == [ops[0]];
      RunNext(QUEUE_CAPACITY, before, ops[0]);
    }
  }

  // ---------- the telegram behind a notice ----------

  /** What Notify makes of the telegram of call i. */
  function Made(all: seq<string>, limited: seq<string>, calls: seq<Call>, i: nat): Notice
    requires i < |calls| && calls[i].Told?
  {
    NoticeOf(all, limited, LastEqID(Telegrams(calls[..i])), calls[i].t, calls[i].text)
  }

  /** Call i puts a notice for this eq_id into the queue. */
  predicate Puts(all: seq<string>, limited: seq<string>, calls: seq<Call>, i: nat, id: string)
    requires i < |calls|
  {
    && calls[i].Told? && calls[i].t.report.eqID == id && Ended !in calls[..i]
    && Made(all, limited, calls, i).channels != []
  }

  /** Call i is the last that does. */
  predicate IsLatest(all: seq<string>, limited: seq<string>, calls: seq<Call>, i: nat, id: string) {
    && i < |calls| && calls[i].Told? && Puts(all, limited, calls, i, id)
    && forall j :: i < j < |calls| ==> !Puts(all, limited, calls, j, id)
  }

  predicate ComesFromLatest(all: seq<string>, limited: seq<string>, calls: seq<Call>, n: Notice) {
    exists i :: 0 <= i < |calls| && IsLatest(all, limited, calls, i, n.eqID) && n == Made(all, limited, calls, i)
  }

  lemma PutsEarlier(all: seq<string>, limited: seq<string>, front: seq<Call>, call: Call, j: nat, id: string)
    requires j < |front|
    ensures Puts(all, limited, front + [call], j, id) <==> Puts(all, limited, front, j, id)
    ensures front[j].Told? ==> Made(all, limited, front + [call], j) == Made(all, limited, front, j)
  {
    assert (front + [call])[..j] == front[..j];
  }

  /** A call about another earthquake, or none, leaves a notice the latest. */
  lemma StillLatest(all: seq<string>, limited: seq<string>, front: seq<Call>, call: Call, n: Notice)
    requires ComesFromLatest(all, limited, front, n)
    requires !Puts(all, limited, front + [call], |front|, n.eqID)
    ensures ComesFromLatest(all, limited, front + [call], n)
  {
    hide Puts, Made;
    var calls := front + [call];
    var i :| 0 <= i < |front| && IsLatest(all, limited, front, i, n.eqID) && n == Made(all, limited, front, i);
    IsTold(all, limited, front, i, n.eqID);
    PutsEarlier(all, limited, front, call, i, n.eqID);
    forall j | i < j < |calls|
      ensures !Puts(all, limited, calls, j, n.eqID)
    {
      if j < |front| {
        PutsEarlier(all, limited, front, call, j, n.eqID);
      }
    }
    assert IsLatest(all, limited, calls, i, n.eqID);
  }

  lemma IsTold(all: seq<string>, limited: seq<string>, calls: seq<Call>, i: nat, id: string)
    requires i < |calls| && Puts(all, limited, calls, i, id)
    ensures calls[i].Told? && calls[i].t.report.eqID == id && Made(all, limited, calls, i).eqID == id
  {}

  lemma NowLatest(all: seq<string>, limited: seq<string>, front: seq<Call>, call: Call, id: string)
    requires Puts(all, limited, front + [call], |front|, id)
    ensures ComesFromLatest(all, limited, front + [call], Made(all, limited, front + [call], |front|))
  {
    hide Puts, Made;
    IsTold(all, limited, front + [call], |front|, id);
    assert IsLatest(all, limited, front + [call], |front|, id);
  }

  /** Every notice comes from the latest report of its earthquake. */
  predicate AllFromLatest(all: seq<string>, limited: seq<string>, calls: seq<Call>, slots: seq<Notice>) {
    forall k :: 0 <= k < |slots| ==> ComesFromLatest(all, limited, calls, slots[k])
  }

  lemma PutOthers(slots: seq<Notice>, capacity: int, n: Notice, k: nat)
    requires Distinct(slots) && k < |Put(slots, capacity, n)| && Put(slots, capacity, n)[k] != n
    ensures Put(slots, capacity, n)[k] in slots && Put(slots, capacity, n)[k].eqID != n.eqID
  {
    hide Victim, Find;
    PutHolds(slots, capacity, n);
    if slots != [] {
      VictimInRange(slots);
    }
  }

  lemma PendingStep(all: seq<string>, limited: seq<string>, front: seq<Call>, call: Call)
    requires
      var h := HistoryOf(all, limited, front);
      && AllFromLatest(all, limited, front, Notices(h.pending)) && Distinct(Notices(h.pending))
      && (h.closed <==> Ended in front)
    ensures
      var calls := front + [call];
      var h := HistoryOf(all, limited, calls);
      && AllFromLatest(all, limited, calls, Notices(h.pending))
      && (h.closed <==> Ended in calls)
  {
    hide HistoryOf, Apply, ComesFromLatest, Put, Made, NoticeOf, ChannelsOf, Telegrams, LastEqID, Puts;
    var calls := front + [call];
    var h, h' := HistoryOf(all, limited, front), HistoryOf(all, limited, calls);
    HistoryNext(all, limited, front, call);
    var ops := OpsOfCall(all, limited, LastEqID(Telegrams(front)), call);
    PutsNow(all, limited, front, call);
    var slots, slots' := Notices(h.pending), Notices(h'.pending);
    if ops != [] {
      ApplyRefines(QUEUE_CAPACITY, h, ops[0]);
      ClosedBy(QUEUE_CAPACITY, h, ops[0]);
    }
    forall k | 0 <= k < |slots'|
      ensures ComesFromLatest(all, limited, calls, slots'[k])
    {
      if ops != [] && ops[0].Enqueue? && !h.closed {
        var n := ops[0].n;
        if slots'[k] == n {
          NowLatest(all, limited, front, call, n.eqID);
        } else {
          PutOthers(slots, QUEUE_CAPACITY, n, k);
          StillLatest(all, limited, front, call, slots'[k]);
        }
      } else {
        assert slots'[k] in slots;
        StillLatest(all, limited, front, call, slots'[k]);
      }
    }
  }

  /** The last call puts something exactly when it makes an Enqueue on an open queue. */
  lemma PutsNow(all: seq<string>, limited: seq<string>, front: seq<Call>, call: Call)
    ensures
      var calls, ops := front + [call], OpsOfCall(all, limited, LastEqID(Telegrams(front)), call);
      && (forall id :: Puts(all, limited, calls, |front|, id) <==>
            ops != [] && ops[0].Enqueue? && ops[0].n.eqID == id && Ended !in front)
      && (ops != [] && ops[0].Enqueue? ==> call.Told? && ops[0].n == Made(all, limited, calls, |front|))
  {
    assert (front + [call])[..|front|] == front;
    hide ChannelsOf, Telegrams, LastEqID, StripLinks, PriorityFor;
  }

  lemma {:induction false} PendingFromLatest(all: seq<string>, limited: seq<string>, calls: seq<Call>)
    ensures
      var h := HistoryOf(all, limited, calls);
      && AllFromLatest(all, limited, calls, Notices(h.pending)) && Distinct(Notices(h.pending))
      && (h.closed <==> Ended in calls)
  {
    PendingIsBounded(QUEUE_CAPACITY, OpsOf(all, limited, calls));
    hide AllFromLatest, Distinct, OpsOf;
    if calls == [] {
      NothingPending(all, limited);
    } else {
      var front := calls[..|calls| - 1];
      assert calls == front + [calls[|calls| - 1]];
      PendingFromLatest(all, limited, front);
      PendingStep(all, limited, front, calls[|calls| - 1]);
    }
  }

  lemma NothingPending(all: seq<string>, limited: seq<string>)
    ensures HistoryOf(all, limited, []) == FRESH
    ensures AllFromLatest(all, limited, [], Notices(FRESH.pending))
  {}

  // ---------- what is delivered ----------

  /** The writer takes a notice at call a. */
  predicate TakesAt(all: seq<string>, limited: seq<string>, calls: seq<Call>, a: nat) {
    a < |calls| && calls[a] == Asked && HistoryOf(all, limited, calls[..a]).pending != []
  }

  /** The notice it takes. */
  function NoticeTaken(all: seq<string>, limited: seq<string>, calls: seq<Call>, a: nat): Notice
    requires TakesAt(all, limited, calls, a)
  {
    HistoryOf(all, limited, calls[..a]).pending[0].notice
  }

  predicate IsDelivered(h: History, n: Notice) {
    exists d :: 0 <= d < |h.delivered| && h.delivered[d].slot.notice == n
  }

  lemma DeliveredStep(all: seq<string>, limited: seq<string>, front: seq<Call>, call: Call, n: Notice)
    ensures
      var h, h' := HistoryOf(all, limited, front), HistoryOf(all, limited, front + [call]);
      IsDelivered(h', n) <==> IsDelivered(h, n) || (call == Asked && h.pending != [] && h.pending[0].notice == n)
  {
    hide HistoryOf, NoticeOf, ChannelsOf, Telegrams, LastEqID, Open, Coalesce, Find;
    HistoryNext(all, limited, front, call);
    var h, h' := HistoryOf(all, limited, front), HistoryOf(all, limited, front + [call]);
    DeliveriesGrow(h, OpsOfCall(all, limited, LastEqID(Telegrams(front)), call));
    if d :| 0 <= d < |h.delivered| && h.delivered[d].slot.notice == n {
      assert h'.delivered[d].slot.notice == n;
    }
    if call == Asked && h.pending != [] {
      assert h'.delivered[|h.delivered|].slot == h.pending[0];
    }
  }

  lemma DeliveriesGrow(h: History, ops: seq<Op>)
    ensures
      ops != [] ==>
        Apply(QUEUE_CAPACITY, h, ops[0]).delivered
        == h.delivered + if ops[0].Dequeue? && h.pending != [] then [Departure(h.pending[0], |h.ops|)] else []
  {
    hide Victim, Find;
  }

  predicate TakesNoticeAt(all: seq<string>, limited: seq<string>, calls: seq<Call>, a: nat, n: Notice) {
    TakesAt(all, limited, calls, a) && NoticeTaken(all, limited, calls, a) == n
  }

  lemma TakesEarlier(all: seq<string>, limited: seq<string>, front: seq<Call>, call: Call, n: Notice)
    ensures
      var calls := front + [call];
      && (forall a :: 0 <= a < |front| ==>
            (TakesNoticeAt(all, limited, calls, a, n) <==> TakesNoticeAt(all, limited, front, a, n)))
      && (TakesNoticeAt(all, limited, calls, |front|, n) <==>
            var h := HistoryOf(all, limited, front);
            call == Asked && h.pending != [] && h.pending[0].notice == n)
  {
    hide HistoryOf;
    var calls := front + [call];
    assert calls[..|front|] == front;
    assert forall a :: 0 <= a < |front| ==> calls[..a] == front[..a];
  }

  /** What is delivered is what the writer has taken. */
  lemma {:induction false} DeliveredIsTaken(all: seq<string>, limited: seq<string>, calls: seq<Call>, n: Notice)
    ensures IsDelivered(HistoryOf(all, limited, calls), n) <==>
              exists a :: 0 <= a < |calls| && TakesNoticeAt(all, limited, calls, a, n)
  {
    hide HistoryOf, IsDelivered, TakesNoticeAt;
    if calls == [] {
      NothingDelivered(all, limited, n);
    } else {
      var front, call := calls[..|calls| - 1], calls[|calls| - 1];
      assert calls == front + [call];
      DeliveredIsTaken(all, limited, front, n);
      DeliveredStep(all, limited, front, call, n);
      TakesEarlier(all, limited, front, call, n);
      if a :| 0 <= a < |front| && TakesNoticeAt(all, limited, front, a, n) {
        assert TakesNoticeAt(all, limited, calls, a, n);
      }
    }
  }

  lemma NothingDelivered(all: seq<string>, limited: seq<string>, n: Notice)
    ensures !IsDelivered(HistoryOf(all, limited, []), n)
  {
    NothingPending(all, limited);
  }

  // ---------- who hears of an earthquake ----------

  /** The notice of call i is taken by the writer at call a: its earthquake is at the head of the
      queue then, and no other report of it has been put into the queue in between. */
  predicate ReachesWriter(all: seq<string>, limited: seq<string>, calls: seq<Call>, i: nat, a: nat) {
    && i < a && TakesAt(all, limited, calls, a) && calls[i].Told?
    && calls[i].t.report.eqID == NoticeTaken(all, limited, calls, a).eqID
    && IsLatest(all, limited, calls[..a], i, calls[i].t.report.eqID)
  }

  lemma MadeEarlier(all: seq<string>, limited: seq<string>, calls: seq<Call>, a: nat, i: nat)
    requires i < a <= |calls| && calls[i].Told?
    ensures Made(all, limited, calls[..a], i) == Made(all, limited, calls, i)
  {
    assert calls[..a][..i] == calls[..i];
  }

  lemma OneIsLatest(all: seq<string>, limited: seq<string>, calls: seq<Call>, i: nat, j: nat, id: string)
    requires IsLatest(all, limited, calls, i, id) && IsLatest(all, limited, calls, j, id)
    ensures i == j
  {
    hide Puts;
  }

  /** A notice that reaches the writer is the one that call i made, channels and all. */
  lemma LeavesAsMade(all: seq<string>, limited: seq<string>, calls: seq<Call>, i: nat, a: nat)
    requires ReachesWriter(all, limited, calls, i, a)
    ensures NoticeTaken(all, limited, calls, a) == Made(all, limited, calls, i)
  {
    hide HistoryOf, IsLatest, Made, Puts;
    var n := NoticeTaken(all, limited, calls, a);
    PendingFromLatest(all, limited, calls[..a]);
    var slots := Notices(HistoryOf(all, limited, calls[..a]).pending);
    assert slots[0] == n;
    var j := LatestOf(all, limited, calls[..a], n);
    OneIsLatest(all, limited, calls[..a], i, j, n.eqID);
    MadeEarlier(all, limited, calls, a, i);
  }

  lemma LatestOf(all: seq<string>, limited: seq<string>, calls: seq<Call>, n: Notice) returns (i: nat)
    requires ComesFromLatest(all, limited, calls, n)
    ensures i < |calls| && calls[i].Told? && calls[i].t.report.eqID == n.eqID
    ensures IsLatest(all, limited, calls, i, n.eqID) && n == Made(all, limited, calls, i)
  {
    hide Puts, Made;
    i :| 0 <= i < |calls| && IsLatest(all, limited, calls, i, n.eqID) && n == Made(all, limited, calls, i);
    IsTold(all, limited, calls, i, n.eqID);
  }

  /** Whatever the writer takes is the notice of one call. */
  lemma TakenIsMade(all: seq<string>, limited: seq<string>, calls: seq<Call>, a: nat) returns (i: nat)
    requires TakesAt(all, limited, calls, a)
    ensures ReachesWriter(all, limited, calls, i, a)
  {
    hide HistoryOf, IsLatest, Made, Puts;
    var n := NoticeTaken(all, limited, calls, a);
    PendingFromLatest(all, limited, calls[..a]);
    var slots := Notices(HistoryOf(all, limited, calls[..a]).pending);
    assert slots[0] == n;
    i := LatestOf(all, limited, calls[..a], n);
  }

  /** The limited channels fire for the telegram of call i. */
  predicate FiresAt(calls: seq<Call>, i: nat) {
    i < |calls| && calls[i].Told? && LimitedFires(LastEqID(Telegrams(calls[..i])), calls[i].t)
  }

  /** A notice is for a channel that is only on the limited list exactly when they fired. */
  lemma LimitedOnly(all: seq<string>, limited: seq<string>, calls: seq<Call>, i: nat, ch: string)
    requires i < |calls| && calls[i].Told? && ch in limited && ch !in all
    ensures ch in Made(all, limited, calls, i).channels <==> FiresAt(calls, i)
  {
    hide LimitedFires, StripLinks, Telegrams, LastEqID;
    UniqueElements(all + limited);
    UniqueElements(all);
  }

  /** The writer has been handed a notice of the earthquake for the channel. */
  predicate Hears(h: History, ch: string, id: string) {
    exists d :: 0 <= d < |h.delivered| && h.delivered[d].slot.notice.eqID == id
                && ch in h.delivered[d].slot.notice.channels
  }

  predicate FiringReaches(all: seq<string>, limited: seq<string>, calls: seq<Call>, id: string, i: nat, a: nat) {
    ReachesWriter(all, limited, calls, i, a) && calls[i].t.report.eqID == id && FiresAt(calls, i)
  }

  /** Over every run of Notify, deliveries and Close: a channel of the limited list alone hears of
      an earthquake if and only if some report of it for which the limited channels fire (one that
      changes the earthquake, is final or cancels) is still the latest in the queue when the writer takes
      that earthquake's notice. */
  lemma LimitedHearExactly(all: seq<string>, limited: seq<string>, calls: seq<Call>, ch: string, id: string)
    requires ch in limited && ch !in all
    ensures Hears(HistoryOf(all, limited, calls), ch, id) <==>
              exists i, a :: 0 <= i < |calls| && 0 <= a < |calls| && FiringReaches(all, limited, calls, id, i, a)
  {
    hide HistoryOf, ReachesWriter, FiresAt, Made, TakesAt;
    var h := HistoryOf(all, limited, calls);
    if d :| 0 <= d < |h.delivered| && h.delivered[d].slot.notice.eqID == id
            && ch in h.delivered[d].slot.notice.channels {
      var n := h.delivered[d].slot.notice;
      DeliveredIsTaken(all, limited, calls, n);
      var a :| 0 <= a < |calls| && TakesNoticeAt(all, limited, calls, a, n);
      var i := TakenIsMade(all, limited, calls, a);
      ReachingFacts(all, limited, calls, i, a);
      LeavesAsMade(all, limited, calls, i, a);
      LimitedOnly(all, limited, calls, i, ch);
      assert FiringReaches(all, limited, calls, id, i, a);
    }
    if i, a :| 0 <= i < |calls| && 0 <= a < |calls| && FiringReaches(all, limited, calls, id, i, a) {
      ReachingFacts(all, limited, calls, i, a);
      LeavesAsMade(all, limited, calls, i, a);
      LimitedOnly(all, limited, calls, i, ch);
      var n := NoticeTaken(all, limited, calls, a);
      assert TakesNoticeAt(all, limited, calls, a, n);
      DeliveredIsTaken(all, limited, calls, n);
      assert IsDelivered(h, n);
    }
  }

  lemma ReachingFacts(all: seq<string>, limited: seq<string>, calls: seq<Call>, i: nat, a: nat)
    requires ReachesWriter(all, limited, calls, i, a)
    ensures i < a < |calls| && calls[i].Told? && TakesAt(all, limited, calls, a)
    ensures calls[i].t.report.eqID == NoticeTaken(all, limited, calls, a).eqID
  {}

  // ---------- an earthquake that the limited channels never hear of ----------

  /** A first report is told and then a routine one, before the writer takes the notice. */
  function Overtaken(t: Fields, u: Fields, text: string, more: string): seq<Call> {
    [Told(t, text), Told(u, more), Asked]
  }

  lemma AfterOneCall(t: Fields, u: Fields, text: string, more: string)
    ensures
      var calls := Overtaken(t, u, text, more);
      && LastEqID(Telegrams(calls[..0])) == "" && LastEqID(Telegrams(calls[..1])) == t.report.eqID
      && calls[..1] == [Told(t, text)] && calls[..2] == [Told(t, text)] + [Told(u, more)]
  {
    hide LastEqID, Telegrams, OpsOf, OpsOfCall;
    var calls := Overtaken(t, u, text, more);
    assert calls[..0] == [] && calls[..1] == [] + [Told(t, text)] == [Told(t, text)];
    assert calls[..2] == [Told(t, text)] + [Told(u, more)];
    NoCalls();
    CallNext([], [], [], Told(t, text));
  }

  lemma NoCalls()
    ensures LastEqID(Telegrams([])) == ""
  {}

  lemma SecondPuts(all: seq<string>, limited: seq<string>, t: Fields, u: Fields, text: string, more: string)
    requires all != [] && t.report.eqID == u.report.eqID && !u.IsFinal() && !u.IsCancellation()
    ensures
      var calls := Overtaken(t, u, text, more);
      && Puts(all, limited, calls[..2], 1, u.report.eqID) && !FiresAt(calls, 1)
      && Made(all, limited, calls[..2], 1).channels == Unique(all)
  {
    var calls := Overtaken(t, u, text, more);
    AfterOneCall(t, u, text, more);
    assert calls[..2][..1] == calls[..1];
    UniqueElements(all);
    assert all[0] in Unique(all);
    hide Unique, StripLinks, Telegrams, LastEqID, Joined;
  }

  lemma SomethingToTake(all: seq<string>, limited: seq<string>, t: Fields, u: Fields, text: string, more: string)
    requires all != [] && t.report.eqID == u.report.eqID && !u.IsFinal() && !u.IsCancellation()
    ensures TakesAt(all, limited, Overtaken(t, u, text, more), 2)
  {
    hide Apply, Put, Puts, Made, Telegrams, LastEqID, OpsOfCall, AllFromLatest;
    var calls := Overtaken(t, u, text, more);
    AfterOneCall(t, u, text, more);
    SecondPuts(all, limited, t, u, text, more);
    var front := [Told(t, text)];
    PendingFromLatest(all, limited, front);
    HistoryNext(all, limited, front, Told(u, more));
    PutsNow(all, limited, front, Told(u, more));
    hide HistoryOf;
    var h := HistoryOf(all, limited, front);
    var ops := OpsOfCall(all, limited, LastEqID(Telegrams(front)), Told(u, more));
    ApplyRefines(QUEUE_CAPACITY, h, ops[0]);
    PutHolds(Notices(h.pending), QUEUE_CAPACITY, ops[0].n);
  }

  /** A limited channel that hears nothing: the first report of an earthquake is made for it, but
      a routine one comes before the writer does, and goes to the all-notice channels alone. */
  lemma RoutineOvertakes(
    all: seq<string>, limited: seq<string>, t: Fields, u: Fields, text: string, more: string, ch: string, other: string)
    requires ch in limited && ch !in all && other in all
    requires t.report.eqID == u.report.eqID != "" && !u.IsFinal() && !u.IsCancellation()
    ensures
      var calls, id := Overtaken(t, u, text, more), t.report.eqID;
      var h := HistoryOf(all, limited, calls);
      && FiresAt(calls, 0) && ch in Made(all, limited, calls, 0).channels
      && !Hears(h, ch, id) && Hears(h, other, id)
  {
    hide HistoryOf, Made, Telegrams, LastEqID, Unique, Puts;
    var calls, id := Overtaken(t, u, text, more), t.report.eqID;
    AfterOneCall(t, u, text, more);
    SecondPuts(all, limited, t, u, text, more);
    SomethingToTake(all, limited, t, u, text, more);
    LimitedOnly(all, limited, calls, 0, ch);
    LimitedHearExactly(all, limited, calls, ch, id);
    forall i, a | 0 <= i < |calls| && 0 <= a < |calls|
      ensures !FiringReaches(all, limited, calls, id, i, a)
    {
      OnlySecondReaches(all, limited, t, u, text, more, i, a);
    }
    var i := TakenIsMade(all, limited, calls, 2);
    OnlySecondReaches(all, limited, t, u, text, more, i, 2);
    LeavesAsMade(all, limited, calls, i, 2);
    MadeEarlier(all, limited, calls, 2, 1);
    UniqueElements(all);
    var n := NoticeTaken(all, limited, calls, 2);
    assert TakesNoticeAt(all, limited, calls, 2, n);
    DeliveredIsTaken(all, limited, calls, n);
  }

  lemma OnlySecondReaches(
    all: seq<string>, limited: seq<string>, t: Fields, u: Fields, text: string, more: string, i: nat, a: nat)
    requires all != [] && t.report.eqID == u.report.eqID && !u.IsFinal() && !u.IsCancellation()
    ensures ReachesWriter(all, limited, Overtaken(t, u, text, more), i, a) ==> i == 1 && a == 2
  {
    hide HistoryOf, Puts, Made;
    SecondPuts(all, limited, t, u, text, more);
    var calls := Overtaken(t, u, text, more);
    if ReachesWriter(all, limited, calls, i, a) {
      assert a == 2;
      assert calls[..2][1] == calls[1];
    }
  }
}
