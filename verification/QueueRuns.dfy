/** What every run of Enqueue, Dequeue and Close keeps (internal/irc/queue.go). Each theorem is
    about Run(capacity, ops), which is the history of every Queue object. */
module QueueRuns {
  import opened Text
  import opened Queues

  // ---------- bounded, without repetition ----------

  predicate Bounded(capacity: int, h: History) {
    Distinct(Notices(h.pending)) && |h.pending| <= if capacity > 1 then capacity else 1
  }

  lemma BoundedStep(capacity: int, h: History, op: Op)
    requires Bounded(capacity, h)
    ensures Bounded(capacity, Apply(capacity, h, op))
  {
    hide Victim, Rank, Apply;
    ApplyRefines(capacity, h, op);
  }

  /** The queue never holds two notices for one eq_id, nor more than max(capacity, 1). */
  lemma {:induction false} PendingIsBounded(capacity: int, ops: seq<Op>)
    ensures Bounded(capacity, Run(capacity, ops))
  {
    if ops != [] {
      PendingIsBounded(capacity, ops[..|ops| - 1]);
      BoundedStep(capacity, Run(capacity, ops[..|ops| - 1]), ops[|ops| - 1]);
    }
  }

  lemma OpsOfRun(capacity: int, ops: seq<Op>)
    ensures Run(capacity, ops).ops == ops
  {}

  // ---------- the line of tickets ----------

  function Tickets(slots: seq<Slot>): (ts: seq<nat>)
    ensures |ts| == |slots| && forall i :: 0 <= i < |slots| ==> ts[i] == slots[i].ticket
  {
    seq(|slots|, i requires 0 <= i < |slots| => slots[i].ticket)
  }

  function Gone(ds: seq<Departure>): (ts: seq<nat>)
    ensures |ts| == |ds| && forall i :: 0 <= i < |ds| ==> ts[i] == ds[i].slot.ticket
  {
    seq(|ds|, i requires 0 <= i < |ds| => ds[i].slot.ticket)
  }

  /** The tickets of the delivered notices, in order of delivery, then those of the pending. */
  function Line(h: History): seq<nat> {
    Gone(h.delivered) + Tickets(h.pending)
  }

  /** An operation leaves the line and the evicted tickets alone, or it opens a slot at the end
      of the line, perhaps after moving one pending ticket to the evicted ones. */
  predicate LineGrows(h: History, h': History) {
    var now: nat := |h.ops|;
    || (h'.openings == h.openings && h'.evicted == h.evicted && Line(h') == Line(h))
    || (h'.openings == h.openings + [now] && h'.evicted == h.evicted && Line(h') == Line(h) + [now])
    || (exists k :: |h.delivered| <= k < |Line(h)| && LineEvicts(h, h', k))
  }

  predicate LineEvicts(h: History, h': History, k: nat)
    requires k < |Line(h)|
  {
    var now: nat := |h.ops|;
    && h'.openings == h.openings + [now]
    && Line(h') == Without(Line(h), k) + [now]
    && Gone(h'.evicted) == Gone(h.evicted) + [Line(h)[k]]
  }

  lemma LineOfEviction(capacity: int, h: History, n: Notice)
    requires Overfull(capacity, h)
    ensures
      var k := |h.delivered| + Victim(Notices(h.pending));
      |h.delivered| <= k < |Line(h)| && LineEvicts(h, Open(capacity, h, n), k)
  {
    hide Victim;
    var h', v := Open(capacity, h, n), Victim(Notices(h.pending));
    VictimInRange(Notices(h.pending));
    WithoutAt(h.pending, v);
    WithoutAt(Line(h), |h.delivered| + v);
    hide Without;
    assert Line(h') == Without(Line(h), |h.delivered| + v) + [|h.ops|];
  }

  lemma LineOfOpen(capacity: int, h: History, n: Notice)
    ensures LineGrows(h, Open(capacity, h, n))
  {
    hide Victim, LineEvicts;
    var h' := Open(capacity, h, n);
    if Overfull(capacity, h) {
      LineOfEviction(capacity, h, n);
    } else {
      assert Line(h') == Line(h) + [|h.ops|];
    }
  }

  lemma LineStep(capacity: int, h: History, op: Op)
    ensures LineGrows(h, Apply(capacity, h, op))
  {
    hide Open, LineGrows, Find;
    var h' := Apply(capacity, h, op);
    if op.Enqueue? && !h.closed && Find(Notices(h.pending), op.n.eqID) < 0 {
      LineOfOpen(capacity, h, op.n);
      LineIgnoresOps(h, Open(capacity, h, op.n), h'.ops);
    } else {
      assert Line(h') == Line(h);
      LineUnchanged(h, h');
    }
  }

  lemma LineUnchanged(h: History, h': History)
    requires h'.openings == h.openings && h'.evicted == h.evicted && Line(h') == Line(h)
    ensures LineGrows(h, h')
  {}

  lemma LineIgnoresOps(h: History, h': History, ops: seq<Op>)
    requires LineGrows(h, h')
    ensures LineGrows(h, h'.(ops := ops))
  {
    if k :| |h.delivered| <= k < |Line(h)| && LineEvicts(h, h', k) {
      assert LineEvicts(h, h'.(ops := ops), k);
    }
  }

  // ---------- order of delivery ----------

  predicate Increasing(ts: seq<nat>, bound: nat) {
    && (forall i, j :: 0 <= i < j < |ts| ==> ts[i] < ts[j])
    && (forall i :: 0 <= i < |ts| ==> ts[i] < bound)
  }

  predicate Ordered(h: History) {
    Increasing(Line(h), |h.ops|) && Increasing(h.openings, |h.ops|)
  }

  lemma OrderedStep(capacity: int, h: History, op: Op)
    requires Ordered(h)
    ensures Ordered(Apply(capacity, h, op))
  {
    hide Act, Line;
    LineStep(capacity, h, op);
  }

  /** Notices leave in the order in which their slots were opened, and whatever is pending was
      opened later than anything delivered. Eviction does not reorder the survivors. */
  lemma {:induction false} DeliveryFollowsOpening(capacity: int, ops: seq<Op>)
    ensures
      var h := Run(capacity, ops);
      Ordered(h) && |h.ops| == |ops|
  {
    if ops != [] {
      DeliveryFollowsOpening(capacity, ops[..|ops| - 1]);
      OrderedStep(capacity, Run(capacity, ops[..|ops| - 1]), ops[|ops| - 1]);
    }
  }

  // ---------- conservation ----------

  predicate Conserved(h: History) {
    multiset(h.openings) == multiset(Line(h)) + multiset(Gone(h.evicted))
  }

  lemma MultisetWithout(ts: seq<nat>, k: nat)
    requires k < |ts|
    ensures multiset(Without(ts, k)) + multiset([ts[k]]) == multiset(ts)
  {
    assert ts == ts[..k] + [ts[k]] + ts[k + 1..];
  }

  lemma ConservedStep(capacity: int, h: History, op: Op)
    requires Conserved(h)
    ensures Conserved(Apply(capacity, h, op))
  {
    hide Act, Line;
    LineStep(capacity, h, op);
    var h' := Apply(capacity, h, op);
    if k :| |h.delivered| <= k < |Line(h)| && LineEvicts(h, h', k) {
      MultisetWithout(Line(h), k);
    }
  }

  /** Every slot ever opened is exactly one of delivered, pending and evicted. */
  lemma {:induction false} SlotsAreConserved(capacity: int, ops: seq<Op>)
    ensures
      var h := Run(capacity, ops);
      Conserved(h) && |h.openings| == |h.delivered| + |h.pending| + |h.evicted|
  {
    if ops != [] {
      SlotsAreConserved(capacity, ops[..|ops| - 1]);
      ConservedStep(capacity, Run(capacity, ops[..|ops| - 1]), ops[|ops| - 1]);
    }
    var h := Run(capacity, ops);
    assert |multiset(h.openings)| == |h.openings|;
    assert |multiset(Line(h)) + multiset(Gone(h.evicted))| == |Line(h)| + |Gone(h.evicted)|;
  }

  // ---------- what is delivered is the latest report ----------

  predicate Accepts(ops: seq<Op>, k: nat, id: string)
    requires k < |ops|
  {
    ops[k].Enqueue? && ops[k].n.eqID == id && Op.Close !in ops[..k]
  }

  /** The notices accepted for an eq_id by ops[from..upto], in order. */
  function Offered(ops: seq<Op>, from: nat, upto: nat, id: string): seq<Notice>
    requires upto <= |ops|
    decreases upto
  {
    if upto <= from then []
    else Offered(ops, from, upto - 1, id) + if Accepts(ops, upto - 1, id) then [ops[upto - 1].n] else []
  }

  lemma {:induction false} OfferedOfPrefix(ops: seq<Op>, more: seq<Op>, from: nat, upto: nat, id: string)
    requires upto <= |ops|
    ensures Offered(ops + more, from, upto, id) == Offered(ops, from, upto, id)
    decreases upto
  {
    if from < upto {
      OfferedOfPrefix(ops, more, from, upto - 1, id);
      assert (ops + more)[..upto - 1] == ops[..upto - 1];
    }
  }

  predicate SlotIsFaithful(ops: seq<Op>, s: Slot, until: nat) {
    until <= |ops| && s.Offers() == Offered(ops, s.ticket, until, s.notice.eqID)
  }

  predicate Faithful(h: History) {
    && (h.closed <==> Op.Close in h.ops)
    && (forall i :: 0 <= i < |h.pending| ==> SlotIsFaithful(h.ops, h.pending[i], |h.ops|))
    && (forall i :: 0 <= i < |h.delivered| ==>
          SlotIsFaithful(h.ops, h.delivered[i].slot, h.delivered[i].at))
    && (forall i :: 0 <= i < |h.evicted| ==>
          SlotIsFaithful(h.ops, h.evicted[i].slot, h.evicted[i].at))
  }

  /** A slot whose operations are over keeps its record when the run goes on. */
  lemma FaithfulLater(ops: seq<Op>, op: Op, s: Slot, until: nat)
    requires SlotIsFaithful(ops, s, until)
    ensures SlotIsFaithful(ops + [op], s, until)
  {
    OfferedOfPrefix(ops, [op], s.ticket, until, s.notice.eqID);
  }

  /** One that is still pending after an operation that says nothing about its eq_id. */
  lemma FaithfulStill(ops: seq<Op>, op: Op, s: Slot)
    requires SlotIsFaithful(ops, s, |ops|)
    requires !Accepts(ops + [op], |ops|, s.notice.eqID)
    ensures SlotIsFaithful(ops + [op], s, |ops| + 1)
  {
    FaithfulLater(ops, op, s, |ops|);
    var r := Offered(ops + [op], s.ticket, |ops|, s.notice.eqID);
    assert r + [] == r;
  }

  lemma FaithfulNew(ops: seq<Op>, n: Notice)
    requires Op.Close !in ops
    ensures SlotIsFaithful(ops + [Op.Enqueue(n)], Slot(|ops|, [], n), |ops| + 1)
  {
    var all := ops + [Op.Enqueue(n)];
    assert all[..|ops|] == ops;
    assert Offered(all, |ops|, |ops|, n.eqID) == [];
    assert Offered(all, |ops|, |ops| + 1, n.eqID) == [] + [n];
  }

  lemma FaithfulReplaced(ops: seq<Op>, s: Slot, n: Notice)
    requires Op.Close !in ops && SlotIsFaithful(ops, s, |ops|) && n.eqID == s.notice.eqID
    requires s.ticket <= |ops|
    ensures SlotIsFaithful(ops + [Op.Enqueue(n)], Slot(s.ticket, s.Offers(), n), |ops| + 1)
  {
    var all := ops + [Op.Enqueue(n)];
    assert all[..|ops|] == ops;
    OfferedOfPrefix(ops, [Op.Enqueue(n)], s.ticket, |ops|, n.eqID);
  }

  lemma DeparturesLater(ops: seq<Op>, op: Op, ds: seq<Departure>)
    requires forall i :: 0 <= i < |ds| ==> SlotIsFaithful(ops, ds[i].slot, ds[i].at)
    ensures forall i :: 0 <= i < |ds| ==> SlotIsFaithful(ops + [op], ds[i].slot, ds[i].at)
  {
    forall i | 0 <= i < |ds|
      ensures SlotIsFaithful(ops + [op], ds[i].slot, ds[i].at)
    {
      FaithfulLater(ops, op, ds[i].slot, ds[i].at);
    }
  }

  lemma PendingTicket(h: History, i: nat)
    requires Ordered(h) && i < |h.pending|
    ensures h.pending[i].ticket < |h.ops|
  {
    assert Line(h)[|h.delivered| + i] == h.pending[i].ticket;
  }

  lemma FaithfulStep(capacity: int, h: History, op: Op)
    requires Faithful(h) && Ordered(h) && Distinct(Notices(h.pending))
    ensures Faithful(Apply(capacity, h, op))
  {
    hide SlotIsFaithful, Offered, Ordered, Victim, Rank;
    var all, p := h.ops + [op], h.pending;
    assert all[..|h.ops|] == h.ops && all[|h.ops|] == op;
    DeparturesLater(h.ops, op, h.delivered);
    DeparturesLater(h.ops, op, h.evicted);
    var h' := Apply(capacity, h, op);
    var i := if op.Enqueue? && !h.closed then Find(Notices(p), op.n.eqID) else -1;
    forall k | 0 <= k < |p| && k != i
      ensures SlotIsFaithful(all, p[k], |all|)
    {
      FaithfulStill(h.ops, op, p[k]);
    }
    forall k | 0 <= k < |p|
      ensures SlotIsFaithful(all, p[k], |h.ops|)
    {
      FaithfulLater(h.ops, op, p[k], |h.ops|);
    }
    if op.Enqueue? && !h.closed {
      if i >= 0 {
        PendingTicket(h, i);
        FaithfulReplaced(h.ops, p[i], op.n);
      } else {
        FaithfulNew(h.ops, op.n);
      }
    }
  }

  /** A slot holds exactly the notices accepted for its eq_id since it was opened, so what is
      delivered (or still pending, or evicted) is the latest of them. */
  lemma {:induction false} SlotsHoldTheLatest(capacity: int, ops: seq<Op>)
    ensures Faithful(Run(capacity, ops))
  {
    if ops != [] {
      var before := ops[..|ops| - 1];
      SlotsHoldTheLatest(capacity, before);
      DeliveryFollowsOpening(capacity, before);
      PendingIsBounded(capacity, before);
      FaithfulStep(capacity, Run(capacity, before), ops[|ops| - 1]);
    }
  }

  // ---------- eviction ----------

  /** The eq_ids that ever receive a notice of at least this rank. */
  function IdsOfRank(ops: seq<Op>, rank: nat): set<string> {
    set k | 0 <= k < |ops| && ops[k].Enqueue? && Rank(ops[k].n.priority) >= rank :: ops[k].n.eqID
  }

  lemma IdsOfRankGrows(ops: seq<Op>, op: Op, rank: nat)
    ensures IdsOfRank(ops, rank) <= IdsOfRank(ops + [op], rank)
    ensures |IdsOfRank(ops, rank)| <= |IdsOfRank(ops + [op], rank)|
  {
    var all := ops + [op];
    forall id | id in IdsOfRank(ops, rank)
      ensures id in IdsOfRank(all, rank)
    {
      var k :| 0 <= k < |ops| && ops[k].Enqueue? && Rank(ops[k].n.priority) >= rank && ops[k].n.eqID == id;
      assert all[k] == ops[k];
    }
    SubsetSize(IdsOfRank(ops, rank), IdsOfRank(all, rank));
  }

  lemma SubsetSize<T>(a: set<T>, b: set<T>)
    requires a <= b
    ensures |a| <= |b|
  {
    assert a + (b - a) == b;
  }

  lemma {:induction false} DistinctIdsCount(slots: seq<Notice>, ids: set<string>)
    requires Distinct(slots) && forall i :: 0 <= i < |slots| ==> slots[i].eqID in ids
    ensures |slots| <= |ids|
  {
    if slots != [] {
      var n := |slots| - 1;
      DistinctIdsCount(slots[..n], ids - {slots[n].eqID});
    }
  }

  lemma {:induction false} OfferedIsEnqueued(ops: seq<Op>, from: nat, upto: nat, id: string, n: Notice)
    requires upto <= |ops| && n in Offered(ops, from, upto, id)
    ensures Op.Enqueue(n) in ops && n.eqID == id
    decreases upto
  {
    if from < upto && n in Offered(ops, from, upto - 1, id) {
      OfferedIsEnqueued(ops, from, upto - 1, id, n);
    }
  }

  lemma PendingIsEnqueued(h: History, rank: nat, i: nat)
    requires Faithful(h) && i < |h.pending| && Rank(h.pending[i].notice.priority) >= rank
    ensures h.pending[i].notice.eqID in IdsOfRank(h.ops, rank)
  {
    var s := h.pending[i];
    assert SlotIsFaithful(h.ops, s, |h.ops|);
    assert s.Offers()[|s.earlier|] == s.notice;
    OfferedIsEnqueued(h.ops, s.ticket, |h.ops|, s.notice.eqID, s.notice);
    var k :| 0 <= k < |h.ops| && h.ops[k] == Op.Enqueue(s.notice);
  }

  /** An evicted notice of some rank needs `capacity` eq_ids that received that rank, and one
      more eq_id of any rank that pushed it out. */
  predicate EvictionsJustified(capacity: int, h: History) {
    && (h.evicted != [] ==> capacity < |IdsOfRank(h.ops, 0)|)
    && forall e, rank: nat :: 0 <= e < |h.evicted| && rank <= Rank(h.evicted[e].slot.notice.priority) ==>
         capacity <= |IdsOfRank(h.ops, rank)|
  }

  lemma PendingCount(h: History, rank: nat)
    requires Faithful(h) && Distinct(Notices(h.pending))
    requires forall i :: 0 <= i < |h.pending| ==> rank <= Rank(h.pending[i].notice.priority)
    ensures |h.pending| <= |IdsOfRank(h.ops, rank)|
    ensures forall i :: 0 <= i < |h.pending| ==> h.pending[i].notice.eqID in IdsOfRank(h.ops, rank)
  {
    hide Faithful, IdsOfRank, Rank;
    var slots := Notices(h.pending);
    forall i | 0 <= i < |slots|
      ensures slots[i].eqID in IdsOfRank(h.ops, rank)
    {
      PendingIsEnqueued(h, rank, i);
    }
    DistinctIdsCount(slots, IdsOfRank(h.ops, rank));
  }

  /** A new eq_id is one more than those pending. */
  lemma NewcomerCounts(h: History, n: Notice)
    requires Faithful(h) && Distinct(Notices(h.pending)) && Find(Notices(h.pending), n.eqID) < 0
    ensures |h.pending| < |IdsOfRank(h.ops + [Op.Enqueue(n)], 0)|
  {
    PendingCount(h, 0);
    IdsOfRankGrows(h.ops, Op.Enqueue(n), 0);
    hide Faithful, Find;
    var slots, all := Notices(h.pending), h.ops + [Op.Enqueue(n)];
    assert all[|h.ops|] == Op.Enqueue(n) && n.eqID in IdsOfRank(all, 0);
    hide IdsOfRank;
    DistinctIdsCount(slots + [n], IdsOfRank(all, 0));
  }

  lemma JustifiedStep(capacity: int, h: History, op: Op)
    requires EvictionsJustified(capacity, h) && Faithful(h) && Distinct(Notices(h.pending))
    ensures EvictionsJustified(capacity, Apply(capacity, h, op))
  {
    hide Faithful, IdsOfRank;
    var h' := Apply(capacity, h, op);
    if |h'.evicted| > |h.evicted| {
      NewcomerCounts(h, op.n);
    } else {
      IdsOfRankGrows(h.ops, op, 0);
    }
    forall e, rank: nat | 0 <= e < |h'.evicted| && rank <= Rank(h'.evicted[e].slot.notice.priority)
      ensures capacity <= |IdsOfRank(h'.ops, rank)|
    {
      IdsOfRankGrows(h.ops, op, rank);
      if e >= |h.evicted| {
        PendingCount(h, rank);
      }
    }
  }

  lemma {:induction false} EvictionNeedsPressure(capacity: int, ops: seq<Op>)
    ensures EvictionsJustified(capacity, Run(capacity, ops))
  {
    if ops != [] {
      var before := ops[..|ops| - 1];
      EvictionNeedsPressure(capacity, before);
      SlotsHoldTheLatest(capacity, before);
      PendingIsBounded(capacity, before);
      JustifiedStep(capacity, Run(capacity, before), ops[|ops| - 1]);
    }
  }

  /** How many eq_ids must receive priority p or a higher one before a notice of such a priority
      can be evicted. A routine notice also needs the eq_id that pushes it out. */
  function Pressure(capacity: int, p: Priority): int {
    if p == Normal then capacity + 1 else capacity
  }

  /** If fewer eq_ids than that ever get a notice of at least priority p, then no notice of at
      least that priority is ever evicted, whatever else is enqueued. */
  lemma ImportantNoticesSurvive(capacity: int, ops: seq<Op>, p: Priority)
    requires |IdsOfRank(ops, Rank(p))| < Pressure(capacity, p)
    ensures
      var h := Run(capacity, ops);
      forall e :: 0 <= e < |h.evicted| ==> Rank(h.evicted[e].slot.notice.priority) < Rank(p)
  {
    EvictionNeedsPressure(capacity, ops);
    OpsOfRun(capacity, ops);
    var h := Run(capacity, ops);
    forall e | 0 <= e < |h.evicted|
      ensures Rank(h.evicted[e].slot.notice.priority) < Rank(p)
    {
      assert Rank(p) <= Rank(h.evicted[e].slot.notice.priority) ==> capacity <= |IdsOfRank(h.ops, Rank(p))|;
    }
  }

  function Filler(p: Priority, i: nat): Notice {
    Notice(Decimal(i), [], "", p)
  }

  function Fillers(p: Priority, k: nat): seq<Op> {
    seq(k, i requires 0 <= i < k => Op.Enqueue(Filler(p, i)))
  }

  lemma FillersNext(p: Priority, k: nat)
    ensures Fillers(p, k + 1) == Fillers(p, k) + [Op.Enqueue(Filler(p, k))]
  {}

  lemma {:induction false} FillersPending(capacity: int, p: Priority, k: nat)
    requires k <= capacity
    ensures
      var h := Run(capacity, Fillers(p, k));
      && !h.closed && h.evicted == [] && |h.pending| == k
      && forall i :: 0 <= i < k ==> h.pending[i].notice == Filler(p, i)
  {
    hide Victim, Rank, Decimal;
    if k > 0 {
      FillersPending(capacity, p, k - 1);
      FillersNext(p, k - 1);
      var h := Run(capacity, Fillers(p, k - 1));
      RunNext(capacity, Fillers(p, k - 1), Op.Enqueue(Filler(p, k - 1)));
      UnknownFiller(Notices(h.pending), p, k - 1);
    }
  }

  lemma UnknownFiller(slots: seq<Notice>, p: Priority, k: nat)
    requires |slots| <= k && forall i :: 0 <= i < |slots| ==> slots[i] == Filler(p, i)
    ensures Find(slots, Decimal(k)) < 0
  {
    hide Decimal;
    assert forall i :: 0 <= i < |slots| ==> Value(slots[i].eqID) == i;
  }

  lemma IdsOfRankNext(ops: seq<Op>, n: Notice, rank: nat)
    ensures IdsOfRank(ops + [Op.Enqueue(n)], rank)
            == IdsOfRank(ops, rank) + if Rank(n.priority) >= rank then {n.eqID} else {}
  {
    hide Rank;
    var all := ops + [Op.Enqueue(n)];
    IdsOfRankGrows(ops, Op.Enqueue(n), rank);
    assert all[|ops|] == Op.Enqueue(n);
    forall id | id in IdsOfRank(all, rank)
      ensures id in IdsOfRank(ops, rank) || (id == n.eqID && Rank(n.priority) >= rank)
    {
      var k :| 0 <= k < |all| && all[k].Enqueue? && Rank(all[k].n.priority) >= rank && all[k].n.eqID == id;
      assert k < |ops| ==> all[k] == ops[k];
    }
  }

  function DecimalsBelow(k: nat): set<string> {
    set i | 0 <= i < k :: Decimal(i)
  }

  lemma DecimalsNext(k: nat)
    ensures DecimalsBelow(k + 1) == DecimalsBelow(k) + {Decimal(k)}
    ensures Decimal(k) !in DecimalsBelow(k)
  {
    hide Decimal;
    assert forall i :: 0 <= i < k ==> Value(Decimal(i)) == i;
  }

  lemma {:induction false} FillersIds(p: Priority, k: nat)
    ensures IdsOfRank(Fillers(p, k), Rank(p)) == DecimalsBelow(k) && |DecimalsBelow(k)| == k
  {
    if k == 0 {
      NoIds(Fillers(p, 0), Rank(p));
    } else {
      hide IdsOfRank, Rank, Decimal, DecimalsBelow;
      FillersIds(p, k - 1);
      FillersNext(p, k - 1);
      DecimalsNext(k - 1);
      IdsOfRankNext(Fillers(p, k - 1), Filler(p, k - 1), Rank(p));
    }
  }

  lemma NoIds(ops: seq<Op>, rank: nat)
    requires ops == []
    ensures IdsOfRank(ops, rank) == {}
  {}

  /** That many eq_ids do not suffice: a run in which exactly so many get priority p evicts one
      of them. */
  lemma PressureIsTight(capacity: int, p: Priority) returns (ops: seq<Op>)
    requires capacity >= 1
    ensures |IdsOfRank(ops, Rank(p))| == Pressure(capacity, p)
    ensures
      var h := Run(capacity, ops);
      |h.evicted| == 1 && h.evicted[0].slot.notice.priority == p
  {
    hide IdsOfRank, Decimal, DecimalsBelow, Victim, Run, Fillers;
    var before, last := Fillers(p, capacity), Filler(Normal, capacity);
    ops := before + [Op.Enqueue(last)];
    FillersPending(capacity, p, capacity);
    var h := Run(capacity, before);
    RunNext(capacity, before, Op.Enqueue(last));
    UnknownFiller(Notices(h.pending), p, capacity);
    VictimInRange(Notices(h.pending));
    FillersIds(p, capacity);
    IdsOfRankNext(before, last, Rank(p));
    DecimalsNext(capacity);
  }

  // ---------- in which order notices are given up ----------

  /** The e-th eviction of a run: a notice for a new eq_id arrives at a full queue, and the slot
      goes that is the oldest of its priority among those pending then; a final notice only when
      no routine one is pending, a cancelling one only when there is nothing else. */
  predicate EvictedInOrder(capacity: int, ops: seq<Op>, d: Departure) {
    d.at < |ops| && ops[d.at].Enqueue? &&
    var before := Run(capacity, ops[..d.at]).pending;
    && |before| >= capacity
    && (forall j :: 0 <= j < |before| ==> before[j].notice.eqID != ops[d.at].n.eqID)
    && exists v :: 0 <= v < |before| && before[v] == d.slot && GoesFirst(before, v)
  }

  predicate GoesFirst(pending: seq<Slot>, v: nat)
    requires v < |pending|
  {
    && (forall j :: 0 <= j < v ==> pending[j].notice.priority != pending[v].notice.priority)
    && (pending[v].notice.priority == Final ==>
          forall j :: 0 <= j < |pending| ==> pending[j].notice.priority != Normal)
    && (pending[v].notice.priority == Cancellation ==>
          forall j :: 0 <= j < |pending| ==> pending[j].notice.priority == Cancellation)
  }

  lemma EvictedNow(capacity: int, ops: seq<Op>, op: Op)
    ensures
      var h, h' := Run(capacity, ops), Run(capacity, ops + [op]);
      && |h'.evicted| >= |h.evicted| && h'.evicted[..|h.evicted|] == h.evicted
      && forall e :: |h.evicted| <= e < |h'.evicted| ==> EvictedInOrder(capacity, ops + [op], h'.evicted[e])
  {
    hide Run, Victim, GoesFirst;
    RunNext(capacity, ops, op);
    OpsOfRun(capacity, ops);
    var all := ops + [op];
    assert all[..|ops|] == ops;
    var h := Run(capacity, ops);
    if op.Enqueue? && !h.closed && Find(Notices(h.pending), op.n.eqID) < 0 && Overfull(capacity, h) {
      var v := Victim(Notices(h.pending));
      VictimGoesFirst(h.pending);
      assert forall j :: 0 <= j < |h.pending| ==> h.pending[j].notice == Notices(h.pending)[j];
      assert h.pending[v] == h.pending[v] && GoesFirst(h.pending, v);
    }
  }

  lemma VictimGoesFirst(pending: seq<Slot>)
    requires pending != []
    ensures Victim(Notices(pending)) < |pending| && GoesFirst(pending, Victim(Notices(pending)))
  {
    hide Victim;
    EvictionOrder(Notices(pending));
    assert forall j :: 0 <= j < |pending| ==> pending[j].notice == Notices(pending)[j];
  }

  lemma EvictedInOrderLater(capacity: int, ops: seq<Op>, op: Op, d: Departure)
    requires EvictedInOrder(capacity, ops, d)
    ensures EvictedInOrder(capacity, ops + [op], d)
  {
    hide Run, GoesFirst;
    assert (ops + [op])[..d.at] == ops[..d.at];
  }

  /** Over every run each eviction follows the order of the priorities. */
  lemma {:induction false} EvictionsInOrder(capacity: int, ops: seq<Op>)
    ensures forall e :: 0 <= e < |Run(capacity, ops).evicted| ==>
              EvictedInOrder(capacity, ops, Run(capacity, ops).evicted[e])
  {
    hide Apply, EvictedInOrder;
    if ops != [] {
      var front, op := ops[..|ops| - 1], ops[|ops| - 1];
      assert ops == front + [op];
      EvictionsInOrder(capacity, front);
      EvictedNow(capacity, front, op);
      var h, h' := Run(capacity, front), Run(capacity, ops);
      forall e | 0 <= e < |h'.evicted|
        ensures EvictedInOrder(capacity, ops, h'.evicted[e])
      {
        if e < |h.evicted| {
          assert h'.evicted[e] == h'.evicted[..|h.evicted|][e];
          EvictedInOrderLater(capacity, front, op, h.evicted[e]);
        }
      }
    }
  }

  /** When this slot was evicted the queue was full, it was the oldest of its priority, nothing pending was
      routine if it is final, and everything pending was a cancellation if it is one. */
  predicate InTurn(capacity: int, ops: seq<Op>, d: Departure) {
    && d.at < |ops| && ops[d.at].Enqueue?
    && var before := Run(capacity, ops[..d.at]).pending;
    && d.slot in before && |before| >= capacity
    && (d.slot.notice.priority == Cancellation ==>
          forall j :: 0 <= j < |before| ==> before[j].notice.priority == Cancellation)
    && (d.slot.notice.priority == Final ==>
          forall j :: 0 <= j < |before| ==> before[j].notice.priority != Normal)
    && forall j :: 0 <= j < |before| && before[j].notice.priority == d.slot.notice.priority ==>
         d.slot.ticket <= before[j].ticket
  }

  lemma InOrderIsInTurn(capacity: int, ops: seq<Op>, d: Departure)
    requires EvictedInOrder(capacity, ops, d)
    ensures InTurn(capacity, ops, d)
  {
    hide Run;
    var before := Run(capacity, ops[..d.at]).pending;
    var v :| 0 <= v < |before| && before[v] == d.slot && GoesFirst(before, v);
    DeliveryFollowsOpening(capacity, ops[..d.at]);
    forall j | 0 <= j < |before| && before[j].notice.priority == d.slot.notice.priority
      ensures d.slot.ticket <= before[j].ticket
    {
      PendingInOrder(Run(capacity, ops[..d.at]), v, j);
    }
  }

  /** Over every run each evicted notice left in its turn. */
  lemma CancellationsGoLast(capacity: int, ops: seq<Op>)
    ensures forall e :: 0 <= e < |Run(capacity, ops).evicted| ==> InTurn(capacity, ops, Run(capacity, ops).evicted[e])
  {
    hide Run, InTurn, EvictedInOrder;
    EvictionsInOrder(capacity, ops);
    forall e | 0 <= e < |Run(capacity, ops).evicted|
      ensures InTurn(capacity, ops, Run(capacity, ops).evicted[e])
    {
      InOrderIsInTurn(capacity, ops, Run(capacity, ops).evicted[e]);
    }
  }

  lemma PendingInOrder(h: History, i: nat, j: nat)
    requires Ordered(h) && i < |h.pending| && j < |h.pending|
    ensures i <= j ==> h.pending[i].ticket <= h.pending[j].ticket
  {
    var n := |h.delivered|;
    assert Line(h)[n + i] == h.pending[i].ticket && Line(h)[n + j] == h.pending[j].ticket;
  }

  // ---------- what an arriving notice can displace ----------

  /** The arrival of n costs a notice that outranks it: the one it coalesces with, or the victim
      of a full queue in which everything outranks it. */
  predicate Displaces(slots: seq<Notice>, capacity: int, n: Notice) {
    var i := Find(slots, n.eqID);
    if i >= 0 then Rank(slots[i].priority) > Rank(n.priority)
    else
      && slots != [] && |slots| >= capacity
      && forall k :: 0 <= k < |slots| ==> Rank(slots[k].priority) > Rank(n.priority)
  }

  predicate IsLost(slots: seq<Notice>, after: seq<Notice>, n: Notice, i: nat)
    requires i < |slots|
  {
    Rank(slots[i].priority) > Rank(n.priority) && slots[i] !in after
  }

  lemma PutDisplaces(slots: seq<Notice>, capacity: int, n: Notice)
    requires Distinct(slots)
    ensures (exists i :: 0 <= i < |slots| && IsLost(slots, Put(slots, capacity, n), n, i))
            <==> Displaces(slots, capacity, n)
  {
    hide Victim, Find, Rank;
    var found, after := Find(slots, n.eqID), Put(slots, capacity, n);
    if found >= 0 {
      ReplacedIsLost(slots, after, n, found);
      assert IsLost(slots, after, n, found) <==> Rank(slots[found].priority) > Rank(n.priority);
    } else if slots != [] && |slots| >= capacity {
      VictimInRange(slots);
      var v := Victim(slots);
      assert IsVictim(slots, v);
      hide IsVictim;
      EvictedIsLost(slots, after, n, v);
      LowestOutranks(slots, v, Rank(n.priority));
      assert IsLost(slots, after, n, v) <==> Rank(slots[v].priority) > Rank(n.priority);
    } else {
      assert forall i :: 0 <= i < |slots| ==> slots[i] == (slots + [n])[i];
    }
  }

  lemma ReplacedIsLost(slots: seq<Notice>, after: seq<Notice>, n: Notice, k: nat)
    requires k < |slots| && slots[k].eqID == n.eqID && after == slots[k := n]
    requires Distinct(slots)
    ensures forall i :: 0 <= i < |slots| ==>
              (IsLost(slots, after, n, i) <==> i == k && Rank(slots[k].priority) > Rank(n.priority))
  {
    hide Rank;
    forall i | 0 <= i < |slots| && i != k
      ensures slots[i] in after
    {
      assert after[i] == slots[i];
    }
  }

  lemma EvictedIsLost(slots: seq<Notice>, after: seq<Notice>, n: Notice, v: nat)
    requires v < |slots| && after == Without(slots, v) + [n]
    requires Distinct(slots) && forall i :: 0 <= i < |slots| ==> slots[i].eqID != n.eqID
    ensures forall i :: 0 <= i < |slots| ==>
              (IsLost(slots, after, n, i) <==> i == v && Rank(slots[v].priority) > Rank(n.priority))
  {
    hide Rank;
    WithoutAt(slots, v);
    hide Without;
    forall i | 0 <= i < |slots| && i != v
      ensures slots[i] in after
    {
      assert after[if i < v then i else i - 1] == slots[i];
    }
  }

  lemma LowestOutranks(slots: seq<Notice>, v: nat, r: nat)
    requires IsVictim(slots, v)
    ensures Rank(slots[v].priority) > r <==> forall i :: 0 <= i < |slots| ==> Rank(slots[i].priority) > r
  {
    hide Rank;
  }

  /** The newcomer itself is never refused, so the exact condition under which its arrival costs
      a more important notice, after any run. */
  lemma DisplacedExactly(capacity: int, ops: seq<Op>, n: Notice)
    ensures
      var before := Notices(Run(capacity, ops).pending);
      var after := Notices(Run(capacity, ops + [Op.Enqueue(n)]).pending);
      (exists i :: 0 <= i < |before| && IsLost(before, after, n, i))
      <==> Op.Close !in ops && Displaces(before, capacity, n)
  {
    hide Put, Apply, Displaces;
    var h := Run(capacity, ops);
    RunNext(capacity, ops, Op.Enqueue(n));
    PendingIsBounded(capacity, ops);
    SlotsHoldTheLatest(capacity, ops);
    OpsOfRun(capacity, ops);
    ApplyRefines(capacity, h, Op.Enqueue(n));
    PutDisplaces(Notices(h.pending), capacity, n);
  }

  const CANCELLED := Notice("1", [], "", Cancellation)

  lemma RunOfOne(n: Notice)
    ensures Run(1, [Op.Enqueue(n)]) == History([Op.Enqueue(n)], [0], [Slot(0, [], n)], [], [], false)
  {
    RunNext(1, [], Op.Enqueue(n));
    assert [] + [Op.Enqueue(n)] == [Op.Enqueue(n)];
  }

  /** Both happen: a full queue gives up a cancellation for a routine report of another
      earthquake, */
  lemma CancellationEvicted()
    ensures
      var other := Notice("2", [], "", Normal);
      Run(1, [Op.Enqueue(CANCELLED), Op.Enqueue(other)]).evicted == [Departure(Slot(0, [], CANCELLED), 1)]
  {
    hide Run, Victim;
    RunOfOne(CANCELLED);
    var h, other := Run(1, [Op.Enqueue(CANCELLED)]), Notice("2", [], "", Normal);
    RunNext(1, [Op.Enqueue(CANCELLED)], Op.Enqueue(other));
    VictimInRange(Notices(h.pending));
    assert [Op.Enqueue(CANCELLED)] + [Op.Enqueue(other)] == [Op.Enqueue(CANCELLED), Op.Enqueue(other)];
  }

  /** and a routine report takes the slot of the cancellation of its own earthquake. */
  lemma CancellationReplaced()
    ensures
      var same := Notice("1", [], "", Normal);
      Run(1, [Op.Enqueue(CANCELLED), Op.Enqueue(same)]).pending == [Slot(0, [CANCELLED], same)]
  {
    hide Run;
    RunOfOne(CANCELLED);
    var h, same := Run(1, [Op.Enqueue(CANCELLED)]), Notice("1", [], "", Normal);
    RunNext(1, [Op.Enqueue(CANCELLED)], Op.Enqueue(same));
    assert Find(Notices(h.pending), same.eqID) == 0;
    assert h.pending[0].Offers() == [CANCELLED];
    assert [Op.Enqueue(CANCELLED)] + [Op.Enqueue(same)] == [Op.Enqueue(CANCELLED), Op.Enqueue(same)];
  }

  lemma PutHolds(slots: seq<Notice>, capacity: int, n: Notice)
    requires Distinct(slots)
    ensures n in Put(slots, capacity, n)
    ensures forall i :: 0 <= i < |Put(slots, capacity, n)| && Put(slots, capacity, n)[i].eqID == n.eqID ==>
              Put(slots, capacity, n)[i] == n
  {
    hide Victim;
    if Find(slots, n.eqID) >= 0 {
      assert slots[Find(slots, n.eqID) := n][Find(slots, n.eqID)] == n;
    } else if slots != [] {
      VictimInRange(slots);
    }
  }

  /** Coalescing replaces everything, not only the text: after any run, a report that arrives
      takes the place of one still unsent, whose channels and priority are gone with it. */
  lemma CoalescingForgets(capacity: int, ops: seq<Op>, n: Notice)
    requires Op.Close !in ops
    ensures
      var p := Run(capacity, ops + [Op.Enqueue(n)]).pending;
      && n in Notices(p)
      && forall i :: 0 <= i < |p| && p[i].notice.eqID == n.eqID ==> p[i].notice == n
  {
    hide Put, Apply;
    var h := Run(capacity, ops);
    RunNext(capacity, ops, Op.Enqueue(n));
    PendingIsBounded(capacity, ops);
    SlotsHoldTheLatest(capacity, ops);
    OpsOfRun(capacity, ops);
    ApplyRefines(capacity, h, Op.Enqueue(n));
    PutHolds(Notices(h.pending), capacity, n);
    var ns := Notices(Apply(capacity, h, Op.Enqueue(n)).pending);
    assert ns == Put(Notices(h.pending), capacity, n);
  }

  // ---------- closing ----------

  function Dequeues(ops: seq<Op>): nat {
    if ops == [] then 0
    else Dequeues(ops[..|ops| - 1]) + if ops[|ops| - 1].Dequeue? then 1 else 0
  }

  function Least(a: nat, b: nat): nat {
    if a < b then a else b
  }

  lemma ClosedStep(capacity: int, h: History, op: Op)
    requires h.closed
    ensures
      var h' := Apply(capacity, h, op);
      && h'.closed && h'.evicted == h.evicted
      && (if op.Dequeue? && h.pending != [] then
            && h'.pending == h.pending[1..]
            && h'.delivered == h.delivered + [Departure(h.pending[0], |h.ops|)]
          else h'.pending == h.pending && h'.delivered == h.delivered)
  {}

  function Slots(ds: seq<Departure>): (ss: seq<Slot>)
    ensures |ss| == |ds| && forall i :: 0 <= i < |ds| ==> ss[i] == ds[i].slot
  {
    seq(|ds|, i requires 0 <= i < |ds| => ds[i].slot)
  }

  /** The slots of the line: those delivered, then those pending. */
  function Chain(h: History): seq<Slot> {
    Slots(h.delivered) + h.pending
  }

  lemma ChainStep(capacity: int, h: History, op: Op)
    requires h.closed
    ensures
      var h' := Apply(capacity, h, op);
      && Chain(h') == Chain(h)
      && |h'.pending| == if op.Dequeue? && h.pending != [] then |h.pending| - 1 else |h.pending|
  {
    hide Apply;
    ClosedStep(capacity, h, op);
    var h' := Apply(capacity, h, op);
    if op.Dequeue? && h.pending != [] {
      assert Slots(h'.delivered) == Slots(h.delivered) + [h.pending[0]];
      assert h.pending == [h.pending[0]] + h'.pending;
    }
  }

  /** After Close each Dequeue moves the boundary in the chain by one until nothing is pending,
      and nothing else ever happens: later Enqueues are lost and nothing is evicted. */
  lemma {:induction false} CloseDrains(capacity: int, ops: seq<Op>, later: seq<Op>)
    requires Op.Close in ops
    ensures
      var h, h' := Run(capacity, ops), Run(capacity, ops + later);
      && h'.closed && h'.evicted == h.evicted
      && Chain(h') == Chain(h)
      && |h'.pending| == |h.pending| - Least(Dequeues(later), |h.pending|)
    decreases |later|
  {
    hide Apply, Chain;
    if later == [] {
      assert ops + later == ops;
      SlotsHoldTheLatest(capacity, ops);
      OpsOfRun(capacity, ops);
    } else {
      var front, last := later[..|later| - 1], later[|later| - 1];
      CloseDrains(capacity, ops, front);
      assert (ops + later)[..|ops + later| - 1] == ops + front;
      ChainStep(capacity, Run(capacity, ops + front), last);
      ClosedStep(capacity, Run(capacity, ops + front), last);
    }
  }
}
