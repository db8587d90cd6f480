/** The bounded send queue (internal/irc/queue.go): coalescing by eq_id, eviction by priority. */
module Queues {
  datatype Priority = Normal | Final | Cancellation

  datatype Notice = Notice(eqID: string, channels: seq<string>, text: string, priority: Priority)

  function Rank(p: Priority): (r: nat)
    ensures r <= 2
  {
    match p
    case Normal => 0
    case Final => 1
    case Cancellation => 2
  }

  // ---------- the queue as one ordered list of notices ----------

  /** The slot that holds an eq_id, or -1. */
  function Find(slots: seq<Notice>, id: string): (i: int)
    ensures i == -1 || (0 <= i < |slots| && slots[i].eqID == id)
    ensures forall k :: 0 <= k < (if i < 0 then |slots| else i) ==> slots[k].eqID != id
  {
    FindFrom(slots, id, 0)
  }

  function FindFrom(slots: seq<Notice>, id: string, from: nat): (i: int)
    requires from <= |slots|
    ensures i == -1 || (from <= i < |slots| && slots[i].eqID == id)
    ensures forall k :: from <= k < (if i < 0 then |slots| else i) ==> slots[k].eqID != id
    decreases |slots| - from
  {
    if from == |slots| then -1
    else if slots[from].eqID == id then from
    else FindFrom(slots, id, from + 1)
  }

  predicate Distinct(slots: seq<Notice>) {
    forall i, j :: 0 <= i < j < |slots| ==> slots[i].eqID != slots[j].eqID
  }

  /** The oldest entry among those of the lowest priority present. */
  predicate IsVictim(slots: seq<Notice>, v: nat) {
    && v < |slots|
    && (forall j :: 0 <= j < |slots| ==> Rank(slots[v].priority) <= Rank(slots[j].priority))
    && (forall j :: 0 <= j < v ==> Rank(slots[v].priority) < Rank(slots[j].priority))
  }

  lemma VictimIsUnique(slots: seq<Notice>, v: nat, w: nat)
    requires IsVictim(slots, v) && IsVictim(slots, w)
    ensures v == w
  {
    var a, b := slots[v], slots[w];
  }

  function Victim(slots: seq<Notice>): (v: nat)
    requires slots != []
    ensures IsVictim(slots, v)
  {
    if |slots| == 1 then 0
    else
      var n := |slots| - 1;
      var v := Victim(slots[..n]);
      if Rank(slots[n].priority) < Rank(slots[v].priority) then n else v
  }

  /** A full queue gives up the notice at v: it is the oldest of its priority, and a final one goes
      only when no routine one is there, a cancelling one only when there is nothing else. */
  predicate Gives(slots: seq<Notice>, v: nat)
    requires v < |slots|
  {
    && (forall j :: 0 <= j < v ==> slots[j].priority != slots[v].priority)
    && (slots[v].priority == Final ==> forall j :: 0 <= j < |slots| ==> slots[j].priority != Normal)
    && (slots[v].priority == Cancellation ==> forall j :: 0 <= j < |slots| ==> slots[j].priority == Cancellation)
  }

  lemma VictimGives(slots: seq<Notice>, v: nat)
    requires IsVictim(slots, v)
    ensures Gives(slots, v)
  {}

  /** The victim goes in the order of the priorities: routine, final, cancelling. */
  lemma EvictionOrder(slots: seq<Notice>)
    requires slots != []
    ensures
      var v := Victim(slots);
      && v < |slots|
      && (forall j :: 0 <= j < v ==> slots[j].priority != slots[v].priority)
      && (slots[v].priority == Final ==> forall j :: 0 <= j < |slots| ==> slots[j].priority != Normal)
      && (slots[v].priority == Cancellation ==> forall j :: 0 <= j < |slots| ==> slots[j].priority == Cancellation)
  {
    hide Victim;
    assert IsVictim(slots, Victim(slots));
    VictimGives(slots, Victim(slots));
  }

  function Without<T>(xs: seq<T>, i: nat): seq<T>
    requires i < |xs|
  {
    xs[..i] + xs[i + 1..]
  }

  function Evict(slots: seq<Notice>): seq<Notice> {
    if slots == [] then [] else Without(slots, Victim(slots))
  }

  lemma EvictsVictim(slots: seq<Notice>, v: nat)
    requires IsVictim(slots, v)
    ensures Evict(slots) == Without(slots, v)
  {
    VictimIsUnique(slots, v, Victim(slots));
  }

  lemma EvictNothing()
    ensures Evict([]) == []
  {}

  function Put(slots: seq<Notice>, capacity: int, n: Notice): seq<Notice> {
    var i := Find(slots, n.eqID);
    if i >= 0 then slots[i := n]
    else (if |slots| >= capacity then Evict(slots) else slots) + [n]
  }

  /** The three things that can happen to a notice that is put into an open queue. */
  lemma PutCases(slots: seq<Notice>, capacity: int, n: Notice)
    requires Distinct(slots)
    ensures forall i :: 0 <= i < |slots| && slots[i].eqID == n.eqID ==> Put(slots, capacity, n) == slots[i := n]
    ensures (forall i :: 0 <= i < |slots| ==> slots[i].eqID != n.eqID) ==>
              if slots == [] || |slots| < capacity then Put(slots, capacity, n) == slots + [n]
              else
                var v := Victim(slots);
                v < |slots| && Put(slots, capacity, n) == slots[..v] + slots[v + 1..] + [n]
  {
    hide Victim, IsVictim;
    if slots != [] {
      EvictionOrder(slots);
    }
  }

  // ---------- the program's pair of an order and a map ----------

  ghost predicate Consistent(order: seq<string>, entries: map<string, Notice>) {
    && (forall i, j :: 0 <= i < j < |order| ==> order[i] != order[j])
    && (forall i :: 0 <= i < |order| ==> order[i] in entries)
    && (forall id :: id in entries ==> id in order && entries[id].eqID == id)
  }

  /** The list that the pair stands for. */
  ghost function Listing(order: seq<string>, entries: map<string, Notice>): (slots: seq<Notice>)
    requires Consistent(order, entries)
    ensures |slots| == |order|
    ensures forall i :: 0 <= i < |slots| ==> slots[i] == entries[order[i]]
  {
    seq(|order|, i requires 0 <= i < |order| => entries[order[i]])
  }

  lemma ListingHead(order: seq<string>, entries: map<string, Notice>)
    requires Consistent(order, entries)
    ensures |Listing(order, entries)| == |order|
    ensures order != [] ==> order[0] in entries && entries[order[0]] == Listing(order, entries)[0]
  {}

  lemma ListingFind(order: seq<string>, entries: map<string, Notice>, id: string)
    requires Consistent(order, entries)
    ensures Find(Listing(order, entries), id) >= 0 <==> id in entries
  {
    var slots := Listing(order, entries);
    if id in entries {
      var k :| 0 <= k < |order| && order[k] == id;
      assert slots[k].eqID == id;
    }
  }

  lemma ListingReplace(order: seq<string>, entries: map<string, Notice>, n: Notice)
    requires Consistent(order, entries) && n.eqID in entries
    ensures
      var after, slots := entries[n.eqID := n], Listing(order, entries);
      && Find(slots, n.eqID) >= 0
      && Consistent(order, after)
      && Listing(order, after) == slots[Find(slots, n.eqID) := n]
  {
    ListingFind(order, entries, n.eqID);
  }

  lemma ListingAppend(order: seq<string>, entries: map<string, Notice>, n: Notice)
    requires Consistent(order, entries) && n.eqID !in entries
    ensures
      var longer, after := order + [n.eqID], entries[n.eqID := n];
      Consistent(longer, after) && Listing(longer, after) == Listing(order, entries) + [n]
  {
    var longer, after := order + [n.eqID], entries[n.eqID := n];
    forall id | id in after
      ensures id in longer
    {
      if id == n.eqID {
        assert longer[|order|] == id;
      }
    }
  }

  lemma WithoutAt<T>(xs: seq<T>, i: nat)
    requires i < |xs|
    ensures |Without(xs, i)| == |xs| - 1
    ensures forall k :: 0 <= k < |xs| - 1 ==> Without(xs, i)[k] == xs[if k < i then k else k + 1]
  {}

  lemma ConsistentRemove(order: seq<string>, entries: map<string, Notice>, i: nat)
    requires Consistent(order, entries) && i < |order|
    ensures Consistent(Without(order, i), entries - {order[i]})
  {
    WithoutAt(order, i);
    hide Without;
    var shorter, after := Without(order, i), entries - {order[i]};
    forall id | id in after
      ensures id in shorter
    {
      var k :| 0 <= k < |order| && order[k] == id;
      var at := if k < i then k else k - 1;
      assert shorter[at] == id;
    }
  }

  lemma ListingRemove(order: seq<string>, entries: map<string, Notice>, i: nat)
    requires Consistent(order, entries) && i < |order|
    ensures
      var shorter, after := Without(order, i), entries - {order[i]};
      Consistent(shorter, after) && Listing(shorter, after) == Without(Listing(order, entries), i)
  {
    ConsistentRemove(order, entries, i);
    WithoutAt(order, i);
    WithoutAt(Listing(order, entries), i);
    hide Without;
    var shorter, after := Without(order, i), entries - {order[i]};
    forall k | 0 <= k < |shorter|
      ensures Listing(shorter, after)[k] == Without(Listing(order, entries), i)[k]
    {
      assert shorter[k] == order[if k < i then k else k + 1];
    }
  }

  // ---------- whole runs ----------

  datatype Op = Enqueue(n: Notice) | Dequeue | Close

  /** A delivery slot: the index of the operation that opened it, the notices that were
      replaced in it, and the one it holds. */
  datatype Slot = Slot(ticket: nat, earlier: seq<Notice>, notice: Notice) {
    function Offers(): seq<Notice> {
      earlier + [notice]
    }
  }

  /** A slot that is gone, and the index of the operation that removed it. */
  datatype Departure = Departure(slot: Slot, at: nat)

  datatype History = History(
    ops: seq<Op>,
    openings: seq<nat>,
    pending: seq<Slot>,
    delivered: seq<Departure>,
    evicted: seq<Departure>,
    closed: bool)

  function Notices(slots: seq<Slot>): (ns: seq<Notice>)
    ensures |ns| == |slots| && forall i :: 0 <= i < |slots| ==> ns[i] == slots[i].notice
  {
    seq(|slots|, i requires 0 <= i < |slots| => slots[i].notice)
  }

  function Overfull(capacity: int, h: History): bool {
    |h.pending| >= capacity && h.pending != []
  }

  function Open(capacity: int, h: History, n: Notice): History {
    var slot := Slot(|h.ops|, [], n);
    var h' := if Overfull(capacity, h) then
                var v := Victim(Notices(h.pending));
                h.(pending := Without(h.pending, v) + [slot],
                   evicted := h.evicted + [Departure(h.pending[v], |h.ops|)])
              else h.(pending := h.pending + [slot]);
    h'.(openings := h.openings + [|h.ops|])
  }

  function Coalesce(h: History, i: nat, n: Notice): History
    requires i < |h.pending|
  {
    var s := h.pending[i];
    h.(pending := h.pending[i := Slot(s.ticket, s.Offers(), n)])
  }

  function Act(capacity: int, h: History, op: Op): History {
    match op
    case Enqueue(n) =>
      if h.closed then h
      else
        var i := Find(Notices(h.pending), n.eqID);
        if i >= 0 then Coalesce(h, i, n) else Open(capacity, h, n)
    case Dequeue =>
      if h.pending == [] then h
      else h.(pending := h.pending[1..],
              delivered := h.delivered + [Departure(h.pending[0], |h.ops|)])
    case Close => h.(closed := true)
  }

  function Apply(capacity: int, h: History, op: Op): History {
    var h' := Act(capacity, h, op);
    h'.(ops := h.ops + [op])
  }

  const FRESH := History([], [], [], [], [], false)

  function Run(capacity: int, ops: seq<Op>): History {
    if ops == [] then FRESH
    else Apply(capacity, Run(capacity, ops[..|ops| - 1]), ops[|ops| - 1])
  }

  lemma RunNext(capacity: int, ops: seq<Op>, op: Op)
    ensures Run(capacity, ops + [op]) == Apply(capacity, Run(capacity, ops), op)
  {
    assert (ops + [op])[..|ops|] == ops;
  }

  /** A run that goes on from a history. */
  function ApplyAll(capacity: int, h: History, ops: seq<Op>): History {
    if ops == [] then h else Apply(capacity, ApplyAll(capacity, h, ops[..|ops| - 1]), ops[|ops| - 1])
  }

  lemma ApplyNext(capacity: int, h: History, ops: seq<Op>, i: nat)
    requires i < |ops|
    ensures ApplyAll(capacity, h, ops[..i + 1]) == Apply(capacity, ApplyAll(capacity, h, ops[..i]), ops[i])
  {
    assert ops[..i + 1][..i] == ops[..i];
  }

  /** A run that goes on in batches. */
  function ApplyBatches(capacity: int, h: History, batches: seq<seq<Op>>): History {
    if batches == [] then h
    else ApplyAll(capacity, ApplyBatches(capacity, h, batches[..|batches| - 1]), batches[|batches| - 1])
  }

  lemma BatchNext(capacity: int, h: History, batches: seq<seq<Op>>, i: nat)
    requires i < |batches|
    ensures ApplyBatches(capacity, h, batches[..i + 1])
            == ApplyAll(capacity, ApplyBatches(capacity, h, batches[..i]), batches[i])
  {
    assert batches[..i + 1][..i] == batches[..i];
  }

  /** The history's pending list is the queue's list. */
  lemma ApplyRefines(capacity: int, h: History, op: Op)
    ensures
      var before, after := Notices(h.pending), Notices(Apply(capacity, h, op).pending);
      match op
      case Enqueue(n) => after == if h.closed then before else Put(before, capacity, n)
      case Dequeue => after == if before == [] then [] else before[1..]
      case Close => after == before
  {
    hide Victim, Rank, Find, IsVictim;
    var p := h.pending;
    if op.Enqueue? && !h.closed && p != [] {
      var v := Victim(Notices(p));
      assert v < |p| by {
        VictimInRange(Notices(p));
      }
      assert Notices(Without(p, v)) == Without(Notices(p), v);
    }
  }

  lemma VictimInRange(slots: seq<Notice>)
    requires slots != []
    ensures Victim(slots) < |slots|
  {}

  lemma ClosedBy(capacity: int, h: History, op: Op)
    ensures Apply(capacity, h, op).closed == (h.closed || op.Close?)
  {}

  /** The critical section of Dequeue, at the head of its wait loop. */
  datatype Taken = Got(notice: Notice) | MustWait | Finished

  /** The guard of the wait loop. */
  predicate MustStay(h: History) {
    h.pending == [] && !h.closed
  }

  class Queue {
    const capacity: int
    var order: seq<string>
    var entries: map<string, Notice>
    var closed: bool
    ghost var history: History

    /** The fields are those that the whole run so far leads to. */
    ghost predicate Valid()
      reads this
    {
      && Consistent(order, entries)
      && history == Run(capacity, history.ops)
      && Listing(order, entries) == Notices(history.pending)
      && closed == history.closed
    }

    /** The pending notices, oldest slot first. */
    ghost function View(): seq<Notice>
      requires Valid()
      reads this
    {
      Listing(order, entries)
    }

    constructor (capacity: int)
      ensures Valid() && View() == [] && !closed && this.capacity == capacity
      ensures history == FRESH
    {
      this.capacity := capacity;
      order, entries, closed := [], map[], false;
      history := FRESH;
    }

    /** The operation just done, put on record. */
    ghost method Record(op: Op)
      requires Consistent(order, entries)
      requires history == Run(capacity, history.ops)
      requires Listing(order, entries) == Notices(Apply(capacity, history, op).pending)
      requires closed == Apply(capacity, history, op).closed
      modifies this`history
      ensures Valid() && history == Apply(capacity, old(history), op)
    {
      hide Consistent, Listing, Act;
      var ops := history.ops + [op];
      assert ops[..|ops| - 1] == history.ops;
      history := Apply(capacity, history, op);
    }

    method Enqueue(n: Notice)
      requires Valid()
      modifies this
      ensures Valid() && closed == old(closed)
      ensures View() == if closed then old(View()) else Put(old(View()), capacity, n)
      ensures history == Apply(capacity, old(history), Op.Enqueue(n))
    {
      hide Consistent, Listing, Evict, Act, Find;
      ApplyRefines(capacity, history, Op.Enqueue(n));
      assert closed == Apply(capacity, history, Op.Enqueue(n)).closed by {
        ClosedBy(capacity, history, Op.Enqueue(n));
      }
      if closed {
        Record(Op.Enqueue(n));
        return;
      }
      ListingFind(order, entries, n.eqID);
      if n.eqID in entries {
        ListingReplace(order, entries, n);
        entries := entries[n.eqID := n];
        Record(Op.Enqueue(n));
        return;
      }
      if |order| >= capacity {
        EvictOne();
      }
      ListingAppend(order, entries, n);
      order := order + [n.eqID];
      entries := entries[n.eqID := n];
      Record(Op.Enqueue(n));
    }

    method EvictOne()
      requires Consistent(order, entries)
      modifies this`order, this`entries
      ensures Consistent(order, entries)
      ensures Listing(order, entries) == Evict(old(Listing(order, entries)))
      ensures forall id :: id in entries ==> id in old(entries)
      ensures old(order) != [] ==>
                exists v :: 0 <= v < |old(order)| && Gives(old(Listing(order, entries)), v)
                            && Listing(order, entries) == Without(old(Listing(order, entries)), v)
    {
      hide Without, Evict, Gives;
      ghost var head := if |order| > 0 then Rank(entries[order[0]].priority) else 0;
      var wants := [Normal, Final, Cancellation];
      var w := 0;
      while w < |wants|
        invariant 0 <= w <= 3
        invariant order == old(order) && entries == old(entries)
        invariant forall j :: 0 <= j < |order| ==> w <= Rank(entries[order[j]].priority)
        invariant |order| == 0 || w <= head <= 2
      {
        var i := 0;
        while i < |order|
          invariant 0 <= i <= |order|
          invariant order == old(order) && entries == old(entries)
          invariant forall j :: 0 <= j < i ==> w < Rank(entries[order[j]].priority)
        {
          if entries[order[i]].priority == wants[w] {
            EvictsVictim(Listing(order, entries), i);
            VictimGives(Listing(order, entries), i);
            RemoveAt(i);
            return;
          }
          i := i + 1;
        }
        w := w + 1;
      }
      EvictNothing();
    }

    method RemoveAt(i: nat)
      requires Consistent(order, entries) && i < |order|
      modifies this`order, this`entries
      ensures Consistent(order, entries)
      ensures Listing(order, entries) == Without(old(Listing(order, entries)), i)
      ensures entries == old(entries - {order[i]})
    {
      hide Consistent, Listing;
      ListingRemove(order, entries, i);
      var eqID := order[i];
      entries := entries - {eqID};
      order := order[..i] + order[i + 1..];
    }

    /** One pass through the guard of the wait loop and, if it lets through, the rest. */
    method TryDequeue() returns (t: Taken)
      requires Valid()
      modifies this
      ensures Valid() && closed == old(closed)
      ensures t == if old(View()) != [] then Got(old(View())[0])
                   else if closed then Finished else MustWait
      ensures View() == if t.Got? then old(View())[1..] else old(View())
      ensures history == if t.MustWait? then old(history)
                         else Apply(capacity, old(history), Op.Dequeue)
    {
      hide Act, Consistent, Listing;
      ListingHead(order, entries);
      if |order| == 0 && !closed {
        return MustWait;
      }
      ApplyRefines(capacity, history, Op.Dequeue);
      ClosedBy(capacity, history, Op.Dequeue);
      if |order| == 0 {
        Record(Op.Dequeue);
        return Finished;
      }
      ghost var before := View();
      ListingRemove(order, entries, 0);
      assert Without(order, 0) == order[1..] && Without(before, 0) == before[1..];
      var eqID := order[0];
      order := order[1..];
      var n := entries[eqID];
      entries := entries - {eqID};
      Record(Op.Dequeue);
      return Got(n);
    }

    /** What other goroutines do while Dequeue is inside cond.Wait. */
    method Meanwhile(ops: seq<Op>)
      requires Valid() && Op.Dequeue !in ops
      modifies this
      ensures Valid() && history == ApplyAll(capacity, old(history), ops)
    {
      hide Act, Consistent, Listing, Put, Run, Apply;
      ghost var first := history;
      assert ops[..0] == [];
      for i := 0 to |ops|
        invariant Valid() && history == ApplyAll(capacity, first, ops[..i])
      {
        ApplyNext(capacity, first, ops, i);
        assert ops[i] in ops;
        match ops[i] {
          case Enqueue(n) => Enqueue(n);
          case Close => Close();
        }
      }
      assert ops[..|ops|] == ops;
    }

    /** `others` is what happens during successive waits, and `waits` of them are used up.
        Waiting goes on exactly as long as the queue is empty and open; MustWait means that it
        still goes on when `others` ends. */
    method Dequeue(others: seq<seq<Op>>) returns (t: Taken, ghost waits: nat)
      requires Valid() && forall ops :: ops in others ==> Op.Dequeue !in ops
      modifies this
      ensures Valid() && waits <= |others|
      ensures forall i :: 0 <= i < waits ==> MustStay(ApplyBatches(capacity, old(history), others[..i]))
      ensures
        var h := ApplyBatches(capacity, old(history), others[..waits]);
        if MustStay(h) then t == MustWait && history == h && waits == |others|
        else
          && t == (if h.pending == [] then Finished else Got(h.pending[0].notice))
          && history == Apply(capacity, h, Op.Dequeue)
    {
      hide Act, Consistent, Listing, Run, Apply, ApplyAll;
      ghost var first := history;
      var i := 0;
      assert others[..0] == [];
      while true
        invariant i <= |others| && Valid()
        invariant history == ApplyBatches(capacity, first, others[..i])
        invariant forall k :: 0 <= k < i ==> MustStay(ApplyBatches(capacity, first, others[..k]))
        decreases |others| - i
      {
        t := TryDequeue();
        if t.MustWait? && i < |others| {
          BatchNext(capacity, first, others, i);
          Meanwhile(others[i]);
          i := i + 1;
          continue;
        }
        return t, i;
      }
    }

    method Close()
      requires Valid()
      modifies this
      ensures Valid() && closed && View() == old(View())
      ensures history == Apply(capacity, old(history), Op.Close)
    {
      ApplyRefines(capacity, history, Op.Close);
      closed := true;
      Record(Op.Close);
    }

    method Len() returns (n: nat)
      requires Valid()
      ensures n == |View()|
    {
      n := |order|;
    }
  }
}
