/** Which channels a telegram goes to (internal/irc/dispatcher.go). */
module Dispatchers {
  import opened Text
  import opened Decoder
  import opened Queues

  /** The first occurrences in a list, in order. */
  function Unique(xs: seq<string>): seq<string> {
    if xs == [] then []
    else
      var front := Unique(xs[..|xs| - 1]);
      if xs[|xs| - 1] in front then front else front + [xs[|xs| - 1]]
  }

  predicate NoDuplicates(xs: seq<string>) {
    forall i, j :: 0 <= i < j < |xs| ==> xs[i] != xs[j]
  }

  /** Unique keeps exactly the elements, each once. */
  lemma {:induction false} UniqueElements(xs: seq<string>)
    ensures NoDuplicates(Unique(xs))
    ensures forall x :: x in Unique(xs) <==> x in xs
  {
    if xs != [] {
      var front, last := xs[..|xs| - 1], xs[|xs| - 1];
      UniqueElements(front);
      assert xs == front + [last];
    }
  }

  /** A longer list only adds channels at the end. */
  lemma {:induction false} UniqueGrows(a: seq<string>, b: seq<string>)
    ensures Unique(a) <= Unique(a + b)
    decreases |b|
  {
    if b == [] {
      assert a + b == a;
    } else {
      assert (a + b)[..|a + b| - 1] == a + b[..|b| - 1];
      UniqueGrows(a, b[..|b| - 1]);
    }
  }

  lemma UniqueNext(xs: seq<string>, x: string)
    ensures Unique(xs + [x]) == if x in Unique(xs) then Unique(xs) else Unique(xs) + [x]
  {
    assert (xs + [x])[..|xs|] == xs;
  }

  lemma UniqueNothing()
    ensures Unique(Concat([])) == []
  {}

  method Dedup(lists: seq<seq<string>>) returns (out: seq<string>)
    ensures out == Unique(Concat(lists))
  {
    hide Unique, Concat;
    var seen: map<string, bool> := map[];
    out := [];
    assert lists[..0] == [];
    UniqueNothing();
    for i := 0 to |lists|
      invariant out == Unique(Concat(lists[..i]))
      invariant forall ch :: ch in seen <==> ch in out
    {
      var l := lists[i];
      ghost var before := Concat(lists[..i]);
      assert before + l[..0] == before;
      for j := 0 to |l|
        invariant out == Unique(before + l[..j])
        invariant forall ch :: ch in seen <==> ch in out
      {
        var ch := l[j];
        UniqueNext(before + l[..j], ch);
        assert before + l[..j] + [ch] == before + l[..j + 1];
        if ch !in seen {
          seen := seen[ch := true];
          out := out + [ch];
        }
      }
      assert l[..|l|] == l;
      ConcatAppend(lists[..i], l);
      assert lists[..i] + [l] == lists[..i + 1];
    }
    assert lists[..|lists|] == lists;
  }

  function Joined(all: seq<string>, limited: seq<string>): seq<string> {
    Unique(all + limited)
  }

  /** Whether the limited-notice channels hear about t, after a report of `last`. */
  predicate LimitedFires(last: string, t: Fields) {
    t.report.eqID != last || t.IsCancellation() || t.IsFinal()
  }

  function PriorityFor(t: Fields): Priority {
    if t.IsCancellation() then Cancellation
    else if t.IsFinal() then Final
    else Normal
  }

  class Dispatcher {
    const all: seq<string>
    const limited: seq<string>
    var lastEqID: string

    constructor (all: seq<string>, limited: seq<string>)
      ensures this.all == all && this.limited == limited && lastEqID == ""
    {
      this.all, this.limited, lastEqID := all, limited, "";
    }

    method JoinChannels() returns (channels: seq<string>)
      ensures channels == Unique(all + limited)
    {
      channels := Dedup([all, limited]);
      TwoLists(all, limited);
    }

    method ChannelsFor(t: Fields) returns (channels: seq<string>, priority: Priority)
      modifies this
      ensures
        var fires := t.report.eqID != old(lastEqID) || t.header.msgTypeCode == 10 || t.report.ncnType > 0;
        channels == Unique(if fires then all + limited else all)
      ensures priority == if t.header.msgTypeCode == 10 then Cancellation
                          else if t.report.ncnType > 0 then Final
                          else Normal
      ensures lastEqID == t.report.eqID
    {
      var limitedFires := t.report.eqID != lastEqID || t.IsCancellation() || t.IsFinal();
      if limitedFires {
        lastEqID := t.report.eqID;
      }
      priority := PriorityFor(t);
      if limitedFires {
        channels := Dedup([all, limited]);
        TwoLists(all, limited);
        return;
      }
      channels := Dedup([all]);
      OneList(all);
    }
  }

  lemma TwoLists(a: seq<string>, b: seq<string>)
    ensures Concat([a, b]) == a + b
  {
    assert [a, b][1..] == [b];
    OneList(b);
  }

  lemma OneList(a: seq<string>)
    ensures Concat([a]) == a
  {
    assert [a][1..] == [];
    assert a + [] == a;
  }

  // ---------- whole runs of a dispatcher ----------

  /** lastEqID as the program updates it, telegram by telegram. */
  function LastEqID(ts: seq<Fields>): string {
    if ts == [] then ""
    else
      var last, t := LastEqID(ts[..|ts| - 1]), ts[|ts| - 1];
      if LimitedFires(last, t) then t.report.eqID else last
  }

  /** Over any run, limited-notice channels hear exactly of the reports that change the
      earthquake, cancel, or are final. */
  lemma {:induction false} LimitedFiresOnChange(ts: seq<Fields>, k: nat)
    requires k < |ts|
    ensures LimitedFires(LastEqID(ts[..k]), ts[k]) <==>
              (ts[k].report.eqID != (if k == 0 then "" else ts[k - 1].report.eqID)
               || ts[k].header.msgTypeCode == 10 || ts[k].report.ncnType > 0)
  {
    LastEqIDIsTheLatest(ts[..k]);
  }

  lemma {:induction false} LastEqIDIsTheLatest(ts: seq<Fields>)
    ensures LastEqID(ts) == if ts == [] then "" else ts[|ts| - 1].report.eqID
  {
    if ts != [] {
      LastEqIDIsTheLatest(ts[..|ts| - 1]);
    }
  }
}
