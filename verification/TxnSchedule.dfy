/** The flush schedule of flusher.run: the sorted components advanced back to front. */
module TxnSchedule {
  import opened Graphs
  import opened Components
  import opened TxnQueue
  import TxnRun
  import Tarjan

  // One forced advance of a transaction; pull holds the ids whose leftover tokens it may
  // remove from the queues.
  datatype Call = Call(id: ObjectId, pull: set<ObjectId>)

  function Members(scc: seq<ObjectId>): set<ObjectId> {
    set x | x in scc
  }

  function CallsOf(scc: seq<ObjectId>, pull: set<ObjectId>): seq<Call> {
    seq(|scc|, k requires 0 <= k < |scc| => Call(scc[k], if |scc| == 1 then pull + {scc[k]} else pull))
  }

  // The advances for all components, the last one first, after those of pull.
  function Schedule(sorted: seq<seq<ObjectId>>, pull: set<ObjectId>): seq<Call> {
    if sorted == [] then [] else
      var n := |sorted| - 1;
      CallsOf(sorted[n], pull) + Schedule(sorted[..n], pull + Members(sorted[n]))
  }

  // How many advances come before those of component a.
  function Offset(sorted: seq<seq<ObjectId>>, a: nat): nat
    requires a < |sorted|
  {
    var n := |sorted| - 1;
    if a == n then 0 else |sorted[n]| + Offset(sorted[..n], a)
  }

  lemma {:induction false} ScheduleAt(sorted: seq<seq<ObjectId>>, pull: set<ObjectId>, a: nat, k: nat)
    requires a < |sorted| && k < |sorted[a]|
    ensures Offset(sorted, a) + k < |Schedule(sorted, pull)|
    ensures Schedule(sorted, pull)[Offset(sorted, a) + k]
      == Call(sorted[a][k], pull + Emitted(sorted[a + 1..]) + if |sorted[a]| == 1 then {sorted[a][k]} else {})
    decreases |sorted|
  {
    var n := |sorted| - 1;
    if a < n {
      var rest := sorted[..n];
      ScheduleAt(rest, pull + Members(sorted[n]), a, k);
      assert sorted[a + 1..] == rest[a + 1..] + [sorted[n]];
      EmittedAppend(rest[a + 1..], sorted[n]);
      assert rest[a] == sorted[a];
    } else {
      assert Emitted(sorted[a + 1..]) == {};
    }
  }

  // Later components are advanced strictly before earlier ones.
  lemma {:induction false} OffsetsFall(sorted: seq<seq<ObjectId>>, a: nat, b: nat)
    requires b < a < |sorted|
    ensures Offset(sorted, a) + |sorted[a]| <= Offset(sorted, b)
    decreases |sorted|
  {
    var n := |sorted| - 1;
    if a < n {
      OffsetsFall(sorted[..n], a, b);
    }
  }

  // Every advance of the schedule belongs to some component.
  lemma {:induction false} ScheduleFrom(
      sorted: seq<seq<ObjectId>>, pull: set<ObjectId>, p: nat) returns (a: nat, k: nat)
    requires p < |Schedule(sorted, pull)|
    ensures a < |sorted| && k < |sorted[a]| && p == Offset(sorted, a) + k
    decreases |sorted|
  {
    var n := |sorted| - 1;
    if p < |sorted[n]| {
      a, k := n, p;
    } else {
      a, k := ScheduleFrom(sorted[..n], pull + Members(sorted[n]), p - |sorted[n]|);
    }
  }

  // The calls are as many advances of the schedule as succeed, and the first that fails.
  ghost predicate Follows(calls: seq<Call>, schedule: seq<Call>, outcome: nat -> bool, ok: bool) {
    && calls <= schedule
    && (forall k :: 0 <= k < |calls| - 1 ==> outcome(k))
    && (if ok then calls == schedule && (calls != [] ==> outcome(|calls| - 1))
      else calls != [] && !outcome(|calls| - 1))
  }

  // Advances one component; pull already includes the member of a singleton.
  method FlushComponent(
      scc: seq<ObjectId>, pull: set<ObjectId>, before: seq<Call>, outcome: nat -> bool)
    returns (calls: seq<Call>, ok: bool)
    requires forall k :: 0 <= k < |before| ==> outcome(k)
    ensures before <= calls && calls[|before|..] <= seq(|scc|, k requires 0 <= k < |scc| => Call(scc[k], pull))
    ensures forall k :: 0 <= k < |calls| - 1 ==> outcome(k)
    ensures if ok then |calls| == |before| + |scc| && (calls != [] ==> outcome(|calls| - 1))
      else calls != [] && !outcome(|calls| - 1)
  {
    calls := before;
    for m := 0 to |scc|
      invariant |calls| == |before| + m && before <= calls
      invariant forall k :: 0 <= k < m ==> calls[|before| + k] == Call(scc[k], pull)
      invariant forall k :: 0 <= k < |calls| ==> outcome(k)
    {
      calls := calls + [Call(scc[m], pull)];
      if !outcome(|calls| - 1) {
        return calls, false;
      }
    }
    ok := true;
  }

  // The loop over the sorted components; outcome(k) tells whether advance number k succeeds.
  method FlushSorted(sorted: seq<seq<ObjectId>>, outcome: nat -> bool) returns (calls: seq<Call>, ok: bool)
    ensures Follows(calls, Schedule(sorted, {}), outcome, ok)
  {
    hide Schedule;
    calls := [];
    var pull := {};
    ghost var all := Schedule(sorted, {});
    var i := |sorted| - 1;
    assert sorted[..i + 1] == sorted;
    while i >= 0
      invariant -1 <= i < |sorted|
      invariant all == calls + Schedule(sorted[..i + 1], pull)
      invariant forall k :: 0 <= k < |calls| ==> outcome(k)
    {
      var scc := sorted[i];
      ghost var before, base, rest := calls, pull, Schedule(sorted[..i], pull + Members(scc));
      ScheduleStep(sorted, i, pull);
      if |scc| == 1 {
        pull := pull + {scc[0]};
      }
      ghost var part := CallsOf(scc, base);
      assert part == seq(|scc|, k requires 0 <= k < |scc| => Call(scc[k], pull));
      calls, ok := FlushComponent(scc, pull, calls, outcome);
      assert all == before + part + rest;
      if !ok {
        return;
      }
      assert calls == before + part;
      if |scc| > 1 {
        pull := pull + Members(scc);
      }
      assert pull == base + Members(scc);
      i := i - 1;
    }
    ok := true;
    ScheduleNothing(pull);
  }

  lemma ScheduleStep(sorted: seq<seq<ObjectId>>, i: nat, pull: set<ObjectId>)
    requires i < |sorted|
    ensures Schedule(sorted[..i + 1], pull) ==
      CallsOf(sorted[i], pull) + Schedule(sorted[..i], pull + Members(sorted[i]))
  {
    assert sorted[..i + 1][..i] == sorted[..i];
  }

  lemma ScheduleNothing(pull: set<ObjectId>)
    ensures Schedule([], pull) == []
  {
  }

  // What run does once recurse has loaded the queues and the goal is not done.
  method RunQueues(queue: Queues, seen: Seen, goal: ObjectId, outcome: nat -> bool)
    returns (calls: seq<Call>, ok: bool, successors: Graph, sorted: seq<seq<ObjectId>>)
    ensures IsQueueGraph(queue, seen, successors)
    ensures TxnRun.Free(successors, goal) ==> Follows(calls, [Call(goal, {goal})], outcome, ok)
    ensures !TxnRun.Free(successors, goal) ==>
      IsComponentSort(successors, sorted) && Follows(calls, Schedule(sorted, {}), outcome, ok)
  {
    hide IsQueueGraph, IsComponentSort, Schedule, TxnRun.Free;
    var ready;
    successors, ready := TxnRun.BuildSuccessors(queue, seen, goal);
    sorted := [];
    if ready {
      // A nil pull map stands for the goal alone.
      calls, ok := [Call(goal, {goal})], outcome(0);
    } else {
      QueueGraphClosed(queue, seen, successors);
      sorted := Tarjan.TarjanSort(successors);
      calls, ok := FlushSorted(sorted, outcome);
    }
  }

  // The goal alone is advanced exactly when no valid queue entry precedes one of its own.
  lemma ReadyMeansFirst(queue: Queues, seen: Seen, g: Graph, goal: ObjectId)
    requires IsQueueGraph(queue, seen, g)
    ensures TxnRun.Free(g, goal) <==>
      (forall d, i, j ::
        d in queue && 0 <= i < j < |queue[d]| && Valid(seen, queue[d][i]) && Valid(seen, queue[d][j]) ==>
          queue[d][j].id != goal)
  {
    NothingBefore(queue, seen, goal);
    assert TxnRun.Free(g, goal) <==> forall x :: !Linked(queue, seen, queue.Keys, x, goal);
  }

  // Every queue is honoured, also by a run cut short: when a transaction is advanced, each
  // valid entry before one of its own was advanced earlier or is in a cycle with it.
  lemma RunHonoursQueues(
      queue: Queues, seen: Seen, g: Graph, sorted: seq<seq<ObjectId>>, calls: seq<Call>, d: DocKey, i: nat,
      j: nat, q: nat)
    requires IsQueueGraph(queue, seen, g) && IsComponentSort(g, sorted) && calls <= Schedule(sorted, {})
    requires d in queue && i < j < |queue[d]| && Valid(seen, queue[d][i]) && Valid(seen, queue[d][j])
    requires q < |calls| && calls[q].id == queue[d][j].id
    ensures Mutual(g, queue[d][i].id, queue[d][j].id) || exists p :: 0 <= p < q && calls[p].id == queue[d][i].id
  {
    hide Reach, Linked, Edge;
    var x, y := queue[d][i].id, queue[d][j].id;
    var b, m := ScheduleFrom(sorted, {}, q);
    ScheduleAt(sorted, {}, b, m);
    assert Queued(queue, seen, queue.Keys, x);
    assert x in Emitted(sorted);
    var a := EmittedWhere(sorted, x);
    var k :| 0 <= k < |sorted[a]| && sorted[a][k] == x;
    QueueOrderHonoured(queue, seen, g, sorted, d, i, j, a, b);
    if b < a {
      ScheduleAt(sorted, {}, a, k);
      OffsetsFall(sorted, a, b);
      assert calls[Offset(sorted, a) + k].id == x;
    } else {
      assert y in g by { assert Queued(queue, seen, queue.Keys, y); }
    }
  }

  // An advance may only pull tokens of transactions advanced before it, or its own; the
  // members of a cycle are not pulled before the whole cycle has been advanced.
  lemma PullsOnlyAdvanced(g: Graph, sorted: seq<seq<ObjectId>>, q: nat, x: ObjectId)
    requires IsComponentSort(g, sorted) && q < |Schedule(sorted, {})|
    requires x in Schedule(sorted, {})[q].pull
    ensures exists p :: 0 <= p <= q && Schedule(sorted, {})[p].id == x
    ensures x == Schedule(sorted, {})[q].id || !Mutual(g, x, Schedule(sorted, {})[q].id)
  {
    hide Reach, Edge;
    var b, m := ScheduleFrom(sorted, {}, q);
    ScheduleAt(sorted, {}, b, m);
    if x != sorted[b][m] {
      var c := EmittedWhere(sorted[b + 1..], x);
      var a := b + 1 + c;
      assert x in sorted[a];
      var k :| 0 <= k < |sorted[a]| && sorted[a][k] == x;
      ScheduleAt(sorted, {}, a, k);
      OffsetsFall(sorted, a, b);
      assert x !in sorted[b];
      assert x in g && sorted[b][m] in g by { EmittedMember(sorted, a, x); EmittedMember(sorted, b, sorted[b][m]); }
    }
  }

  // The schedule advances member k of component a at this place.
  ghost predicate Calls(sorted: seq<seq<ObjectId>>, a: nat, k: nat, id: ObjectId)
    requires a < |sorted|
  {
    Offset(sorted, a) + k < |Schedule(sorted, {})| && Schedule(sorted, {})[Offset(sorted, a) + k].id == id
  }

  // Two runs over the same queues, whatever their map iteration orders, advance the members
  // of each cycle next to each other and in the same order.
  lemma CyclesAgree(
      queue: Queues, seen: Seen, g: Graph, h: Graph, sorted: seq<seq<ObjectId>>, other: seq<seq<ObjectId>>,
      a: nat) returns (b: nat)
    requires IsQueueGraph(queue, seen, g) && IsQueueGraph(queue, seen, h)
    requires IsComponentSort(g, sorted) && IsComponentSort(h, other) && a < |sorted|
    ensures b < |other| && other[b] == sorted[a]
    ensures forall k :: 0 <= k < |sorted[a]| ==> Calls(sorted, a, k, sorted[a][k]) && Calls(other, b, k, sorted[a][k])
  {
    hide IsComponentSort, IsQueueGraph, Schedule;
    QueueGraphsAgree(queue, seen, g, h);
    SortsAgree(g, h, sorted, other, a);
    b :| 0 <= b < |other| && other[b] == sorted[a];
    forall k | 0 <= k < |sorted[a]| ensures Calls(sorted, a, k, sorted[a][k]) && Calls(other, b, k, sorted[a][k]) {
      ScheduleAt(sorted, {}, a, k);
      ScheduleAt(other, {}, b, k);
    }
  }
}
