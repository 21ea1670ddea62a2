/** The prerequisite search of the flusher, with queues and advance verdicts held fixed. */
module TxnRecurse {
  import opened Graphs
  import opened TxnQueue

  // What advance answers for a transaction when not forced.
  datatype Verdict = Finished | PreReqs | Failed

  const PRELOAD_BATCH_SIZE := 100

  function Flatten(docs: seq<DocKey>, queue: map<DocKey, seq<ObjectId>>): seq<ObjectId> {
    if docs == [] then [] else QueueOf(queue, docs[0]) + Flatten(docs[1..], queue)
  }

  // A missing queue reads as an empty one.
  function QueueOf(queue: map<DocKey, seq<ObjectId>>, d: DocKey): seq<ObjectId> {
    if d in queue then queue[d] else []
  }

  lemma {:induction false} FlattenHas(docs: seq<DocKey>, queue: map<DocKey, seq<ObjectId>>, y: ObjectId)
    ensures y in Flatten(docs, queue) <==> exists k :: 0 <= k < |docs| && y in QueueOf(queue, docs[k])
  {
    if docs != [] {
      FlattenHas(docs[1..], queue, y);
      if y in Flatten(docs[1..], queue) {
        var k :| 0 <= k < |docs[1..]| && y in QueueOf(queue, docs[1..][k]);
        assert docs[k + 1] == docs[1..][k];
      }
      if k :| 0 <= k < |docs| && y in QueueOf(queue, docs[k]) {
        assert k > 0 ==> docs[1..][k - 1] == docs[k];
      }
    }
  }

  // The bookkeeping of a search: visited once each, and only stored ids are held.
  ghost predicate Consistent(
      stored: set<ObjectId>, seen: set<ObjectId>, preloaded: set<ObjectId>, visits: seq<ObjectId>) {
    && preloaded <= stored && seen <= stored
    && (forall x :: x in visits <==> x in seen)
    && (forall i, j :: 0 <= i < j < |visits| ==> visits[i] != visits[j])
  }

  // Everything the nodes visited since seen0 wait for is visited
  // or among the pending ids.
  ghost predicate Covered(g: Graph, seen0: set<ObjectId>, seen: set<ObjectId>, pending: set<ObjectId>) {
    forall x, y :: x in seen && x !in seen0 && Edge(g, x, y) ==> y in seen || y in pending
  }

  // Everything visited since seen0 is reached from t.
  ghost predicate Justified(g: Graph, t: ObjectId, seen0: set<ObjectId>, seen: set<ObjectId>) {
    forall x :: x in seen && x !in seen0 ==> Reach(g, t, x)
  }

  lemma JustifiedMore(
      g: Graph, t: ObjectId, id: ObjectId, seen0: set<ObjectId>, seen1: set<ObjectId>, seen: set<ObjectId>)
    requires Justified(g, t, seen0, seen1) && Justified(g, id, seen1, seen) && Edge(g, t, id)
    ensures Justified(g, t, seen0, seen)
  {
    forall x | x in seen && x !in seen1 ensures Reach(g, t, x) {
      ReachEdge(g, t, id);
      ReachTrans(g, t, id, x);
    }
  }

  lemma JustifiedStart(g: Graph, t: ObjectId, seen0: set<ObjectId>)
    ensures Justified(g, t, seen0, seen0 + {t})
  {
    ReachRefl(g, t);
  }

  lemma VisitConsistent(
      stored: set<ObjectId>, seen: set<ObjectId>, preloaded: set<ObjectId>, visits: seq<ObjectId>, t: ObjectId)
    requires Consistent(stored, seen, preloaded, visits) && t in stored && t !in seen
    ensures Consistent(stored, seen + {t}, preloaded - {t}, visits + [t])
  {
    assert forall i :: 0 <= i < |visits| ==> visits[i] in seen by {
      forall i | 0 <= i < |visits| ensures visits[i] in seen { assert visits[i] in visits; }
    }
  }

  lemma PreloadConsistent(
      stored: set<ObjectId>, seen: set<ObjectId>, preloaded: set<ObjectId>, visits: seq<ObjectId>, more: set<ObjectId>)
    requires Consistent(stored, seen, preloaded, visits) && more <= stored
    ensures Consistent(stored, seen, preloaded + more, visits)
  {
  }

  // Coverage over two stretches of the search, with the nodes of the second covered up to
  // what was preloaded when it began.
  lemma CoveredMore(
      g: Graph, seen0: set<ObjectId>, seen1: set<ObjectId>, seen: set<ObjectId>, pending: set<ObjectId>,
      preloaded: set<ObjectId>)
    requires seen1 <= seen && Covered(g, seen0, seen1, pending) && Covered(g, seen1, seen, preloaded)
    requires preloaded <= pending + seen
    ensures Covered(g, seen0, seen, pending)
  {
  }

  lemma CoveredWider(g: Graph, seen0: set<ObjectId>, seen: set<ObjectId>, pending: set<ObjectId>, wider: set<ObjectId>)
    requires Covered(g, seen0, seen, pending) && pending <= wider + seen
    ensures Covered(g, seen0, seen, wider)
  {
  }

  // Once t's own queues are dealt with, t is covered too.
  lemma CoveredWithNode(g: Graph, t: ObjectId, seen0: set<ObjectId>, seen: set<ObjectId>, pending: set<ObjectId>)
    requires Covered(g, seen0 + {t}, seen, pending)
    requires forall y :: Edge(g, t, y) ==> y in seen || y in pending
    ensures Covered(g, seen0, seen, pending)
  {
  }

  // No visited transaction failed.
  predicate Clean(verdict: ObjectId -> Verdict, visits: seq<ObjectId>) {
    forall k :: 0 <= k < |visits| ==> verdict(visits[k]) != Failed
  }

  // Where a search ends that fails: at the first transaction that failed, or at an id without a
  // record on which one that was visited waits.
  ghost predicate Stopped(
      g: Graph, verdict: ObjectId -> Verdict, stored: set<ObjectId>, visits: seq<ObjectId>) {
    || (visits != [] && verdict(visits[|visits| - 1]) == Failed && Clean(verdict, visits[..|visits| - 1]))
    || (Clean(verdict, visits) && exists x, y :: x in visits && y !in stored && Edge(g, x, y))
  }

  lemma CleanVisit(verdict: ObjectId -> Verdict, visits: seq<ObjectId>, t: ObjectId)
    requires Clean(verdict, visits)
    ensures verdict(t) != Failed ==> Clean(verdict, visits + [t])
  {
  }

  lemma StoppedAtFailed(
      g: Graph, verdict: ObjectId -> Verdict, stored: set<ObjectId>, visits: seq<ObjectId>, t: ObjectId)
    requires Clean(verdict, visits) && verdict(t) == Failed
    ensures Stopped(g, verdict, stored, visits + [t])
  {
    assert (visits + [t])[..|visits|] == visits;
  }

  lemma StoppedAtMissing(
      g: Graph, verdict: ObjectId -> Verdict, stored: set<ObjectId>, visits: seq<ObjectId>, t: ObjectId, id: ObjectId)
    requires Clean(verdict, visits) && t in visits && id !in stored && Edge(g, t, id)
    ensures Stopped(g, verdict, stored, visits)
  {
  }

  lemma VisitedIsSeen(
      stored: set<ObjectId>, seen: set<ObjectId>, preloaded: set<ObjectId>, visits: seq<ObjectId>, t: ObjectId)
    requires Consistent(stored, seen, preloaded, visits)
    ensures t in visits <==> t in seen
  {
  }

  function Members(s: seq<ObjectId>): set<ObjectId> {
    set x | x in s
  }

  class Search {
    const queue: map<DocKey, seq<ObjectId>>
    const docKeys: ObjectId -> seq<DocKey>
    const verdict: ObjectId -> Verdict
    // The ids of the stored transaction records.
    const stored: set<ObjectId>
    var seen: set<ObjectId>
    var preloaded: set<ObjectId>
    // The advance calls made so far, and who waits for whom.
    ghost var visits: seq<ObjectId>
    // The queries for batches of records, and the ids loaded one by one.
    ghost var queries: seq<seq<ObjectId>>
    ghost var loads: seq<ObjectId>
    ghost const waits: Graph

    constructor (
        queue: map<DocKey, seq<ObjectId>>, docKeys: ObjectId -> seq<DocKey>, verdict: ObjectId -> Verdict,
          stored: set<ObjectId>)
      ensures this.queue == queue && this.docKeys == docKeys && this.verdict == verdict && this.stored == stored
      ensures seen == {} && preloaded == {} && visits == [] && queries == [] && loads == [] &&
        waits == Waits(queue, docKeys, verdict, stored)
    {
      this.queue, this.docKeys, this.verdict, this.stored := queue, docKeys, verdict, stored;
      seen, preloaded, visits, queries, loads := {}, {}, [], [], [];
      waits := Waits(queue, docKeys, verdict, stored);
    }

    // An inner search may leave out ids that were preloaded when it began: some outer frame
    // holds them in its batch. What it preloads itself it also visits.
    method Recurse(t: ObjectId) returns (ok: bool)
      requires waits == Waits(queue, docKeys, verdict, stored)
      requires Consistent(stored, seen, preloaded, visits) && t in stored && t !in seen
      requires Clean(verdict, visits) && Fit(queries)
      modifies this
      ensures Consistent(stored, seen, preloaded, visits)
      ensures old(seen) <= seen && t in seen && old(visits) <= visits
      ensures Justified(waits, t, old(seen), seen)
      ensures ok ==> Covered(waits, old(seen), seen, old(preloaded)) && preloaded <= old(preloaded) + seen
      ensures if ok then Clean(verdict, visits) else Stopped(waits, verdict, stored, visits)
      ensures Fit(queries) && (ok ==> loads == old(loads)) && HeldOrSeen(old(preloaded), preloaded, seen)
      decreases stored - seen, 0
    {
      hide Consistent, Covered, Justified, Waits;
      ghost var seen0, pending := seen, preloaded;
      VisitConsistent(stored, seen, preloaded, visits, t);
      JustifiedStart(waits, t, seen);
      seen := seen + {t};
      preloaded := preloaded - {t};
      CleanVisit(verdict, visits, t);
      if verdict(t) == Failed {
        StoppedAtFailed(waits, verdict, stored, visits, t);
      }
      visits := visits + [t];
      NothingCovered(waits, seen, pending);
      var v := verdict(t);
      if v != PreReqs {
        LeafCovered(queue, docKeys, verdict, stored, t, seen0, seen, pending);
        return v == Finished;
      }
      var docs := docKeys(t);
      for k := 0 to |docs|
        invariant Consistent(stored, seen, preloaded, visits)
        invariant seen0 + {t} <= seen && old(visits) <= visits
        invariant Justified(waits, t, seen0, seen)
        invariant Covered(waits, seen0 + {t}, seen, pending) && preloaded <= pending + seen
        invariant forall j, y :: 0 <= j < k && y in QueueOf(queue, docs[j]) ==> y in seen || y in pending
        invariant Clean(verdict, visits) && Fit(queries) && loads == old(loads) && HeldOrSeen(pending, preloaded, seen)
      {
        WaitsFor(queue, docKeys, verdict, stored, t, k);
        ok := LoadQueue(t, docs[k], seen0, pending);
        if !ok {
          return;
        }
      }
      WaitsOnly(queue, docKeys, verdict, stored, t);
      CoveredWithNode(waits, t, seen0, seen, pending);
      ok := true;
    }

    // One document of t: the queued ids neither seen nor preloaded, in batches.
    method LoadQueue(
        t: ObjectId, d: DocKey, ghost seen0: set<ObjectId>, ghost pending: set<ObjectId>) returns (ok: bool)
      requires waits == Waits(queue, docKeys, verdict, stored)
      requires Consistent(stored, seen, preloaded, visits) && t in stored
      requires seen0 + {t} <= seen && Justified(waits, t, seen0, seen)
      requires Clean(verdict, visits) && Fit(queries)
      requires Covered(waits, seen0 + {t}, seen, pending) && preloaded <= pending + seen
      requires forall y :: y in QueueOf(queue, d) ==> Edge(waits, t, y)
      modifies this
      ensures Consistent(stored, seen, preloaded, visits)
      ensures old(seen) <= seen && old(visits) <= visits && Justified(waits, t, seen0, seen)
      ensures ok ==> Covered(waits, seen0 + {t}, seen, pending) && preloaded <= pending + seen
      ensures ok ==> forall y :: y in QueueOf(queue, d) ==> y in seen || y in pending
      ensures if ok then Clean(verdict, visits) else Stopped(waits, verdict, stored, visits)
      ensures Fit(queries) && (ok ==> loads == old(loads)) && HeldOrSeen(old(preloaded), preloaded, seen)
      decreases stored - seen, 2
    {
      hide Consistent, Covered, Justified, Waits;
      var q := QueueOf(queue, d);
      var remaining: seq<ObjectId> := [];
      var toPreload: set<ObjectId> := {};
      for i := 0 to |q|
        invariant forall y :: y in toPreload <==> y in remaining
        invariant forall y :: y in remaining ==> y in q
        invariant forall j :: 0 <= j < i ==> q[j] in seen || q[j] in preloaded || q[j] in remaining
      {
        if q[i] in seen || q[i] in toPreload || q[i] in preloaded {
          continue;
        }
        toPreload := toPreload + {q[i]};
        remaining := remaining + [q[i]];
      }
      ghost var all := remaining;
      while |remaining| > 0
        invariant Consistent(stored, seen, preloaded, visits)
        invariant old(seen) <= seen && old(visits) <= visits && Justified(waits, t, seen0, seen)
        invariant Covered(waits, seen0 + {t}, seen, pending) && preloaded <= pending + seen
        invariant forall y :: y in all ==> y in seen || y in remaining
        invariant forall y :: y in remaining ==> y in q
        invariant forall y :: y in q ==> y in seen || y in pending || y in remaining
        invariant Clean(verdict, visits) && Fit(queries) && loads == old(loads)
        invariant HeldOrSeen(old(preloaded), preloaded, seen)
        decreases |remaining|
      {
        var batch := remaining;
        if |batch| > PRELOAD_BATCH_SIZE {
          batch := remaining[..PRELOAD_BATCH_SIZE];
        }
        remaining := remaining[|batch|..];
        ok := LoadBatch(t, batch, seen0, pending);
        if !ok {
          return;
        }
      }
      ok := true;
    }

    // Preloads a batch with one query, then searches what is still unseen of it.
    method LoadBatch(
        t: ObjectId, batch: seq<ObjectId>, ghost seen0: set<ObjectId>, ghost pending: set<ObjectId>)
      returns (ok: bool)
      requires waits == Waits(queue, docKeys, verdict, stored)
      requires Consistent(stored, seen, preloaded, visits) && t in stored
      requires seen0 + {t} <= seen && Justified(waits, t, seen0, seen)
      requires Clean(verdict, visits) && Fit(queries)
      requires Covered(waits, seen0 + {t}, seen, pending) && preloaded <= pending + seen
      requires forall y :: y in batch ==> Edge(waits, t, y)
      requires 0 < |batch| <= 100
      modifies this
      ensures Consistent(stored, seen, preloaded, visits)
      ensures old(seen) <= seen && old(visits) <= visits && Justified(waits, t, seen0, seen)
      ensures ok ==> Covered(waits, seen0 + {t}, seen, pending) && preloaded <= pending + seen
      ensures ok ==> forall y :: y in batch ==> y in seen
      ensures if ok then Clean(verdict, visits) else Stopped(waits, verdict, stored, visits)
      ensures Fit(queries) && (ok ==> loads == old(loads)) && HeldOrSeen(old(preloaded), preloaded, seen)
      decreases stored - seen, 1
    {
      hide Consistent, Covered, Justified, Waits;
      ghost var held := pending + Members(batch);
      PreloadConsistent(stored, seen, preloaded, visits, Members(batch) * stored);
      CoveredWider(waits, seen0 + {t}, seen, pending, held);
      queries := queries + [batch];
      preloaded := preloaded + Members(batch) * stored;
      for i := 0 to |batch|
        invariant Consistent(stored, seen, preloaded, visits)
        invariant old(seen) <= seen && old(visits) <= visits && Justified(waits, t, seen0, seen)
        invariant Covered(waits, seen0 + {t}, seen, held) && preloaded <= held + seen
        invariant forall j :: 0 <= j < i ==> batch[j] in seen
        invariant Clean(verdict, visits) && Fit(queries) && loads == old(loads)
        invariant HeldOrSeen(old(preloaded) + Members(batch) * stored, preloaded, seen)
      {
        var id := batch[i];
        HeldWhole(old(preloaded), Members(batch) * stored, preloaded, seen);
        if id in seen {
          continue;
        }
        // Not preloaded means that the batch query did not find it, nor will a load.
        InBatch(batch, i, stored, preloaded, seen);
        if id !in preloaded {
          loads := loads + [id];
          if id !in stored {
            VisitedIsSeen(stored, seen, preloaded, visits, t);
            StoppedAtMissing(waits, verdict, stored, visits, t, id);
            return false;
          }
        }
        PreloadedStored(stored, seen, preloaded, visits);
        ghost var seen1, preloaded1 := seen, preloaded;
        ok := Recurse(id);
        JustifiedMore(waits, t, id, seen0, seen1, seen);
        if !ok {
          return;
        }
        CoveredMore(waits, seen0 + {t}, seen1, seen, held, preloaded1);
      }
      CoveredWider(waits, seen0 + {t}, seen, held, pending);
      ok := true;
    }
  }

  // No query asks for nothing or for more than a hundred records.
  predicate Fit(queries: seq<seq<ObjectId>>) {
    forall k :: 0 <= k < |queries| ==> 0 < |queries[k]| <= 100
  }

  // A record once preloaded is held until it is visited.
  predicate HeldOrSeen(before: set<ObjectId>, preloaded: set<ObjectId>, seen: set<ObjectId>) {
    forall x :: x in before ==> x in preloaded || x in seen
  }

  lemma PreloadedStored(stored: set<ObjectId>, seen: set<ObjectId>, preloaded: set<ObjectId>, visits: seq<ObjectId>)
    requires Consistent(stored, seen, preloaded, visits)
    ensures preloaded <= stored
  {
  }

  // A stored transaction with prerequisites waits for every id queued on its documents.
  ghost function Waits(
      queue: map<DocKey, seq<ObjectId>>, docKeys: ObjectId -> seq<DocKey>, verdict: ObjectId -> Verdict,
      stored: set<ObjectId>): Graph {
    map x | x in stored :: if verdict(x) == PreReqs then Flatten(docKeys(x), queue) else []
  }

  lemma NothingCovered(g: Graph, seen: set<ObjectId>, pending: set<ObjectId>)
    ensures Covered(g, seen, seen, pending)
  {
  }

  lemma LeafCovered(
      queue: map<DocKey, seq<ObjectId>>, docKeys: ObjectId -> seq<DocKey>, verdict: ObjectId -> Verdict,
      stored: set<ObjectId>,
                    t: ObjectId, seen0: set<ObjectId>, seen: set<ObjectId>, pending: set<ObjectId>)
    requires verdict(t) != PreReqs && seen == seen0 + {t}
    ensures Covered(Waits(queue, docKeys, verdict, stored), seen0, seen, pending)
  {
  }

  lemma WaitsFor(
      queue: map<DocKey, seq<ObjectId>>, docKeys: ObjectId -> seq<DocKey>, verdict: ObjectId -> Verdict,
      stored: set<ObjectId>,
                 t: ObjectId, k: nat)
    requires t in stored && verdict(t) == PreReqs && k < |docKeys(t)|
    ensures forall y :: y in QueueOf(queue, docKeys(t)[k]) ==> Edge(Waits(queue, docKeys, verdict, stored), t, y)
  {
    forall y | y in QueueOf(queue, docKeys(t)[k]) ensures y in Flatten(docKeys(t), queue) {
      FlattenHas(docKeys(t), queue, y);
    }
  }

  lemma WaitsOnly(
      queue: map<DocKey, seq<ObjectId>>, docKeys: ObjectId -> seq<DocKey>, verdict: ObjectId -> Verdict,
      stored: set<ObjectId>, t: ObjectId)
    requires t in stored && verdict(t) == PreReqs
    ensures forall y :: Edge(Waits(queue, docKeys, verdict, stored), t, y) ==>
      exists k :: 0 <= k < |docKeys(t)| && y in QueueOf(queue, docKeys(t)[k])
  {
    forall y | y in Flatten(docKeys(t), queue)
      ensures exists k :: 0 <= k < |docKeys(t)| && y in QueueOf(queue, docKeys(t)[k]) {
      FlattenHas(docKeys(t), queue, y);
    }
  }

  lemma SeenAreVisits(stored: set<ObjectId>, seen: set<ObjectId>, preloaded: set<ObjectId>, visits: seq<ObjectId>)
    requires Consistent(stored, seen, preloaded, visits)
    ensures seen == Members(visits)
  {
    forall x ensures x in seen <==> x in Members(visits) {
      assert x in visits <==> x in seen;
    }
  }

  // The outermost call: every transaction is visited at most once, only those reachable
  // through the queues of waiting ones, and all of these if it succeeds.
  method SearchPrerequisites(
      queue: map<DocKey, seq<ObjectId>>, docKeys: ObjectId -> seq<DocKey>, verdict: ObjectId -> Verdict,
      stored: set<ObjectId>, goal: ObjectId)
    returns (ok: bool, seen: set<ObjectId>, ghost visits: seq<ObjectId>)
    requires goal in stored
    ensures goal in seen && forall x :: x in seen ==> Reach(Waits(queue, docKeys, verdict, stored), goal, x)
    ensures ok <==> forall x :: Reach(Waits(queue, docKeys, verdict, stored), goal, x) ==>
      x in stored && verdict(x) != Failed
    ensures ok ==> forall x :: Reach(Waits(queue, docKeys, verdict, stored), goal, x) ==> x in seen
    ensures !ok ==> Stopped(Waits(queue, docKeys, verdict, stored), verdict, stored, visits)
    ensures seen == Members(visits) && forall i, j :: 0 <= i < j < |visits| ==> visits[i] != visits[j]
  {
    hide Waits, Reach;
    var search := new Search(queue, docKeys, verdict, stored);
    ok := search.Recurse(goal);
    visits := search.visits;
    seen := search.seen;
    SeenAreVisits(stored, seen, search.preloaded, visits);
    SeenStored(stored, seen, search.preloaded, visits);
    if !ok {
      StoppedIsReached(search.waits, verdict, stored, visits, goal);
    } else {
      forall x | Reach(search.waits, goal, x) ensures x in search.seen {
        ReachStaysIn(search.waits, search.seen, goal, x);
      }
    }
  }

  lemma InBatch(batch: seq<ObjectId>, i: nat, stored: set<ObjectId>, preloaded: set<ObjectId>, seen: set<ObjectId>)
    requires i < |batch| && batch[i] !in seen
    ensures HeldOrSeen(Members(batch) * stored, preloaded, seen) && batch[i] in stored ==> batch[i] in preloaded
  {
    var id := batch[i];
    assert id in batch;
    assert id in Members(batch);
    if id in stored && HeldOrSeen(Members(batch) * stored, preloaded, seen) {
      assert id in Members(batch) * stored;
    }
  }

  lemma HeldWhole(a: set<ObjectId>, b: set<ObjectId>, preloaded: set<ObjectId>, seen: set<ObjectId>)
    ensures HeldOrSeen(a + b, preloaded, seen) ==>
      HeldOrSeen(a, preloaded, seen) && HeldOrSeen(b, preloaded, seen)
  {
  }

  lemma SeenStored(stored: set<ObjectId>, seen: set<ObjectId>, preloaded: set<ObjectId>, visits: seq<ObjectId>)
    requires Consistent(stored, seen, preloaded, visits)
    ensures seen <= stored
  {
  }

  // What stops a search is reached from the goal.
  lemma StoppedIsReached(
      g: Graph, verdict: ObjectId -> Verdict, stored: set<ObjectId>, visits: seq<ObjectId>, goal: ObjectId)
    requires Stopped(g, verdict, stored, visits) && forall x :: x in visits ==> Reach(g, goal, x)
    ensures exists x :: Reach(g, goal, x) && (x !in stored || verdict(x) == Failed)
  {
    hide Reach;
    if Clean(verdict, visits) {
      var x, y :| x in visits && y !in stored && Edge(g, x, y);
      ReachEdge(g, x, y);
      ReachTrans(g, goal, x, y);
    } else {
      var x := visits[|visits| - 1];
      assert x in visits && Reach(g, goal, x) && verdict(x) == Failed;
    }
  }
}
