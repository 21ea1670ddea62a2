/** The queue-ordering half of flusher.run: the successor graph and the flush schedule. */
module TxnRun {
  import opened Graphs
  import opened TxnQueue

  // Some neighbour pair of q that starts before position n has these ids.
  ghost predicate LinkedBelow(q: seq<Token>, seen: Seen, n: nat, x: ObjectId, y: ObjectId) {
    exists i, j :: i < n && Neighbours(q, seen, i, j) && q[i].id == x && q[j].id == y
  }

  ghost predicate QueuedBelow(q: seq<Token>, seen: Seen, n: nat, x: ObjectId) {
    exists i :: 0 <= i < n && i < |q| && Valid(seen, q[i]) && q[i].id == x
  }

  // g covers the queues of done, and queue q up to position n.
  ghost predicate Building(queue: Queues, seen: Seen, done: set<DocKey>, q: seq<Token>, n: nat, g: Graph) {
    && (forall x, y :: Edge(g, x, y) <==> Linked(queue, seen, done, x, y) || LinkedBelow(q, seen, n, x, y))
    && (forall x :: x in g ==> Queued(queue, seen, done, x) || QueuedBelow(q, seen, |q|, x))
    && (forall x :: Queued(queue, seen, done, x) || QueuedBelow(q, seen, n, x) ==> x in g)
  }

  ghost predicate Built(queue: Queues, seen: Seen, done: set<DocKey>, g: Graph) {
    && (forall x, y :: Edge(g, x, y) <==> Linked(queue, seen, done, x, y))
    && (forall x :: x in g <==> Queued(queue, seen, done, x))
  }

  function WithNode(g: Graph, x: ObjectId): Graph {
    if x in g then g else g[x := []]
  }

  function WithEdge(g: Graph, x: ObjectId, y: ObjectId): Graph {
    if x !in g || y in g[x] then g else g[x := g[x] + [y]]
  }

  lemma WithNodeEdges(g: Graph, z: ObjectId, x: ObjectId, y: ObjectId)
    ensures Edge(WithNode(g, z), x, y) <==> Edge(g, x, y)
  {
  }

  lemma WithEdgeEdges(g: Graph, a: ObjectId, b: ObjectId, x: ObjectId, y: ObjectId)
    requires a in g
    ensures Edge(WithEdge(g, a, b), x, y) <==> Edge(g, x, y) || (x == a && y == b)
  {
  }

  ghost predicate Free(g: Graph, goal: ObjectId) {
    forall x :: !Edge(g, x, goal)
  }

  lemma WithNodeFree(g: Graph, z: ObjectId, goal: ObjectId)
    ensures Free(WithNode(g, z), goal) <==> Free(g, goal)
  {
    forall x ensures Edge(WithNode(g, z), x, goal) <==> Edge(g, x, goal) { WithNodeEdges(g, z, x, goal); }
  }

  lemma WithEdgeFree(g: Graph, a: ObjectId, b: ObjectId, goal: ObjectId)
    requires a in g
    ensures Free(WithEdge(g, a, b), goal) <==> Free(g, goal) && b != goal
    ensures b in g[a] ==> Free(g, goal) ==> b != goal
  {
    forall x ensures Edge(WithEdge(g, a, b), x, goal) <==> Edge(g, x, goal) || (x == a && b == goal) {
      WithEdgeEdges(g, a, b, x, goal);
    }
    assert Edge(WithEdge(g, a, b), a, b) by { WithEdgeEdges(g, a, b, a, b); }
    assert b in g[a] ==> Edge(g, a, b);
  }

  lemma StartQueue(queue: Queues, seen: Seen, done: set<DocKey>, q: seq<Token>, g: Graph)
    requires Built(queue, seen, done, g)
    ensures Building(queue, seen, done, q, 0, g)
  {
  }

  lemma AddNode(queue: Queues, seen: Seen, done: set<DocKey>, q: seq<Token>, n: nat, g: Graph, i: nat)
    requires Building(queue, seen, done, q, n, g) && i < |q| && Valid(seen, q[i])
    ensures Building(queue, seen, done, q, n, WithNode(g, q[i].id))
  {
    var h := WithNode(g, q[i].id);
    forall x, y ensures Edge(h, x, y) <==> Edge(g, x, y) { WithNodeEdges(g, q[i].id, x, y); }
    assert QueuedBelow(q, seen, |q|, q[i].id);
  }

  // Position i has no later valid neighbour, or is not valid itself.
  lemma SkipEntry(queue: Queues, seen: Seen, done: set<DocKey>, q: seq<Token>, i: nat, g: Graph)
    requires Building(queue, seen, done, q, i, g) && i < |q|
    requires !Valid(seen, q[i]) || (q[i].id in g && forall k :: i < k < |q| ==> !Valid(seen, q[k]))
    ensures Building(queue, seen, done, q, i + 1, g)
  {
    forall x, y ensures LinkedBelow(q, seen, i + 1, x, y) <==> LinkedBelow(q, seen, i, x, y) {
    }
    forall x | QueuedBelow(q, seen, i + 1, x) ensures x in g {
      var k :| 0 <= k < i + 1 && k < |q| && Valid(seen, q[k]) && q[k].id == x;
      assert k < i ==> QueuedBelow(q, seen, i, x);
    }
  }

  // The next valid entry after i is j.
  lemma LinkEntry(queue: Queues, seen: Seen, done: set<DocKey>, q: seq<Token>, i: nat, j: nat, g: Graph)
    requires Building(queue, seen, done, q, i, g) && Neighbours(q, seen, i, j) && q[i].id in g
    ensures Building(queue, seen, done, q, j, WithEdge(g, q[i].id, q[j].id))
  {
    var x0, y0 := q[i].id, q[j].id;
    var h := WithEdge(g, x0, y0);
    forall x, y ensures LinkedBelow(q, seen, j, x, y) <==> LinkedBelow(q, seen, i, x, y) || (x == x0 && y == y0) {
      LinkedStep(q, seen, i, j, x, y);
    }
    forall x, y ensures Edge(h, x, y) <==> Edge(g, x, y) || (x == x0 && y == y0) {
      WithEdgeEdges(g, x0, y0, x, y);
    }
    forall x | QueuedBelow(q, seen, j, x) ensures x in h {
      var k :| 0 <= k < j && k < |q| && Valid(seen, q[k]) && q[k].id == x;
      assert k < i ==> QueuedBelow(q, seen, i, x);
      assert k <= i;
    }
  }

  lemma LinkedStep(q: seq<Token>, seen: Seen, i: nat, j: nat, x: ObjectId, y: ObjectId)
    requires Neighbours(q, seen, i, j)
    ensures LinkedBelow(q, seen, j, x, y) <==> LinkedBelow(q, seen, i, x, y) || (x == q[i].id && y == q[j].id)
  {
    if LinkedBelow(q, seen, j, x, y) && !LinkedBelow(q, seen, i, x, y) {
      var a, b :| a < j && Neighbours(q, seen, a, b) && q[a].id == x && q[b].id == y;
      assert a == i && b == j;
    }
  }

  lemma FinishQueue(queue: Queues, seen: Seen, done: set<DocKey>, d: DocKey, g: Graph)
    requires d in queue && Building(queue, seen, done, queue[d], |queue[d]|, g)
    ensures Built(queue, seen, done + {d}, g)
  {
    var q, all := queue[d], done + {d};
    forall x, y
      ensures Linked(queue, seen, all, x, y) <==> Linked(queue, seen, done, x, y) || LinkedBelow(q, seen, |q|, x, y) {
      if LinkedBelow(q, seen, |q|, x, y) {
        var i, j :| i < |q| && Neighbours(q, seen, i, j) && q[i].id == x && q[j].id == y;
        assert Neighbours(queue[d], seen, i, j) && queue[d][i].id == x && queue[d][j].id == y;
      }
    }
    forall x ensures Queued(queue, seen, all, x) <==> Queued(queue, seen, done, x) || QueuedBelow(q, seen, |q|, x) {
    }
  }

  lemma SomeKey(s: set<DocKey>)
    ensures s == {} || exists d :: d in s
  {
    if forall d :: d !in s {
      assert s == {};
    }
  }

  // The first valid entry after position i, or the end of the queue.
  method NextValid(q: seq<Token>, seen: Seen, i: nat) returns (j: nat)
    requires i < |q| && Valid(seen, q[i])
    ensures i < j <= |q|
    ensures if j < |q| then Neighbours(q, seen, i, j) else forall k :: i < k < |q| ==> !Valid(seen, q[k])
  {
    j := i + 1;
    while j < |q| && !Valid(seen, q[j])
      invariant i < j <= |q| && forall k :: i < k < j ==> !Valid(seen, q[k])
    {
      j := j + 1;
    }
  }

  // A node without successors is entered the first time its transaction is met.
  method EnterNode(successors: Graph, x: ObjectId) returns (g: Graph)
    ensures g == WithNode(successors, x)
  {
    g := successors;
    if x !in g {
      g := g[x := []];
    }
  }

  // Links two neighbours unless they are linked already.
  method EnterEdge(successors: Graph, pred: ObjectId, succ: ObjectId) returns (g: Graph, added: bool)
    requires pred in successors
    ensures g == WithEdge(successors, pred, succ) && added == (succ !in successors[pred])
  {
    g := successors;
    var predsuccids := successors[pred];
    added := succ !in predsuccids;
    if added {
      g := g[pred := predsuccids + [succ]];
    }
  }

  // Builds the successor graph; ready tells that nothing valid precedes the goal.
  method BuildSuccessors(queue: Queues, seen: Seen, goal: ObjectId) returns (successors: Graph, ready: bool)
    ensures IsQueueGraph(queue, seen, successors)
    ensures ready <==> Free(successors, goal)
  {
    hide Built, Building, Free, Valid, Neighbours, IsQueueGraph;
    successors := map[];
    ready := true;
    var todo := queue.Keys;
    NothingBuilt(queue, seen, goal);
    while todo != {}
      invariant todo <= queue.Keys && Built(queue, seen, queue.Keys - todo, successors)
      invariant ready <==> Free(successors, goal)
      decreases |todo|
    {
      SomeKey(todo);
      var d :| d in todo;
      ghost var done := queue.Keys - todo;
      successors, ready := EnterQueue(queue, seen, goal, queue[d], successors, ready, done);
      FinishQueue(queue, seen, done, d, successors);
      todo := todo - {d};
      assert done + {d} == queue.Keys - todo;
    }
    assert queue.Keys - todo == queue.Keys;
    AllBuilt(queue, seen, successors);
  }

  // The inner loops, over one document's queue.
  method EnterQueue(
      queue: Queues, seen: Seen, goal: ObjectId, dqueue: seq<Token>, successors0: Graph,
      ready0: bool, ghost done: set<DocKey>)
    returns (successors: Graph, ready: bool)
    requires Built(queue, seen, done, successors0) && (ready0 <==> Free(successors0, goal))
    ensures Building(queue, seen, done, dqueue, |dqueue|, successors) && (ready <==> Free(successors, goal))
  {
    hide Built, Building, Free, Valid, Neighbours, WithEdge;
    successors, ready := successors0, ready0;
    StartQueue(queue, seen, done, dqueue, successors);
    var i: nat := 0;
    while i < |dqueue|
      invariant i <= |dqueue| && Building(queue, seen, done, dqueue, i, successors)
      invariant ready <==> Free(successors, goal)
    {
      var pred := dqueue[i];
      if !Valid(seen, pred) {
        SkipEntry(queue, seen, done, dqueue, i, successors);
        i := i + 1;
        continue;
      }
      AddNode(queue, seen, done, dqueue, i, successors, i);
      WithNodeFree(successors, pred.id, goal);
      successors := EnterNode(successors, pred.id);
      var j := NextValid(dqueue, seen, i);
      if j < |dqueue| {
        var succ := dqueue[j];
        AddNode(queue, seen, done, dqueue, i, successors, j);
        WithNodeFree(successors, succ.id, goal);
        successors := EnterNode(successors, succ.id);
        LinkEntry(queue, seen, done, dqueue, i, j, successors);
        WithEdgeFree(successors, pred.id, succ.id, goal);
        var added;
        successors, added := EnterEdge(successors, pred.id, succ.id);
        if added && succ.id == goal {
          ready := false;
        }
        i := j;
      } else {
        SkipEntry(queue, seen, done, dqueue, i, successors);
        i := i + 1;
      }
    }
  }

  lemma NothingBuilt(queue: Queues, seen: Seen, goal: ObjectId)
    ensures Built(queue, seen, queue.Keys - queue.Keys, map[]) && Free(map[], goal)
  {
  }

  lemma AllBuilt(queue: Queues, seen: Seen, g: Graph)
    requires Built(queue, seen, queue.Keys, g)
    ensures IsQueueGraph(queue, seen, g)
  {
  }
}
