/** Tokens, document queues and the graph of what must run before what. */
module TxnQueue {
  import opened Graphs
  import opened Components

  datatype DocKey = DocKey(c: string, id: string)

  // A queue entry: the hexadecimal transaction id and a nonce, joined.
  datatype Token = Token(id: ObjectId, nonce: string)

  type Queues = map<DocKey, seq<Token>>

  // The nonces of the transactions loaded so far.
  type Seen = map<ObjectId, string>

  // The entry belongs to a loaded transaction that settled on this very nonce.
  predicate Valid(seen: Seen, t: Token) {
    t.id in seen && seen[t.id] == t.nonce
  }

  // Entries i and j are valid and no valid entry lies between them.
  ghost predicate Neighbours(q: seq<Token>, seen: Seen, i: int, j: int) {
    && 0 <= i < j < |q| && Valid(seen, q[i]) && Valid(seen, q[j])
    && (forall k :: i < k < j ==> !Valid(seen, q[k]))
  }

  // x is directly before y, counting valid entries only, in a queue of docs.
  ghost predicate Linked(queue: Queues, seen: Seen, docs: set<DocKey>, x: ObjectId, y: ObjectId) {
    exists d, i, j :: d in docs && d in queue && Neighbours(queue[d], seen, i, j) && queue[d][i].id == x &&
      queue[d][j].id == y
  }

  ghost predicate Queued(queue: Queues, seen: Seen, docs: set<DocKey>, x: ObjectId) {
    exists d, i :: d in docs && d in queue && 0 <= i < |queue[d]| && Valid(seen, queue[d][i]) && queue[d][i].id == x
  }

  // The graph has the valid ids as nodes and the links between neighbours as edges.
  ghost predicate IsQueueGraph(queue: Queues, seen: Seen, g: Graph) {
    && (forall x :: x in g <==> Queued(queue, seen, queue.Keys, x))
    && (forall x, y :: Edge(g, x, y) <==> Linked(queue, seen, queue.Keys, x, y))
  }

  // Although only neighbours are linked, every valid entry reaches all later valid ones.
  lemma {:induction false} LaterIsReachable(queue: Queues, seen: Seen, g: Graph, d: DocKey, i: nat, j: nat)
    requires IsQueueGraph(queue, seen, g) && d in queue && i < j < |queue[d]|
    requires Valid(seen, queue[d][i]) && Valid(seen, queue[d][j])
    ensures Reach(g, queue[d][i].id, queue[d][j].id)
    decreases j - i
  {
    var q := queue[d];
    if k :| i < k < j && Valid(seen, q[k]) {
      LaterIsReachable(queue, seen, g, d, i, k);
      LaterIsReachable(queue, seen, g, d, k, j);
      ReachTrans(g, q[i].id, q[k].id, q[j].id);
    } else {
      assert Neighbours(q, seen, i, j);
      assert Edge(g, q[i].id, q[j].id);
      ReachEdge(g, q[i].id, q[j].id);
    }
  }

  lemma QueueGraphClosed(queue: Queues, seen: Seen, g: Graph)
    requires IsQueueGraph(queue, seen, g)
    ensures Closed(g)
  {
    forall x, y | Edge(g, x, y) ensures y in g {
      var d, i, j :| d in queue.Keys && d in queue && Neighbours(queue[d], seen, i, j) && queue[d][i].id == x &&
        queue[d][j].id == y;
      assert Queued(queue, seen, queue.Keys, y);
    }
  }

  // Queue order is honoured: of two valid entries the earlier one's component is emitted
  // no earlier, so reading the sort backwards runs it first or within the same cycle.
  lemma QueueOrderHonoured(
      queue: Queues, seen: Seen, g: Graph, out: seq<seq<ObjectId>>, d: DocKey, i: nat, j: nat, a: nat, b: nat)
    requires IsQueueGraph(queue, seen, g) && IsComponentSort(g, out)
    requires d in queue && i < j < |queue[d]| && Valid(seen, queue[d][i]) && Valid(seen, queue[d][j])
    requires a < |out| && b < |out| && queue[d][i].id in out[a] && queue[d][j].id in out[b]
    ensures b <= a
  {
    LaterIsReachable(queue, seen, g, d, i, j);
  }

  lemma QueueGraphsAgree(queue: Queues, seen: Seen, g: Graph, h: Graph)
    requires IsQueueGraph(queue, seen, g) && IsQueueGraph(queue, seen, h)
    ensures SameGraph(g, h)
  {
    hide Linked, Queued, Edge;
    assert forall x :: x in g.Keys <==> x in h.Keys;
  }

  // No valid entry precedes a valid one of goal exactly when nothing links into goal.
  lemma NothingBefore(queue: Queues, seen: Seen, goal: ObjectId)
    ensures (forall x :: !Linked(queue, seen, queue.Keys, x, goal)) <==>
      (forall d, i, j ::
        d in queue && 0 <= i < j < |queue[d]| && Valid(seen, queue[d][i]) && Valid(seen, queue[d][j]) ==>
          queue[d][j].id != goal)
  {
    if d, i, j :|
        d in queue && 0 <= i < j < |queue[d]| && queue[d][j].id == goal && Valid(seen, queue[d][i]) &&
        Valid(seen, queue[d][j]) {
      var k := LastValidBefore(queue[d], seen, i, j);
      assert Linked(queue, seen, queue.Keys, queue[d][k].id, goal);
    }
  }

  lemma {:induction false} LastValidBefore(q: seq<Token>, seen: Seen, i: nat, j: nat) returns (k: nat)
    requires i < j < |q| && Valid(seen, q[i]) && Valid(seen, q[j])
    ensures Neighbours(q, seen, k, j)
    decreases j - i
  {
    if m :| i < m < j && Valid(seen, q[m]) {
      k := LastValidBefore(q, seen, m, j);
    } else {
      k := i;
    }
  }
}
