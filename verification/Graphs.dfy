/** Finite directed graphs over transaction ids, and reachability in them. */
module Graphs {

  // A bson.ObjectId is a 12-byte string ordered byte by byte; the model keeps the
  // number its bytes spell, which has the same equality and the same order.
  type ObjectId = int

  type Graph = map<ObjectId, seq<ObjectId>>

  ghost predicate Edge(g: Graph, x: ObjectId, y: ObjectId) {
    x in g && y in g[x]
  }

  // Every successor is a node of the graph.
  ghost predicate Closed(g: Graph) {
    forall x, y :: Edge(g, x, y) ==> y in g
  }

  ghost predicate IsPath(g: Graph, p: seq<ObjectId>) {
    p != [] && forall i {:trigger p[i]} :: 1 <= i < |p| ==> Edge(g, p[i - 1], p[i])
  }

  ghost predicate Reach(g: Graph, x: ObjectId, y: ObjectId) {
    exists p :: IsPath(g, p) && p[0] == x && p[|p| - 1] == y
  }

  ghost predicate Mutual(g: Graph, x: ObjectId, y: ObjectId) {
    Reach(g, x, y) && Reach(g, y, x)
  }

  lemma ReachRefl(g: Graph, x: ObjectId)
    ensures Reach(g, x, x)
  {
    assert IsPath(g, [x]);
  }

  lemma ReachEdge(g: Graph, x: ObjectId, y: ObjectId)
    requires Edge(g, x, y)
    ensures Reach(g, x, y)
  {
    assert IsPath(g, [x, y]);
  }

  lemma ReachTrans(g: Graph, x: ObjectId, y: ObjectId, z: ObjectId)
    requires Reach(g, x, y) && Reach(g, y, z)
    ensures Reach(g, x, z)
  {
    var p :| IsPath(g, p) && p[0] == x && p[|p| - 1] == y;
    var q :| IsPath(g, q) && q[0] == y && q[|q| - 1] == z;
    var r := p + q[1..];
    forall i | 1 <= i < |r| ensures Edge(g, r[i - 1], r[i]) {
      if i >= |p| {
        assert r[i] == q[i - |p| + 1];
        assert r[i - 1] == q[i - |p|];
      }
    }
    assert r[|r| - 1] == z;
    PathReaches(g, r);
  }

  lemma PathReaches(g: Graph, p: seq<ObjectId>)
    requires IsPath(g, p)
    ensures Reach(g, p[0], p[|p| - 1])
  {
  }

  // A set of nodes closed under edges is closed under reachability.
  lemma {:induction false} ReachStaysIn(g: Graph, s: set<ObjectId>, x: ObjectId, y: ObjectId)
    requires forall a, b :: a in s && Edge(g, a, b) ==> b in s
    requires x in s && Reach(g, x, y)
    ensures y in s
  {
    var p :| IsPath(g, p) && p[0] == x && p[|p| - 1] == y;
    PathStaysIn(g, s, p, |p| - 1);
  }

  lemma {:induction false} PathStaysIn(g: Graph, s: set<ObjectId>, p: seq<ObjectId>, k: nat)
    requires forall a, b :: a in s && Edge(g, a, b) ==> b in s
    requires IsPath(g, p) && p[0] in s && k < |p|
    ensures p[k] in s
  {
    if k > 0 {
      PathStaysIn(g, s, p, k - 1);
      assert Edge(g, p[k - 1], p[k]);
    }
  }
}
