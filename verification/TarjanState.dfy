/** The state of the component search, and what each of its steps keeps. */
module TarjanState {
  import opened Graphs
  import opened Components

  // The reachable pairs, as a value the search invariants can mention cheaply.
  type Pairs = set<(ObjectId, ObjectId)>

  ghost predicate Preorder(g: Graph, r: Pairs) {
    && (forall x :: x in g ==> (x, x) in r)
    && (forall x, y :: Edge(g, x, y) ==> (x, y) in r)
    && (forall x, y, z :: (x, y) in r && (y, z) in r ==> (x, z) in r)
  }

  datatype Node = Node(lowlink: nat, stacked: bool)

  // The fields of tarjanData; open holds the nodes whose search has not returned.
  datatype View = View(output: seq<seq<ObjectId>>, nodes: seq<Node>, stack: seq<ObjectId>,
                       index: map<ObjectId, nat>, open: set<ObjectId>)
  {
    // There is one record for each numbered node; numbers are unique and grow along the stack.
    ghost predicate Numbered(g: Graph) {
      && |nodes| == |index|
      && (forall k :: k in index ==> k in g && index[k] < |nodes|)
      && (forall a, b :: a in index && b in index && index[a] == index[b] ==> a == b)
      && (forall i :: 0 <= i < |stack| ==> stack[i] in index)
      && (forall i, j :: 0 <= i < j < |stack| ==> index[stack[i]] < index[stack[j]])
    }

    ghost predicate Flagged()
      requires forall k :: k in index ==> index[k] < |nodes|
    {
      forall k :: k in index ==> (nodes[index[k]].stacked <==> k in stack)
    }

    // Every numbered node is on the stack or in a component; no edge leads from a
    // finished node to an unseen one.
    ghost predicate Coloured(g: Graph) {
      && (forall x :: x in open ==> x in stack)
      && (forall x :: x in index <==> x in stack || x in Emitted(output))
      && (forall x :: x in stack ==> x !in Emitted(output))
      && (forall x, y :: x in index && x !in open && Edge(g, x, y) ==> y in index)
    }

    // Stack nodes reach all later ones, and each reaches some open node at or below it.
    ghost predicate Chained(r: Pairs) {
      forall i, j :: 0 <= i <= j < |stack| ==> (stack[i], stack[j]) in r
    }

    // Node y reaches an open node numbered at most n.
    ghost predicate Anchored(r: Pairs, y: ObjectId, n: nat) {
      exists x :: x in open && x in index && index[x] <= n && (y, x) in r
    }

    ghost predicate Returns(r: Pairs) {
      forall y :: y in stack ==> y in index && Anchored(r, y, index[y])
    }

    ghost predicate Grouped(g: Graph, r: Pairs) {
      && (forall k :: 0 <= k < |output| ==> output[k] != [] && Distinct(output[k]))
      && (forall j, k, x :: 0 <= j < k < |output| && x in output[j] ==> x !in output[k])
      && (forall k, x, y :: 0 <= k < |output| && x in output[k] && y in output[k] ==> (x, y) in r)
      && (forall k, x, y :: 0 <= k < |output| && x in output[k] && Edge(g, x, y) ==> y in Emitted(output[..k + 1]))
    }

    ghost predicate Valid(g: Graph, r: Pairs) {
      Numbered(g) && Flagged() && Coloured(g) && Chained(r) && Returns(r) && Grouped(g, r)
    }

    // v is a later state of the same search.
    ghost predicate GrowsTo(v: View) {
      && stack <= v.stack && output <= v.output && nodes <= v.nodes
      && (forall k :: k in index ==> k in v.index && v.index[k] == index[k])
    }

    function Pushed(id: ObjectId): View {
      View(output, nodes + [Node(|nodes|, true)], stack + [id], index[id := |nodes|], open + {id})
    }

    function Lowered(node: nat, low: nat): View {
      if node < |nodes| && low < nodes[node].lowlink then this.(nodes := nodes[node := nodes[node].(lowlink := low)])
      else this
    }
  }

  // A search may start at id.
  ghost predicate Ready(g: Graph, r: Pairs, v: View, id: ObjectId) {
    v.Valid(g, r) && id in g && id !in v.index && forall x :: x in v.open ==> (x, id) in r
  }

  // low is the number of a node of the stack base that id reaches.
  ghost predicate Leads(r: Pairs, base: seq<ObjectId>, index: map<ObjectId, nat>, id: ObjectId, low: nat) {
    exists w :: w in base && w in index && index[w] == low && (id, w) in r
  }

  // No edge from the stack above position from enters base below number low.
  ghost predicate Bounded(
      g: Graph, base: seq<ObjectId>, stack: seq<ObjectId>, index: map<ObjectId, nat>, from: nat, low: nat) {
    forall k, y :: from <= k < |stack| && y in base && y in index && Edge(g, stack[k], y) ==> low <= index[y]
  }

  // Node id has number node and the given lowlink.
  ghost predicate Holds(v: View, id: ObjectId, node: nat, low: nat) {
    && id in v.index && v.index[id] == node < |v.nodes|
    && v.nodes[node].lowlink == low <= node
  }

  // Each of the first s successors of id is numbered, and not below low in base.
  ghost predicate Checked(g: Graph, base: seq<ObjectId>, index: map<ObjectId, nat>, id: ObjectId, low: nat, s: nat) {
    && id in g && s <= |g[id]|
    && (forall j :: 0 <= j < s ==> g[id][j] in index && (g[id][j] in base ==> low <= index[g[id][j]]))
  }

  // The search at id has looked at its first s successors.
  ghost predicate Searching(g: Graph, r: Pairs, v0: View, v: View, id: ObjectId, node: nat, low: nat, s: nat) {
    && v0.GrowsTo(v) && v.Valid(g, r) && v.open == v0.open + {id} && id !in v0.index
    && node == |v0.nodes| && Holds(v, id, node, low)
    && v0.stack + [id] <= v.stack
    && (low < node ==> Leads(r, v0.stack, v.index, id, low))
    && Bounded(g, v0.stack, v.stack, v.index, |v0.stack| + 1, low)
    && Checked(g, v0.stack, v.index, id, low, s)
  }

  // The search at id has returned.
  ghost predicate Searched(g: Graph, r: Pairs, v0: View, v: View, id: ObjectId, node: nat, low: nat) {
    && v0.GrowsTo(v) && v.Valid(g, r) && v.open == v0.open && id !in v0.index
    && node == |v0.nodes| && Holds(v, id, node, low)
    && (if low == node then v.stack == v0.stack else Leads(r, v0.stack, v.index, id, low))
    && Bounded(g, v0.stack, v.stack, v.index, |v0.stack|, low)
  }

  // The records never outnumber the nodes of the graph, and another one still fits as long as
  // a node is not numbered: the slice they are kept in never moves.
  lemma Capacity(g: Graph, v: View, id: ObjectId)
    requires v.Numbered(g)
    ensures |v.nodes| <= |g| && (id in g && id !in v.index ==> |v.nodes| < |g|)
  {
    assert |v.index| == |v.index.Keys| && |g| == |g.Keys|;
    assert v.index.Keys <= g.Keys by {
      forall x | x in v.index.Keys ensures x in g.Keys {
        assert x in v.index;
      }
    }
    KeysBelow(v.index.Keys, g.Keys);
    if id in g && id !in v.index {
      KeysBelow(v.index.Keys + {id}, g.Keys);
    }
  }

  lemma KeysBelow<T>(a: set<T>, b: set<T>)
    requires a <= b
    ensures |a| <= |b|
  {
    assert a + (b - a) == b;
  }

  lemma StartSearch(g: Graph, r: Pairs, v: View, id: ObjectId)
    requires Preorder(g, r) && Ready(g, r, v, id)
    ensures Searching(g, r, v, v.Pushed(id), id, |v.nodes|, |v.nodes|, 0)
  {
    var v' := v.Pushed(id);
    hide View.Numbered, View.Coloured, View.Chained, View.Returns, View.Flagged;
    PushChained(r, v, id);
    PushReturns(r, v, id);
    PushNumbered(g, v, id);
    PushColoured(g, v, id);
    assert v'.Grouped(g, r);
  }

  lemma PushColoured(g: Graph, v: View, id: ObjectId)
    requires v.Numbered(g) && v.Flagged() && v.Coloured(g) && id !in v.index
    requires v.Pushed(id).Numbered(g)
    ensures v.Pushed(id).Flagged() && v.Pushed(id).Coloured(g)
  {
  }

  lemma PushNumbered(g: Graph, v: View, id: ObjectId)
    requires v.Numbered(g) && id in g && id !in v.index
    ensures v.Pushed(id).Numbered(g)
  {
    var v' := v.Pushed(id);
    assert forall k :: k in v'.stack ==> k in v'.index;
    forall i, j | 0 <= i < j < |v'.stack| ensures v'.index[v'.stack[i]] < v'.index[v'.stack[j]] {
      assert v'.stack[i] == v.stack[i];
      if j < |v.stack| {
        assert v'.stack[j] == v.stack[j];
      }
    }
  }

  lemma PushChained(r: Pairs, v: View, id: ObjectId)
    requires v.Chained(r) && v.Returns(r) && (id, id) in r
    requires forall x, y, z :: (x, y) in r && (y, z) in r ==> (x, z) in r
    requires forall x :: x in v.open ==> (x, id) in r
    ensures v.Pushed(id).Chained(r)
  {
    forall i | 0 <= i < |v.stack| ensures (v.stack[i], id) in r {
      assert v.Anchored(r, v.stack[i], v.index[v.stack[i]]);
      var x :| x in v.open && x in v.index && v.index[x] <= v.index[v.stack[i]] && (v.stack[i], x) in r;
      assert (x, id) in r;
    }
  }

  lemma PushReturns(r: Pairs, v: View, id: ObjectId)
    requires v.Returns(r) && (id, id) in r && id !in v.index
    ensures v.Pushed(id).Returns(r)
  {
    var v' := v.Pushed(id);
    forall y | y in v'.stack ensures v'.Anchored(r, y, v'.index[y]) {
      if y == id {
        assert id in v'.open;
      } else {
        assert v.Anchored(r, y, v.index[y]);
      }
    }
  }

  lemma LowerKeeps(g: Graph, r: Pairs, v: View, node: nat, low: nat)
    requires v.Valid(g, r) && node < |v.nodes|
    ensures v.Lowered(node, low).Valid(g, r)
  {
    var v' := v.Lowered(node, low);
    assert forall i :: 0 <= i < |v.nodes| ==> v'.nodes[i].stacked == v.nodes[i].stacked;
    assert v'.Numbered(g) && v'.Flagged();
    assert v'.Coloured(g);
    forall y | y in v'.stack ensures v'.Anchored(r, y, v'.index[y]) {
      assert v.Anchored(r, y, v.index[y]);
    }
  }

  // The child search at an unseen successor may start.
  lemma ChildReady(g: Graph, r: Pairs, v0: View, v: View, id: ObjectId, node: nat, low: nat, s: nat, succ: ObjectId)
    requires Preorder(g, r) && Closed(g) && Searching(g, r, v0, v, id, node, low, s)
    requires Edge(g, id, succ) && succ !in v.index
    requires forall x :: x in v0.open ==> (x, id) in r
    ensures Ready(g, r, v, succ)
  {
    hide View.Valid, View.GrowsTo, Leads, Bounded, Checked;
  }

  function Min(a: nat, b: nat): nat {
    if a < b then a else b
  }

  // The number of an earlier stack node that a successor leads to serves id too.
  lemma LeadsFrom(
      g: Graph, r: Pairs, base: seq<ObjectId>, stack: seq<ObjectId>, v: View, id: ObjectId, succ: ObjectId, low: nat)
    requires Preorder(g, r) && Edge(g, id, succ)
    requires v.Numbered(g) && base + [id] <= stack <= v.stack
    requires id in v.index && low < v.index[id]
    requires Leads(r, stack, v.index, succ, low)
    ensures Leads(r, base, v.index, id, low)
  {
    var w :| w in stack && w in v.index && v.index[w] == low && (succ, w) in r;
    var k :| 0 <= k < |stack| && stack[k] == w;
    var p := |base|;
    assert v.stack[k] == w && v.stack[p] == id;
    assert k < p;
    assert base[k] == w;
    assert (id, succ) in r;
  }

  lemma BoundedAfterChild(g: Graph, base: seq<ObjectId>, v: View, v1: View, from: nat, low: nat, succlow: nat)
    requires Bounded(g, base, v.stack, v.index, from, low)
    requires Bounded(g, v.stack, v1.stack, v1.index, |v.stack|, succlow)
    requires base <= v.stack && v.GrowsTo(v1) && forall y :: y in v.stack ==> y in v.index
    ensures Bounded(g, base, v1.stack, v1.index, from, Min(low, succlow))
  {
    forall k, y | from <= k < |v1.stack| && y in base && y in v1.index && Edge(g, v1.stack[k], y)
      ensures Min(low, succlow) <= v1.index[y]
    {
      assert y in v.stack;
      if k < |v.stack| {
        assert v1.stack[k] == v.stack[k];
      }
    }
  }

  lemma CheckedAfterChild(
      g: Graph, base: seq<ObjectId>, v: View, v1: View, id: ObjectId, low: nat, succlow: nat, s: nat)
    requires Checked(g, base, v.index, id, low, s) && v.GrowsTo(v1)
    requires s < |g[id]| && g[id][s] in v1.index && g[id][s] !in base
    ensures Checked(g, base, v1.index, id, Min(low, succlow), s + 1)
  {
    forall j | 0 <= j < s + 1
      ensures g[id][j] in v1.index && (g[id][j] in base ==> Min(low, succlow) <= v1.index[g[id][j]])
    {
      var y := g[id][j];
      if j < s {
        assert y in v.index && (y in base ==> low <= v.index[y]);
        assert v1.index[y] == v.index[y];
      } else {
        assert j == s;
      }
    }
  }

  lemma AfterChild(g: Graph, r: Pairs, v0: View, v: View, v1: View, id: ObjectId, node: nat, low: nat,
                   s: nat, succ: ObjectId, succnode: nat, succlow: nat)
    requires Preorder(g, r) && Searching(g, r, v0, v, id, node, low, s)
    requires s < |g[id]| && succ == g[id][s] && Searched(g, r, v, v1, succ, succnode, succlow)
    ensures Holds(v1, id, node, low)
    ensures Searching(g, r, v0, v1.Lowered(node, succlow), id, node, Min(low, succlow), s + 1)
  {
    hide View.Coloured, View.Chained, View.Returns, View.Flagged, View.Grouped, Leads, Preorder, Bounded, Checked;
    assert v1.nodes[node] == v.nodes[node];
    var v' := v1.Lowered(node, succlow);
    LowerKeeps(g, r, v1, node, succlow);
    assert Edge(g, id, succ);
    if succlow < low {
      LeadsFrom(g, r, v0.stack, v.stack, v1, id, succ, succlow);
    } else if low < node {
      LeadsGrows(r, v0.stack, v.index, v1.index, id, low);
    }
    BoundedAfterChild(g, v0.stack, v, v1, |v0.stack| + 1, low, succlow);
    CheckedAfterChild(g, v0.stack, v, v1, id, low, succlow, s);
  }

  lemma LeadsGrows(
      r: Pairs, base: seq<ObjectId>, index: map<ObjectId, nat>, more: map<ObjectId, nat>, id: ObjectId, low: nat)
    requires Leads(r, base, index, id, low) && forall k :: k in index ==> k in more && more[k] == index[k]
    ensures Leads(r, base, more, id, low)
  {
  }

  lemma AfterSeen(
      g: Graph, r: Pairs, v0: View, v: View, id: ObjectId, node: nat, low: nat, s: nat, succ: ObjectId, succnode: nat)
    requires Preorder(g, r) && Searching(g, r, v0, v, id, node, low, s)
    requires s < |g[id]| && succ == g[id][s] && succ in v.index && v.index[succ] == succnode &&
      v.nodes[succnode].stacked
    ensures Searching(g, r, v0, v.Lowered(node, succnode), id, node, Min(low, succnode), s + 1)
  {
    hide View.Coloured, View.Chained, View.Returns, View.Grouped, Preorder, Bounded;
    var v' := v.Lowered(node, succnode);
    LowerKeeps(g, r, v, node, succnode);
    assert Edge(g, id, succ);
    if succnode < low {
      assert succ in v.stack && (succ, succ) in r by { SelfPair(g, r, succ); }
      assert Leads(r, v.stack, v.index, succ, succnode);
      LeadsFrom(g, r, v0.stack, v.stack, v, id, succ, succnode);
    }
    BoundedBelow(g, v0.stack, v.stack, v.index, |v0.stack| + 1, low, Min(low, succnode));
  }

  lemma SelfPair(g: Graph, r: Pairs, x: ObjectId)
    requires Preorder(g, r) && x in g
    ensures (x, x) in r
  {
  }

  lemma BoundedBelow(
      g: Graph, base: seq<ObjectId>, stack: seq<ObjectId>, index: map<ObjectId, nat>, from: nat, low: nat, less: nat)
    requires Bounded(g, base, stack, index, from, low) && less <= low
    ensures Bounded(g, base, stack, index, from, less)
  {
  }

  lemma AfterPopped(
      g: Graph, r: Pairs, v0: View, v: View, id: ObjectId, node: nat, low: nat, s: nat, succ: ObjectId, succnode: nat)
    requires Searching(g, r, v0, v, id, node, low, s)
    requires s < |g[id]| && succ == g[id][s] && succ in v.index && v.index[succ] == succnode &&
      !v.nodes[succnode].stacked
    ensures Searching(g, r, v0, v, id, node, low, s + 1)
  {
    hide View.Coloured, View.Chained, View.Returns, View.Grouped, Bounded, Leads;
    assert succ !in v.stack;
  }

  // A node that is not a root stays on the stack.
  lemma LeaveOpen(g: Graph, r: Pairs, v0: View, v: View, id: ObjectId, node: nat, low: nat)
    requires Preorder(g, r) && id in g && Searching(g, r, v0, v, id, node, low, |g[id]|)
    requires low < node
    ensures Searched(g, r, v0, v.(open := v0.open), id, node, low)
  {
    hide View.Chained, View.Coloured, View.Flagged, View.Grouped, View.Numbered, View.Returns, Leads, Bounded,
      Preorder, Checked, View.GrowsTo;
    LeaveColoured(g, v, v0.open, v0.stack, id, low);
    LeaveReturns(r, v, v0.open, v0.stack, id, low) by { PairsChain(g, r); }
    BoundedAtNode(g, v0.stack, v.stack, v.index, id, low);
    assert v.(open := v0.open).Chained(r) by { LeaveChained(r, v, v0.open); }
    LeaveRest(g, r, v, v0.open);
    assert v0.GrowsTo(v.(open := v0.open)) by { GrowsAgain(v0, v, v0.open); }
  }

  lemma PairsChain(g: Graph, r: Pairs)
    requires Preorder(g, r)
    ensures forall x, y, z :: (x, y) in r && (y, z) in r ==> (x, z) in r
  {
  }

  lemma LeaveChained(r: Pairs, v: View, open: set<ObjectId>)
    requires v.Chained(r)
    ensures v.(open := open).Chained(r)
  {
  }

  lemma GrowsAgain(v0: View, v: View, open: set<ObjectId>)
    requires v0.GrowsTo(v)
    ensures v0.GrowsTo(v.(open := open))
  {
  }

  lemma LeaveRest(g: Graph, r: Pairs, v: View, open: set<ObjectId>)
    requires v.Numbered(g) && v.Flagged() && v.Grouped(g, r)
    ensures var v' := v.(open := open); v'.Numbered(g) && v'.Flagged() && v'.Grouped(g, r)
  {
  }

  lemma LeaveColoured(g: Graph, v: View, open: set<ObjectId>, base: seq<ObjectId>, id: ObjectId, low: nat)
    requires v.Coloured(g) && v.open == open + {id}
    requires id in g && Checked(g, base, v.index, id, low, |g[id]|)
    ensures v.(open := open).Coloured(g)
  {
  }

  lemma LeaveReturns(r: Pairs, v: View, open: set<ObjectId>, base: seq<ObjectId>, id: ObjectId, low: nat)
    requires v.Returns(r) && v.open == open + {id}
    requires base <= v.stack && id in v.index && low < v.index[id] && Leads(r, base, v.index, id, low)
    requires forall x, y, z :: (x, y) in r && (y, z) in r ==> (x, z) in r
    ensures v.(open := open).Returns(r)
  {
    var v' := v.(open := open);
    var w :| w in base && w in v.index && v.index[w] == low && (id, w) in r;
    assert w in v.stack && v.Anchored(r, w, low);
    var x' :| x' in v.open && x' in v.index && v.index[x'] <= low && (w, x') in r;
    forall y | y in v.stack ensures v'.Anchored(r, y, v.index[y]) {
      assert v.Anchored(r, y, v.index[y]);
      var x :| x in v.open && x in v.index && v.index[x] <= v.index[y] && (y, x) in r;
      if x == id {
        assert (y, w) in r && (y, x') in r;
      }
    }
  }

  lemma BoundedAtNode(
      g: Graph, base: seq<ObjectId>, stack: seq<ObjectId>, index: map<ObjectId, nat>, id: ObjectId, low: nat)
    requires Bounded(g, base, stack, index, |base| + 1, low) && base + [id] <= stack
    requires id in g && Checked(g, base, index, id, low, |g[id]|)
    ensures Bounded(g, base, stack, index, |base|, low)
  {
    assert stack[|base|] == id;
    forall y | y in base && y in index && Edge(g, id, y) ensures low <= index[y] {
      var j :| 0 <= j < |g[id]| && g[id][j] == y;
    }
  }

  // scc holds the stack from position p up, top first.
  ghost predicate Popped(scc: seq<ObjectId>, stack: seq<ObjectId>, p: nat) {
    |scc| == |stack| - p && forall j :: 0 <= j < |scc| ==> scc[j] == stack[|stack| - 1 - j]
  }

  lemma PoppedMore(scc: seq<ObjectId>, stack: seq<ObjectId>, p: nat)
    requires 0 < p <= |stack| && Popped(scc, stack, p)
    ensures Popped(scc + [stack[p - 1]], stack, p - 1)
  {
  }

  // Every node from a root up reaches the root and is reached from it.
  lemma RootMutual(r: Pairs, v: View, open: set<ObjectId>, base: seq<ObjectId>, id: ObjectId, x: ObjectId)
    requires v.Chained(r) && v.Returns(r) && v.open == open + {id}
    requires forall x, y, z :: (x, y) in r && (y, z) in r ==> (x, z) in r
    requires base + [id] <= v.stack && (forall z :: z in open ==> z in base)
    requires x in v.stack[|base|..]
    ensures (x, id) in r && (id, x) in r
  {
    var p := |base|;
    assert v.stack[p] == id;
    var k :| p <= k < |v.stack| && v.stack[k] == x;
    assert (v.stack[p], v.stack[k]) in r;
    assert v.Anchored(r, x, v.index[x]);
    var z :| z in v.open && z in v.index && v.index[z] <= v.index[x] && (x, z) in r;
    if z != id {
      var c :| 0 <= c < p && base[c] == z;
      assert v.stack[c] == z;
      assert (v.stack[c], v.stack[p]) in r;
    }
  }

  lemma PoppedMembers(g: Graph, v: View, base: seq<ObjectId>, scc: seq<ObjectId>)
    requires v.Numbered(g) && base <= v.stack && Popped(scc, v.stack, |base|)
    ensures Distinct(scc)
    ensures forall x :: x in scc <==> x in v.stack[|base|..]
    ensures forall x :: x in v.stack <==> x in base || x in scc
    ensures forall x :: x in scc ==> x !in base
  {
    var n, p := |v.stack|, |base|;
    forall i | p <= i < n ensures v.stack[i] in scc {
      assert scc[n - 1 - i] == v.stack[i];
    }
    forall i | 0 <= i < n ensures v.stack[i] in base || v.stack[i] in scc {
      if i < p {
        assert base[i] == v.stack[i];
      }
    }
    forall j | 0 <= j < |scc| ensures scc[j] in v.stack[p..] {
      assert scc[j] == v.stack[p..][n - 1 - j - p];
    }
    assert forall k :: k in v.stack ==> k in v.index;
    forall i, j | 0 <= i < j < |scc| ensures scc[i] != scc[j] {
      assert v.index[v.stack[n - 1 - j]] < v.index[v.stack[n - 1 - i]];
    }
    forall i, j | 0 <= i < |base| && 0 <= j < |scc| ensures base[i] != scc[j] {
      assert v.stack[i] == base[i] && v.stack[n - 1 - j] == scc[j];
      assert v.index[v.stack[i]] < v.index[v.stack[n - 1 - j]];
    }
  }

  // No edge from a popped node enters the stack below a root.
  lemma BaseBelow(g: Graph, v: View, base: seq<ObjectId>, id: ObjectId, scc: seq<ObjectId>, x: ObjectId)
    requires v.Numbered(g) && base + [id] <= v.stack && Popped(scc, v.stack, |base|)
    requires id in v.index && Bounded(g, base, v.stack, v.index, |base|, v.index[id])
    requires x in scc
    ensures forall y :: y in base ==> !Edge(g, x, y)
  {
    var j :| 0 <= j < |scc| && scc[j] == x;
    forall c | 0 <= c < |base| ensures !Edge(g, x, base[c]) {
      assert v.stack[c] == base[c] && v.stack[|base|] == id;
      assert v.index[base[c]] < v.index[id];
      assert v.stack[|v.stack| - 1 - j] == x;
    }
  }

  // An edge out of a popped component stays in it or enters an earlier component.
  lemma RootCloses(
      g: Graph, v: View, open: set<ObjectId>, base: seq<ObjectId>, scc: seq<ObjectId>, id: ObjectId, node: nat,
                   x: ObjectId, y: ObjectId)
    requires v.Numbered(g) && v.Coloured(g) && v.open == open + {id}
    requires base + [id] <= v.stack && Popped(scc, v.stack, |base|) && (forall z :: z in open ==> z in base)
    requires id in v.index && v.index[id] == node && Bounded(g, base, v.stack, v.index, |base|, node)
    requires id in g && Checked(g, base, v.index, id, node, |g[id]|)
    requires x in scc && Edge(g, x, y)
    ensures y in Emitted(v.output) || y in scc
  {
    PoppedMembers(g, v, base, scc);
    if x == id {
      var j :| 0 <= j < |g[id]| && g[id][j] == y;
    }
    assert y in v.index;
    assert y !in base by { BaseBelow(g, v, base, id, scc, x); }
  }

  lemma PopGrouped(
      g: Graph, r: Pairs, v: View, open: set<ObjectId>, base: seq<ObjectId>, scc: seq<ObjectId>, id: ObjectId,
      node: nat)
    requires v.Valid(g, r) && v.open == open + {id} && Preorder(g, r)
    requires base + [id] <= v.stack && Popped(scc, v.stack, |base|) && (forall z :: z in open ==> z in base)
    requires id in v.index && v.index[id] == node && Bounded(g, base, v.stack, v.index, |base|, node)
    requires id in g && Checked(g, base, v.index, id, node, |g[id]|)
    ensures v.(output := v.output + [scc]).Grouped(g, r)
  {
    hide View.Chained, View.Returns, View.Flagged, View.Numbered, Bounded, Preorder, Checked;
    var out := v.output + [scc];
    PoppedMembers(g, v, base, scc);
    PairsChain(g, r);
    EmittedAppend(v.output, scc);
    forall x | x in scc ensures (x, id) in r && (id, x) in r {
      RootMutual(r, v, open, base, id, x);
    }
    forall k, x, y | 0 <= k < |out| && x in out[k] && Edge(g, x, y) ensures y in Emitted(out[..k + 1]) {
      if k < |v.output| {
        assert out[..k + 1] == v.output[..k + 1];
      } else {
        assert out[..k + 1] == out;
        RootCloses(g, v, open, base, scc, id, node, x, y);
      }
    }
    forall j, x | 0 <= j < |v.output| && x in v.output[j] ensures x !in scc {
      assert x in Emitted(v.output);
    }
  }

  lemma PopKeeps(
      g: Graph, r: Pairs, v: View, v': View, open: set<ObjectId>, base: seq<ObjectId>, scc: seq<ObjectId>, id: ObjectId)
    requires v.Numbered(g) && v.Coloured(g) && v.Chained(r) && v.Returns(r) && v.open == open + {id}
    requires base + [id] <= v.stack && Popped(scc, v.stack, |base|) && (forall z :: z in open ==> z in base)
    requires id in g && Checked(g, base, v.index, id, v.index[id], |g[id]|)
    requires v'.output == v.output + [scc] && v'.stack == base && v'.index == v.index && v'.open == open
    requires |v'.nodes| == |v.nodes|
    ensures v'.Numbered(g) && v'.Coloured(g) && v'.Chained(r) && v'.Returns(r)
  {
    hide Checked, View.Coloured, View.Returns, View.Numbered, View.Chained, Popped;
    PopNumbered(g, r, v, v', base, id);
    PoppedMembers(g, v, base, scc);
    EmittedAppend(v.output, scc);
    PopColoured(g, v, v', open, base, scc, id);
    PopReturns(g, r, v, v', open, base, id);
  }

  lemma PopNumbered(g: Graph, r: Pairs, v: View, v': View, base: seq<ObjectId>, id: ObjectId)
    requires v.Numbered(g) && v.Chained(r) && base + [id] <= v.stack
    requires v'.stack == base && v'.index == v.index && |v'.nodes| == |v.nodes|
    ensures v'.Numbered(g) && v'.Chained(r) && id in v.index
  {
    assert v.stack[|base|] == id;
    assert forall k :: 0 <= k < |base| ==> base[k] == v.stack[k];
  }

  lemma PopColoured(
      g: Graph, v: View, v': View, open: set<ObjectId>, base: seq<ObjectId>, scc: seq<ObjectId>, id: ObjectId)
    requires v.Coloured(g) && v.open == open + {id} && (forall z :: z in open ==> z in base)
    requires id in g && id in v.index && Checked(g, base, v.index, id, v.index[id], |g[id]|)
    requires forall x :: x in v.stack <==> x in base || x in scc
    requires forall x :: x in scc ==> x !in base
    requires forall x :: x in Emitted(v'.output) <==> x in Emitted(v.output) || x in scc
    requires v'.stack == base && v'.index == v.index && v'.open == open
    ensures v'.Coloured(g)
  {
  }

  lemma PopReturns(g: Graph, r: Pairs, v: View, v': View, open: set<ObjectId>, base: seq<ObjectId>, id: ObjectId)
    requires v.Numbered(g) && v.Returns(r) && v.open == open + {id}
    requires base + [id] <= v.stack
    requires v'.stack == base && v'.index == v.index && v'.open == open
    ensures v'.Returns(r)
  {
    forall y | y in base ensures y in v.index && v'.Anchored(r, y, v.index[y]) {
      var c :| 0 <= c < |base| && base[c] == y;
      assert v.stack[c] == y && v.stack[|base|] == id;
      assert v.Anchored(r, y, v.index[y]);
    }
  }

  // A root takes its component off the stack.
  lemma LeaveRoot(g: Graph, r: Pairs, v0: View, v: View, v': View, id: ObjectId, node: nat, scc: seq<ObjectId>)
    requires Preorder(g, r) && id in g && Searching(g, r, v0, v, id, node, node, |g[id]|)
    requires forall z :: z in v0.open ==> z in v0.stack
    requires Popped(scc, v.stack, |v0.stack|)
    requires v'.output == v.output + [scc] && v'.stack == v0.stack && v'.index == v.index && v'.open == v0.open
    requires |v'.nodes| == |v.nodes| && v0.nodes <= v'.nodes && Holds(v', id, node, node)
    requires forall k :: k in v'.index ==> v'.index[k] < |v'.nodes|
    requires v'.Flagged()
    ensures Searched(g, r, v0, v', id, node, node)
  {
    hide View.Grouped, Bounded, Preorder, Checked, Emitted, View.Flagged, View.Coloured, View.Chained, View.Returns,
      View.Numbered, Popped;
    BoundedAtNode(g, v0.stack, v.stack, v.index, id, node);
    PopKeeps(g, r, v, v', v0.open, v0.stack, scc, id);
    PopGrouped(g, r, v, v0.open, v0.stack, scc, id, node);
    SameGroups(g, r, v.(output := v.output + [scc]), v');
    assert Bounded(g, v0.stack, v0.stack, v'.index, |v0.stack|, node) by {
      BoundedNothing(g, v0.stack, v'.index, node);
    }
  }

  lemma BoundedNothing(g: Graph, base: seq<ObjectId>, index: map<ObjectId, nat>, low: nat)
    ensures Bounded(g, base, base, index, |base|, low)
  {
  }

  lemma SameGroups(g: Graph, r: Pairs, v: View, v': View)
    requires v.Grouped(g, r) && v.output == v'.output
    ensures v'.Grouped(g, r)
  {
  }

  // What the search at id needs to know about its own state to go on.
  lemma SearchingFacts(g: Graph, r: Pairs, v0: View, v: View, id: ObjectId, node: nat, low: nat, s: nat)
    requires Searching(g, r, v0, v, id, node, low, s)
    ensures id in g && node < |v.nodes|
    ensures forall k :: k in v.index ==> v.index[k] < |v.nodes|
    ensures g.Keys - v.index.Keys < g.Keys - v0.index.Keys
  {
    hide View.Grouped, Bounded, View.Coloured, View.Chained, View.Returns, Leads;
    forall k | k in v0.index.Keys ensures k in v.index.Keys {
      assert k in v0.index;
    }
    assert id in g.Keys - v0.index.Keys && id !in g.Keys - v.index.Keys;
  }

  lemma SearchingShape(g: Graph, r: Pairs, v0: View, v: View, id: ObjectId, node: nat, low: nat, s: nat)
    requires Searching(g, r, v0, v, id, node, low, s)
    ensures Holds(v, id, node, low) && id in g && v.Numbered(g) && v.Flagged()
    ensures v0.stack + [id] <= v.stack && v0.nodes <= v.nodes && node == |v0.nodes| && v.open == v0.open + {id}
  {
    hide View.Grouped, Bounded, View.Coloured, View.Chained, View.Returns, Leads;
  }
}
