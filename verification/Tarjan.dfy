/** The strongly connected component sort of the transaction runner. */
module Tarjan {
  import opened Graphs
  import opened Components
  import opened TarjanState

  ghost function ReachablePairs(g: Graph): Pairs {
    set x, y | x in g && y in g && Reach(g, x, y) :: (x, y)
  }

  lemma ReachableIsPreorder(g: Graph)
    requires Closed(g)
    ensures Preorder(g, ReachablePairs(g))
  {
    hide Reach;
    forall x | x in g ensures Reach(g, x, x) { ReachRefl(g, x); }
    forall x, y | Edge(g, x, y) ensures Reach(g, x, y) { ReachEdge(g, x, y); }
    forall x, y, z | Reach(g, x, y) && Reach(g, y, z) ensures Reach(g, x, z) { ReachTrans(g, x, y, z); }
  }

  // The components found by a complete search are layered.
  lemma GroupedIsLayered(g: Graph, v: View)
    requires v.Grouped(g, ReachablePairs(g))
    ensures Layered(g, v.output)
  {
    hide Reach, Emitted;
    forall k, x, y | 0 <= k < |v.output| && x in v.output[k] && y in v.output[k] ensures Mutual(g, x, y) {
      assert (x, y) in ReachablePairs(g) && (y, x) in ReachablePairs(g);
    }
  }

  // sort.Sort on an idList.
  function Insert(s: seq<ObjectId>, x: ObjectId): seq<ObjectId> {
    if s == [] || x < s[0] then [x] + s else [s[0]] + Insert(s[1..], x)
  }

  function SortIds(s: seq<ObjectId>): seq<ObjectId> {
    if s == [] then [] else Insert(SortIds(s[1..]), s[0])
  }

  lemma {:induction false} InsertMembers(s: seq<ObjectId>, x: ObjectId)
    ensures multiset(Insert(s, x)) == multiset(s) + multiset{x}
  {
    if s != [] && s[0] <= x {
      InsertMembers(s[1..], x);
      assert s == [s[0]] + s[1..];
    }
  }

  lemma {:induction false} InsertSorts(s: seq<ObjectId>, x: ObjectId)
    requires Increasing(s) && x !in s
    ensures Increasing(Insert(s, x))
  {
    if s != [] && s[0] <= x {
      InsertSorts(s[1..], x);
      var t := Insert(s[1..], x);
      forall i | 0 <= i < |t| ensures s[0] < t[i] {
        InsertMembers(s[1..], x);
        assert t[i] in multiset(t);
        assert t[i] in s[1..] || t[i] == x;
      }
    }
  }

  lemma {:induction false} SortIdsSorts(s: seq<ObjectId>)
    requires Distinct(s)
    ensures Increasing(SortIds(s)) && multiset(SortIds(s)) == multiset(s)
  {
    if s != [] {
      hide Insert;
      var rest := SortIds(s[1..]);
      SortIdsSorts(s[1..]);
      assert s == [s[0]] + s[1..];
      assert s[0] !in s[1..];
      assert s[0] !in multiset(s[1..]);
      assert s[0] !in multiset(rest);
      InsertMembers(rest, s[0]);
      InsertSorts(rest, s[0]);
    }
  }

  lemma ReadyFacts(g: Graph, r: Pairs, v: View, id: ObjectId)
    requires Ready(g, r, v, id)
    ensures id in g && id !in v.index && id !in v.open
    ensures forall z :: z in v.open ==> z in v.stack && (z, id) in r
    ensures v.Numbered(g)
  {
  }

  // Clearing the flag of the top node of the remaining stack.
  lemma UnstackFlags(g: Graph, v: View, after: seq<Node>, i: nat, top: nat)
    requires v.Numbered(g) && i < |v.stack| && v.stack[i] in v.index && top == v.index[v.stack[i]] < |v.nodes|
    requires |after| == |v.nodes| && !after[top].stacked && forall m :: 0 <= m < |after| && m != top ==>
      after[m] == v.nodes[m]
    requires forall k :: k in v.index ==> (v.nodes[v.index[k]].stacked <==> k in v.stack[..i + 1])
    ensures forall k :: k in v.index ==> (after[v.index[k]].stacked <==> k in v.stack[..i])
  {
    assert v.stack[..i + 1] == v.stack[..i] + [v.stack[i]];
    assert forall k :: k in v.stack ==> k in v.index;
    forall j | 0 <= j < i ensures v.stack[j] != v.stack[i] {
      assert v.index[v.stack[j]] < v.index[v.stack[i]];
    }
  }

  lemma NothingPopped(stack: seq<ObjectId>)
    ensures Popped([], stack, |stack|)
  {
  }

  lemma SameNumbers(g: Graph, v: View, nodes: seq<Node>)
    requires v.Numbered(g) && |nodes| == |v.nodes|
    ensures v.(nodes := nodes).Numbered(g)
  {
  }

  // A stack node above position p has a larger number than the one at p.
  lemma AboveLarger(g: Graph, v: View, p: nat, i: nat)
    requires v.Numbered(g) && p <= i < |v.stack|
    ensures v.stack[p] in v.index && v.stack[i] in v.index && v.index[v.stack[p]] <= v.index[v.stack[i]] < |v.nodes|
    ensures v.index[v.stack[p]] == v.index[v.stack[i]] ==> p == i
    ensures forall k :: k in v.index ==> v.index[k] < |v.nodes|
  {
    var top := v.stack[i];
    assert top in v.index && v.index[top] < |v.nodes|;
  }

  class TarjanData {
    const successors: Graph
    var output: seq<seq<ObjectId>>
    var nodes: seq<Node>
    var stack: seq<ObjectId>
    var index: map<ObjectId, nat>
    // The nodes whose StrongConnect call has not returned, and what reaches what.
    ghost var open: set<ObjectId>
    ghost const reachable: Pairs

    ghost function Now(): View
      reads this
    {
      View(output, nodes, stack, index, open)
    }

    constructor (g: Graph)
      requires Closed(g)
      ensures successors == g && reachable == ReachablePairs(g)
      ensures Now() == View([], [], [], map[], {}) && Now().Valid(g, reachable)
    {
      hide View.Valid, ReachablePairs;
      InitialValid(g, ReachablePairs(g));
      successors, output, nodes, stack, index := g, [], [], [], map[];
      open, reachable := {}, ReachablePairs(g);
    }

    method StrongConnect(id: ObjectId) returns (node: nat)
      requires Closed(successors) && Preorder(successors, reachable) && Ready(successors, reachable, Now(), id)
      modifies this
      ensures node == |old(nodes)| < |nodes| <= |successors|
      ensures Searched(successors, reachable, old(Now()), Now(), id, node, nodes[node].lowlink)
      decreases successors.Keys - index.Keys, 0
    {
      hide Ready, Searching, Searched, Preorder, Closed, View.Lowered, View.Numbered;
      ghost var v0 := Now();
      ReadyFacts(successors, reachable, v0, id);
      Capacity(successors, v0, id);
      assert |nodes| < |successors|;
      StartSearch(successors, reachable, v0, id);
      node := |nodes|;
      index := index[id := node];
      stack := stack + [id];
      nodes := nodes + [Node(node, true)];
      open := open + {id};
      assert Now() == v0.Pushed(id);

      for s := 0 to |successors[id]|
        invariant node == |v0.nodes| < |nodes|
        invariant Searching(successors, reachable, v0, Now(), id, node, nodes[node].lowlink, s)
      {
        SearchingFacts(successors, reachable, v0, Now(), id, node, nodes[node].lowlink, s);
        Follow(id, node, s, v0);
      }
      Leave(id, node, v0);
      SearchedNumbered(successors, reachable, v0, Now(), id, node, nodes[node].lowlink);
      Capacity(successors, Now(), id);
    }

    // The loop body of the search at id: its successor number s.
    method Follow(id: ObjectId, node: nat, s: nat, ghost v0: View)
      requires Closed(successors) && Preorder(successors, reachable)
      requires forall x :: x in v0.open ==> (x, id) in reachable
      requires node < |nodes| && Searching(successors, reachable, v0, Now(), id, node, nodes[node].lowlink, s)
      requires id in successors && s < |successors[id]|
      modifies this
      ensures node < |nodes| && Searching(successors, reachable, v0, Now(), id, node, nodes[node].lowlink, s + 1)
      decreases successors.Keys - index.Keys, 1
    {
      hide Ready, Searching, Searched, Preorder, Closed, Popped, View.Valid, View.Numbered;
      ghost var v := Now();
      ghost var low := nodes[node].lowlink;
      SearchingFacts(successors, reachable, v0, v, id, node, low, s);
      var succid := successors[id][s];
      if succid !in index {
        ChildReady(successors, reachable, v0, v, id, node, low, s, succid);
        var succnode := StrongConnect(succid);
        ghost var v1 := Now();
        AfterChild(successors, reachable, v0, v, v1, id, node, low, s, succid, succnode, nodes[succnode].lowlink);
        if nodes[succnode].lowlink < nodes[node].lowlink {
          nodes := nodes[node := nodes[node].(lowlink := nodes[succnode].lowlink)];
        }
        assert Now() == v1.Lowered(node, v1.nodes[succnode].lowlink);
      } else {
        var succindex := index[succid];
        if nodes[succindex].stacked {
          AfterSeen(successors, reachable, v0, v, id, node, low, s, succid, succindex);
          if succindex < nodes[node].lowlink {
            nodes := nodes[node := nodes[node].(lowlink := succindex)];
          }
          assert Now() == v.Lowered(node, succindex);
        } else {
          AfterPopped(successors, reachable, v0, v, id, node, low, s, succid, succindex);
        }
      }
    }

    // The end of the search at id: a root takes its component off the stack.
    method Leave(id: ObjectId, node: nat, ghost v0: View)
      requires Preorder(successors, reachable) && id in successors && id !in v0.open
      requires forall z :: z in v0.open ==> z in v0.stack
      requires node < |nodes| &&
        Searching(successors, reachable, v0, Now(), id, node, nodes[node].lowlink, |successors[id]|)
      modifies this
      ensures |nodes| == |old(nodes)| && Searched(successors, reachable, v0, Now(), id, node, nodes[node].lowlink)
    {
      hide Ready, Searching, Searched, Preorder, Closed, Popped, View.Valid, View.Numbered;
      ghost var v := Now();
      ghost var low := nodes[node].lowlink;
      SearchingShape(successors, reachable, v0, v, id, node, low, |successors[id]|);
      assert stack[|v0.stack|] == id && open == v0.open + {id};
      if nodes[node].lowlink == node {
        PopComponent(id, |v0.stack|);
        ghost var scc := output[|output| - 1];
        open := open - {id};
        LeaveRoot(successors, reachable, v0, v, Now(), id, node, scc);
      } else {
        open := open - {id};
        LeaveOpen(successors, reachable, v0, v, id, node, low);
      }
    }

    // Takes the component with root id off the stack.
    method PopComponent(id: ObjectId, ghost p: nat)
      requires Now().Numbered(successors) && Now().Flagged() && p < |stack| && stack[p] == id
      modifies this`nodes, this`stack, this`output
      ensures stack == old(stack)[..p] && |output| == |old(output)| + 1 && output[..|old(output)|] == old(output)
      ensures Popped(output[|old(output)|], old(stack), p)
      ensures |nodes| == |old(nodes)| && forall k :: k in index ==> index[k] < |nodes|
      ensures forall m :: 0 <= m < |nodes| ==> nodes[m].lowlink == old(nodes)[m].lowlink
      ensures id in index && forall m :: 0 <= m < index[id] && m < |nodes| ==> nodes[m] == old(nodes)[m]
      ensures Now().Flagged()
    {
      hide View.Numbered, Popped;
      ghost var v := Now();
      AboveLarger(successors, v, p, p);
      var scc := [];
      var i := |stack| - 1;
      assert stack[..i + 1] == stack;
      NothingPopped(stack);
      while true
        invariant stack == old(stack) && output == old(output) && p <= i < |stack|
        invariant Popped(scc, stack, i + 1)
        invariant |nodes| == |v.nodes|
        invariant forall m :: 0 <= m < |nodes| ==> nodes[m].lowlink == v.nodes[m].lowlink
        invariant forall m :: 0 <= m < index[id] && m < |nodes| ==> nodes[m] == v.nodes[m]
        invariant forall k :: k in index ==> (nodes[index[k]].stacked <==> k in stack[..i + 1])
        decreases i
      {
        AboveLarger(successors, v, p, i);
        var stackid := stack[i];
        var stackindex := index[stackid];
        ghost var before := nodes;
        nodes := nodes[stackindex := nodes[stackindex].(stacked := false)];
        PoppedMore(scc, stack, i + 1);
        scc := scc + [stackid];
        SameNumbers(successors, v, before);
        UnstackFlags(successors, v.(nodes := before), nodes, i, stackindex);
        if stackindex == index[id] {
          break;
        }
        i := i - 1;
      }
      stack := stack[..i];
      output := output + [scc];
    }
  }

  // Between searches from the top the stack is empty.
  lemma SettledState(g: Graph, r: Pairs, v: View)
    requires v.Valid(g, r) && v.open == {}
    ensures v.stack == [] && forall x :: x in v.index <==> x in Emitted(v.output)
  {
    assert v.stack != [] ==> v.Anchored(r, v.stack[0], v.index[v.stack[0]]);
  }

  lemma StartReady(g: Graph, r: Pairs, v: View, id: ObjectId)
    requires v.Valid(g, r) && v.open == {} && id in g && id !in v.index
    ensures Ready(g, r, v, id)
  {
  }

  lemma SearchedNumbered(g: Graph, r: Pairs, v0: View, v: View, id: ObjectId, node: nat, low: nat)
    requires Searched(g, r, v0, v, id, node, low)
    ensures v.Numbered(g)
  {
  }

  lemma SearchedFacts(g: Graph, r: Pairs, v0: View, v: View, id: ObjectId, node: nat, low: nat)
    requires Searched(g, r, v0, v, id, node, low)
    ensures v.Valid(g, r) && v.open == v0.open && id in v.index && forall k :: k in v0.index ==> k in v.index
  {
  }

  lemma InitialValid(g: Graph, r: Pairs)
    ensures View([], [], [], map[], {}).Valid(g, r)
  {
  }

  lemma NodesInGraph(g: Graph, r: Pairs, v: View)
    requires v.Valid(g, r)
    ensures forall k :: k in v.index ==> k in g
  {
  }

  lemma SomeElement(s: set<ObjectId>)
    ensures s == {} || exists x :: x in s
  {
    if forall x :: x !in s {
      assert s == {};
    }
  }

  // The strongly connected components of a closed graph, each after all it reaches.
  method TarjanSort(successors: Graph) returns (output: seq<seq<ObjectId>>)
    requires Closed(successors)
    ensures IsComponentSort(successors, output)
  {
    hide Ready, Searched, Preorder, Closed, View.Valid, Emitted, ReachablePairs, Layered, IsComponentSort, Increasing;
    var data := new TarjanData(successors);
    ghost var r := data.reachable;
    ReachableIsPreorder(successors);
    // The iteration order of a Go map is arbitrary.
    var todo := successors.Keys;
    while todo != {}
      invariant data.Now().Valid(successors, r) && data.open == {} && data.stack == []
      invariant todo <= successors.Keys && forall x :: x in successors ==> x in todo || x in data.index
      decreases |todo|
    {
      SomeElement(todo);
      var id :| id in todo;
      todo := todo - {id};
      if id !in data.index {
        ghost var v0 := data.Now();
        StartReady(successors, r, v0, id);
        var node := data.StrongConnect(id);
        SearchedFacts(successors, r, v0, data.Now(), id, node, data.nodes[node].lowlink);
        SettledState(successors, r, data.Now());
      }
    }
    SettledState(successors, r, data.Now());
    NodesInGraph(successors, r, data.Now());
    ghost var found := data.output;
    GroupedAtEnd(successors, data.Now());
    for k := 0 to |data.output|
      invariant |data.output| == |found|
      invariant forall j :: k <= j < |found| ==> data.output[j] == found[j]
      invariant forall j :: 0 <= j < k ==> Increasing(data.output[j]) && multiset(data.output[j]) == multiset(found[j])
    {
      SortedComponent(successors, found, k);
      if |data.output[k]| > 1 {
        data.output := data.output[k := SortIds(data.output[k])];
      }
    }
    output := data.output;
    LayeredIsSort(successors, found, output);
  }

  lemma SortedComponent(g: Graph, out: seq<seq<ObjectId>>, k: nat)
    requires Layered(g, out) && k < |out|
    ensures Increasing(SortIds(out[k])) && multiset(SortIds(out[k])) == multiset(out[k])
    ensures |out[k]| <= 1 ==> Increasing(out[k])
  {
    SortIdsSorts(out[k]);
  }

  lemma GroupedAtEnd(g: Graph, v: View)
    requires v.Valid(g, ReachablePairs(g))
    requires forall x :: x in g <==> x in Emitted(v.output)
    ensures Layered(g, v.output) && Emitted(v.output) == g.Keys
  {
    GroupedIsLayered(g, v);
    assert forall x :: x in g.Keys <==> x in Emitted(v.output);
  }
}
