/** What a topological list of strongly connected components is. */
module Components {
  import opened Graphs

  ghost function Emitted(out: seq<seq<ObjectId>>): set<ObjectId> {
    set k, x | 0 <= k < |out| && x in out[k] :: x
  }

  ghost predicate Distinct(s: seq<ObjectId>) {
    forall i, j :: 0 <= i < j < |s| ==> s[i] != s[j]
  }

  ghost predicate Increasing(s: seq<ObjectId>) {
    forall i, j :: 0 <= i < j < |s| ==> s[i] < s[j]
  }

  // A list of components that may still be growing: disjoint, each of mutually
  // reachable nodes, and closed towards the front of the list.
  ghost predicate Layered(g: Graph, out: seq<seq<ObjectId>>) {
    && (forall k :: 0 <= k < |out| ==> out[k] != [] && Distinct(out[k]))
    && (forall j, k, x :: 0 <= j < k < |out| && x in out[j] ==> x !in out[k])
    && (forall k, x, y :: 0 <= k < |out| && x in out[k] && y in out[k] ==> Mutual(g, x, y))
    && (forall k, x, y :: 0 <= k < |out| && x in out[k] && Edge(g, x, y) ==> y in Emitted(out[..k + 1]))
  }

  // The strongly connected components of g, each emitted after every component it
  // can reach, each with its members in increasing order.
  ghost predicate IsComponentSort(g: Graph, out: seq<seq<ObjectId>>) {
    && Emitted(out) == g.Keys
    && (forall k :: 0 <= k < |out| ==> out[k] != [] && Increasing(out[k]))
    && (forall j, k, x :: 0 <= j < k < |out| && x in out[j] ==> x !in out[k])
    && (forall k, x, y :: 0 <= k < |out| && x in out[k] && y in g ==> (y in out[k] <==> Mutual(g, x, y)))
    && (forall j, k, x, y :: 0 <= j < |out| && 0 <= k < |out| && x in out[j] && y in out[k] && Reach(g, x, y) ==>
      k <= j)
  }

  lemma EmittedPrefix(out: seq<seq<ObjectId>>, k: nat)
    requires k <= |out|
    ensures Emitted(out[..k]) <= Emitted(out)
  {
    forall x | x in Emitted(out[..k]) ensures x in Emitted(out) {
      var j :| 0 <= j < k && x in out[..k][j];
      assert x in out[j];
    }
  }

  lemma EmittedAppend(out: seq<seq<ObjectId>>, scc: seq<ObjectId>)
    ensures Emitted(out + [scc]) == Emitted(out) + (set x | x in scc)
  {
    var more := out + [scc];
    assert more[|out|] == scc;
    forall x | x in Emitted(out) ensures x in Emitted(more) {
      var j :| 0 <= j < |out| && x in out[j];
      assert x in more[j];
    }
    forall x | x in Emitted(more) && x !in scc ensures x in Emitted(out) {
      var j :| 0 <= j < |more| && x in more[j];
      assert j < |out| && more[j] == out[j];
    }
    forall x | x in scc ensures x in Emitted(more) {
      assert x in more[|out|];
    }
  }

  // Nothing reachable from a listed node comes later in the list.
  lemma LayeredReach(g: Graph, out: seq<seq<ObjectId>>, j: nat, x: ObjectId, y: ObjectId)
    requires Layered(g, out) && j < |out| && x in out[j] && Reach(g, x, y)
    ensures y in Emitted(out[..j + 1])
  {
    var s := Emitted(out[..j + 1]);
    forall a, b | a in s && Edge(g, a, b) ensures b in s {
      var i :| 0 <= i <= j && a in out[..j + 1][i];
      assert a in out[i];
      assert b in Emitted(out[..i + 1]);
      assert out[..j + 1][..i + 1] == out[..i + 1];
      EmittedPrefix(out[..j + 1], i + 1);
    }
    assert x in out[..j + 1][j];
    ReachStaysIn(g, s, x, y);
  }

  // A complete layered list with its components put in order is the component sort.
  lemma LayeredIsSort(g: Graph, out: seq<seq<ObjectId>>, sorted: seq<seq<ObjectId>>)
    requires Layered(g, out) && Emitted(out) == g.Keys
    requires |sorted| == |out|
    requires forall k :: 0 <= k < |out| ==> Increasing(sorted[k]) && multiset(sorted[k]) == multiset(out[k])
    ensures IsComponentSort(g, sorted)
  {
    forall k, x | 0 <= k < |out| ensures x in sorted[k] <==> x in out[k] {
      assert x in multiset(sorted[k]) <==> x in multiset(out[k]);
    }
    assert Emitted(sorted) == Emitted(out);
    forall k | 0 <= k < |out| ensures sorted[k] != [] {
      assert out[k][0] in sorted[k];
    }
    forall j, k, x, y | 0 <= j < |out| && 0 <= k < |out| && x in out[j] && y in out[k] && Reach(g, x, y)
      ensures k <= j
    {
      LayeredReach(g, out, j, x, y);
      var i :| 0 <= i < j + 1 && y in out[..j + 1][i];
      assert y in out[i];
    }
    forall k, x, y | 0 <= k < |out| && x in out[k] && y in g && Mutual(g, x, y) ensures y in out[k] {
      var i :| 0 <= i < |out| && y in out[i];
      assert i <= k && k <= i;
    }
  }

  lemma LastOfIncreasing(s: seq<ObjectId>)
    requires Increasing(s) && s != []
    ensures var m := |s| - 1;
      && s[m] in s && Increasing(s[..m])
      && (forall x :: x in s ==> x <= s[m])
      && (forall x :: x in s[..m] <==> x in s && x != s[m])
  {
    var m := |s| - 1;
    assert s == s[..m] + [s[m]];
  }

  lemma SomeMember(s: seq<ObjectId>)
    ensures s == [] || exists x :: x in s
  {
    if s != [] {
      var x := s[0];
      assert x in s;
    }
  }

  lemma SameMembersSameOrder(s: seq<ObjectId>, t: seq<ObjectId>)
    requires Increasing(s) && Increasing(t) && forall x :: x in s <==> x in t
    ensures s == t
    decreases |s|
  {
    hide Increasing;
    if s != [] {
      LastOfIncreasing(s);
      var m, n := |s| - 1, |t| - 1;
      var last := s[m];
      assert last in s && last in t;
      LastOfIncreasing(t);
      var other := t[n];
      assert other in t && other in s;
      SameMembersSameOrder(s[..m], t[..n]);
      assert s == s[..m] + [s[m]] && t == t[..n] + [t[n]];
    } else {
      SomeMember(t);
    }
  }

  ghost predicate SameGraph(g: Graph, h: Graph) {
    g.Keys == h.Keys && forall x, y :: Edge(g, x, y) <==> Edge(h, x, y)
  }

  lemma SameGraphReach(g: Graph, h: Graph, x: ObjectId, y: ObjectId)
    requires SameGraph(g, h)
    ensures Reach(g, x, y) ==> Reach(h, x, y)
  {
    if Reach(g, x, y) {
      var p :| IsPath(g, p) && p[0] == x && p[|p| - 1] == y;
      assert IsPath(h, p);
    }
  }

  lemma EmittedMember(out: seq<seq<ObjectId>>, k: nat, x: ObjectId)
    requires k < |out| && x in out[k]
    ensures x in Emitted(out)
  {
  }

  // Every sort of the same graph, whatever the order it was explored in, has the same
  // components with their members in the same order.
  lemma SortsAgree(g: Graph, h: Graph, out: seq<seq<ObjectId>>, other: seq<seq<ObjectId>>, k: nat)
    requires SameGraph(g, h) && IsComponentSort(g, out) && IsComponentSort(h, other) && k < |out|
    ensures out[k] in other
  {
    hide Reach, Edge, SameGraph, Emitted;
    assert g.Keys == h.Keys && out[k] != [] && SameGraph(h, g) by { SameKeys(g, h); }
    var x := out[k][0];
    EmittedMember(out, k, x);
    var j := EmittedWhere(other, x);
    forall y ensures y in out[k] <==> y in other[j] {
      SameGraphReach(g, h, x, y);
      SameGraphReach(g, h, y, x);
      SameGraphReach(h, g, x, y);
      SameGraphReach(h, g, y, x);
      if y in out[k] {
        EmittedMember(out, k, y);
      }
      if y in other[j] {
        EmittedMember(other, j, y);
      }
    }
    SameMembersSameOrder(out[k], other[j]);
  }

  lemma SameKeys(g: Graph, h: Graph)
    requires SameGraph(g, h)
    ensures g.Keys == h.Keys && SameGraph(h, g)
  {
  }

  lemma EmittedWhere(out: seq<seq<ObjectId>>, x: ObjectId) returns (j: nat)
    requires x in Emitted(out)
    ensures j < |out| && x in out[j]
  {
    j :| 0 <= j < |out| && x in out[j];
  }
}
