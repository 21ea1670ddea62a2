/** Reading document queues: prerequisites, and leftover tokens to pull. */
module TxnTokens {
  import opened Graphs
  import opened TxnQueue

  function QueueAt(queue: Queues, d: DocKey): seq<Token> {
    if d in queue then queue[d] else []
  }

  // Another transaction's token stands before the first tt of the queue, or anywhere in a
  // queue without tt.
  ghost predicate Waiting(q: seq<Token>, tt: Token) {
    exists i :: 0 <= i < |q| && q[i].id != tt.id && tt !in q[..i]
  }

  // Prerequisites are the foreign tokens ahead of tt; found tells that tt is on every queue.
  method HasPreReqs(queue: Queues, tt: Token, dkeys: seq<DocKey>) returns (prereqs: bool, found: bool)
    ensures found <==> forall k :: 0 <= k < |dkeys| ==> tt in QueueAt(queue, dkeys[k])
    ensures prereqs <==> exists k :: 0 <= k < |dkeys| && Waiting(QueueAt(queue, dkeys[k]), tt)
  {
    prereqs, found := false, true;
    for k := 0 to |dkeys|
      invariant found <==> forall m :: 0 <= m < k ==> tt in QueueAt(queue, dkeys[m])
      invariant prereqs <==> exists m :: 0 <= m < k && Waiting(QueueAt(queue, dkeys[m]), tt)
    {
      var q := QueueAt(queue, dkeys[k]);
      var waits, has := ScanQueue(q, tt);
      prereqs := prereqs || waits;
      found := found && has;
    }
  }

  // The inner loop, which leaves the queue at its first tt.
  method ScanQueue(q: seq<Token>, tt: Token) returns (waits: bool, has: bool)
    ensures has <==> tt in q
    ensures waits <==> Waiting(q, tt)
  {
    waits := false;
    for i := 0 to |q|
      invariant tt !in q[..i]
      invariant waits <==> exists j :: 0 <= j < i && q[j].id != tt.id
    {
      if q[i] == tt {
        forall j | i < j < |q| ensures tt in q[..j] {
          assert q[..j][i] == tt;
        }
        forall j | 0 <= j < i ensures tt !in q[..j] {
          assert q[..j] <= q[..i];
        }
        return waits, true;
      }
      if q[i].id != tt.id {
        waits := true;
      }
      assert q[..i + 1] == q[..i] + [q[i]];
    }
    assert q[..|q|] == q;
    forall j | 0 <= j < |q| ensures tt !in q[..j] {
      assert q[..j] <= q;
    }
    has := false;
  }

  function Pulled(q: seq<Token>, pull: set<ObjectId>, dontPull: Token): seq<Token> {
    if q == [] then [] else
      var n := |q| - 1;
      (if q[n] != dontPull && q[n].id in pull then [q[n]] else []) + Pulled(q[..n], pull, dontPull)
  }

  method TokensToPull(dqueue: seq<Token>, pull: set<ObjectId>, dontPull: Token) returns (result: seq<Token>)
    ensures result == Pulled(dqueue, pull, dontPull)
    ensures forall tt :: tt in result <==> tt in dqueue && tt != dontPull && tt.id in pull
  {
    hide Pulled;
    result := [];
    var j: nat := |dqueue|;
    assert dqueue[..j] == dqueue;
    while j > 0
      invariant 0 <= j <= |dqueue|
      invariant Pulled(dqueue, pull, dontPull) == result + Pulled(dqueue[..j], pull, dontPull)
    {
      PulledLast(dqueue[..j], pull, dontPull);
      j := j - 1;
      assert dqueue[..j + 1][..j] == dqueue[..j];
      if dqueue[j] != dontPull && dqueue[j].id in pull {
        result := result + [dqueue[j]];
      }
    }
    PulledNone(pull, dontPull);
    assert dqueue[..0] == [] && result + [] == result;
    forall tt ensures tt in result <==> tt in dqueue && tt != dontPull && tt.id in pull {
      PulledHas(dqueue, pull, dontPull, tt);
    }
  }

  lemma PulledNone(pull: set<ObjectId>, dontPull: Token)
    ensures Pulled([], pull, dontPull) == []
  {
  }

  lemma PulledLast(q: seq<Token>, pull: set<ObjectId>, dontPull: Token)
    requires q != []
    ensures var n := |q| - 1;
      Pulled(q, pull, dontPull) ==
        (if q[n] != dontPull && q[n].id in pull then [q[n]] else []) + Pulled(q[..n], pull, dontPull)
  {
  }

  lemma {:induction false} PulledHas(q: seq<Token>, pull: set<ObjectId>, dontPull: Token, tt: Token)
    ensures tt in Pulled(q, pull, dontPull) <==> tt in q && tt != dontPull && tt.id in pull
  {
    if q != [] {
      var n := |q| - 1;
      assert q == q[..n] + [q[n]];
      PulledHas(q[..n], pull, dontPull, tt);
    }
  }
}
