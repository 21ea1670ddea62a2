/** Document revision numbers: their sign, their order, and the vector a transaction runs on. */
module TxnRevnos {
  import opened TxnQueue

  // The mutation an operation carries; at most one is ever set.
  datatype Change = NoChange | Insert | Update | Remove

  // missing tells that the operation asserts the absence of its document.
  datatype Op = Op(key: DocKey, change: Change, missing: bool)

  // A document is present when its revision is not negative, and stashed or missing otherwise.
  predicate Present(revno: int) {
    revno >= 0
  }

  // The operation takes effect on a document of this revision.
  predicate Effective(change: Change, revno: int) {
    match change
    case NoChange => false
    case Insert => !Present(revno)
    case Update => Present(revno)
    case Remove => Present(revno)
  }

  // The revision after the operation.
  function NextRevno(change: Change, revno: int): int {
    if !Effective(change, revno) then revno
    else match change
      case Insert => -revno + 1
      case Update => revno + 1
      case Remove => -revno - 1
      case NoChange => revno
  }

  function Abs(x: int): nat {
    if x < 0 then -x else x
  }

  // An effective operation raises the size of the revision by one, and leaves the document
  // present unless it removes it; any other leaves the revision alone.
  lemma EffectRaises(change: Change, revno: int)
    ensures Effective(change, revno) ==> Abs(NextRevno(change, revno)) == Abs(revno) + 1
    ensures Effective(change, revno) ==> (Present(NextRevno(change, revno)) <==> change != Remove)
    ensures !Effective(change, revno) ==> NextRevno(change, revno) == revno
  {
  }

  // A missing entry of a Go map reads as zero.
  function RevnoOf(revno: map<DocKey, int>, d: DocKey): int {
    if d in revno then revno[d] else 0
  }

  // The revisions after the operations ran in order.
  function RunOps(ops: seq<Op>, revno: map<DocKey, int>): map<DocKey, int> {
    if ops == [] then revno else
      var before := RunOps(ops[..|ops| - 1], revno);
      var op := ops[|ops| - 1];
      before[op.key := NextRevno(op.change, RevnoOf(before, op.key))]
  }

  // Each entry is the revision its operation meets when those before it have run.
  ghost predicate IsVector(ops: seq<Op>, revno: map<DocKey, int>, revnos: seq<int>) {
    |revnos| == |ops| && forall i :: 0 <= i < |ops| ==> revnos[i] == RevnoOf(RunOps(ops[..i], revno), ops[i].key)
  }

  method AssembledRevnos(ops: seq<Op>, start: map<DocKey, int>) returns (revnos: seq<int>)
    ensures IsVector(ops, start, revnos)
  {
    hide RunOps;
    revnos := [];
    var revno := start;
    RunNothing(ops, start);
    for i := 0 to |ops|
      invariant |revnos| == i
      invariant forall d :: RevnoOf(revno, d) == RevnoOf(RunOps(ops[..i], start), d)
      invariant forall k :: 0 <= k < i ==> revnos[k] == RevnoOf(RunOps(ops[..k], start), ops[k].key)
    {
      var op := ops[i];
      var drevno := RevnoOf(revno, op.key);
      revnos := revnos + [drevno];
      RunOneMore(ops, start, i);
      ghost var before, reference := revno, RunOps(ops[..i], start);
      if op.change == Insert && drevno < 0 {
        revno := revno[op.key := -drevno + 1];
      } else if op.change == Update && drevno >= 0 {
        revno := revno[op.key := drevno + 1];
      } else if op.change == Remove && drevno >= 0 {
        revno := revno[op.key := -drevno - 1];
      }
      forall d ensures RevnoOf(revno, d) == RevnoOf(RunOps(ops[..i + 1], start), d) {
        assert RevnoOf(before, d) == RevnoOf(reference, d);
      }
    }
  }

  lemma RunNothing(ops: seq<Op>, revno: map<DocKey, int>)
    ensures RunOps(ops[..0], revno) == revno
  {
  }

  lemma RunOneMore(ops: seq<Op>, revno: map<DocKey, int>, i: nat)
    requires i < |ops|
    ensures RunOps(ops[..i + 1], revno)
      == RunOps(ops[..i], revno)[ops[i].key := NextRevno(ops[i].change, RevnoOf(RunOps(ops[..i], revno), ops[i].key))]
  {
    assert ops[..i + 1][..i] == ops[..i];
  }

  // The vector is unique, so a method and a specification that produce one agree.
  function Vector(ops: seq<Op>, revno: map<DocKey, int>): (revnos: seq<int>)
    ensures IsVector(ops, revno, revnos)
  {
    seq(|ops|, i requires 0 <= i < |ops| => RevnoOf(RunOps(ops[..i], revno), ops[i].key))
  }

  // No earlier operation is on the same document.
  ghost predicate FirstTouch(ops: seq<Op>, i: nat)
    requires i < |ops|
  {
    forall j :: 0 <= j < i ==> ops[j].key != ops[i].key
  }

  lemma {:induction false} UntouchedKeeps(ops: seq<Op>, revno: map<DocKey, int>, d: DocKey)
    requires forall j :: 0 <= j < |ops| ==> ops[j].key != d
    ensures RevnoOf(RunOps(ops, revno), d) == RevnoOf(revno, d)
  {
    if ops != [] {
      UntouchedKeeps(ops[..|ops| - 1], revno, d);
    }
  }

  // The first operation on a document runs on the revision the document was read with.
  lemma FirstTouchReads(ops: seq<Op>, revno: map<DocKey, int>, i: nat)
    requires i < |ops| && FirstTouch(ops, i)
    ensures Vector(ops, revno)[i] == RevnoOf(revno, ops[i].key)
  {
    UntouchedKeeps(ops[..i], revno, ops[i].key);
  }

  // One guarded operation of apply, on revisions alone.
  function ApplyOp(op: Op, revno: int, docs: map<DocKey, int>): map<DocKey, int> {
    if Effective(op.change, revno) && RevnoOf(docs, op.key) == revno
    then docs[op.key := NextRevno(op.change, revno)] else docs
  }

  // It runs on the revision it is meant for and on no other, so a second time it does nothing.
  lemma OnlyOnItsRevision(op: Op, revno: int, docs: map<DocKey, int>, d: DocKey)
    ensures var after := ApplyOp(op, revno, docs);
      && (RevnoOf(docs, op.key) != revno ==> after == docs)
      && RevnoOf(after, d) ==
        (if d == op.key && RevnoOf(docs, d) == revno then NextRevno(op.change, revno) else RevnoOf(docs, d))
      && ApplyOp(op, revno, after) == after
  {
    EffectRaises(op.change, revno);
  }

  function ApplyAll(ops: seq<Op>, revnos: seq<int>, docs: map<DocKey, int>): map<DocKey, int>
    requires |ops| == |revnos|
  {
    if ops == [] then docs else
      var n := |ops| - 1;
      ApplyOp(ops[n], revnos[n], ApplyAll(ops[..n], revnos[..n], docs))
  }

  // Guarded by its vector, a transaction does to undisturbed documents exactly what running
  // its operations in order does: no operation misses.
  lemma {:induction false} VectorNeverMisses(ops: seq<Op>, docs: map<DocKey, int>, d: DocKey)
    ensures RevnoOf(ApplyAll(ops, Vector(ops, docs), docs), d) == RevnoOf(RunOps(ops, docs), d)
  {
    if ops != [] {
      var n := |ops| - 1;
      assert Vector(ops, docs)[..n] == Vector(ops[..n], docs) by {
        forall i | 0 <= i < n ensures Vector(ops, docs)[i] == Vector(ops[..n], docs)[i] {
          assert ops[..n][..i] == ops[..i];
        }
      }
      VectorNeverMisses(ops[..n], docs, d);
      VectorNeverMisses(ops[..n], docs, ops[n].key);
    }
  }
}
