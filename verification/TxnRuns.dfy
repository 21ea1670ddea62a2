/** Safety of whole runs: any number of runners, any interleaving, crashes anywhere. */
module TxnRuns {
  import opened TxnQueue
  import opened TxnRevnos
  import opened Graphs
  import opened TxnProtocol
  import opened TxnSafety

  // The state of a run from the given documents after its first n steps.
  function At(docs: map<DocKey, Doc>, steps: seq<Step>, n: nat): State
    requires n <= |steps|
  {
    After(Initial(docs), steps[..n])
  }

  lemma InitialOk(docs: map<DocKey, Doc>)
    ensures Inv(Initial(docs))
  {
  }

  lemma {:induction false} RunKeeps(docs: map<DocKey, Doc>, steps: seq<Step>)
    ensures Inv(After(Initial(docs), steps))
  {
    hide Inv, Perform;
    if steps == [] {
      InitialOk(docs);
    } else {
      var n := |steps| - 1;
      RunKeeps(docs, steps[..n]);
      PerformKeeps(After(Initial(docs), steps[..n]), steps[n]);
    }
  }

  lemma OneStep(docs: map<DocKey, Doc>, steps: seq<Step>, n: nat)
    requires n < |steps|
    ensures At(docs, steps, n + 1) == Perform(At(docs, steps, n), steps[n])
    ensures Inv(At(docs, steps, n)) && Forward(At(docs, steps, n), At(docs, steps, n + 1))
  {
    hide Inv, Perform, Forward;
    assert steps[..n + 1][..n] == steps[..n];
    RunKeeps(docs, steps[..n]);
    PerformKeeps(At(docs, steps, n), steps[n]);
  }

  // A transaction record only moves forward; its nonce and its revno vector are set once.
  lemma {:induction false} RecordsMoveForward(docs: map<DocKey, Doc>, steps: seq<Step>, i: nat, j: nat, id: ObjectId)
    requires i <= j <= |steps| && id in At(docs, steps, i).records
    ensures id in At(docs, steps, j).records &&
      RecordForward(At(docs, steps, i).records[id], At(docs, steps, j).records[id])
    decreases j - i
  {
    hide At;
    if i < j {
      RecordsMoveForward(docs, steps, i, j - 1, id);
      OneStep(docs, steps, j - 1);
    }
  }

  // The only ways a record's state ever changes.
  predicate Successive(from: TxnState, to: TxnState) {
    match from
    case Preparing => to == Prepared
    case Prepared => to == Aborting || to == Applying
    case Aborting => to == Aborted
    case Applying => to == Applied
    case _ => false
  }

  ghost predicate SameOrNext(s: State, s': State, id: ObjectId) {
    && id in s.records && id in s'.records
    && (s'.records[id].state == s.records[id].state || Successive(s.records[id].state, s'.records[id].state))
  }

  // Every single step leaves a record's state or takes it to one of its successors.
  lemma RecordsStepByStep(docs: map<DocKey, Doc>, steps: seq<Step>, n: nat, id: ObjectId)
    requires n < |steps| && id in At(docs, steps, n).records
    ensures SameOrNext(At(docs, steps, n), At(docs, steps, n + 1), id)
  {
    hide Inv, Perform, SameOrNext, Forward, At;
    OneStep(docs, steps, n);
    PerformNext(At(docs, steps, n), steps[n], id);
  }

  lemma PerformNext(s: State, step: Step, id: ObjectId)
    requires Inv(s) && id in s.records
    ensures SameOrNext(s, Perform(s, step), id)
  {
    hide Inv, DoAct;
    if step.Act? && step.a in s.agents && s.agents[step.a].id in s.records {
      ActNext(s, step.a, step.move, id);
    }
  }

  predicate Writes(pc: Pc) {
    pc.Tokens? || pc == SettingAborting || pc == Pulling || pc.Checkpointing? || pc == MarkApplied
  }

  lemma ActNext(s: State, a: nat, move: Move, id: ObjectId)
    requires Inv(s) && a in s.agents && s.agents[a].id in s.records && id in s.records
    ensures SameOrNext(s, DoAct(s, a, s.agents[a], move), id)
  {
    var ag := s.agents[a];
    hide Inv, AgentOk, SameOrNext, DoTokens, DoSettingAborting, DoPulling, DoCheckpointing, DoMarkApplied;
    if Writes(ag.pc) {
      AbortsAborting(s, a);
      WritesNext(s, a, ag, move, id);
    } else {
      SameRecords(s, a, ag, move);
      SameRecordsNext(s, DoAct(s, a, ag, move), id);
    }
  }

  lemma WritesNext(s: State, a: nat, ag: Agent, move: Move, id: ObjectId)
    requires ag.id in s.records && id in s.records && Writes(ag.pc)
    requires ag.pc == Pulling ==> s.records[ag.id].state == Aborting || s.records[ag.id].state == Aborted
    ensures SameOrNext(s, DoAct(s, a, ag, move), id)
  {
    hide SameOrNext, DoTokens, DoSettingAborting, DoPulling, DoCheckpointing, DoMarkApplied;
    hide DoTop, DoLostPrepare, DoScanning, DoPrepped, DoLostAbort, DoLostCheckpoint, DoApplyingOp;
    match ag.pc
    case Tokens(nonce) => TokensNext(s, a, ag, nonce, move, id);
    case Pulling => PullingNext(s, a, ag, move, id);
    case _ => SavesNext(s, a, ag, move, id);
  }

  lemma SameRecordsNext(s: State, s': State, id: ObjectId)
    requires id in s.records && s'.records == s.records
    ensures SameOrNext(s, s', id)
  {
  }

  lemma TokensNext(s: State, a: nat, ag: Agent, nonce: string, move: Move, id: ObjectId)
    requires ag.id in s.records && id in s.records
    ensures SameOrNext(s, DoTokens(s, a, ag, nonce, move), id)
  {
  }

  lemma PullingNext(s: State, a: nat, ag: Agent, move: Move, id: ObjectId)
    requires ag.id in s.records && id in s.records
    requires s.records[ag.id].state == Aborting || s.records[ag.id].state == Aborted
    ensures SameOrNext(s, DoPulling(s, a, ag, move), id)
  {
  }

  lemma SavesNext(s: State, a: nat, ag: Agent, move: Move, id: ObjectId)
    requires ag.id in s.records && id in s.records
    ensures SameOrNext(s, DoSettingAborting(s, a, ag, move), id)
    ensures ag.pc.Checkpointing? ==> SameOrNext(s, DoCheckpointing(s, a, ag, ag.pc.vector, move), id)
    ensures SameOrNext(s, DoMarkApplied(s, a, ag, move), id)
  {
  }

  lemma AbortsAborting(s: State, a: nat)
    requires Inv(s) && a in s.agents && s.agents[a].id in s.records
    ensures s.agents[a].pc == Pulling ==>
      s.records[s.agents[a].id].state == Aborting || s.records[s.agents[a].id].state == Aborted
  {
  }

  lemma SameRecords(s: State, a: nat, ag: Agent, move: Move)
    requires ag.id in s.records && !Writes(ag.pc)
    ensures DoAct(s, a, ag, move).records == s.records
  {
  }

  // No transaction is ever both applying or applied and aborting or aborted.
  lemma NeverAppliedAndAborted(docs: map<DocKey, Doc>, steps: seq<Step>, i: nat, j: nat, id: ObjectId)
    requires i <= |steps| && j <= |steps| && id in At(docs, steps, i).records && id in At(docs, steps, j).records
    requires Running(At(docs, steps, i).records[id].state)
    ensures At(docs, steps, j).records[id].state != Aborting && At(docs, steps, j).records[id].state != Aborted
  {
    hide At;
    if i <= j {
      RecordsMoveForward(docs, steps, i, j, id);
    } else {
      RecordsMoveForward(docs, steps, j, i, id);
    }
  }

  // No run reaches a panic of the state machine: still preparing after a lost race, a wrong
  // state in rescan, assert, abort or apply, a missing nonce.
  lemma NoPanic(docs: map<DocKey, Doc>, steps: seq<Step>, a: nat)
    ensures a in After(Initial(docs), steps).agents ==> After(Initial(docs), steps).agents[a].pc != Panicked
  {
    hide After;
    RunKeeps(docs, steps);
  }

  // Why: in every run the copies are as these places of the code need them.
  lemma PanicsGuarded(docs: map<DocKey, Doc>, steps: seq<Step>, a: nat)
    requires a in After(Initial(docs), steps).agents
    ensures var s := After(Initial(docs), steps);
      var ag := s.agents[a];
      && ag.id in s.records && ag.t.ops == s.records[ag.id].ops && (ag.t.state == Preparing <==> ag.t.nonce == "")
      && match ag.pc
         case LostPrepare => s.records[ag.id].state != Preparing && s.records[ag.id].nonce != ""
         case Scanning => ag.t.state == Prepared
         case Prepped(_) => ag.t.state == Prepared
         case SettingAborting => ag.t.state == Prepared
         case ApplyingOp(_) => ag.t.state == Applying && |ag.t.revnos| == |ag.t.ops|
         case _ => true
  {
    hide After;
    RunKeeps(docs, steps);
  }

  // The unguarded update to aborted only ever meets a record that is aborting or aborted.
  lemma AbortWriteIsSafe(docs: map<DocKey, Doc>, steps: seq<Step>, a: nat)
    ensures var s := After(Initial(docs), steps);
      a in s.agents && s.agents[a].pc == Pulling ==>
        s.agents[a].id in s.records &&
          (s.records[s.agents[a].id].state == Aborting || s.records[s.agents[a].id].state == Aborted)
  {
    hide After;
    RunKeeps(docs, steps);
  }

  // Everyone who ever applies a transaction uses the same nonce and the same revno vector,
  // one on which no operation that asserts a missing document meets a present one.
  lemma OneVector(docs: map<DocKey, Doc>, steps: seq<Step>, i: nat, j: nat, a: nat, b: nat)
    requires i <= j <= |steps| && a in At(docs, steps, i).agents && b in At(docs, steps, j).agents
    requires At(docs, steps, i).agents[a].pc.ApplyingOp? && At(docs, steps, j).agents[b].pc.ApplyingOp?
    requires At(docs, steps, i).agents[a].id == At(docs, steps, j).agents[b].id
    ensures At(docs, steps, i).agents[a].t.nonce == At(docs, steps, j).agents[b].t.nonce != ""
    ensures At(docs, steps, i).agents[a].t.revnos == At(docs, steps, j).agents[b].t.revnos
    ensures var t := At(docs, steps, i).agents[a].t;
      |t.revnos| == |t.ops| && forall k :: 0 <= k < |t.ops| && t.ops[k].missing ==> t.revnos[k] < 0
  {
    RunKeeps(docs, steps[..i]);
    RunKeeps(docs, steps[..j]);
    hide At, Settled, Grounded, MissingHolds, LogOk, NoncesOk;
    var s, s', id := At(docs, steps, i), At(docs, steps, j), At(docs, steps, i).agents[a].id;
    assert Inv(s) && Inv(s') by { AtIsAfter(docs, steps, i); AtIsAfter(docs, steps, j); }
    RecordsMoveForward(docs, steps, i, j, id);
    ActsOk(s, a, s.agents[a]);
    ActsOk(s', b, s'.agents[b]);
    Missing(s.agents[a].t);
  }

  lemma Missing(t: Record)
    ensures MissingHolds(t.ops, t.revnos) <==>
      |t.revnos| == |t.ops| && forall k :: 0 <= k < |t.ops| && t.ops[k].missing ==> t.revnos[k] < 0
  {
  }

  lemma AtIsAfter(docs: map<DocKey, Doc>, steps: seq<Step>, i: nat)
    requires i <= |steps|
    ensures At(docs, steps, i) == After(Initial(docs), steps[..i])
  {
  }

  // Documents are changed only by transactions that are applying or applied.
  lemma EffectsOnlyWhenRunning(docs: map<DocKey, Doc>, steps: seq<Step>, p: nat)
    requires p < |After(Initial(docs), steps).log|
    ensures var s := After(Initial(docs), steps); s.log[p].id in s.records && Running(s.records[s.log[p].id].state)
  {
    hide After;
    RunKeeps(docs, steps);
  }

  // However often and by however many runners a transaction is applied, each operation takes
  // effect at most once.
  lemma AtMostOnce(docs: map<DocKey, Doc>, steps: seq<Step>, p: nat, q: nat)
    requires p < q < |After(Initial(docs), steps).log|
    ensures var log := After(Initial(docs), steps).log; log[p].id == log[q].id ==> log[p].op != log[q].op
  {
    hide After;
    RunKeeps(docs, steps);
    var s := After(Initial(docs), steps);
    assert InOrder(s.records, s.log[p], s.log[q]);
  }

  // The effect is of the first operation of its transaction on the document.
  ghost predicate FirstEffect(s: State, e: Effect) {
    e.id in s.records && e.op < |s.records[e.id].ops| && FirstTouch(s.records[e.id].ops, e.op)
  }

  // The first operations on their documents take effect in the order of the transaction.
  lemma EffectsInOrder(docs: map<DocKey, Doc>, steps: seq<Step>, p: nat, q: nat)
    requires p < q < |After(Initial(docs), steps).log|
    ensures var s := After(Initial(docs), steps);
      var e, f := s.log[p], s.log[q];
      e.id == f.id && e.id in s.records && FirstEffect(s, e) && FirstEffect(s, f) ==> e.op < f.op
  {
    hide After;
    RunKeeps(docs, steps);
    var s := After(Initial(docs), steps);
    assert InOrder(s.records, s.log[p], s.log[q]);
  }

  // The log entry is the whole change of the documents' revisions.
  ghost predicate Changes(s: State, s': State, e: Effect) {
    && s'.log == s.log + [e] && e.id in s.records && e.op < |s.records[e.id].ops|
    && var op := s.records[e.id].ops[e.op];
    && Effective(op.change, e.revno) && Revno(s.docs, op.key) == e.revno
    && forall d :: Revno(s'.docs, d) == if d == op.key then NextRevno(op.change, e.revno) else Revno(s.docs, d)
  }

  ghost predicate Explained(s: State, s': State) {
    || (s'.log == s.log && forall d :: Revno(s'.docs, d) == Revno(s.docs, d))
    || exists e :: Changes(s, s', e)
  }

  lemma HitExplained(s: State, a: nat, ag: Agent, k: nat, move: Move)
    requires Acts(s, a, ag) && ag.pc == ApplyingOp(k)
    ensures Explained(s, DoApplyingOp(s, a, ag, k, move))
  {
    hide Inv, RecordOk;
    ActsOk(s, a, ag);
    var s' := DoApplyingOp(s, a, ag, k, move);
    if s'.log != s.log {
      assert Changes(s, s', Effect(ag.id, k, ag.t.revnos[k]));
    }
  }

  lemma QueuesOnly(s: State, a: nat, ag: Agent, move: Move)
    requires ag.id in s.records
    ensures ag.pc.Tokens? ==> Explained(s, DoTokens(s, a, ag, ag.pc.nonce, move))
    ensures Explained(s, DoPulling(s, a, ag, move))
  {
  }

  lemma ActExplained(s: State, a: nat, move: Move)
    requires Inv(s) && a in s.agents && s.agents[a].id in s.records
    ensures Explained(s, DoAct(s, a, s.agents[a], move))
  {
    var ag := s.agents[a];
    if ag.pc.ApplyingOp? {
      hide DoApplyingOp, Inv, Explained;
      HitExplained(s, a, ag, ag.pc.k, move);
    } else if ag.pc.Tokens? || ag.pc == Pulling {
      hide DoTokens, DoPulling, Inv, Explained;
      QueuesOnly(s, a, ag, move);
    } else {
      hide Inv, DoTokens, DoPulling, DoApplyingOp;
      SameDocs(s, a, ag, move);
    }
  }

  lemma SameDocs(s: State, a: nat, ag: Agent, move: Move)
    requires ag.id in s.records && !ag.pc.ApplyingOp? && !ag.pc.Tokens? && ag.pc != Pulling
    ensures DoAct(s, a, ag, move).docs == s.docs && DoAct(s, a, ag, move).log == s.log
  {
  }

  lemma StepExplained(s: State, step: Step)
    requires Inv(s)
    ensures Explained(s, Perform(s, step))
  {
    hide Inv, DoAct;
    if step.Act? && step.a in s.agents && s.agents[step.a].id in s.records {
      hide Explained;
      ActExplained(s, step.a, step.move);
    }
  }

  // The revision of a document after the logged effects, in order.
  function Replay(rs: map<ObjectId, Record>, docs: map<DocKey, Doc>, log: seq<Effect>, d: DocKey): int {
    if log == [] then Revno(docs, d) else
      var n := |log| - 1;
      var before := Replay(rs, docs, log[..n], d);
      if log[n].id in rs && log[n].op < |rs[log[n].id].ops| && rs[log[n].id].ops[log[n].op].key == d
      then NextRevno(rs[log[n].id].ops[log[n].op].change, before) else before
  }

  lemma {:induction false} ReplayForward(
      rs: map<ObjectId, Record>, rs': map<ObjectId, Record>, docs: map<DocKey, Doc>, log: seq<Effect>, d: DocKey)
    requires RecordsForward(rs, rs') && forall p :: 0 <= p < |log| ==> log[p].id in rs
    ensures Replay(rs', docs, log, d) == Replay(rs, docs, log, d)
  {
    if log != [] {
      var n := |log| - 1;
      assert log[n].id in rs;
      ReplayForward(rs, rs', docs, log[..n], d);
    }
  }

  // The logged effects account for every change of every document: its revision is always
  // the initial one with the effects replayed in order.
  lemma {:induction false} LogAccountsForDocuments(docs: map<DocKey, Doc>, steps: seq<Step>, d: DocKey)
    ensures var s := After(Initial(docs), steps); Revno(s.docs, d) == Replay(s.records, docs, s.log, d)
  {
    hide Perform, Inv, RecordsForward, DocsForward;
    if steps != [] {
      var n := |steps| - 1;
      var s, s' := After(Initial(docs), steps[..n]), After(Initial(docs), steps);
      LogAccountsForDocuments(docs, steps[..n], d);
      RunKeeps(docs, steps[..n]);
      PerformKeeps(s, steps[n]);
      StepExplained(s, steps[n]);
      LogIds(s);
      ReplayForward(s.records, s'.records, docs, s.log, d);
      ReplayOneMore(s, s', docs, d);
    }
  }

  lemma LogIds(s: State)
    requires Inv(s)
    ensures forall p :: 0 <= p < |s.log| ==> s.log[p].id in s.records
  {
  }

  lemma ReplayOneMore(s: State, s': State, docs: map<DocKey, Doc>, d: DocKey)
    requires Explained(s, s') && RecordsForward(s.records, s'.records)
    requires Replay(s'.records, docs, s.log, d) == Revno(s.docs, d)
    ensures Revno(s'.docs, d) == Replay(s'.records, docs, s'.log, d)
  {
    if s'.log != s.log {
      var e :| Changes(s, s', e);
      assert s'.log[..|s.log|] == s.log;
      assert RecordForward(s.records[e.id], s'.records[e.id]);
    } else {
      assert forall e :: Changes(s, s', e) ==> |s'.log| == |s.log| + 1;
    }
  }
}
