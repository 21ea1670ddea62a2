/** An applied transaction is over: what was to be done was tried, and nothing is done later. */
module TxnFinal {
  import opened TxnQueue
  import opened TxnRevnos
  import opened Graphs
  import opened TxnProtocol
  import opened TxnSafety
  import opened TxnRuns

  // No first operation of an applied transaction on a document can still take effect: it was
  // not effective, its document has moved past its revision, or its token is gone.
  ghost predicate Final(s: State) {
    forall id :: id in s.records && s.records[id].state == Applied ==>
      Settled(s.docs, id, s.records[id], |s.records[id].ops|)
  }

  lemma SettledSame(docs: map<DocKey, Doc>, id: ObjectId, t: Record, r: Record, k: nat)
    requires Settled(docs, id, t, k) && r.ops == t.ops && r.revnos == t.revnos && r.nonce == t.nonce
    ensures Settled(docs, id, r, k)
  {
  }

  // A transaction that was applied before stays settled.
  lemma OldStaysFinal(s: State, s': State, id: ObjectId)
    requires Inv(s) && Final(s) && Forward(s, s') && id in s.records && s.records[id].state == Applied
    ensures id in s'.records && Settled(s'.docs, id, s'.records[id], |s'.records[id].ops|)
  {
    hide Settled, DocsForward, LogOk, NoncesOk, AgentOk;
    var r := s.records[id];
    assert RecordOk(s.docs, r) && RecordForward(r, s'.records[id]);
    SettledAgain(s.records, s.docs, s'.docs, id, r, |r.ops|);
    SettledSame(s'.docs, id, r, s'.records[id], |r.ops|);
  }

  // A record only becomes applied by an agent that has run all operations.
  lemma NewlyApplied(s: State, step: Step, id: ObjectId)
    requires Inv(s) && id in Perform(s, step).records && Perform(s, step).records[id].state == Applied
    requires !(id in s.records && s.records[id].state == Applied)
    ensures step.Act? && step.a in s.agents && s.agents[step.a].id == id && id in s.records
    ensures s.agents[step.a].pc == MarkApplied && step.move == SaveApplied
  {
    hide Inv;
    if step.Act? && step.a in s.agents && s.agents[step.a].id in s.records {
      var ag := s.agents[step.a];
      if !Writes(ag.pc) {
        hide DoAct;
        SameRecords(s, step.a, ag, step.move);
      }
    }
  }

  lemma MarkedIsSettled(s: State, a: nat)
    requires Inv(s) && a in s.agents && s.agents[a].pc == MarkApplied && s.agents[a].id in s.records
    ensures var id := s.agents[a].id;
      var r := DoMarkApplied(s, a, s.agents[a], SaveApplied).records[id];
      DoMarkApplied(s, a, s.agents[a], SaveApplied).docs == s.docs && Settled(s.docs, id, r, |r.ops|)
  {
    hide Settled, LogOk, NoncesOk, RecordOk;
    var ag := s.agents[a];
    ActsOk(s, a, ag);
    var r := DoMarkApplied(s, a, ag, SaveApplied).records[ag.id];
    SettledSame(s.docs, ag.id, ag.t, r, |ag.t.ops|);
  }

  lemma FinalKeeps(s: State, step: Step)
    requires Inv(s) && Final(s)
    ensures Final(Perform(s, step))
  {
    hide Inv, Perform, Settled, Forward;
    PerformKeeps(s, step);
    var s' := Perform(s, step);
    forall id | id in s'.records && s'.records[id].state == Applied
      ensures Settled(s'.docs, id, s'.records[id], |s'.records[id].ops|)
    {
      if id in s.records && s.records[id].state == Applied {
        OldStaysFinal(s, s', id);
      } else {
        NewlyApplied(s, step, id);
        MarkedIsSettled(s, step.a);
        MarkStep(s, step.a);
      }
    }
  }

  lemma MarkStep(s: State, a: nat)
    requires a in s.agents && s.agents[a].id in s.records && s.agents[a].pc == MarkApplied
    ensures Perform(s, Act(a, SaveApplied)) == DoMarkApplied(s, a, s.agents[a], SaveApplied)
  {
  }

  // Whenever a record is applied, every first operation on a document has been settled.
  lemma {:induction false} AppliedIsSettled(docs: map<DocKey, Doc>, steps: seq<Step>)
    ensures Final(After(Initial(docs), steps))
  {
    hide Perform, Inv;
    if steps != [] {
      var n := |steps| - 1;
      hide Final;
      AppliedIsSettled(docs, steps[..n]);
      RunKeeps(docs, steps[..n]);
      FinalKeeps(After(Initial(docs), steps[..n]), steps[n]);
    }
  }

  // The effect a step adds to the log is not of a first operation of an applied transaction.
  ghost predicate NotLate(s: State, s': State) {
    && s.log <= s'.log
    && forall p :: |s.log| <= p < |s'.log| && s'.log[p].id in s.records && s.records[s'.log[p].id].state == Applied ==>
         !FirstEffect(s, s'.log[p])
  }

  lemma HitNotLate(s: State, a: nat, move: Move)
    requires Inv(s) && Final(s) && a in s.agents && s.agents[a].id in s.records && s.agents[a].pc.ApplyingOp?
    ensures NotLate(s, DoApplyingOp(s, a, s.agents[a], s.agents[a].pc.k, move))
  {
    hide LogOk, NoncesOk, RecordOk;
    var ag := s.agents[a];
    ActsOk(s, a, ag);
    hide Inv;
    var r, k := s.records[ag.id], ag.pc.k;
    if r.state == Applied && k < |r.ops| && FirstTouch(r.ops, k) && k < |ag.t.revnos| {
      assert Past(s.docs, Token(ag.id, r.nonce), r.ops[k], r.revnos[k]);
      assert !Hits(s.docs, ag.id, ag.t, k);
    }
  }

  lemma StepNotLate(s: State, step: Step)
    requires Inv(s) && Final(s)
    ensures NotLate(s, Perform(s, step))
  {
    hide Inv, Final, DoAct;
    if step.Act? && step.a in s.agents && s.agents[step.a].id in s.records {
      ActNotLate(s, step.a, step.move);
    }
  }

  lemma ActNotLate(s: State, a: nat, move: Move)
    requires Inv(s) && Final(s) && a in s.agents && s.agents[a].id in s.records
    ensures NotLate(s, DoAct(s, a, s.agents[a], move))
  {
    hide Inv, Final;
    var ag := s.agents[a];
    if ag.pc.ApplyingOp? {
      hide DoApplyingOp, NotLate;
      HitNotLate(s, a, move);
    } else {
      SameLog(s, a, ag, move);
      hide DoAct;
    }
  }

  lemma SameLog(s: State, a: nat, ag: Agent, move: Move)
    requires ag.id in s.records && !ag.pc.ApplyingOp?
    ensures DoAct(s, a, ag, move).log == s.log
  {
  }

  // Once a transaction is applied, none of its first operations on a document takes effect any
  // more, however many runners are still applying it.
  lemma {:induction false} NothingAfterApplied(
      docs: map<DocKey, Doc>, steps: seq<Step>, n: nat, m: nat, id: ObjectId, p: nat)
    requires n <= m <= |steps| && id in At(docs, steps, n).records && At(docs, steps, n).records[id].state == Applied
    requires |At(docs, steps, n).log| <= p < |At(docs, steps, m).log| && At(docs, steps, m).log[p].id == id
    ensures !FirstEffect(At(docs, steps, m), At(docs, steps, m).log[p])
    decreases m - n
  {
    hide At, Inv, Final, Perform, NotLate;
    if n < m {
      var s, s' := At(docs, steps, m - 1), At(docs, steps, m);
      OneStep(docs, steps, m - 1);
      AppliedIsSettled(docs, steps[..m - 1]);
      AtIsAfter(docs, steps, m - 1);
      StepNotLate(s, steps[m - 1]);
      RecordsMoveForward(docs, steps, n, m - 1, id);
      LateFacts(s, s', id, p);
      if p < |s.log| {
        NothingAfterApplied(docs, steps, n, m - 1, id, p);
      }
    }
  }

  lemma LateFacts(s: State, s': State, id: ObjectId, p: nat)
    requires NotLate(s, s') && Forward(s, s') && p < |s'.log| && s'.log[p].id == id
    requires id in s.records && s.records[id].state == Applied
    ensures p < |s.log| ==> s.log[p] == s'.log[p]
    ensures FirstEffect(s', s'.log[p]) <==> FirstEffect(s, s'.log[p])
    ensures p >= |s.log| ==> !FirstEffect(s, s'.log[p])
  {
    assert RecordForward(s.records[id], s'.records[id]);
  }
}
