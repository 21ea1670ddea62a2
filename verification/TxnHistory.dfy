/** What a vector is made of: revisions that its documents once had. */
module TxnHistory {
  import opened TxnQueue
  import opened TxnRevnos
  import opened Graphs
  import opened TxnProtocol
  import opened TxnSafety
  import opened TxnRuns
  import TxnComplete

  // At some time of the run the document was at this revision.
  ghost predicate WasAt(docs: map<DocKey, Doc>, steps: seq<Step>, d: DocKey, revno: int) {
    exists n: nat :: n <= |steps| && Revno(At(docs, steps, n).docs, d) == revno
  }

  // All revisions collected so far were read.
  ghost predicate AllWere(docs: map<DocKey, Doc>, steps: seq<Step>, revno: map<DocKey, int>) {
    forall d :: d in revno ==> WasAt(docs, steps, d, revno[d])
  }

  // Each first operation on a document has a revision that the document had.
  ghost predicate VectorWas(docs: map<DocKey, Doc>, steps: seq<Step>, ops: seq<Op>, revnos: seq<int>) {
    |revnos| == |ops| && forall i :: 0 <= i < |ops| && FirstTouch(ops, i) ==> WasAt(docs, steps, ops[i].key, revnos[i])
  }

  ghost predicate AgentWas(docs: map<DocKey, Doc>, steps: seq<Step>, ag: Agent) {
    && AllWere(docs, steps, ag.revno)
    && (ag.pc.Prepped? ==> VectorWas(docs, steps, ag.t.ops, ag.pc.vector))
    && (ag.pc.Checkpointing? ==> VectorWas(docs, steps, ag.t.ops, ag.pc.vector))
  }

  ghost predicate HistoryKept(docs: map<DocKey, Doc>, steps: seq<Step>, s: State) {
    && (forall a :: a in s.agents ==> AgentWas(docs, steps, s.agents[a]))
    && (forall id :: id in s.records && Running(s.records[id].state) ==>
         VectorWas(docs, steps, s.records[id].ops, s.records[id].revnos))
  }

  lemma WasAgain(docs: map<DocKey, Doc>, steps: seq<Step>, step: Step, d: DocKey, revno: int)
    requires WasAt(docs, steps, d, revno)
    ensures WasAt(docs, steps + [step], d, revno)
  {
    var n: nat :| n <= |steps| && Revno(At(docs, steps, n).docs, d) == revno;
    assert (steps + [step])[..n] == steps[..n];
    assert Revno(At(docs, steps + [step], n).docs, d) == revno;
  }

  lemma AllWereAgain(docs: map<DocKey, Doc>, steps: seq<Step>, step: Step, revno: map<DocKey, int>)
    requires AllWere(docs, steps, revno)
    ensures AllWere(docs, steps + [step], revno)
  {
    forall d | d in revno ensures WasAt(docs, steps + [step], d, revno[d]) {
      WasAgain(docs, steps, step, d, revno[d]);
    }
  }

  lemma VectorWasAgain(docs: map<DocKey, Doc>, steps: seq<Step>, step: Step, ops: seq<Op>, revnos: seq<int>)
    requires VectorWas(docs, steps, ops, revnos)
    ensures VectorWas(docs, steps + [step], ops, revnos)
  {
    forall i | 0 <= i < |ops| && FirstTouch(ops, i) ensures WasAt(docs, steps + [step], ops[i].key, revnos[i]) {
      WasAgain(docs, steps, step, ops[i].key, revnos[i]);
    }
  }

  lemma AgentWasAgain(docs: map<DocKey, Doc>, steps: seq<Step>, step: Step, ag: Agent)
    requires AgentWas(docs, steps, ag)
    ensures AgentWas(docs, steps + [step], ag)
  {
    hide WasAt, AllWere, VectorWas;
    AllWereAgain(docs, steps, step, ag.revno);
    if ag.pc.Prepped? || ag.pc.Checkpointing? {
      VectorWasAgain(docs, steps, step, ag.t.ops, ag.pc.vector);
    }
  }

  // A vector made of revisions that were read.
  lemma MadeOf(docs: map<DocKey, Doc>, steps: seq<Step>, ops: seq<Op>, revno: map<DocKey, int>)
    requires AllWere(docs, steps, revno) && forall i :: 0 <= i < |ops| ==> ops[i].key in revno
    ensures VectorWas(docs, steps, ops, Vector(ops, revno))
  {
    forall i | 0 <= i < |ops| && FirstTouch(ops, i)
      ensures WasAt(docs, steps, ops[i].key, Vector(ops, revno)[i])
    {
      FirstTouchReads(ops, revno, i);
    }
  }

  // The revision read in this step is that of the document now.
  lemma ReadHere(docs: map<DocKey, Doc>, steps: seq<Step>, d: DocKey)
    ensures WasAt(docs, steps, d, Revno(At(docs, steps, |steps|).docs, d))
  {
  }

  lemma LastState(docs: map<DocKey, Doc>, steps: seq<Step>)
    ensures At(docs, steps, |steps|) == After(Initial(docs), steps)
  {
    assert steps[..|steps|] == steps;
  }

  lemma MoreRead(docs: map<DocKey, Doc>, steps: seq<Step>, step: Step, s: State, revno: map<DocKey, int>, d: DocKey)
    requires s == After(Initial(docs), steps) && AllWere(docs, steps, revno)
    ensures AllWere(docs, steps + [step], revno[d := Revno(s.docs, d)])
  {
    hide WasAt;
    LastState(docs, steps);
    ReadHere(docs, steps, d);
    AllWereAgain(docs, steps, step, revno);
    WasAgain(docs, steps, step, d, Revno(s.docs, d));
  }

  ghost predicate Acting(docs: map<DocKey, Doc>, steps: seq<Step>, s: State, a: nat, ag: Agent) {
    && s == After(Initial(docs), steps) && a in s.agents && s.agents[a] == ag && ag.id in s.records
    && AgentWas(docs, steps, ag)
  }

  lemma CollectingWas(docs: map<DocKey, Doc>, steps: seq<Step>, s: State, a: nat, ag: Agent, move: Move)
    requires Acting(docs, steps, s, a, ag) && ag.pc.Tokens?
    ensures var s' := DoAct(s, a, ag, move);
      a in s'.agents ==> AgentWas(docs, steps + [Act(a, move)], s'.agents[a])
  {
    hide WasAt, AllWere, VectorWas, Vector, PullFrom, After;
    var step := Act(a, move);
    AgentWasAgain(docs, steps, step, ag);
    if move.PutToken? {
      MoreRead(docs, steps, step, s, ag.revno, move.d);
    }
    NothingWas(docs, steps + [step]);
    if forall i :: 0 <= i < |ag.t.ops| ==> ag.t.ops[i].key in ag.revno {
      MadeOf(docs, steps + [step], ag.t.ops, ag.revno);
    }
  }

  lemma ScanningWas(docs: map<DocKey, Doc>, steps: seq<Step>, s: State, a: nat, ag: Agent, move: Move)
    requires Acting(docs, steps, s, a, ag) && (ag.pc == Scanning || ag.pc == LostPrepare)
    ensures var s' := DoAct(s, a, ag, move);
      a in s'.agents ==> AgentWas(docs, steps + [Act(a, move)], s'.agents[a])
  {
    hide WasAt, AllWere, VectorWas, Vector, PullFrom;
    var step := Act(a, move);
    AgentWasAgain(docs, steps, step, ag);
    if move.ReadDoc? {
      MoreRead(docs, steps, step, s, ag.revno, move.d);
    }
    NothingWas(docs, steps + [step]);
    if forall i :: 0 <= i < |ag.t.ops| ==> ag.t.ops[i].key in ag.revno {
      MadeOf(docs, steps + [step], ag.t.ops, ag.revno);
    }
  }

  lemma NothingWas(docs: map<DocKey, Doc>, steps: seq<Step>)
    ensures AllWere(docs, steps, map[])
  {
  }

  lemma OtherWas(docs: map<DocKey, Doc>, steps: seq<Step>, s: State, a: nat, ag: Agent, move: Move)
    requires Acting(docs, steps, s, a, ag) && !ag.pc.Tokens? && ag.pc != Scanning && ag.pc != LostPrepare
    ensures var s' := DoAct(s, a, ag, move);
      a in s'.agents ==> AgentWas(docs, steps + [Act(a, move)], s'.agents[a])
  {
    hide WasAt, AllWere, VectorWas, Vector, PullFrom, Hits, After;
    AgentWasAgain(docs, steps, Act(a, move), ag);
    NothingWas(docs, steps + [Act(a, move)]);
  }

  lemma AgentStep(docs: map<DocKey, Doc>, steps: seq<Step>, s: State, step: Step, b: nat)
    requires Inv(s) && s == After(Initial(docs), steps) && HistoryKept(docs, steps, s) && b in Perform(s, step).agents
    ensures AgentWas(docs, steps + [step], Perform(s, step).agents[b])
  {
    hide Inv, After, DoAct, StepOk, AgentWas;
    if step.Act? && step.a in s.agents && s.agents[step.a].id in s.records {
      var ag := s.agents[step.a];
      if b == step.a {
        if ag.pc.Tokens? {
          CollectingWas(docs, steps, s, b, ag, step.move);
        } else if ag.pc == Scanning || ag.pc == LostPrepare {
          ScanningWas(docs, steps, s, b, ag, step.move);
        } else {
          OtherWas(docs, steps, s, b, ag, step.move);
        }
      } else {
        ActKeeps(s, step.a, step.move);
        TxnComplete.OthersStay(s, Perform(s, step), step.a, ag.id, b);
        AgentWasAgain(docs, steps, step, s.agents[b]);
      }
    } else if b in s.agents {
      AgentWasAgain(docs, steps, step, s.agents[b]);
    } else {
      FreshWas(docs, steps + [step], Perform(s, step).agents[b]);
    }
  }

  lemma FreshWas(docs: map<DocKey, Doc>, steps: seq<Step>, ag: Agent)
    requires ag.pc == Top && ag.revno == map[]
    ensures AgentWas(docs, steps, ag)
  {
  }

  lemma RecordStep(docs: map<DocKey, Doc>, steps: seq<Step>, s: State, step: Step, id: ObjectId)
    requires Inv(s) && s == After(Initial(docs), steps) && HistoryKept(docs, steps, s)
    requires id in Perform(s, step).records && Running(Perform(s, step).records[id].state)
    ensures VectorWas(docs, steps + [step], Perform(s, step).records[id].ops, Perform(s, step).records[id].revnos)
  {
    hide Inv, After, Perform, VectorWas, AllWere;
    var s' := Perform(s, step);
    if id in s.records && Running(s.records[id].state) {
      PerformKeeps(s, step);
      assert RecordForward(s.records[id], s'.records[id]);
      VectorWasAgain(docs, steps, step, s.records[id].ops, s.records[id].revnos);
    } else {
      TxnComplete.NewlyRunning(s, step, id);
      var ag := s.agents[step.a];
      assert AgentWas(docs, steps, ag);
      assert step == Act(step.a, SaveApplying);
      Checkpointed(s, step.a, ag);
      VectorWasAgain(docs, steps, step, ag.t.ops, ag.pc.vector);
    }
  }

  lemma Checkpointed(s: State, a: nat, ag: Agent)
    requires Inv(s) && a in s.agents && s.agents[a] == ag && ag.id in s.records
    requires ag.pc.Checkpointing? && s.records[ag.id].state == Prepared
    ensures var s' := Perform(s, Act(a, SaveApplying));
      ag.id in s'.records && s'.records[ag.id].ops == ag.t.ops && s'.records[ag.id].revnos == ag.pc.vector
  {
    hide Grounded, MissingHolds;
    ActsOk(s, a, ag);
    hide Inv;
  }

  lemma {:induction false} HistoryRuns(docs: map<DocKey, Doc>, steps: seq<Step>)
    ensures HistoryKept(docs, steps, After(Initial(docs), steps))
  {
    hide Perform, AgentWas, VectorWas, Inv;
    if steps != [] {
      var n := |steps| - 1;
      var s, step := After(Initial(docs), steps[..n]), steps[n];
      HistoryRuns(docs, steps[..n]);
      RunKeeps(docs, steps[..n]);
      assert steps[..n] + [step] == steps;
      var s' := Perform(s, step);
      assert After(Initial(docs), steps) == s';
      hide After;
      forall b | b in s'.agents ensures AgentWas(docs, steps, s'.agents[b]) {
        AgentStep(docs, steps[..n], s, step, b);
      }
      forall id | id in s'.records && Running(s'.records[id].state)
        ensures VectorWas(docs, steps, s'.records[id].ops, s'.records[id].revnos)
      {
        RecordStep(docs, steps[..n], s, step, id);
      }
    }
  }

  // In every run the vector of a transaction that is applying or applied gives each first
  // operation on a document a revision that this document had at some time of the run.
  lemma VectorWasRead(docs: map<DocKey, Doc>, steps: seq<Step>, id: ObjectId, i: nat)
    requires id in After(Initial(docs), steps).records && Running(After(Initial(docs), steps).records[id].state)
    requires i < |After(Initial(docs), steps).records[id].ops|
    requires FirstTouch(After(Initial(docs), steps).records[id].ops, i)
    ensures var r := After(Initial(docs), steps).records[id];
      && |r.revnos| == |r.ops|
      && exists n: nat :: n <= |steps| && Revno(At(docs, steps, n).docs, r.ops[i].key) == r.revnos[i]
  {
    hide After;
    HistoryRuns(docs, steps);
    assert WasAt(docs, steps, After(Initial(docs), steps).records[id].ops[i].key,
      After(Initial(docs), steps).records[id].revnos[i]);
  }

  // The activation read the document itself at time n, putting its token on or rescanning, and
  // was at that place of the code from then on.
  ghost predicate ReadAt(docs: map<DocKey, Doc>, steps: seq<Step>, a: nat, d: DocKey, revno: int, pc: Pc, n: nat) {
    && n < |steps| && (steps[n] == Act(a, PutToken(d)) || steps[n] == Act(a, ReadDoc(d)))
    && Revno(At(docs, steps, n).docs, d) == revno
    && forall m: nat :: n <= m <= |steps| ==> StandsAt(At(docs, steps, m), a, pc)
  }

  predicate StandsAt(s: State, a: nat, pc: Pc) {
    a in s.agents && s.agents[a].pc == pc
  }

  predicate Collecting(pc: Pc) {
    pc.Tokens? || pc == Scanning
  }

  // In a step from s to s' the revision collected for the document stayed, or it was read.
  ghost predicate ReadOrKept(s: State, step: Step, s': State, a: nat, d: DocKey) {
    a in s'.agents && Collecting(s'.agents[a].pc) && d in s'.agents[a].revno ==>
      && a in s.agents && s.agents[a].pc == s'.agents[a].pc
      && ((d in s.agents[a].revno && s.agents[a].revno[d] == s'.agents[a].revno[d])
        || ((step == Act(a, PutToken(d)) || step == Act(a, ReadDoc(d))) && s'.agents[a].revno[d] == Revno(s.docs, d)))
  }

  lemma CollectingReads(s: State, a: nat, ag: Agent, move: Move, d: DocKey)
    requires a in s.agents && s.agents[a] == ag && ag.id in s.records && Collecting(ag.pc)
    ensures ReadOrKept(s, Act(a, move), DoAct(s, a, ag, move), a, d)
  {
    hide Vector, PullFrom;
  }

  lemma OtherReads(s: State, a: nat, ag: Agent, move: Move, d: DocKey)
    requires a in s.agents && s.agents[a] == ag && ag.id in s.records && !Collecting(ag.pc)
    ensures ReadOrKept(s, Act(a, move), DoAct(s, a, ag, move), a, d)
  {
    hide Vector, PullFrom, Hits, MissingHolds, NextRevno;
  }

  lemma StepReads(s: State, step: Step, a: nat, d: DocKey)
    requires Inv(s)
    ensures ReadOrKept(s, step, Perform(s, step), a, d)
  {
    hide Inv, DoAct, StepOk;
    if step.Act? && step.a in s.agents && s.agents[step.a].id in s.records && a in Perform(s, step).agents {
      if a != step.a {
        ActKeeps(s, step.a, step.move);
        TxnComplete.OthersStay(s, Perform(s, step), step.a, s.agents[step.a].id, a);
      } else if Collecting(s.agents[a].pc) {
        CollectingReads(s, a, s.agents[a], step.move, d);
      } else {
        OtherReads(s, a, s.agents[a], step.move, d);
      }
    }
  }

  lemma AtBefore(docs: map<DocKey, Doc>, steps: seq<Step>, step: Step, n: nat)
    requires n <= |steps|
    ensures At(docs, steps + [step], n) == At(docs, steps, n)
  {
    assert (steps + [step])[..n] == steps[..n];
  }

  lemma ReadStays(docs: map<DocKey, Doc>, steps: seq<Step>, step: Step, a: nat, d: DocKey, revno: int, pc: Pc, n: nat)
    requires ReadAt(docs, steps, a, d, revno, pc, n) && StandsAt(After(Initial(docs), steps + [step]), a, pc)
    ensures ReadAt(docs, steps + [step], a, d, revno, pc, n)
  {
    hide After;
    var more := steps + [step];
    AtBefore(docs, steps, step, n);
    LastState(docs, more);
    forall m: nat | n <= m <= |more| ensures StandsAt(At(docs, more, m), a, pc) {
      if m <= |steps| {
        AtBefore(docs, steps, step, m);
      }
    }
  }

  lemma ReadNow(docs: map<DocKey, Doc>, steps: seq<Step>, step: Step, a: nat, d: DocKey, pc: Pc)
    requires step == Act(a, PutToken(d)) || step == Act(a, ReadDoc(d))
    requires StandsAt(After(Initial(docs), steps), a, pc) && StandsAt(After(Initial(docs), steps + [step]), a, pc)
    ensures ReadAt(docs, steps + [step], a, d, Revno(After(Initial(docs), steps).docs, d), pc, |steps|)
  {
    hide After;
    var more := steps + [step];
    AtBefore(docs, steps, step, |steps|);
    LastState(docs, steps);
    LastState(docs, more);
    forall m: nat | |steps| <= m <= |more| ensures StandsAt(At(docs, more, m), a, pc) {
    }
  }

  // In every run what an activation has collected, preparing or rescanning, it read itself since
  // it came to that place; nothing is left over from before.
  lemma {:induction false} CollectedHere(docs: map<DocKey, Doc>, steps: seq<Step>, a: nat, d: DocKey) returns (n: nat)
    requires a in After(Initial(docs), steps).agents && Collecting(After(Initial(docs), steps).agents[a].pc)
    requires d in After(Initial(docs), steps).agents[a].revno
    ensures var ag := After(Initial(docs), steps).agents[a];
      ReadAt(docs, steps, a, d, ag.revno[d], ag.pc, n)
  {
    hide Perform, ReadAt, Inv;
    var k := |steps| - 1;
    var before, step := steps[..k], steps[k];
    assert before + [step] == steps;
    var s := After(Initial(docs), before);
    var s' := After(Initial(docs), steps);
    assert s' == Perform(s, step);
    hide After;
    RunKeeps(docs, before);
    StepReads(s, step, a, d);
    var ag := s'.agents[a];
    if d in s.agents[a].revno && s.agents[a].revno[d] == ag.revno[d] {
      n := CollectedHere(docs, before, a, d);
      ReadStays(docs, before, step, a, d, ag.revno[d], ag.pc, n);
    } else {
      n := k;
      ReadNow(docs, before, step, a, d, ag.pc);
    }
  }
}
