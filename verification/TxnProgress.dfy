/** Progress: whatever happened before, an activation left alone comes to an end. */
module TxnProgress {
  import opened TxnQueue
  import opened TxnRevnos
  import opened Graphs
  import opened TxnProtocol
  import opened TxnSafety
  import opened TxnRuns

  predicate Ended(state: TxnState) {
    state == Applied || state == Aborted
  }

  // A copy is only applied ahead of its record until that is saved, and an activation only
  // returns from a transaction that has ended.
  predicate AgentHonest(r: Record, ag: Agent) {
    && (ag.t.state == Applied && ag.pc != MarkApplied ==> r.state == Applied)
    && (ag.pc == Returned ==> Ended(ag.t.state))
  }

  ghost predicate Honest(s: State) {
    forall a :: a in s.agents && s.agents[a].id in s.records ==> AgentHonest(s.records[s.agents[a].id], s.agents[a])
  }

  ghost predicate Sound(s: State) {
    Inv(s) && Honest(s)
  }

  lemma EarlyActor(s: State, a: nat, ag: Agent, move: Move)
    requires Acts(s, a, ag) && AgentHonest(s.records[ag.id], ag)
    ensures ag.pc == Top ==> ActorHonest(DoTop(s, a, ag, move), a, ag.id)
    ensures ag.pc.Tokens? ==> ActorHonest(DoTokens(s, a, ag, ag.pc.nonce, move), a, ag.id)
  {
    hide Vector, PullFrom, Collected, Grounded, Settled, MissingHolds;
    ActsOk(s, a, ag);
    hide Inv;
  }

  lemma ScanningActor(s: State, a: nat, ag: Agent, move: Move)
    requires Acts(s, a, ag) && AgentHonest(s.records[ag.id], ag)
    ensures ag.pc == LostPrepare ==> ActorHonest(DoLostPrepare(s, a, ag, move), a, ag.id)
    ensures ag.pc == Scanning ==> ActorHonest(DoScanning(s, a, ag, move), a, ag.id)
  {
    hide Vector, PullFrom, Collected, Grounded, Settled;
    ActsOk(s, a, ag);
    hide Inv;
  }

  lemma LateActor(s: State, a: nat, ag: Agent, move: Move)
    requires Acts(s, a, ag) && AgentHonest(s.records[ag.id], ag)
    ensures ag.pc.Prepped? ==> ActorHonest(DoPrepped(s, a, ag, ag.pc.vector, move), a, ag.id)
    ensures ag.pc == SettingAborting ==> ActorHonest(DoSettingAborting(s, a, ag, move), a, ag.id)
    ensures ag.pc == LostAbort ==> ActorHonest(DoLostAbort(s, a, ag, move), a, ag.id)
    ensures ag.pc == Pulling ==> ActorHonest(DoPulling(s, a, ag, move), a, ag.id)
  {
    hide Vector, PullFrom, Collected, Grounded, Settled;
    ActsOk(s, a, ag);
    hide Inv;
  }

  lemma LastActor(s: State, a: nat, ag: Agent, move: Move)
    requires Acts(s, a, ag) && AgentHonest(s.records[ag.id], ag)
    ensures ag.pc.Checkpointing? ==> ActorHonest(DoCheckpointing(s, a, ag, ag.pc.vector, move), a, ag.id)
    ensures ag.pc == LostCheckpoint ==> ActorHonest(DoLostCheckpoint(s, a, ag, move), a, ag.id)
    ensures ag.pc.ApplyingOp? ==> ActorHonest(DoApplyingOp(s, a, ag, ag.pc.k, move), a, ag.id)
    ensures ag.pc == MarkApplied ==> ActorHonest(DoMarkApplied(s, a, ag, move), a, ag.id)
  {
    hide Vector, PullFrom, Collected, Grounded, Settled, Hits;
    ActsOk(s, a, ag);
    hide Inv;
  }

  ghost predicate ActorHonest(s: State, a: nat, id: ObjectId) {
    a in s.agents && id in s.records && AgentHonest(s.records[id], s.agents[a])
  }

  lemma ActorStaysHonest(s: State, a: nat, ag: Agent, move: Move)
    requires Acts(s, a, ag) && AgentHonest(s.records[ag.id], ag)
    ensures ActorHonest(DoAct(s, a, ag, move), a, ag.id)
  {
    hide Inv, ActorHonest, DoTop, DoTokens, DoLostPrepare, DoScanning, DoPrepped, DoSettingAborting, DoLostAbort,
      DoPulling, DoCheckpointing, DoLostCheckpoint, DoApplyingOp, DoMarkApplied;
    EarlyActor(s, a, ag, move);
    ScanningActor(s, a, ag, move);
    LateActor(s, a, ag, move);
    LastActor(s, a, ag, move);
    SameActor(s, a, ag);
  }

  lemma SameActor(s: State, a: nat, ag: Agent)
    requires Acts(s, a, ag) && AgentHonest(s.records[ag.id], ag)
    ensures ActorHonest(s, a, ag.id)
  {
  }

  lemma AgentKeeps(s: State, step: Step, b: nat)
    requires Sound(s) && b in Perform(s, step).agents && Perform(s, step).agents[b].id in Perform(s, step).records
    ensures var s' := Perform(s, step); AgentHonest(s'.records[s'.agents[b].id], s'.agents[b])
  {
    PerformKeeps(s, step);
    hide Inv, DoAct, StepOk;
    var s' := Perform(s, step);
    if step.Act? && step.a in s.agents && s.agents[step.a].id in s.records {
      ActKeeps(s, step.a, step.move);
      AgentActs(s, step.a);
      ActorStaysHonest(s, step.a, s.agents[step.a], step.move);
      if b == step.a {
        ActorStays(s, s', b, s.agents[b].id);
      } else {
        OthersStay(s, s', step.a, s.agents[step.a].id, b);
        StillHonest(s, s', b);
      }
    } else if b in s.agents {
      SameRecordOf(s, b);
      StillHonest(s, s', b);
    }
  }

  lemma AgentActs(s: State, a: nat)
    requires Inv(s) && a in s.agents && s.agents[a].id in s.records
    ensures Acts(s, a, s.agents[a])
  {
  }

  lemma SameRecordOf(s: State, b: nat)
    requires Inv(s) && b in s.agents
    ensures s.agents[b].id in s.records
  {
  }

  lemma ActorStays(s: State, s': State, a: nat, id: ObjectId)
    requires s' == s || StepOk(s, s', a, id)
    requires a in s.agents && s.agents[a].id == id
    ensures a in s'.agents && s'.agents[a].id == id
  {
  }

  lemma OthersStay(s: State, s': State, a: nat, id: ObjectId, b: nat)
    requires Inv(s) && (s' == s || StepOk(s, s', a, id))
    requires b != a && b in s'.agents
    ensures b in s.agents && s'.agents[b] == s.agents[b] && s.agents[b].id in s.records
  {
  }

  lemma StillHonest(s: State, s': State, b: nat)
    requires Forward(s, s') && b in s.agents && b in s'.agents && s'.agents[b] == s.agents[b]
    requires s.agents[b].id in s.records && s.agents[b].id in s'.records
    requires AgentHonest(s.records[s.agents[b].id], s.agents[b])
    ensures AgentHonest(s'.records[s.agents[b].id], s.agents[b])
  {
    assert RecordForward(s.records[s.agents[b].id], s'.records[s.agents[b].id]);
  }

  lemma SoundKeeps(s: State, step: Step)
    requires Sound(s)
    ensures Sound(Perform(s, step))
  {
    PerformKeeps(s, step);
    hide Inv, Perform, AgentHonest;
    var s' := Perform(s, step);
    forall b | b in s'.agents && s'.agents[b].id in s'.records
      ensures AgentHonest(s'.records[s'.agents[b].id], s'.agents[b])
    {
      AgentKeeps(s, step, b);
    }
  }

  lemma {:induction false} RunIsSound(docs: map<DocKey, Doc>, steps: seq<Step>)
    ensures Sound(After(Initial(docs), steps))
  {
    hide Perform, Sound;
    if steps == [] {
      InitialSound(docs);
    } else {
      RunIsSound(docs, steps[..|steps| - 1]);
      SoundKeeps(After(Initial(docs), steps[..|steps| - 1]), steps[|steps| - 1]);
    }
  }

  lemma InitialSound(docs: map<DocKey, Doc>)
    ensures Sound(Initial(docs))
  {
  }

  // In no run does an activation return before its transaction has ended, as its copy and
  // its record say.
  lemma ReturnedHasEnded(docs: map<DocKey, Doc>, steps: seq<Step>, a: nat)
    ensures var s := After(Initial(docs), steps);
      a in s.agents && s.agents[a].pc == Returned ==>
        && s.agents[a].id in s.records && Ended(s.records[s.agents[a].id].state)
        && s.agents[a].t.state == s.records[s.agents[a].id].state
  {
    hide After;
    RunIsSound(docs, steps);
    var s := After(Initial(docs), steps);
    if a in s.agents {
      SameRecordOf(s, a);
      AgentActs(s, a);
      ActsOk(s, a, s.agents[a]);
    }
  }

  // ---- One activation alone

  // The state after moves of one activation while all others stand still.
  function Alone(s: State, a: nat, moves: seq<Move>): State
    decreases moves
  {
    if moves == [] then s else Alone(Perform(s, Act(a, moves[0])), a, moves[1..])
  }

  predicate EndsAt(s: State, a: nat, state: TxnState) {
    && a in s.agents && s.agents[a].pc == Returned
    && s.agents[a].id in s.records && s.records[s.agents[a].id].state == state
  }

  // The activation has moves of its own that end it with its transaction in that state.
  ghost predicate CanEnd(s: State, a: nat, state: TxnState) {
    exists moves :: EndsAt(Alone(s, a, moves), a, state)
  }

  lemma First(s: State, a: nat, move: Move, state: TxnState)
    requires CanEnd(Perform(s, Act(a, move)), a, state)
    ensures CanEnd(s, a, state)
  {
    hide Perform, EndsAt;
    var moves :| EndsAt(Alone(Perform(s, Act(a, move)), a, moves), a, state);
    assert ([move] + moves)[1..] == moves;
    assert Alone(s, a, [move] + moves) == Alone(Perform(s, Act(a, move)), a, moves);
  }

  lemma AtEnd(s: State, a: nat, state: TxnState)
    requires EndsAt(s, a, state)
    ensures CanEnd(s, a, state)
  {
    assert Alone(s, a, []) == s;
  }

  // Where an activation that has to look no further leads.
  function Outcome(state: TxnState): TxnState {
    if Running(state) then Applied else Aborted
  }

  ghost predicate Stands(s: State, a: nat, ag: Agent, r: Record) {
    Sound(s) && Acts(s, a, ag) && r == s.records[ag.id] && AgentHonest(r, ag)
  }

  // One move, and what is needed of the state after it.
  lemma Moved(s: State, a: nat, ag: Agent, r: Record, move: Move) returns (s': State, ag': Agent, r': Record)
    requires Stands(s, a, ag, r)
    ensures s' == Perform(s, Act(a, move)) == DoAct(s, a, ag, move)
    ensures a in s'.agents && ag' == s'.agents[a] && ag'.id == ag.id && ag.id in s'.records && r' == s'.records[ag.id]
    ensures Stands(s', a, ag', r') && AgentOk(s'.docs, r', ag') && RecordOk(s'.docs, r')
  {
    hide Inv, DoAct, AgentHonest, StepOk;
    s' := Perform(s, Act(a, move));
    SoundKeeps(s, Act(a, move));
    ActKeeps(s, a, move);
    ActorStays(s, s', a, ag.id);
    ag' := s'.agents[a];
    AgentActs2(s', a);
    r' := s'.records[ag.id];
    ActsOk(s', a, ag');
    HonestAt(s', a);
  }

  lemma AgentActs2(s: State, a: nat)
    requires Inv(s) && a in s.agents
    ensures s.agents[a].id in s.records && Acts(s, a, s.agents[a])
  {
  }

  lemma HonestAt(s: State, a: nat)
    requires Honest(s) && a in s.agents && s.agents[a].id in s.records
    ensures AgentHonest(s.records[s.agents[a].id], s.agents[a])
  {
  }

  lemma FromMark(s: State, a: nat, ag: Agent, r: Record)
    requires Stands(s, a, ag, r) && ag.pc == MarkApplied
    ensures CanEnd(s, a, Applied)
  {
    hide Inv, Honest, Settled, Grounded, MissingHolds, CanEnd;
    ActsOk(s, a, ag);
    var s', ag', r' := Moved(s, a, ag, r, SaveApplied);
    AtEnd(s', a, Applied);
    First(s, a, SaveApplied, Applied);
  }

  lemma {:induction false} FromApplying(s: State, a: nat, ag: Agent, r: Record)
    requires Stands(s, a, ag, r) && ag.pc.ApplyingOp?
    ensures CanEnd(s, a, Applied)
    decreases if ag.pc.k <= |ag.t.ops| then |ag.t.ops| - ag.pc.k + 1 else 0
  {
    hide Inv, Honest, Settled, Grounded, MissingHolds, CanEnd, Hits, Stands;
    AtFacts(s, a, ag, r);
    var s', ag', r' := Moved(s, a, ag, r, RunOp({}));
    if ag.pc.k >= |ag.t.ops| {
      FromMark(s', a, ag', r');
    } else {
      FromApplying(s', a, ag', r');
    }
    First(s, a, RunOp({}), Applied);
  }

  lemma AtFacts(s: State, a: nat, ag: Agent, r: Record)
    requires Stands(s, a, ag, r)
    ensures Acts(s, a, ag) && r == s.records[ag.id] && AgentHonest(r, ag)
    ensures AgentOk(s.docs, r, ag) && RecordOk(s.docs, r)
    ensures ag.t.state == Applying ==> |ag.t.revnos| == |ag.t.ops| && ag.t.nonce != ""
  {
    hide Inv, Honest, Settled, MissingHolds;
    ActsOk(s, a, ag);
  }

  lemma FromPulling(s: State, a: nat, ag: Agent, r: Record)
    requires Stands(s, a, ag, r) && ag.pc == Pulling
    ensures CanEnd(s, a, Aborted) && !Running(r.state)
  {
    hide Inv, Honest, CanEnd, Stands;
    AtFacts(s, a, ag, r);
    var s', ag', r' := Moved(s, a, ag, r, SaveAborted);
    AtEnd(s', a, Aborted);
    First(s, a, SaveAborted, Aborted);
  }

  // From the head of the loop with a transaction that is past its preparation.
  lemma FromTop(s: State, a: nat, ag: Agent, r: Record)
    requires Stands(s, a, ag, r) && ag.pc == Top && ag.t.state != Preparing && ag.t.state != Prepared
    ensures CanEnd(s, a, Outcome(r.state))
  {
    hide Inv, Honest, CanEnd, Stands, Settled, Grounded, MissingHolds;
    AtFacts(s, a, ag, r);
    var s', ag', r' := Moved(s, a, ag, r, Enter(""));
    match ag.t.state {
      case Applying => FromApplying(s', a, ag', r');
      case Aborting => FromPulling(s', a, ag', r');
      case _ => AtEnd(s', a, r'.state);
    }
    First(s, a, Enter(""), Outcome(r.state));
  }

  lemma FromAborting(s: State, a: nat, ag: Agent, r: Record)
    requires Stands(s, a, ag, r) && ag.pc == LostAbort
    ensures CanEnd(s, a, Outcome(r.state))
  {
    hide Inv, Honest, CanEnd, Stands;
    AtFacts(s, a, ag, r);
    var s', ag', r' := Moved(s, a, ag, r, Reload(false));
    if r.state == Aborting {
      FromPulling(s', a, ag', r');
    } else {
      FromTop(s', a, ag', r');
    }
    First(s, a, Reload(false), Outcome(r.state));
  }

  lemma FromSettingAborting(s: State, a: nat, ag: Agent, r: Record)
    requires Stands(s, a, ag, r) && ag.pc == SettingAborting
    ensures CanEnd(s, a, Outcome(r.state))
  {
    hide Inv, Honest, CanEnd, Stands;
    AtFacts(s, a, ag, r);
    var s', ag', r' := Moved(s, a, ag, r, SaveAborting);
    if r.state == Prepared {
      FromPulling(s', a, ag', r');
    } else {
      FromAborting(s', a, ag', r');
    }
    First(s, a, SaveAborting, Outcome(r.state));
  }

  lemma FromLostCheckpoint(s: State, a: nat, ag: Agent, r: Record)
    requires Stands(s, a, ag, r) && ag.pc == LostCheckpoint
    ensures CanEnd(s, a, Outcome(r.state))
  {
    hide Inv, Honest, CanEnd, Stands;
    AtFacts(s, a, ag, r);
    var s', ag', r' := Moved(s, a, ag, r, Reload(false));
    FromTop(s', a, ag', r');
    First(s, a, Reload(false), Outcome(r.state));
  }

  // A checkpoint of a prepared transaction leads to its application.
  lemma FromCheckpointing(s: State, a: nat, ag: Agent, r: Record)
    requires Stands(s, a, ag, r) && ag.pc.Checkpointing?
    ensures CanEnd(s, a, if r.state == Prepared then Applied else Outcome(r.state))
  {
    hide Inv, Honest, CanEnd, Stands, Grounded, MissingHolds;
    AtFacts(s, a, ag, r);
    var s', ag', r' := Moved(s, a, ag, r, SaveApplying);
    if r.state == Prepared {
      FromTop(s', a, ag', r');
      First(s, a, SaveApplying, Applied);
    } else {
      FromLostCheckpoint(s', a, ag', r');
      First(s, a, SaveApplying, Outcome(r.state));
    }
  }

  // What may still become of a transaction whose vector is known.
  ghost predicate MayEnd(r: Record, vector: seq<int>, state: TxnState) {
    state == Outcome(r.state) || (r.state == Prepared && state == Applied && MissingHolds(r.ops, vector))
  }

  lemma FromPrepped(s: State, a: nat, ag: Agent, r: Record, state: TxnState)
    requires Stands(s, a, ag, r) && ag.pc.Prepped? && MayEnd(r, ag.pc.vector, state)
    ensures CanEnd(s, a, state)
  {
    hide Inv, Honest, CanEnd, Stands, Grounded, MissingHolds;
    AtFacts(s, a, ag, r);
    if state == Outcome(r.state) {
      var s', ag', r' := Moved(s, a, ag, r, AssertFails);
      FromSettingAborting(s', a, ag', r');
      First(s, a, AssertFails, state);
    } else {
      var s', ag', r' := Moved(s, a, ag, r, AssertHolds);
      FromCheckpointing(s', a, ag', r');
      First(s, a, AssertHolds, state);
    }
  }

  // Revisions read just now.
  ghost predicate ReadNow(docs: map<DocKey, Doc>, ops: seq<Op>, revno: map<DocKey, int>, n: nat) {
    forall i :: 0 <= i < n && i < |ops| ==> ops[i].key in revno && revno[ops[i].key] == Revno(docs, ops[i].key)
  }

  // What may become of a transaction by the revisions its documents have now.
  ghost predicate MayEndNow(docs: map<DocKey, Doc>, r: Record, state: TxnState) {
    || state == Outcome(r.state)
    || ((r.state == Prepared || r.state == Preparing) && state == Applied && forall revno ::
         ReadNow(docs, r.ops, revno, |r.ops|) ==> MissingHolds(r.ops, Vector(r.ops, revno)))
  }

  lemma {:induction false} FromScanning(s: State, a: nat, ag: Agent, r: Record, n: nat, state: TxnState)
    requires Stands(s, a, ag, r) && ag.pc == Scanning && n <= |ag.t.ops| && ReadNow(s.docs, ag.t.ops, ag.revno, n)
    requires MayEndNow(s.docs, r, state)
    ensures CanEnd(s, a, state)
    decreases |ag.t.ops| - n
  {
    hide Inv, Honest, CanEnd, Stands, Collected, Grounded, MissingHolds, Vector;
    AtFacts(s, a, ag, r);
    if n < |ag.t.ops| {
      var s', ag', r' := Moved(s, a, ag, r, ReadDoc(ag.t.ops[n].key));
      FromScanning(s', a, ag', r', n + 1, state);
      First(s, a, ReadDoc(ag.t.ops[n].key), state);
    } else {
      FromScanned(s, a, ag, r, state);
    }
  }

  lemma FromScanned(s: State, a: nat, ag: Agent, r: Record, state: TxnState)
    requires Stands(s, a, ag, r) && ag.pc == Scanning && ReadNow(s.docs, ag.t.ops, ag.revno, |ag.t.ops|)
    requires MayEndNow(s.docs, r, state)
    ensures CanEnd(s, a, state)
  {
    hide Inv, Honest, CanEnd, Stands, Collected, Grounded, MissingHolds, Vector;
    AtFacts(s, a, ag, r);
    var s', ag', r' := Moved(s, a, ag, r, FinishScan);
    FromPrepped(s', a, ag', r', state);
    First(s, a, FinishScan, state);
  }

  lemma FromLostPrepare(s: State, a: nat, ag: Agent, r: Record, state: TxnState)
    requires Stands(s, a, ag, r) && ag.pc == LostPrepare && ReadNow(s.docs, ag.t.ops, ag.revno, |ag.t.ops|)
    requires MayEndNow(s.docs, r, state)
    ensures CanEnd(s, a, state)
  {
    hide Inv, Honest, CanEnd, Stands, Collected, Grounded, MissingHolds, Vector;
    AtFacts(s, a, ag, r);
    var s', ag', r' := Moved(s, a, ag, r, Reload(true));
    if r.state == Prepared {
      FromPrepped(s', a, ag', r', state);
    } else {
      FromTop(s', a, ag', r');
    }
    First(s, a, Reload(true), state);
  }

  lemma {:induction false} FromTokens(s: State, a: nat, ag: Agent, r: Record, n: nat, state: TxnState)
    requires Stands(s, a, ag, r) && ag.pc.Tokens? && n <= |ag.t.ops| && ReadNow(s.docs, ag.t.ops, ag.revno, n)
    requires MayEndNow(s.docs, r, state)
    ensures CanEnd(s, a, state)
    decreases |ag.t.ops| - n
  {
    hide Inv, Honest, CanEnd, Stands, Collected, Grounded, MissingHolds, Vector;
    AtFacts(s, a, ag, r);
    if n < |ag.t.ops| {
      var d := ag.t.ops[n].key;
      var s', ag', r' := Moved(s, a, ag, r, PutToken(d));
      SameRevnos(s.docs, d, Token(ag.id, ag.pc.nonce));
      StillMayEnd(s.docs, s'.docs, r, state);
      FromTokens(s', a, ag', r', n + 1, state);
      First(s, a, PutToken(d), state);
    } else {
      FromAllTokens(s, a, ag, r, state);
    }
  }

  lemma FromAllTokens(s: State, a: nat, ag: Agent, r: Record, state: TxnState)
    requires Stands(s, a, ag, r) && ag.pc.Tokens? && ReadNow(s.docs, ag.t.ops, ag.revno, |ag.t.ops|)
    requires MayEndNow(s.docs, r, state)
    ensures CanEnd(s, a, state)
  {
    hide Inv, Honest, CanEnd, Stands, Collected, Grounded, MissingHolds, Vector;
    AtFacts(s, a, ag, r);
    var s', ag', r' := Moved(s, a, ag, r, SavePrepared(true));
    if r.state == Preparing {
      FromPrepped(s', a, ag', r', state);
    } else {
      FromLostPrepare(s', a, ag', r', state);
    }
    First(s, a, SavePrepared(true), state);
  }

  lemma SameRevnos(docs: map<DocKey, Doc>, d: DocKey, token: Token)
    ensures var doc := DocAt(docs, d);
      forall c :: Revno(docs[d := doc.(queue := doc.queue + {token})], c) == Revno(docs, c)
  {
  }

  lemma StillMayEnd(docs: map<DocKey, Doc>, docs': map<DocKey, Doc>, r: Record, state: TxnState)
    requires MayEndNow(docs, r, state) && forall c :: Revno(docs', c) == Revno(docs, c)
    ensures MayEndNow(docs', r, state)
  {
    hide Vector, MissingHolds;
    forall revno | ReadNow(docs', r.ops, revno, |r.ops|) ensures ReadNow(docs, r.ops, revno, |r.ops|) {
    }
  }

  lemma FreshNonce(nonces: set<string>) returns (nonce: string)
    ensures nonce != "" && nonce !in nonces
  {
    var n := Longest(nonces);
    nonce := seq(n + 1, _ => 'x');
  }

  lemma {:induction false} Longest(nonces: set<string>) returns (n: nat)
    ensures forall x :: x in nonces ==> |x| <= n
  {
    n := 0;
    if nonces != {} {
      var x :| x in nonces;
      n := Longest(nonces - {x});
      n := if |x| > n then |x| else n;
    }
  }

  lemma FromStart(s: State, a: nat, ag: Agent, r: Record, state: TxnState)
    requires Stands(s, a, ag, r) && ag.pc == Top && MayEndNow(s.docs, r, state)
    ensures CanEnd(s, a, state)
  {
    hide Inv, Honest, CanEnd, Stands, Vector, Grounded, MissingHolds, Settled;
    AtFacts(s, a, ag, r);
    if ag.t.state == Preparing {
      var nonce := FreshNonce(s.nonces);
      var s', ag', r' := Moved(s, a, ag, r, Enter(nonce));
      FromTokens(s', a, ag', r', 0, state);
      First(s, a, Enter(nonce), state);
    } else if ag.t.state == Prepared {
      var s', ag', r' := Moved(s, a, ag, r, Enter(""));
      FromScanning(s', a, ag', r', 0, state);
      First(s, a, Enter(""), state);
    } else {
      FromTop(s, a, ag, r);
    }
  }

  lemma FromAnywhere(s: State, a: nat, ag: Agent, r: Record)
    requires Stands(s, a, ag, r)
    ensures CanEnd(s, a, Outcome(r.state)) || (r.state == Prepared && CanEnd(s, a, Applied))
  {
    hide Inv, Honest, CanEnd, Stands, Vector, Grounded, MissingHolds, Settled, Collected;
    AtFacts(s, a, ag, r);
    var state := Outcome(r.state);
    match ag.pc {
      case Top => FromStart(s, a, ag, r, state);
      case Tokens(_) => FromTokens(s, a, ag, r, 0, state);
      case LostPrepare => FromLostPrepareAnyhow(s, a, ag, r);
      case Scanning => FromScanning(s, a, ag, r, 0, state);
      case Prepped(vector) => FromPrepped(s, a, ag, r, state);
      case SettingAborting => FromSettingAborting(s, a, ag, r);
      case LostAbort => FromAborting(s, a, ag, r);
      case Pulling => FromPulling(s, a, ag, r);
      case Checkpointing(_) => FromCheckpointing(s, a, ag, r);
      case LostCheckpoint => FromLostCheckpoint(s, a, ag, r);
      case ApplyingOp(_) => FromApplying(s, a, ag, r);
      case MarkApplied => FromMark(s, a, ag, r);
      case Returned => AtEnd(s, a, r.state);
    }
  }

  lemma FromLostPrepareAnyhow(s: State, a: nat, ag: Agent, r: Record)
    requires Stands(s, a, ag, r) && ag.pc == LostPrepare
    ensures CanEnd(s, a, Outcome(r.state))
  {
    hide Inv, Honest, CanEnd, Stands, Collected, Grounded, MissingHolds, Vector;
    AtFacts(s, a, ag, r);
    var state := Outcome(r.state);
    var s', ag', r' := Moved(s, a, ag, r, Reload(false));
    if r.state == Prepared {
      FromScanning(s', a, ag', r', 0, state);
    } else {
      FromTop(s', a, ag', r');
    }
    First(s, a, Reload(false), state);
  }

  // Whatever a run did, with crashes anywhere, each activation that is there has moves of its
  // own, all others standing still, after which it has returned and its transaction is applied
  // or aborted: aborted if it was aborting, applied if it was applying.
  lemma ComesToAnEnd(docs: map<DocKey, Doc>, steps: seq<Step>, a: nat)
    requires a in After(Initial(docs), steps).agents
    ensures var s := After(Initial(docs), steps);
      && s.agents[a].id in s.records
      && var state := s.records[s.agents[a].id].state;
      && (CanEnd(s, a, Applied) || CanEnd(s, a, Aborted))
      && (Running(state) ==> CanEnd(s, a, Applied))
      && (state == Aborting || state == Aborted ==> CanEnd(s, a, Aborted))
  {
    hide After, CanEnd;
    RunIsSound(docs, steps);
    var s := After(Initial(docs), steps);
    StandsHere(s, a);
    FromAnywhere(s, a, s.agents[a], s.records[s.agents[a].id]);
  }

  // At the head of the loop with a transaction that is not decided yet both ends are open; it
  // can be applied if the documents that it takes to be missing are missing now.
  lemma CanStillApply(docs: map<DocKey, Doc>, steps: seq<Step>, a: nat)
    requires a in After(Initial(docs), steps).agents && After(Initial(docs), steps).agents[a].pc == Top
    ensures var s := After(Initial(docs), steps);
      && s.agents[a].id in s.records
      && var r := s.records[s.agents[a].id];
      r.state == Preparing || r.state == Prepared ==>
        && CanEnd(s, a, Aborted)
        && (MayEndNow(s.docs, r, Applied) ==> CanEnd(s, a, Applied))
  {
    hide After, CanEnd, MayEndNow;
    RunIsSound(docs, steps);
    var s := After(Initial(docs), steps);
    StandsHere(s, a);
    var ag, r := s.agents[a], s.records[s.agents[a].id];
    if r.state == Preparing || r.state == Prepared {
      MayAbort(s.docs, r);
      FromStart(s, a, ag, r, Aborted);
      if MayEndNow(s.docs, r, Applied) {
        FromStart(s, a, ag, r, Applied);
      }
    }
  }

  lemma MayAbort(docs: map<DocKey, Doc>, r: Record)
    requires !Running(r.state)
    ensures MayEndNow(docs, r, Aborted)
  {
  }

  lemma StandsHere(s: State, a: nat)
    requires Sound(s) && a in s.agents
    ensures s.agents[a].id in s.records && Stands(s, a, s.agents[a], s.records[s.agents[a].id])
  {
    SameRecordOf(s, a);
    AgentActs(s, a);
    HonestAt(s, a);
  }
}
