/** When an applied transaction took effect as a whole: exactly when its turn was kept. */
module TxnComplete {
  import opened TxnQueue
  import opened TxnRevnos
  import opened Graphs
  import opened TxnProtocol
  import opened TxnSafety
  import opened TxnRuns
  import TxnFinal

  ghost predicate InLog(log: seq<Effect>, id: ObjectId, i: nat) {
    exists p :: 0 <= p < |log| && log[p].id == id && log[p].op == i
  }

  // The vector of the record makes the operation effective.
  predicate Wanted(r: Record, i: nat) {
    i < |r.ops| && i < |r.revnos| && Effective(r.ops[i].change, r.revnos[i])
  }

  // The operation is still to take effect.
  ghost predicate Open(log: seq<Effect>, id: ObjectId, r: Record, i: nat) {
    Wanted(r, i) && !InLog(log, id, i)
  }

  ghost predicate AllLogged(log: seq<Effect>, id: ObjectId, r: Record, k: nat) {
    forall i: nat :: i < k && Wanted(r, i) ==> InLog(log, id, i)
  }

  // The operation is the next one of its transaction on its document.
  ghost predicate NextOn(log: seq<Effect>, id: ObjectId, r: Record, j: nat) {
    && Open(log, id, r, j)
    && forall i: nat :: i < j && Wanted(r, i) && r.ops[i].key == r.ops[j].key ==> InLog(log, id, i)
  }

  // The document is as the guard of the operation wants it.
  predicate Enabled(docs: map<DocKey, Doc>, id: ObjectId, r: Record, j: nat)
    requires j < |r.ops| && j < |r.revnos|
  {
    Revno(docs, r.ops[j].key) == r.revnos[j] && Token(id, r.nonce) in DocAt(docs, r.ops[j].key).queue
  }

  ghost predicate Waiting(docs: map<DocKey, Doc>, log: seq<Effect>, id: ObjectId, r: Record) {
    forall j: nat :: NextOn(log, id, r, j) ==> Enabled(docs, id, r, j)
  }

  // Only effective operations are logged, each after all effective ones before it.
  ghost predicate PrefixLogged(log: seq<Effect>, id: ObjectId, r: Record) {
    forall p :: 0 <= p < |log| && log[p].id == id ==> Wanted(r, log[p].op) && AllLogged(log, id, r, log[p].op)
  }

  ghost predicate HasVector(r: Record) {
    exists revno :: IsVector(r.ops, revno, r.revnos)
  }

  ghost predicate RecordGood(docs: map<DocKey, Doc>, log: seq<Effect>, id: ObjectId, r: Record) {
    && (Running(r.state) ==> HasVector(r) && Waiting(docs, log, id, r) && PrefixLogged(log, id, r))
    && (r.state == Applied ==> AllLogged(log, id, r, |r.ops|))
  }

  ghost predicate AgentGood(log: seq<Effect>, ag: Agent) {
    match ag.pc
    case Prepped(vector) => AllRead(ag.t.ops, ag.revno) && vector == Vector(ag.t.ops, ag.revno)
    case Checkpointing(vector) => AllRead(ag.t.ops, ag.revno) && vector == Vector(ag.t.ops, ag.revno)
    case ApplyingOp(k) => AllLogged(log, ag.id, ag.t, k)
    case MarkApplied => AllLogged(log, ag.id, ag.t, |ag.t.ops|)
    case _ => true
  }

  // The effects of the transaction are in the order of its operations.
  ghost predicate Ordered(log: seq<Effect>, id: ObjectId) {
    forall p, q :: 0 <= p < q < |log| && log[p].id == id && log[q].id == id ==> log[p].op < log[q].op
  }

  ghost predicate AgentsGood(s: State, id: ObjectId) {
    forall a :: a in s.agents && s.agents[a].id == id ==> AgentGood(s.log, s.agents[a])
  }

  ghost predicate Good(s: State, id: ObjectId) {
    && (id in s.records ==> RecordGood(s.docs, s.log, id, s.records[id]))
    && AgentsGood(s, id) && Ordered(s.log, id)
  }

  // ---- Keeping the turn of a transaction

  // The transaction, running, still has to change the document.
  ghost predicate Needs(s: State, id: ObjectId, d: DocKey) {
    && id in s.records && Running(s.records[id].state)
    && exists j: nat :: Open(s.log, id, s.records[id], j) && s.records[id].ops[j].key == d
  }

  // The same after its own operation k.
  ghost predicate NeedsMore(s: State, id: ObjectId, k: nat, d: DocKey) {
    && id in s.records && Running(s.records[id].state)
    && exists j: nat :: j != k && Open(s.log, id, s.records[id], j) && s.records[id].ops[j].key == d
  }

  // No earlier effective operation is on the same document.
  predicate FirstWanted(r: Record, j: nat) {
    Wanted(r, j) && forall i: nat :: i < j && Wanted(r, i) ==> r.ops[i].key != r.ops[j].key
  }

  // Each document is as the first effective operation on it wants it.
  ghost predicate Current(docs: map<DocKey, Doc>, id: ObjectId, r: Record) {
    forall j: nat :: FirstWanted(r, j) ==> Enabled(docs, id, r, j)
  }

  // What the order of the queues is for: a transaction is checkpointed when its documents are
  // as its vector says, none of them is changed by another one before it has changed it, and
  // its token stays there until then.
  ghost predicate InTurn(s: State, step: Step, id: ObjectId) {
    step.Act? && step.a in s.agents && s.agents[step.a].id in s.records ==>
      var ag := s.agents[step.a];
      match ag.pc
      case Tokens(_) => step.move.Pull? ==> MayPull(s, id, step.move.d, step.move.tokens)
      case Pulling => step.move.Pull? ==> MayPull(s, id, step.move.d, step.move.tokens)
      case Checkpointing(vector) =>
        step.move.SaveApplying? && ag.id == id && s.records[id].state == Prepared ==>
          Current(s.docs, id, s.records[id].(state := Applying, revnos := vector))
      case ApplyingOp(k) => IsHit(s, step) ==> MayRun(s, id, ag, k, step.move.pulled)
      case _ => true
  }

  ghost predicate MayPull(s: State, id: ObjectId, d: DocKey, tokens: set<Token>) {
    Needs(s, id, d) ==> Token(id, s.records[id].nonce) !in tokens
  }

  ghost predicate MayRun(s: State, id: ObjectId, ag: Agent, k: nat, pulled: set<Token>)
    requires k < |ag.t.ops|
  {
    var d := ag.t.ops[k].key;
    if ag.id != id then !Needs(s, id, d)
    else NeedsMore(s, id, k, d) ==> Token(id, s.records[id].nonce) !in pulled
  }

  // Whether the step runs an operation that changes its document.
  predicate IsHit(s: State, step: Step) {
    && step.Act? && step.a in s.agents && s.agents[step.a].id in s.records
    && var ag := s.agents[step.a];
    && ag.pc.ApplyingOp? && step.move.RunOp? && ag.t.state == Applying && ag.t.nonce != ""
    && ag.pc.k < |ag.t.ops| == |ag.t.revnos| && Hits(s.docs, ag.id, ag.t, ag.pc.k)
  }

  // ---- Logs only grow

  lemma LoggedAgain(log: seq<Effect>, log': seq<Effect>, id: ObjectId, r: Record, k: nat)
    requires AllLogged(log, id, r, k) && log <= log'
    ensures AllLogged(log', id, r, k)
  {
    forall i: nat | i < k && Wanted(r, i) ensures InLog(log', id, i) {
      var p :| 0 <= p < |log| && log[p].id == id && log[p].op == i;
      assert log'[p] == log[p];
    }
  }

  lemma SameLogged(log: seq<Effect>, id: ObjectId, r: Record, t: Record, k: nat)
    requires AllLogged(log, id, r, k) && t.ops == r.ops && t.revnos == r.revnos
    ensures AllLogged(log, id, t, k)
  {
    forall i: nat | i < k && Wanted(t, i) ensures InLog(log, id, i) {
      assert Wanted(r, i);
    }
  }

  lemma AgentGoodAgain(log: seq<Effect>, log': seq<Effect>, ag: Agent)
    requires AgentGood(log, ag) && log <= log'
    ensures AgentGood(log', ag)
  {
    hide AllLogged, Vector;
    if ag.pc.ApplyingOp? {
      LoggedAgain(log, log', ag.id, ag.t, ag.pc.k);
    } else if ag.pc.MarkApplied? {
      LoggedAgain(log, log', ag.id, ag.t, |ag.t.ops|);
    }
  }

  // ---- The vector

  lemma {:induction false} QuietBetween(
      ops: seq<Op>, revno: map<DocKey, int>, revnos: seq<int>, i: nat, j: nat, d: DocKey)
    requires IsVector(ops, revno, revnos) && i <= j <= |ops|
    requires forall l :: i <= l < j && ops[l].key == d ==> !Effective(ops[l].change, revnos[l])
    ensures RevnoOf(RunOps(ops[..j], revno), d) == RevnoOf(RunOps(ops[..i], revno), d)
    decreases j - i
  {
    if i < j {
      QuietBetween(ops, revno, revnos, i, j - 1, d);
      RunOneMore(ops, revno, j - 1);
    }
  }

  // The operation after an effective one on the same document runs on the revision it leaves.
  lemma VectorAfter(r: Record, k: nat, j: nat)
    requires HasVector(r) && k < j && Wanted(r, k) && Wanted(r, j) && r.ops[k].key == r.ops[j].key
    requires forall l: nat :: k < l < j && r.ops[l].key == r.ops[j].key ==> !Wanted(r, l)
    ensures r.revnos[j] == NextRevno(r.ops[k].change, r.revnos[k])
  {
    hide RunOps;
    var revno :| IsVector(r.ops, revno, r.revnos);
    forall l | k + 1 <= l < j && r.ops[l].key == r.ops[j].key ensures !Effective(r.ops[l].change, r.revnos[l]) {
      assert !Wanted(r, l);
    }
    QuietBetween(r.ops, revno, r.revnos, k + 1, j, r.ops[j].key);
    RunOneMore(r.ops, revno, k);
  }

  lemma VectorFirst(r: Record, revno: map<DocKey, int>, j: nat)
    requires IsVector(r.ops, revno, r.revnos) && FirstWanted(r, j)
    ensures r.revnos[j] == RevnoOf(revno, r.ops[j].key)
  {
    hide RunOps;
    forall l | 0 <= l < j && r.ops[l].key == r.ops[j].key ensures !Effective(r.ops[l].change, r.revnos[l]) {
      assert !Wanted(r, l);
    }
    QuietBetween(r.ops, revno, r.revnos, 0, j, r.ops[j].key);
    RunNothing(r.ops, revno);
  }

  // ---- Steps that run no operation

  // Documents that the transaction still has to change keep their revision and its token.
  ghost predicate Spared(s: State, docs': map<DocKey, Doc>, id: ObjectId) {
    forall d :: Needs(s, id, d) ==>
      && Revno(docs', d) == Revno(s.docs, d)
      && (Token(id, s.records[id].nonce) in DocAt(s.docs, d).queue ==>
        Token(id, s.records[id].nonce) in DocAt(docs', d).queue)
  }

  lemma WaitingAgain(s: State, docs': map<DocKey, Doc>, id: ObjectId, r': Record)
    requires id in s.records && Running(s.records[id].state) && Spared(s, docs', id)
    requires Waiting(s.docs, s.log, id, s.records[id])
    requires r'.ops == s.records[id].ops && r'.revnos == s.records[id].revnos && r'.nonce == s.records[id].nonce
    ensures Waiting(docs', s.log, id, r')
  {
    var r := s.records[id];
    forall j: nat | NextOn(s.log, id, r', j) ensures Enabled(docs', id, r', j) {
      assert NextOn(s.log, id, r, j) by {
        assert Open(s.log, id, r, j);
        forall i: nat | i < j && Wanted(r, i) && r.ops[i].key == r.ops[j].key ensures InLog(s.log, id, i) {
          assert Wanted(r', i);
        }
      }
      assert Enabled(s.docs, id, r, j) && Needs(s, id, r.ops[j].key);
    }
  }

  lemma PrefixAgain(log: seq<Effect>, id: ObjectId, r: Record, r': Record)
    requires PrefixLogged(log, id, r) && r'.ops == r.ops && r'.revnos == r.revnos
    ensures PrefixLogged(log, id, r')
  {
    forall p | 0 <= p < |log| && log[p].id == id ensures Wanted(r', log[p].op) && AllLogged(log, id, r', log[p].op) {
      assert Wanted(r, log[p].op);
      SameLogged(log, id, r, r', log[p].op);
    }
  }

  lemma StillGood(s: State, s': State, id: ObjectId)
    requires id in s.records && id in s'.records && RecordForward(s.records[id], s'.records[id])
    requires RecordGood(s.docs, s.log, id, s.records[id]) && Running(s.records[id].state)
    requires s'.log == s.log && Spared(s, s'.docs, id)
    requires s'.records[id].state == Applied ==> AllLogged(s.log, id, s.records[id], |s.records[id].ops|)
    requires s.records[id].nonce != ""
    ensures RecordGood(s'.docs, s'.log, id, s'.records[id])
  {
    hide Waiting, PrefixLogged, AllLogged, Spared;
    var r, r' := s.records[id], s'.records[id];
    WaitingAgain(s, s'.docs, id, r');
    PrefixAgain(s.log, id, r, r');
    if r'.state == Applied {
      SameLogged(s.log, id, r, r', |r.ops|);
    }
  }

  lemma SameDocsSpared(s: State, id: ObjectId)
    ensures Spared(s, s.docs, id)
  {
  }

  lemma PutSpares(s: State, d: DocKey, token: Token, id: ObjectId)
    ensures var doc := DocAt(s.docs, d); Spared(s, s.docs[d := doc.(queue := doc.queue + {token})], id)
  {
    hide Needs;
  }

  lemma PullSpares(s: State, d: DocKey, tokens: set<Token>, id: ObjectId)
    requires MayPull(s, id, d, tokens)
    ensures Spared(s, PullFrom(s.docs, d, tokens), id)
  {
    hide Needs;
  }

  lemma StepSpares(s: State, step: Step, id: ObjectId)
    requires InTurn(s, step, id) && !IsHit(s, step)
    ensures Spared(s, Perform(s, step).docs, id) && Perform(s, step).log == s.log
  {
    hide Spared, MayPull, DoAct, MayRun, Current;
    SameDocsSpared(s, id);
    if step.Act? && step.a in s.agents && s.agents[step.a].id in s.records {
      var ag := s.agents[step.a];
      if ag.pc.Tokens? || ag.pc == Pulling {
        QueueActSpares(s, step.a, ag, step.move, id);
      } else if ag.pc.ApplyingOp? {
        MissSame(s, step.a, ag, step.move);
      } else {
        SameDocs(s, step.a, ag, step.move);
      }
    }
  }

  lemma QueueActSpares(s: State, a: nat, ag: Agent, move: Move, id: ObjectId)
    requires ag.id in s.records && (ag.pc.Tokens? || ag.pc == Pulling)
    requires move.Pull? ==> MayPull(s, id, move.d, move.tokens)
    ensures Spared(s, DoAct(s, a, ag, move).docs, id) && DoAct(s, a, ag, move).log == s.log
  {
    hide Spared, MayPull, PullFrom, Vector;
    SameDocsSpared(s, id);
    if move.Pull? {
      PullSpares(s, move.d, move.tokens, id);
    } else if move.PutToken? && ag.pc.Tokens? {
      PutSpares(s, move.d, Token(ag.id, ag.pc.nonce), id);
    }
  }

  lemma MissSame(s: State, a: nat, ag: Agent, move: Move)
    requires a in s.agents && s.agents[a] == ag && ag.id in s.records && ag.pc.ApplyingOp? && !IsHit(s, Act(a, move))
    ensures DoAct(s, a, ag, move).docs == s.docs && DoAct(s, a, ag, move).log == s.log
  {
  }

  // ---- Records

  // A record only begins to be applied by a checkpoint.
  lemma NewlyRunning(s: State, step: Step, id: ObjectId)
    requires Inv(s) && id in Perform(s, step).records && Running(Perform(s, step).records[id].state)
    requires !(id in s.records && Running(s.records[id].state))
    ensures step.Act? && step.a in s.agents && s.agents[step.a].id == id && id in s.records
    ensures s.agents[step.a].pc.Checkpointing? && step.move == SaveApplying && s.records[id].state == Prepared
  {
    hide Inv;
    if step.Act? && step.a in s.agents && s.agents[step.a].id in s.records {
      var ag := s.agents[step.a];
      if Writes(ag.pc) {
        hide DoTop, DoLostPrepare, DoScanning, DoPrepped, DoLostAbort, DoLostCheckpoint, DoApplyingOp;
        if ag.pc == MarkApplied {
          MarkedRuns(s, step.a, ag);
        }
      } else {
        hide DoAct;
        SameRecords(s, step.a, ag, step.move);
      }
    }
  }

  lemma MarkedRuns(s: State, a: nat, ag: Agent)
    requires Acts(s, a, ag) && (ag.pc == MarkApplied || ag.pc.ApplyingOp?)
    ensures Running(s.records[ag.id].state) && ag.t.ops == s.records[ag.id].ops &&
      ag.t.revnos == s.records[ag.id].revnos
    ensures ag.t.nonce == s.records[ag.id].nonce != ""
  {
    hide Settled, Grounded, MissingHolds;
    ActsOk(s, a, ag);
  }

  lemma NothingLogged(s: State, id: ObjectId)
    requires Inv(s) && id in s.records && !Running(s.records[id].state)
    ensures forall p :: 0 <= p < |s.log| ==> s.log[p].id != id
    ensures forall i: nat :: !InLog(s.log, id, i)
  {
    hide Settled;
    forall p | 0 <= p < |s.log| ensures s.log[p].id != id {
      assert EffectOk(s.docs, s.records[s.log[p].id], s.log[p]);
    }
  }

  // A checkpoint on current revisions starts well.
  lemma CheckpointGood(s: State, a: nat, ag: Agent, r: Record)
    requires Acts(s, a, ag) && AgentGood(s.log, ag) && ag.pc.Checkpointing? && s.records[ag.id].state == Prepared
    requires r == s.records[ag.id].(state := Applying, revnos := ag.pc.vector)
    ensures HasVector(r) && PrefixLogged(s.log, ag.id, r)
    ensures forall j: nat :: NextOn(s.log, ag.id, r, j) <==> FirstWanted(r, j)
    ensures Current(s.docs, ag.id, r) ==> RecordGood(s.docs, s.log, ag.id, r)
  {
    hide Grounded, MissingHolds, RunOps;
    ActsOk(s, a, ag);
    NothingLogged(s, ag.id);
    hide Inv;
    assert IsVector(r.ops, ag.revno, r.revnos);
    hide IsVector, InLog;
  }

  lemma AppliedLogged(s: State, step: Step, id: ObjectId)
    requires Inv(s) && Good(s, id) && id in s.records && Running(s.records[id].state)
    requires id in Perform(s, step).records && Perform(s, step).records[id].state == Applied
    ensures AllLogged(s.log, id, s.records[id], |s.records[id].ops|)
  {
    hide Inv, Perform, AllLogged;
    if s.records[id].state != Applied {
      TxnFinal.NewlyApplied(s, step, id);
      var ag := s.agents[step.a];
      assert AgentGood(s.log, ag);
      MarkedRuns(s, step.a, ag);
      SameLogged(s.log, id, ag.t, s.records[id], |ag.t.ops|);
    }
  }

  lemma RecordKeeps(s: State, step: Step, id: ObjectId)
    requires Inv(s) && Good(s, id) && InTurn(s, step, id) && !IsHit(s, step) && id in Perform(s, step).records
    ensures var s' := Perform(s, step); RecordGood(s'.docs, s'.log, id, s'.records[id])
  {
    hide Inv, Perform, Waiting, PrefixLogged, AllLogged, HasVector, Spared, IsHit, AgentsGood, Ordered, InTurn;
    var s' := Perform(s, step);
    if Running(s'.records[id].state) {
      if id in s.records && Running(s.records[id].state) {
        StepSpares(s, step, id);
        PerformKeeps(s, step);
        NonceThere(s, id);
        assert RecordForward(s.records[id], s'.records[id]);
        if s'.records[id].state == Applied {
          AppliedLogged(s, step, id);
        }
        StillGood(s, s', id);
      } else {
        NewlyRunning(s, step, id);
        assert step == Act(step.a, SaveApplying);
        NewRecordGood(s, step.a);
      }
    }
  }

  lemma NonceThere(s: State, id: ObjectId)
    requires Inv(s) && id in s.records && Running(s.records[id].state)
    ensures s.records[id].nonce != ""
  {
  }

  lemma NewRecordGood(s: State, a: nat)
    requires a in s.agents && s.agents[a].id in s.records && InTurn(s, Act(a, SaveApplying), s.agents[a].id)
    requires Inv(s) && AgentsGood(s, s.agents[a].id)
    requires s.agents[a].pc.Checkpointing? && s.records[s.agents[a].id].state == Prepared
    ensures var s' := Perform(s, Act(a, SaveApplying));
      && s.agents[a].id in s'.records
      && RecordGood(s'.docs, s'.log, s.agents[a].id, s'.records[s.agents[a].id])
  {
    hide Inv, RecordGood, Current;
    var ag := s.agents[a];
    CheckpointGood(s, a, ag, s.records[ag.id].(state := Applying, revnos := ag.pc.vector));
  }

  // ---- Agents

  lemma TopActor(s: State, a: nat, ag: Agent, move: Move)
    requires a in s.agents && s.agents[a] == ag && ag.id in s.records && ag.pc == Top
    ensures AgentGood(s.log, DoTop(s, a, ag, move).agents[a])
  {
  }

  lemma PreparingActor(s: State, a: nat, ag: Agent, move: Move)
    requires a in s.agents && s.agents[a] == ag && ag.id in s.records
    ensures ag.pc.Tokens? ==> AgentGood(s.log, DoTokens(s, a, ag, ag.pc.nonce, move).agents[a])
    ensures ag.pc == LostPrepare ==> AgentGood(s.log, DoLostPrepare(s, a, ag, move).agents[a])
    ensures ag.pc == Scanning ==> AgentGood(s.log, DoScanning(s, a, ag, move).agents[a])
  {
    hide Vector, PullFrom;
  }

  lemma PreparedActor(s: State, a: nat, ag: Agent, move: Move)
    requires a in s.agents && s.agents[a] == ag && ag.id in s.records && AgentGood(s.log, ag)
    ensures ag.pc.Prepped? ==> AgentGood(s.log, DoPrepped(s, a, ag, ag.pc.vector, move).agents[a])
    ensures ag.pc == SettingAborting ==> AgentGood(s.log, DoSettingAborting(s, a, ag, move).agents[a])
    ensures ag.pc == LostAbort ==> AgentGood(s.log, DoLostAbort(s, a, ag, move).agents[a])
    ensures ag.pc == Pulling ==> AgentGood(s.log, DoPulling(s, a, ag, move).agents[a])
  {
    hide Vector, PullFrom;
  }

  lemma CheckpointActor(s: State, a: nat, ag: Agent, move: Move)
    requires a in s.agents && s.agents[a] == ag && ag.id in s.records && AgentGood(s.log, ag)
    ensures ag.pc.Checkpointing? ==> AgentGood(s.log, DoCheckpointing(s, a, ag, ag.pc.vector, move).agents[a])
    ensures ag.pc == LostCheckpoint ==> AgentGood(s.log, DoLostCheckpoint(s, a, ag, move).agents[a])
    ensures ag.pc == MarkApplied ==> AgentGood(s.log, DoMarkApplied(s, a, ag, move).agents[a])
  {
    hide Vector;
  }

  // An effective operation that is missed has taken effect before.
  lemma MissLogged(s: State, a: nat, ag: Agent, k: nat)
    requires Acts(s, a, ag) && RecordGood(s.docs, s.log, ag.id, s.records[ag.id]) && ag.pc.ApplyingOp?
    requires AllLogged(s.log, ag.id, ag.t, k) && k < |ag.t.ops| && k < |ag.t.revnos| && !Hits(s.docs, ag.id, ag.t, k)
    ensures AllLogged(s.log, ag.id, ag.t, k + 1)
  {
    hide Inv;
    MarkedRuns(s, a, ag);
    var r := s.records[ag.id];
    SameLogged(s.log, ag.id, ag.t, r, k);
    assert Wanted(r, k) <==> Wanted(ag.t, k);
    assert Wanted(r, k) ==> !Enabled(s.docs, ag.id, r, k);
    assert !NextOn(s.log, ag.id, r, k);
  }

  lemma ApplyingActor(s: State, a: nat, ag: Agent, move: Move)
    requires Acts(s, a, ag) && RecordGood(s.docs, s.log, ag.id, s.records[ag.id]) && AgentGood(s.log, ag)
    requires ag.pc.ApplyingOp? && !IsHit(s, Act(a, move))
    ensures AgentGood(s.log, DoApplyingOp(s, a, ag, ag.pc.k, move).agents[a])
  {
    hide Inv, RecordGood, AllLogged, Hits;
    var k := ag.pc.k;
    if ag.t.state == Applying && k < |ag.t.ops| == |ag.t.revnos| && !Hits(s.docs, ag.id, ag.t, k) {
      MissLogged(s, a, ag, k);
    }
    if k >= |ag.t.ops| {
      FewerLogged(s.log, ag.id, ag.t, k, |ag.t.ops|);
      SameLogged(s.log, ag.id, ag.t, ag.t.(state := Applied), |ag.t.ops|);
    }
  }

  lemma FewerLogged(log: seq<Effect>, id: ObjectId, r: Record, k: nat, n: nat)
    requires AllLogged(log, id, r, k) && n <= k
    ensures AllLogged(log, id, r, n)
  {
  }

  lemma ActorGood(s: State, a: nat, ag: Agent, move: Move)
    requires Acts(s, a, ag) && RecordGood(s.docs, s.log, ag.id, s.records[ag.id]) && AgentGood(s.log, ag)
    requires !IsHit(s, Act(a, move))
    ensures a in DoAct(s, a, ag, move).agents ==> AgentGood(s.log, DoAct(s, a, ag, move).agents[a])
  {
    hide Inv, RecordGood, AgentGood, IsHit, DoTop, DoTokens, DoLostPrepare, DoScanning, DoPrepped, DoSettingAborting,
      DoLostAbort, DoPulling, DoCheckpointing, DoLostCheckpoint, DoApplyingOp, DoMarkApplied;
    if ag.pc == Top {
      TopActor(s, a, ag, move);
    } else if ag.pc.ApplyingOp? {
      ApplyingActor(s, a, ag, move);
    } else {
      PreparingActor(s, a, ag, move);
      PreparedActor(s, a, ag, move);
      CheckpointActor(s, a, ag, move);
    }
  }

  lemma AgentKeeps(s: State, step: Step, b: nat, id: ObjectId)
    requires Inv(s) && Good(s, id) && InTurn(s, step, id) && !IsHit(s, step) && b in Perform(s, step).agents
    requires Perform(s, step).agents[b].id == id
    ensures AgentGood(Perform(s, step).log, Perform(s, step).agents[b])
  {
    StepSpares(s, step, id);
    hide Inv, RecordGood, AgentGood, IsHit, DoAct, Ordered, StepOk, InTurn, Spared;
    if step.Act? && step.a in s.agents && s.agents[step.a].id in s.records {
      ActKeeps(s, step.a, step.move);
      if b == step.a {
        ActorStays(s, Perform(s, step), b, s.agents[b].id);
        ActorGood(s, b, s.agents[b], step.move);
      } else {
        OthersStay(s, Perform(s, step), step.a, s.agents[step.a].id, b);
      }
    } else if step.Load? && b == step.a && b !in s.agents {
      FreshAgent(s.log, Perform(s, step), b);
    }
  }

  lemma ActorStays(s: State, s': State, a: nat, id: ObjectId)
    requires s' == s || StepOk(s, s', a, id)
    requires a in s.agents && s.agents[a].id == id
    ensures a in s'.agents && s'.agents[a].id == id
  {
  }

  lemma OthersStay(s: State, s': State, a: nat, id: ObjectId, b: nat)
    requires s' == s || StepOk(s, s', a, id)
    requires b != a && b in s'.agents
    ensures b in s.agents && s'.agents[b] == s.agents[b]
  {
  }

  lemma FreshAgent(log: seq<Effect>, s: State, b: nat)
    requires b in s.agents && s.agents[b].pc == Top
    ensures AgentGood(log, s.agents[b])
  {
  }

  // ---- The step that runs an operation

  lemma LogOne(log: seq<Effect>, e: Effect)
    ensures forall id, i: nat :: InLog(log + [e], id, i) <==> InLog(log, id, i) || (e.id == id && e.op == i)
  {
    var log' := log + [e];
    assert log'[|log|] == e;
    forall id, i: nat | InLog(log, id, i) ensures InLog(log', id, i) {
      var p :| 0 <= p < |log| && log[p].id == id && log[p].op == i;
      assert log'[p] == log[p];
    }
  }

  // The transaction has nothing left to do on a document that another one changes.
  lemma OtherWaits(s: State, docs': map<DocKey, Doc>, d: DocKey, e: Effect, y: ObjectId)
    requires y in s.records && y != e.id && Running(s.records[y].state) && Waiting(s.docs, s.log, y, s.records[y])
    requires !Needs(s, y, d) && forall c :: c != d ==> DocAt(docs', c) == DocAt(s.docs, c)
    ensures Waiting(docs', s.log + [e], y, s.records[y])
  {
    LogOne(s.log, e);
    hide InLog;
    var r := s.records[y];
    forall j: nat | NextOn(s.log + [e], y, r, j) ensures Enabled(docs', y, r, j) {
      assert NextOn(s.log, y, r, j);
      assert r.ops[j].key != d;
    }
  }

  // The transaction's own next operation on the document finds the revision just written.
  lemma OwnWaits(s: State, docs': map<DocKey, Doc>, id: ObjectId, r: Record, k: nat)
    requires HasVector(r) && Waiting(s.docs, s.log, id, r) && PrefixLogged(s.log, id, r) && AllLogged(s.log, id, r, k)
    requires Wanted(r, k) && !InLog(s.log, id, k)
    requires forall c :: c != r.ops[k].key ==> DocAt(docs', c) == DocAt(s.docs, c)
    requires Revno(docs', r.ops[k].key) == NextRevno(r.ops[k].change, r.revnos[k])
    requires (exists j: nat :: j != k && Open(s.log, id, r, j) && r.ops[j].key == r.ops[k].key) ==>
      Token(id, r.nonce) in DocAt(docs', r.ops[k].key).queue
    ensures Waiting(docs', s.log + [Effect(id, k, r.revnos[k])], id, r)
  {
    hide HasVector;
    var log' := s.log + [Effect(id, k, r.revnos[k])];
    LogOne(s.log, Effect(id, k, r.revnos[k]));
    forall j: nat | NextOn(log', id, r, j) ensures Enabled(docs', id, r, j) {
      if r.ops[j].key == r.ops[k].key {
        assert j > k;
        forall l: nat | k < l < j && r.ops[l].key == r.ops[j].key ensures !Wanted(r, l) {
          LaterNotLogged(s.log, id, r, k, l);
        }
        VectorAfter(r, k, j);
        assert Open(s.log, id, r, j);
      } else {
        assert NextOn(s.log, id, r, j);
      }
    }
  }

  lemma LaterNotLogged(log: seq<Effect>, id: ObjectId, r: Record, k: nat, l: nat)
    requires PrefixLogged(log, id, r) && Wanted(r, k) && !InLog(log, id, k) && k < l
    ensures !InLog(log, id, l)
  {
    forall p | 0 <= p < |log| && log[p].id == id ensures log[p].op != l {
      assert AllLogged(log, id, r, log[p].op);
    }
  }

  // An operation that finds its document is not in the log yet.
  lemma HitIsNew(s: State, a: nat, ag: Agent, k: nat)
    requires Acts(s, a, ag) && ag.pc.ApplyingOp? && k < |ag.t.ops| == |ag.t.revnos| && Hits(s.docs, ag.id, ag.t, k)
    ensures !InLog(s.log, ag.id, k)
  {
    hide Settled;
    MarkedRuns(s, a, ag);
    forall p | 0 <= p < |s.log| && s.log[p].id == ag.id ensures s.log[p].op != k {
      assert EffectOk(s.docs, s.records[s.log[p].id], s.log[p]);
    }
  }

  lemma PrefixMore(log: seq<Effect>, e: Effect, id: ObjectId, r: Record)
    requires PrefixLogged(log, id, r) && (e.id == id ==> Wanted(r, e.op) && AllLogged(log, id, r, e.op))
    ensures PrefixLogged(log + [e], id, r)
  {
    hide AllLogged;
    var log' := log + [e];
    forall p | 0 <= p < |log'| && log'[p].id == id ensures Wanted(r, log'[p].op) && AllLogged(log', id, r, log'[p].op) {
      LoggedAgain(log, log', id, r, log'[p].op);
    }
  }

  lemma OrderedMore(log: seq<Effect>, e: Effect, r: Record)
    requires Ordered(log, e.id) && PrefixLogged(log, e.id, r) && Wanted(r, e.op) && !InLog(log, e.id, e.op)
    ensures Ordered(log + [e], e.id)
  {
    forall p | 0 <= p < |log| && log[p].id == e.id ensures log[p].op < e.op {
      assert AllLogged(log, e.id, r, log[p].op);
    }
  }

  // What such a step does, given that the turn of a transaction is kept.
  ghost predicate HitParts(s: State, s': State, a: nat, ag: Agent) {
    && a in s.agents && s.agents[a] == ag && ag.id in s.records && ag.pc.ApplyingOp?
    && ag.pc.k < |ag.t.ops| == |ag.t.revnos| && Hits(s.docs, ag.id, ag.t, ag.pc.k)
    && var k := ag.pc.k;
    && var d := ag.t.ops[k].key;
    && s'.records == s.records && s'.log == s.log + [Effect(ag.id, k, ag.t.revnos[k])]
    && s'.agents == s.agents[a := ag.(pc := ApplyingOp(k + 1))]
    && (forall c :: c != d ==> DocAt(s'.docs, c) == DocAt(s.docs, c))
    && Revno(s'.docs, d) == NextRevno(ag.t.ops[k].change, ag.t.revnos[k])
  }

  lemma HitHasParts(s: State, step: Step)
    requires IsHit(s, step)
    ensures var s' := Perform(s, step);
      var ag := s.agents[step.a];
      && HitParts(s, s', step.a, ag)
      && DocAt(s'.docs, ag.t.ops[ag.pc.k].key).queue == DocAt(s.docs, ag.t.ops[ag.pc.k].key).queue - step.move.pulled
  {
    hide DoTop, DoTokens, DoLostPrepare, DoScanning, DoPrepped, DoSettingAborting, DoLostAbort,
      DoPulling, DoCheckpointing, DoLostCheckpoint, DoMarkApplied;
  }

  // The transaction is running, its copy agrees with the record, and the operation is new.
  lemma HitFacts(s: State, a: nat, ag: Agent)
    requires Acts(s, a, ag) && AgentsGood(s, ag.id) && ag.pc.ApplyingOp?
    requires ag.pc.k < |ag.t.ops| == |ag.t.revnos| && Hits(s.docs, ag.id, ag.t, ag.pc.k)
    ensures OwnFacts(s, ag, s.records[ag.id])
  {
    HitIsNew(s, a, ag, ag.pc.k);
    MarkedRuns(s, a, ag);
    hide Inv;
    assert AgentGood(s.log, ag);
    SameLogged(s.log, ag.id, ag.t, s.records[ag.id], ag.pc.k);
  }

  ghost predicate OwnFacts(s: State, ag: Agent, r: Record)
    requires ag.pc.ApplyingOp?
  {
    && Running(r.state) && r.ops == ag.t.ops && r.revnos == ag.t.revnos && r.nonce == ag.t.nonce
    && AllLogged(s.log, ag.id, r, ag.pc.k) && !InLog(s.log, ag.id, ag.pc.k) && Wanted(r, ag.pc.k)
  }

  lemma OwnRecordGood(s: State, s': State, a: nat, ag: Agent, r: Record)
    requires HitParts(s, s', a, ag) && OwnFacts(s, ag, r) && RecordGood(s.docs, s.log, ag.id, r) &&
      r == s.records[ag.id]
    requires NeedsMore(s, ag.id, ag.pc.k, r.ops[ag.pc.k].key) ==>
      Token(ag.id, r.nonce) in DocAt(s'.docs, r.ops[ag.pc.k].key).queue
    ensures RecordGood(s'.docs, s'.log, ag.id, r) && (Ordered(s.log, ag.id) ==> Ordered(s'.log, ag.id))
  {
    hide HasVector, Waiting, PrefixLogged, AllLogged, InLog, Ordered;
    var k := ag.pc.k;
    OwnWaits(s, s'.docs, ag.id, r, k);
    PrefixMore(s.log, Effect(ag.id, k, ag.t.revnos[k]), ag.id, r);
    if r.state == Applied {
      LoggedAgain(s.log, s'.log, ag.id, r, |r.ops|);
    }
    if Ordered(s.log, ag.id) {
      OrderedMore(s.log, Effect(ag.id, ag.pc.k, ag.t.revnos[ag.pc.k]), r);
    }
  }

  lemma OtherRecordGood(s: State, s': State, a: nat, ag: Agent, y: ObjectId)
    requires HitParts(s, s', a, ag) && y in s.records && y != ag.id && !Needs(s, y, ag.t.ops[ag.pc.k].key)
    requires RecordGood(s.docs, s.log, y, s.records[y])
    ensures RecordGood(s'.docs, s'.log, y, s.records[y])
  {
    hide HasVector, Waiting, PrefixLogged, AllLogged, InLog, Needs;
    var k, r := ag.pc.k, s.records[y];
    var e := Effect(ag.id, k, ag.t.revnos[k]);
    if Running(r.state) {
      OtherWaits(s, s'.docs, ag.t.ops[k].key, e, y);
      PrefixMore(s.log, e, y, r);
      if r.state == Applied {
        LoggedAgain(s.log, s'.log, y, r, |r.ops|);
      }
    }
  }

  lemma HitRecord(s: State, step: Step, id: ObjectId)
    requires Inv(s) && Good(s, id) && IsHit(s, step) && InTurn(s, step, id)
    ensures var s' := Perform(s, step);
      && (id in s'.records ==> RecordGood(s'.docs, s'.log, id, s'.records[id])) && Ordered(s'.log, id)
  {
    hide Inv, Perform, RecordGood, AgentGood, Needs, NeedsMore, OwnFacts, Ordered, Hits;
    var s', a := Perform(s, step), step.a;
    var ag := s.agents[a];
    HitHasParts(s, step);
    if ag.id == id {
      HitActs(s, step);
      HitFacts(s, a, ag);
      TokenLeft(s, s', step, ag);
      OwnRecordGood(s, s', a, ag, s.records[id]);
    } else {
      OrderedAgain(s.log, Effect(ag.id, ag.pc.k, ag.t.revnos[ag.pc.k]), id);
      if id in s.records {
        OtherRecordGood(s, s', a, ag, id);
      }
    }
  }

  lemma OrderedAgain(log: seq<Effect>, e: Effect, id: ObjectId)
    requires Ordered(log, id) && e.id != id
    ensures Ordered(log + [e], id)
  {
  }

  lemma TokenLeft(s: State, s': State, step: Step, ag: Agent)
    requires IsHit(s, step) && ag == s.agents[step.a] && MayRun(s, ag.id, ag, ag.pc.k, step.move.pulled)
    requires OwnFacts(s, ag, s.records[ag.id])
    requires DocAt(s'.docs, ag.t.ops[ag.pc.k].key).queue ==
      DocAt(s.docs, ag.t.ops[ag.pc.k].key).queue - step.move.pulled
    ensures NeedsMore(s, ag.id, ag.pc.k, s.records[ag.id].ops[ag.pc.k].key) ==>
      Token(ag.id, s.records[ag.id].nonce) in DocAt(s'.docs, s.records[ag.id].ops[ag.pc.k].key).queue
  {
  }

  lemma HitAgents(s: State, s': State, a: nat, ag: Agent, id: ObjectId)
    requires AgentsGood(s, id) && HitParts(s, s', a, ag)
    ensures AgentsGood(s', id)
  {
    hide AllLogged;
    var k := ag.pc.k;
    forall b | b in s'.agents && s'.agents[b].id == id ensures AgentGood(s'.log, s'.agents[b]) {
      if b == a {
        LoggedAgain(s.log, s'.log, ag.id, ag.t, k);
        OneMoreLogged(s.log, Effect(ag.id, k, ag.t.revnos[k]), ag.t);
      } else {
        AgentGoodAgain(s.log, s'.log, s.agents[b]);
      }
    }
  }

  lemma OneMoreLogged(log: seq<Effect>, e: Effect, t: Record)
    requires AllLogged(log, e.id, t, e.op)
    ensures AllLogged(log + [e], e.id, t, e.op + 1)
  {
    LogOne(log, e);
  }

  lemma HitActs(s: State, step: Step)
    requires Inv(s) && IsHit(s, step)
    ensures step.Act? && step.a in s.agents && Acts(s, step.a, s.agents[step.a])
  {
  }

  // ---- Whole runs

  lemma InTurnKeeps(s: State, step: Step, id: ObjectId)
    requires Inv(s) && Good(s, id) && InTurn(s, step, id)
    ensures Good(Perform(s, step), id)
  {
    hide Inv, RecordGood, AgentGood, IsHit, InTurn, Perform, HitParts, Ordered, Spared;
    var s' := Perform(s, step);
    if IsHit(s, step) {
      HitActs(s, step);
      HitHasParts(s, step);
      HitRecord(s, step, id);
      HitAgents(s, s', step.a, s.agents[step.a], id);
    } else {
      StepSpares(s, step, id);
      if id in s'.records {
        RecordKeeps(s, step, id);
      }
      forall b | b in s'.agents && s'.agents[b].id == id ensures AgentGood(s'.log, s'.agents[b]) {
        AgentKeeps(s, step, b, id);
      }
    }
  }

  // Every step of the run keeps the turn of the transaction.
  ghost predicate AllInTurn(docs: map<DocKey, Doc>, steps: seq<Step>, id: ObjectId) {
    forall n: nat :: n < |steps| ==> InTurn(At(docs, steps, n), steps[n], id)
  }

  lemma {:induction false} RunIsGood(docs: map<DocKey, Doc>, steps: seq<Step>, n: nat, id: ObjectId)
    requires n <= |steps| && forall m: nat :: m < n ==> InTurn(At(docs, steps, m), steps[m], id)
    ensures Good(At(docs, steps, n), id)
  {
    if n == 0 {
      InitialGood(docs, id);
      AtIsAfter(docs, steps, 0);
    } else {
      hide Good, At, InTurn, Perform, Inv, Forward;
      RunIsGood(docs, steps, n - 1, id);
      OneStep(docs, steps, n - 1);
      InTurnKeeps(At(docs, steps, n - 1), steps[n - 1], id);
    }
  }

  lemma InitialGood(docs: map<DocKey, Doc>, id: ObjectId)
    ensures Good(Initial(docs), id) && Initial(docs) == After(Initial(docs), [])
  {
  }

  // ---- When the turn is broken

  // The operation is effective on the vector, has not taken effect and never will.
  ghost predicate Lost(s: State, id: ObjectId, j: nat) {
    && id in s.records && Running(s.records[id].state)
    && var r := s.records[id];
    && Open(s.log, id, r, j) && Past(s.docs, Token(id, r.nonce), r.ops[j], r.revnos[j])
  }

  ghost predicate SomeLost(s: State, id: ObjectId) {
    exists j: nat :: Lost(s, id, j)
  }

  lemma SameLogStep(s: State, step: Step)
    requires !IsHit(s, step)
    ensures Perform(s, step).log == s.log
  {
    hide DoAct;
    if step.Act? && step.a in s.agents && s.agents[step.a].id in s.records {
      var ag := s.agents[step.a];
      if ag.pc.ApplyingOp? {
        MissSame(s, step.a, ag, step.move);
      } else {
        TxnFinal.SameLog(s, step.a, ag, step.move);
      }
    }
  }

  lemma PastStays(
      rs: map<ObjectId, Record>, docs: map<DocKey, Doc>, docs': map<DocKey, Doc>, id: ObjectId, op: Op, revno: int)
    requires id in rs && rs[id].state != Preparing && DocsForward(rs, docs, docs')
    requires Past(docs, Token(id, rs[id].nonce), op, revno)
    ensures Past(docs', Token(id, rs[id].nonce), op, revno)
  {
    assert Reached(Revno(docs', op.key), Revno(docs, op.key));
  }

  // No step logs an operation that is past.
  lemma LostNotLogged(s: State, step: Step, id: ObjectId, j: nat)
    requires Inv(s) && Lost(s, id, j)
    ensures !InLog(Perform(s, step).log, id, j)
  {
    hide Inv, Perform, InLog;
    if IsHit(s, step) {
      HitActs(s, step);
      HitHasParts(s, step);
      var ag := s.agents[step.a];
      MarkedRuns(s, step.a, ag);
      LogOne(s.log, Effect(ag.id, ag.pc.k, ag.t.revnos[ag.pc.k]));
    } else {
      SameLogStep(s, step);
    }
  }

  lemma LostStays(s: State, step: Step, id: ObjectId, j: nat)
    requires Inv(s) && Lost(s, id, j)
    ensures Lost(Perform(s, step), id, j)
  {
    LostNotLogged(s, step, id, j);
    hide Inv, Perform, InLog, Past;
    PerformKeeps(s, step);
    var r := s.records[id];
    assert RecordForward(r, Perform(s, step).records[id]);
    NonceThere(s, id);
    PastStays(s.records, s.docs, Perform(s, step).docs, id, r.ops[j], r.revnos[j]);
  }

  lemma PullLoses(s: State, a: nat, ag: Agent, d: DocKey, tokens: set<Token>, id: ObjectId)
    requires a in s.agents && s.agents[a] == ag && ag.id in s.records && (ag.pc.Tokens? || ag.pc == Pulling)
    requires !MayPull(s, id, d, tokens)
    ensures SomeLost(Perform(s, Act(a, Pull(d, tokens))), id)
  {
    hide InLog, Vector;
    var j: nat :| Open(s.log, id, s.records[id], j) && s.records[id].ops[j].key == d;
    assert Lost(Perform(s, Act(a, Pull(d, tokens))), id, j);
  }

  lemma FirstOnDocument(ops: seq<Op>, j: nat)
    requires j < |ops|
    ensures exists i: nat :: i <= j && ops[i].key == ops[j].key && FirstTouch(ops, i)
  {
    if !FirstTouch(ops, j) {
      var i: nat :| i < j && ops[i].key == ops[j].key;
      FirstOnDocument(ops, i);
    }
  }

  // A document that a vector does not match any more has moved past it.
  lemma StaleIsPast(docs: map<DocKey, Doc>, r: Record, revno: map<DocKey, int>, j: nat)
    requires Grounded(docs, r.ops, r.revnos) && r.revnos == Vector(r.ops, revno) && FirstWanted(r, j)
    ensures Reached(Revno(docs, r.ops[j].key), r.revnos[j])
  {
    FirstOnDocument(r.ops, j);
    var i: nat :| i <= j && r.ops[i].key == r.ops[j].key && FirstTouch(r.ops, i);
    hide Vector, IsVector;
    FirstTouchReads(r.ops, revno, i);
    VectorFirst(r, revno, j) by { VectorIs(r.ops, revno); }
  }

  lemma VectorIs(ops: seq<Op>, revno: map<DocKey, int>)
    ensures IsVector(ops, revno, Vector(ops, revno))
  {
  }

  lemma CheckpointLoses(s: State, a: nat, ag: Agent)
    requires Acts(s, a, ag) && AgentGood(s.log, ag) && ag.pc.Checkpointing? && s.records[ag.id].state == Prepared
    requires !Current(s.docs, ag.id, s.records[ag.id].(state := Applying, revnos := ag.pc.vector))
    ensures SomeLost(Perform(s, Act(a, SaveApplying)), ag.id)
  {
    hide Vector, Grounded, MissingHolds, LogOk, NoncesOk, InLog;
    var r := s.records[ag.id].(state := Applying, revnos := ag.pc.vector);
    ActsOk(s, a, ag);
    NothingLogged(s, ag.id);
    hide Inv;
    var j: nat :| FirstWanted(r, j) && !Enabled(s.docs, ag.id, r, j);
    StaleIsPast(s.docs, r, ag.revno, j);
    assert Lost(Perform(s, Act(a, SaveApplying)), ag.id, j);
  }

  lemma NextOfOpen(log: seq<Effect>, id: ObjectId, r: Record, j: nat)
    requires Open(log, id, r, j)
    ensures exists i: nat :: i <= j && NextOn(log, id, r, i) && r.ops[i].key == r.ops[j].key
  {
    if !NextOn(log, id, r, j) {
      var i: nat :| i < j && Wanted(r, i) && r.ops[i].key == r.ops[j].key && !InLog(log, id, i);
      NextOfOpen(log, id, r, i);
    }
  }

  lemma OtherHitLoses(s: State, s': State, a: nat, ag: Agent, id: ObjectId)
    requires HitParts(s, s', a, ag) && ag.id != id && Needs(s, id, ag.t.ops[ag.pc.k].key)
    requires RecordGood(s.docs, s.log, id, s.records[id])
    ensures SomeLost(s', id)
  {
    hide InLog, PrefixLogged, AllLogged, HasVector;
    var k, r := ag.pc.k, s.records[id];
    var j: nat :| Open(s.log, id, r, j) && r.ops[j].key == ag.t.ops[k].key;
    NextOfOpen(s.log, id, r, j);
    var i: nat :| i <= j && NextOn(s.log, id, r, i) && r.ops[i].key == r.ops[j].key;
    assert Enabled(s.docs, id, r, i);
    EffectRaises(ag.t.ops[k].change, ag.t.revnos[k]);
    LogOne(s.log, Effect(ag.id, k, ag.t.revnos[k]));
    assert Lost(s', id, i);
  }

  lemma OwnHitLoses(s: State, s': State, a: nat, ag: Agent, pulled: set<Token>)
    requires HitParts(s, s', a, ag) && NeedsMore(s, ag.id, ag.pc.k, ag.t.ops[ag.pc.k].key)
    requires Token(ag.id, s.records[ag.id].nonce) in pulled
    requires DocAt(s'.docs, ag.t.ops[ag.pc.k].key).queue == DocAt(s.docs, ag.t.ops[ag.pc.k].key).queue - pulled
    ensures SomeLost(s', ag.id)
  {
    hide InLog, Hits;
    var k, r := ag.pc.k, s.records[ag.id];
    var j: nat :| j != k && Open(s.log, ag.id, r, j) && r.ops[j].key == ag.t.ops[k].key;
    LogOne(s.log, Effect(ag.id, k, ag.t.revnos[k]));
    assert Lost(s', ag.id, j);
  }

  lemma HitLoses(s: State, step: Step, id: ObjectId)
    requires Inv(s) && Good(s, id) && IsHit(s, step) && !InTurn(s, step, id)
    ensures SomeLost(Perform(s, step), id)
  {
    hide Inv, Perform, RecordGood, AgentGood, HitParts, SomeLost, Hits;
    HitHasParts(s, step);
    var ag := s.agents[step.a];
    if ag.id == id {
      hide Needs, NeedsMore;
      OwnHitLoses(s, Perform(s, step), step.a, ag, step.move.pulled);
    } else {
      NeedsRecord(s, id, ag.t.ops[ag.pc.k].key);
      hide Needs, NeedsMore;
      OtherHitLoses(s, Perform(s, step), step.a, ag, id);
    }
  }

  lemma NeedsRecord(s: State, id: ObjectId, d: DocKey)
    requires Needs(s, id, d)
    ensures id in s.records
  {
  }

  // The first step that breaks the turn loses an operation.
  lemma BrokenLoses(s: State, step: Step, id: ObjectId)
    requires Inv(s) && Good(s, id) && !InTurn(s, step, id)
    ensures SomeLost(Perform(s, step), id)
  {
    hide Inv, Perform, RecordGood, AgentGood, MayPull, MayRun, Current, SomeLost, Ordered, Hits;
    if IsHit(s, step) {
      HitLoses(s, step, id);
    } else {
      var ag := s.agents[step.a];
      if ag.pc.Checkpointing? {
        AgentActs(s, step.a);
        assert step == Act(step.a, SaveApplying);
        CheckpointLoses(s, step.a, ag);
      } else {
        PullLoses(s, step.a, ag, step.move.d, step.move.tokens, id);
        assert step == Act(step.a, Pull(step.move.d, step.move.tokens));
      }
    }
  }

  lemma AgentActs(s: State, a: nat)
    requires Inv(s) && a in s.agents && s.agents[a].id in s.records
    ensures Acts(s, a, s.agents[a])
  {
  }

  lemma {:induction false} GoodOrLost(docs: map<DocKey, Doc>, steps: seq<Step>, n: nat, id: ObjectId)
    requires n <= |steps|
    ensures (forall m: nat :: m < n ==> InTurn(At(docs, steps, m), steps[m], id)) || SomeLost(At(docs, steps, n), id)
  {
    hide At, InTurn, Inv, Perform, Forward, Lost, Good;
    if n > 0 {
      var s := At(docs, steps, n - 1);
      GoodOrLost(docs, steps, n - 1, id);
      OneStep(docs, steps, n - 1);
      if SomeLost(s, id) {
        var j: nat :| Lost(s, id, j);
        LostStays(s, steps[n - 1], id, j);
      } else if !InTurn(s, steps[n - 1], id) {
        RunIsGood(docs, steps, n - 1, id);
        BrokenLoses(s, steps[n - 1], id);
      }
    }
  }

  // An applied transaction took effect as a whole, each operation that its vector makes
  // effective being in the log, if and only if every step of the run kept its turn.
  lemma AppliedWholeExactly(docs: map<DocKey, Doc>, steps: seq<Step>, id: ObjectId)
    requires id in After(Initial(docs), steps).records && After(Initial(docs), steps).records[id].state == Applied
    ensures var s := After(Initial(docs), steps);
      (forall i: nat :: Wanted(s.records[id], i) ==> InLog(s.log, id, i)) <==> AllInTurn(docs, steps, id)
  {
    hide After, InTurn, InLog, Wanted, Past;
    assert steps[..|steps|] == steps;
    AtIsAfter(docs, steps, |steps|);
    if AllInTurn(docs, steps, id) {
      AppliedAsAWhole(docs, steps, id);
    } else {
      GoodOrLost(docs, steps, |steps|, id);
      hide At;
      var j: nat :| Lost(After(Initial(docs), steps), id, j);
    }
  }

  // Such a transaction took effect exactly once, with no other operation, and in its order.
  lemma AppliedAsAWhole(docs: map<DocKey, Doc>, steps: seq<Step>, id: ObjectId)
    requires AllInTurn(docs, steps, id)
    requires id in After(Initial(docs), steps).records && After(Initial(docs), steps).records[id].state == Applied
    ensures var s := After(Initial(docs), steps);
      && (forall i: nat :: InLog(s.log, id, i) <==> Wanted(s.records[id], i))
      && (forall p, q :: 0 <= p < q < |s.log| && s.log[p].id == id && s.log[q].id == id ==> s.log[p].op < s.log[q].op)
  {
    hide After, InTurn;
    assert steps[..|steps|] == steps;
    AtIsAfter(docs, steps, |steps|);
    RunIsGood(docs, steps, |steps|, id);
  }
}
