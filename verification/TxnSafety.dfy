/** What every run of the transaction protocol keeps. */
module TxnSafety {
  import opened TxnQueue
  import opened TxnRevnos
  import opened Graphs
  import opened TxnProtocol

  // Records move from preparing to prepared, then to aborting and aborted or to applying
  // and applied.
  predicate Leads(from: TxnState, to: TxnState) {
    from == to || match from
      case Preparing => true
      case Prepared => to != Preparing
      case Aborting => to == Aborted
      case Applying => to == Applied
      case _ => false
  }

  predicate Running(s: TxnState) {
    s == Applying || s == Applied
  }

  // The document is still at this revision or has moved past it for good.
  predicate Reached(now: int, revno: int) {
    now == revno || Abs(now) > Abs(revno)
  }

  ghost predicate RecordForward(r: Record, r': Record) {
    && r'.ops == r.ops && Leads(r.state, r'.state)
    && (r.nonce != "" ==> r'.nonce == r.nonce)
    && (Running(r.state) ==> r'.revnos == r.revnos)
  }

  ghost predicate RecordsForward(rs: map<ObjectId, Record>, rs': map<ObjectId, Record>) {
    forall id :: id in rs ==> id in rs' && RecordForward(rs[id], rs'[id])
  }

  // Revisions only move on, and the token of a prepared transaction does not come back.
  ghost predicate DocsForward(rs: map<ObjectId, Record>, docs: map<DocKey, Doc>, docs': map<DocKey, Doc>) {
    && (forall d :: Reached(Revno(docs', d), Revno(docs, d)))
    && (forall d, id :: id in rs && rs[id].state != Preparing && Token(id, rs[id].nonce) in DocAt(docs', d).queue
          ==> Token(id, rs[id].nonce) in DocAt(docs, d).queue)
  }

  // The revisions collected for the documents have been reached.
  ghost predicate Collected(docs: map<DocKey, Doc>, revno: map<DocKey, int>) {
    forall d :: d in revno ==> Reached(Revno(docs, d), revno[d])
  }

  // Each first operation on a document has a revision that the document has reached.
  ghost predicate Grounded(docs: map<DocKey, Doc>, ops: seq<Op>, revnos: seq<int>) {
    |revnos| == |ops| && forall i :: 0 <= i < |ops| && FirstTouch(ops, i) ==>
      Reached(Revno(docs, ops[i].key), revnos[i])
  }

  // The operation can no longer take effect.
  predicate Past(docs: map<DocKey, Doc>, token: Token, op: Op, revno: int) {
    !Effective(op.change, revno) || Abs(Revno(docs, op.key)) > Abs(revno) || token !in DocAt(docs, op.key).queue
  }

  // No first operation on a document among the first k can still take effect.
  ghost predicate Settled(docs: map<DocKey, Doc>, id: ObjectId, t: Record, k: nat) {
    && |t.revnos| == |t.ops|
    && forall i :: 0 <= i < k && i < |t.ops| && FirstTouch(t.ops, i) ==>
      Past(docs, Token(id, t.nonce), t.ops[i], t.revnos[i])
  }

  ghost predicate RecordOk(docs: map<DocKey, Doc>, r: Record) {
    && (r.state == Preparing <==> r.nonce == "")
    && (if Running(r.state) then Grounded(docs, r.ops, r.revnos) && MissingHolds(r.ops, r.revnos) else r.revnos == [])
  }

  // A local copy is a past version of the record; it may run ahead by the applied mark.
  ghost predicate Behind(t: Record, r: Record) {
    && t.ops == r.ops && (Leads(t.state, r.state) || (t.state == Applied && r.state == Applying))
    && t.nonce == (if t.state == Preparing then "" else r.nonce)
    && (Running(t.state) ==> t.revnos == r.revnos)
  }

  ghost predicate AgentOk(docs: map<DocKey, Doc>, r: Record, ag: Agent) {
    && Behind(ag.t, r)
    && match ag.pc
       case Top => true
       case Tokens(nonce) => ag.t.state == Preparing && nonce != "" && Collected(docs, ag.revno)
       case LostPrepare => ag.t.state == Preparing && r.state != Preparing && Collected(docs, ag.revno)
       case Scanning => ag.t.state == Prepared && Collected(docs, ag.revno)
       case Prepped(vector) => ag.t.state == Prepared && Grounded(docs, ag.t.ops, vector)
       case SettingAborting => ag.t.state == Prepared
       case LostAbort => ag.t.state == Prepared && r.state != Prepared
       case Pulling => ag.t.state == Aborting
       case Checkpointing(vector) => ag.t.state == Prepared && Grounded(docs, ag.t.ops, vector) &&
         MissingHolds(ag.t.ops, vector)
       case LostCheckpoint => ag.t.state == Prepared && r.state != Prepared
       case ApplyingOp(k) => ag.t.state == Applying && Settled(docs, ag.id, ag.t, k)
       case MarkApplied => ag.t.state == Applied && Settled(docs, ag.id, ag.t, |ag.t.ops|)
       case Returned => true
       case Panicked => false
  }

  // A logged effect belongs to a running transaction, happened on the revision its record
  // gives the operation, and cannot happen again.
  ghost predicate EffectOk(docs: map<DocKey, Doc>, r: Record, e: Effect) {
    && Running(r.state) && e.op < |r.ops| && |r.revnos| == |r.ops| && r.revnos[e.op] == e.revno
    && Abs(Revno(docs, r.ops[e.op].key)) > Abs(e.revno)
    && Settled(docs, e.id, r, e.op)
  }

  ghost predicate LogOk(s: State) {
    && (forall p :: 0 <= p < |s.log| ==> s.log[p].id in s.records && EffectOk(s.docs, s.records[s.log[p].id], s.log[p]))
    && (forall p, q :: 0 <= p < q < |s.log| ==> InOrder(s.records, s.log[p], s.log[q]))
  }

  // Of two effects of one transaction, the earlier is not of the same operation, and among
  // first operations on their documents it is of the earlier one.
  ghost predicate InOrder(rs: map<ObjectId, Record>, e: Effect, f: Effect) {
    e.id == f.id && e.id in rs ==>
      && e.op != f.op
      && (e.op < |rs[e.id].ops| && f.op < |rs[f.id].ops| &&
          FirstTouch(rs[e.id].ops, e.op) && FirstTouch(rs[f.id].ops, f.op) ==>
            e.op < f.op)
  }

  // No agent is putting out a token with another agent's nonce or a saved one.
  ghost predicate NoncesOk(s: State) {
    && (forall a :: a in s.agents && s.agents[a].pc.Tokens? ==>
          s.agents[a].pc.nonce in s.nonces &&
            (s.agents[a].id in s.records ==> s.records[s.agents[a].id].nonce != s.agents[a].pc.nonce))
    && (forall a, b :: a in s.agents && b in s.agents && a != b && s.agents[a].pc.Tokens? && s.agents[b].pc.Tokens?
          ==> s.agents[a].pc.nonce != s.agents[b].pc.nonce)
    && (forall id :: id in s.records && s.records[id].nonce != "" ==> s.records[id].nonce in s.nonces)
  }

  ghost predicate Inv(s: State) {
    && NoncesOk(s)
    && (forall id :: id in s.records ==> RecordOk(s.docs, s.records[id]))
    && (forall a :: a in s.agents ==>
      s.agents[a].id in s.records && AgentOk(s.docs, s.records[s.agents[a].id], s.agents[a]))
    && LogOk(s)
  }

  ghost predicate Forward(s: State, s': State) {
    RecordsForward(s.records, s'.records) && DocsForward(s.records, s.docs, s'.docs) && s.log <= s'.log
  }

  lemma ReachedAgain(rs: map<ObjectId, Record>, docs: map<DocKey, Doc>, docs': map<DocKey, Doc>, d: DocKey, revno: int)
    requires DocsForward(rs, docs, docs') && Reached(Revno(docs, d), revno)
    ensures Reached(Revno(docs', d), revno)
  {
    assert Reached(Revno(docs', d), Revno(docs, d));
  }

  lemma GroundedAgain(
      rs: map<ObjectId, Record>, docs: map<DocKey, Doc>, docs': map<DocKey, Doc>, ops: seq<Op>, revnos: seq<int>)
    requires DocsForward(rs, docs, docs') && Grounded(docs, ops, revnos)
    ensures Grounded(docs', ops, revnos)
  {
    forall i | 0 <= i < |ops| && FirstTouch(ops, i) ensures Reached(Revno(docs', ops[i].key), revnos[i]) {
      ReachedAgain(rs, docs, docs', ops[i].key, revnos[i]);
    }
  }

  lemma CollectedAgain(
      rs: map<ObjectId, Record>, docs: map<DocKey, Doc>, docs': map<DocKey, Doc>, revno: map<DocKey, int>)
    requires DocsForward(rs, docs, docs') && Collected(docs, revno)
    ensures Collected(docs', revno)
  {
    forall d | d in revno ensures Reached(Revno(docs', d), revno[d]) {
      ReachedAgain(rs, docs, docs', d, revno[d]);
    }
  }

  lemma SettledAgain(
      rs: map<ObjectId, Record>, docs: map<DocKey, Doc>, docs': map<DocKey, Doc>, id: ObjectId, t: Record, k: nat)
    requires DocsForward(rs, docs, docs') && Settled(docs, id, t, k)
    requires id in rs && rs[id].state != Preparing && rs[id].nonce == t.nonce
    ensures Settled(docs', id, t, k)
  {
    forall i | 0 <= i < k && i < |t.ops| && FirstTouch(t.ops, i)
      ensures Past(docs', Token(id, t.nonce), t.ops[i], t.revnos[i]) {
      assert Past(docs, Token(id, t.nonce), t.ops[i], t.revnos[i]);
      assert Reached(Revno(docs', t.ops[i].key), Revno(docs, t.ops[i].key));
    }
  }

  // What other agents do does not disturb an agent.
  lemma AgentAgain(
      rs: map<ObjectId, Record>, docs: map<DocKey, Doc>, docs': map<DocKey, Doc>, r: Record, r': Record, ag: Agent)
    requires DocsForward(rs, docs, docs') && RecordForward(r, r') && AgentOk(docs, r, ag) && RecordOk(docs, r)
    requires ag.id in rs && rs[ag.id] == r
    ensures AgentOk(docs', r', ag)
  {
    hide DocsForward, Grounded, Collected, Settled, MissingHolds;
    match ag.pc
    case Tokens(_) => CollectedAgain(rs, docs, docs', ag.revno);
    case LostPrepare => CollectedAgain(rs, docs, docs', ag.revno);
    case Scanning => CollectedAgain(rs, docs, docs', ag.revno);
    case Prepped(vector) => GroundedAgain(rs, docs, docs', ag.t.ops, vector);
    case Checkpointing(vector) => GroundedAgain(rs, docs, docs', ag.t.ops, vector);
    case ApplyingOp(k) => SettledAgain(rs, docs, docs', ag.id, ag.t, k);
    case MarkApplied => SettledAgain(rs, docs, docs', ag.id, ag.t, |ag.t.ops|);
    case _ =>
  }

  lemma RecordAgain(rs: map<ObjectId, Record>, docs: map<DocKey, Doc>, docs': map<DocKey, Doc>, r: Record)
    requires DocsForward(rs, docs, docs') && RecordOk(docs, r)
    ensures RecordOk(docs', r)
  {
    hide DocsForward, Grounded;
    if Running(r.state) {
      GroundedAgain(rs, docs, docs', r.ops, r.revnos);
    }
  }

  lemma EffectAgain(
      rs: map<ObjectId, Record>, docs: map<DocKey, Doc>, docs': map<DocKey, Doc>, r: Record, r': Record, e: Effect)
    requires DocsForward(rs, docs, docs') && RecordForward(r, r') && EffectOk(docs, r, e) && RecordOk(docs, r)
    requires e.id in rs && rs[e.id] == r
    ensures EffectOk(docs', r', e)
  {
    SettledAgain(rs, docs, docs', e.id, r, e.op);
    assert Reached(Revno(docs', r.ops[e.op].key), Revno(docs, r.ops[e.op].key));
  }

  // One agent stepped: its own record and copy are fine, nothing else moved backwards.
  ghost predicate StepOk(s: State, s': State, a: nat, id: ObjectId) {
    && Forward(s, s') && a in s.agents && id in s.records
    && s'.records.Keys == s.records.Keys && s'.agents.Keys == s.agents.Keys
    && (forall i :: i in s.records && i != id ==> s'.records[i] == s.records[i])
    && (forall b :: b in s.agents && b != a ==> s'.agents[b] == s.agents[b])
    && RecordOk(s'.docs, s'.records[id])
    && s'.agents[a].id == id && AgentOk(s'.docs, s'.records[id], s'.agents[a])
    && (s'.log == s.log || LogOk(s')) && NoncesOk(s')
  }

  lemma StepKeeps(s: State, s': State, a: nat, id: ObjectId)
    requires Inv(s) && StepOk(s, s', a, id)
    ensures Inv(s')
  {
    hide DocsForward, RecordForward, RecordOk, AgentOk, EffectOk, InOrder;
    forall i | i in s'.records ensures RecordOk(s'.docs, s'.records[i]) {
      if i != id {
        RecordAgain(s.records, s.docs, s'.docs, s.records[i]);
      }
    }
    forall b | b in s'.agents
      ensures s'.agents[b].id in s'.records && AgentOk(s'.docs, s'.records[s'.agents[b].id], s'.agents[b])
    {
      if b != a {
        var i := s.agents[b].id;
        AgentAgain(s.records, s.docs, s'.docs, s.records[i], s'.records[i], s.agents[b]);
      }
    }
    if s'.log == s.log {
      LogAgain(s, s');
    }
  }

  lemma LogAgain(s: State, s': State)
    requires LogOk(s) && (forall id :: id in s.records ==> RecordOk(s.docs, s.records[id])) && s'.log == s.log &&
      RecordsForward(s.records, s'.records) && DocsForward(s.records, s.docs, s'.docs)
    ensures LogOk(s')
  {
    hide DocsForward, RecordForward, RecordOk, EffectOk;
    forall p | 0 <= p < |s.log|
      ensures s'.log[p].id in s'.records && EffectOk(s'.docs, s'.records[s'.log[p].id], s'.log[p])
    {
      var i := s.log[p].id;
      EffectAgain(s.records, s.docs, s'.docs, s.records[i], s'.records[i], s.log[p]);
    }
    forall p, q | 0 <= p < q < |s.log| ensures InOrder(s'.records, s.log[p], s.log[q]) {
      assert InOrder(s.records, s.log[p], s.log[q]);
      InOrderAgain(s.records, s'.records, s.log[p], s.log[q]);
    }
  }

  lemma InOrderAgain(rs: map<ObjectId, Record>, rs': map<ObjectId, Record>, e: Effect, f: Effect)
    requires InOrder(rs, e, f) && RecordsForward(rs, rs') && e.id in rs && f.id in rs
    ensures InOrder(rs', e, f)
  {
    assert rs'[e.id].ops == rs[e.id].ops && rs'[f.id].ops == rs[f.id].ops;
  }

  lemma DocsStay(rs: map<ObjectId, Record>, docs: map<DocKey, Doc>)
    ensures DocsForward(rs, docs, docs)
  {
  }

  lemma RecordsStay(rs: map<ObjectId, Record>)
    ensures RecordsForward(rs, rs)
  {
  }

  // An agent that only moves on its own copy.
  lemma OwnStep(s: State, a: nat, ag: Agent, ag': Agent)
    requires Inv(s) && a in s.agents && s.agents[a] == ag && ag.id in s.records && ag'.id == ag.id
    requires AgentOk(s.docs, s.records[ag.id], ag') && (ag'.pc.Tokens? ==> ag'.pc == ag.pc)
    ensures StepOk(s, With(s, a, ag'), a, ag.id)
  {
    hide AgentOk, RecordOk, LogOk;
    DocsStay(s.records, s.docs);
    RecordsStay(s.records);
  }

  // An agent that also moves its record forward.
  lemma RecordStep(s: State, a: nat, ag: Agent, ag': Agent, r': Record)
    requires Inv(s) && a in s.agents && s.agents[a] == ag && ag.id in s.records && ag'.id == ag.id
    requires RecordForward(s.records[ag.id], r') && RecordOk(s.docs, r') && AgentOk(s.docs, r', ag') && !ag'.pc.Tokens?
    requires r'.nonce == s.records[ag.id].nonce || (ag.pc.Tokens? && r'.nonce == ag.pc.nonce)
    ensures StepOk(s, With(s.(records := s.records[ag.id := r']), a, ag'), a, ag.id)
  {
    hide AgentOk, RecordOk, LogOk, RecordForward;
    DocsStay(s.records, s.docs);
    forall id | id in s.records ensures RecordForward(s.records[id], s.records[ag.id := r'][id]) {
      if id != ag.id {
        RecordStays(s.records[id]);
      }
    }
  }

  lemma RecordStays(r: Record)
    ensures RecordForward(r, r)
  {
  }

  // Queues may change at will; revisions stay.
  lemma QueueStep(s: State, docs': map<DocKey, Doc>, a: nat, ag: Agent, ag': Agent)
    requires Inv(s) && a in s.agents && s.agents[a] == ag && ag.id in s.records && ag'.id == ag.id
    requires forall d :: Revno(docs', d) == Revno(s.docs, d)
    requires forall d, tt :: tt in DocAt(docs', d).queue ==>
      tt in DocAt(s.docs, d).queue || (ag.pc.Tokens? && tt == Token(ag.id, ag.pc.nonce))
    requires AgentOk(docs', s.records[ag.id], ag') && ag'.pc == ag.pc
    ensures StepOk(s, With(s.(docs := docs'), a, ag'), a, ag.id)
  {
    hide AgentOk, RecordOk, LogOk;
    assert DocsForward(s.records, s.docs, docs');
    RecordsStay(s.records);
    RecordAgain(s.records, s.docs, docs', s.records[ag.id]);
  }

  lemma RecordFacts(s: State, id: ObjectId)
    requires Inv(s) && id in s.records
    ensures s.records[id].state == Preparing <==> s.records[id].nonce == ""
    ensures Running(s.records[id].state) ==> |s.records[id].revnos| == |s.records[id].ops|
  {
    assert RecordOk(s.docs, s.records[id]);
  }

  // The agent acting and its record.
  ghost predicate Acts(s: State, a: nat, ag: Agent) {
    Inv(s) && a in s.agents && s.agents[a] == ag && ag.id in s.records
  }

  lemma ActsOk(s: State, a: nat, ag: Agent)
    requires Acts(s, a, ag)
    ensures AgentOk(s.docs, s.records[ag.id], ag) && RecordOk(s.docs, s.records[ag.id])
  {
  }

  lemma TopOk(s: State, a: nat, ag: Agent, move: Move)
    requires Acts(s, a, ag) && ag.pc == Top
    ensures DoTop(s, a, ag, move) == s || StepOk(s, DoTop(s, a, ag, move), a, ag.id)
  {
    hide LogOk, StepOk, Grounded, RecordOk;
    var s' := DoTop(s, a, ag, move);
    if s' != s {
      if ag.t.state == Preparing {
        ActsOk(s, a, ag);
        RecordFacts(s, ag.id);
        NonceStep(s, a, ag, move.nonce);
      } else {
        TopElse(s, a, ag, move);
      }
    }
  }

  lemma TopElse(s: State, a: nat, ag: Agent, move: Move)
    requires Acts(s, a, ag) && ag.pc == Top && ag.t.state != Preparing && DoTop(s, a, ag, move) != s
    ensures StepOk(s, DoTop(s, a, ag, move), a, ag.id)
  {
    hide LogOk, StepOk, Grounded, RecordOk;
    ActsOk(s, a, ag);
    RecordFacts(s, ag.id);
    OwnStep(s, a, ag, DoTop(s, a, ag, move).agents[a]);
  }

  // An agent starts to prepare with a fresh nonce.
  lemma NonceStep(s: State, a: nat, ag: Agent, nonce: string)
    requires Acts(s, a, ag) && ag.t.state == Preparing && nonce != "" && nonce !in s.nonces
    ensures StepOk(s, With(s.(nonces := s.nonces + {nonce}), a, ag.(pc := Tokens(nonce), revno := map[])), a, ag.id)
  {
    hide RecordOk, LogOk;
    ActsOk(s, a, ag);
    DocsStay(s.records, s.docs);
    RecordsStay(s.records);
  }

  lemma TokensOk(s: State, a: nat, ag: Agent, nonce: string, move: Move)
    requires Acts(s, a, ag) && ag.pc == Tokens(nonce)
    ensures DoTokens(s, a, ag, nonce, move) == s || StepOk(s, DoTokens(s, a, ag, nonce, move), a, ag.id)
  {
    hide LogOk, StepOk, Grounded, RecordOk, Inv;
    ActsOk(s, a, ag);
    var s' := DoTokens(s, a, ag, nonce, move);
    match move
    case PutToken(d) =>
      assert Collected(s'.docs, s'.agents[a].revno);
      QueueStep(s, s'.docs, a, ag, s'.agents[a]);
    case Pull(d, tokens) =>
      assert s.agents == s.agents[a := ag] && Collected(s'.docs, ag.revno);
      QueueStep(s, s'.docs, a, ag, ag);
    case SavePrepared(found) =>
      if AllRead(ag.t.ops, ag.revno) {
        var r := s.records[ag.id];
        if r.state == Preparing {
          PreparedRecord(s.docs, r, nonce);
          if found {
            VectorGrounded(s.docs, ag.t.ops, ag.revno);
          } else {
            assert Collected(s.docs, map[]);
          }
          RecordStep(s, a, ag, s'.agents[a], r.(state := Prepared, nonce := nonce));
        } else {
          OwnStep(s, a, ag, s'.agents[a]);
        }
      }
    case _ =>
  }

  lemma PreparedRecord(docs: map<DocKey, Doc>, r: Record, nonce: string)
    requires RecordOk(docs, r) && r.state == Preparing && nonce != ""
    ensures r.nonce == "" && RecordOk(docs, r.(state := Prepared, nonce := nonce))
  {
  }

  // The vector assembled from collected revisions is grounded in them.
  lemma VectorGrounded(docs: map<DocKey, Doc>, ops: seq<Op>, revno: map<DocKey, int>)
    requires AllRead(ops, revno) && Collected(docs, revno)
    ensures Grounded(docs, ops, Vector(ops, revno))
  {
    hide RunOps;
    forall i | 0 <= i < |ops| && FirstTouch(ops, i) ensures Reached(Revno(docs, ops[i].key), Vector(ops, revno)[i]) {
      FirstTouchReads(ops, revno, i);
    }
  }

  lemma LostPrepareOk(s: State, a: nat, ag: Agent, move: Move)
    requires Acts(s, a, ag) && ag.pc == LostPrepare
    ensures DoLostPrepare(s, a, ag, move) == s || StepOk(s, DoLostPrepare(s, a, ag, move), a, ag.id)
  {
    hide LogOk, StepOk, Grounded, RecordOk, Inv;
    ActsOk(s, a, ag);
    RecordFacts(s, ag.id);
    var s' := DoLostPrepare(s, a, ag, move);
    if move.Reload? {
      if AllRead(ag.t.ops, ag.revno) {
        VectorGrounded(s.docs, ag.t.ops, ag.revno);
      }
      assert Collected(s.docs, map[]);
      OwnStep(s, a, ag, s'.agents[a]);
    }
  }

  lemma ScanningOk(s: State, a: nat, ag: Agent, move: Move)
    requires Acts(s, a, ag) && ag.pc == Scanning
    ensures DoScanning(s, a, ag, move) == s || StepOk(s, DoScanning(s, a, ag, move), a, ag.id)
  {
    hide LogOk, StepOk, Grounded, RecordOk, Inv;
    ActsOk(s, a, ag);
    RecordFacts(s, ag.id);
    var s' := DoScanning(s, a, ag, move);
    if s' != s {
      if AllRead(ag.t.ops, ag.revno) {
        VectorGrounded(s.docs, ag.t.ops, ag.revno);
      }
      OwnStep(s, a, ag, s'.agents[a]);
    }
  }

  lemma PreppedOk(s: State, a: nat, ag: Agent, vector: seq<int>, move: Move)
    requires Acts(s, a, ag) && ag.pc == Prepped(vector)
    ensures DoPrepped(s, a, ag, vector, move) == s || StepOk(s, DoPrepped(s, a, ag, vector, move), a, ag.id)
  {
    hide LogOk, StepOk, Grounded, RecordOk, Inv;
    ActsOk(s, a, ag);
    var s' := DoPrepped(s, a, ag, vector, move);
    if s' != s {
      OwnStep(s, a, ag, s'.agents[a]);
    }
  }

  lemma SettingAbortingOk(s: State, a: nat, ag: Agent, move: Move)
    requires Acts(s, a, ag) && ag.pc == SettingAborting
    ensures DoSettingAborting(s, a, ag, move) == s || StepOk(s, DoSettingAborting(s, a, ag, move), a, ag.id)
  {
    hide LogOk, StepOk, Grounded, Inv;
    ActsOk(s, a, ag);
    var s' := DoSettingAborting(s, a, ag, move);
    if move.SaveAborting? {
      var r := s.records[ag.id];
      if r.state == Prepared {
        RecordStep(s, a, ag, s'.agents[a], r.(state := Aborting));
      } else {
        OwnStep(s, a, ag, s'.agents[a]);
      }
    }
  }

  lemma LostAbortOk(s: State, a: nat, ag: Agent, move: Move)
    requires Acts(s, a, ag) && ag.pc == LostAbort
    ensures DoLostAbort(s, a, ag, move) == s || StepOk(s, DoLostAbort(s, a, ag, move), a, ag.id)
  {
    hide LogOk, StepOk, Grounded, RecordOk, Inv;
    ActsOk(s, a, ag);
    RecordFacts(s, ag.id);
    var s' := DoLostAbort(s, a, ag, move);
    if move.Reload? {
      OwnStep(s, a, ag, s'.agents[a]);
    }
  }

  lemma PullingOk(s: State, a: nat, ag: Agent, move: Move)
    requires Acts(s, a, ag) && ag.pc == Pulling
    ensures DoPulling(s, a, ag, move) == s || StepOk(s, DoPulling(s, a, ag, move), a, ag.id)
    ensures s.records[ag.id].state == Aborting || s.records[ag.id].state == Aborted
  {
    hide LogOk, StepOk, Grounded, Inv;
    ActsOk(s, a, ag);
    var s' := DoPulling(s, a, ag, move);
    match move
    case Pull(d, tokens) =>
      assert s.agents == s.agents[a := ag];
      QueueStep(s, s'.docs, a, ag, ag);
    case SaveAborted =>
      RecordStep(s, a, ag, s'.agents[a], s.records[ag.id].(state := Aborted));
    case _ =>
  }

  lemma CheckpointingOk(s: State, a: nat, ag: Agent, vector: seq<int>, move: Move)
    requires Acts(s, a, ag) && ag.pc == Checkpointing(vector)
    ensures DoCheckpointing(s, a, ag, vector, move) == s || StepOk(s, DoCheckpointing(s, a, ag, vector, move), a, ag.id)
  {
    hide LogOk, StepOk, Grounded, MissingHolds, Inv;
    ActsOk(s, a, ag);
    var s' := DoCheckpointing(s, a, ag, vector, move);
    if move.SaveApplying? {
      var r := s.records[ag.id];
      if r.state == Prepared {
        RecordStep(s, a, ag, s'.agents[a], r.(state := Applying, revnos := vector));
      } else {
        OwnStep(s, a, ag, s'.agents[a]);
      }
    }
  }

  lemma LostCheckpointOk(s: State, a: nat, ag: Agent, move: Move)
    requires Acts(s, a, ag) && ag.pc == LostCheckpoint
    ensures DoLostCheckpoint(s, a, ag, move) == s || StepOk(s, DoLostCheckpoint(s, a, ag, move), a, ag.id)
  {
    hide LogOk, StepOk, Grounded, RecordOk, Inv;
    ActsOk(s, a, ag);
    RecordFacts(s, ag.id);
    var s' := DoLostCheckpoint(s, a, ag, move);
    if move.Reload? {
      OwnStep(s, a, ag, s'.agents[a]);
    }
  }

  lemma MarkAppliedOk(s: State, a: nat, ag: Agent, move: Move)
    requires Acts(s, a, ag) && ag.pc == MarkApplied
    ensures DoMarkApplied(s, a, ag, move) == s || StepOk(s, DoMarkApplied(s, a, ag, move), a, ag.id)
  {
    hide LogOk, StepOk, Grounded, Settled, Inv;
    ActsOk(s, a, ag);
    var s' := DoMarkApplied(s, a, ag, move);
    if move.SaveApplied? {
      var r := s.records[ag.id];
      if r.state == Applying {
        RecordStep(s, a, ag, s'.agents[a], r.(state := Applied));
      } else {
        OwnStep(s, a, ag, s'.agents[a]);
      }
    }
  }

  // Running operation k, whether it hits or misses, settles it.
  lemma ApplyingOpOk(s: State, a: nat, ag: Agent, k: nat, move: Move)
    requires Acts(s, a, ag) && ag.pc == ApplyingOp(k)
    ensures DoApplyingOp(s, a, ag, k, move) == s || StepOk(s, DoApplyingOp(s, a, ag, k, move), a, ag.id)
  {
    hide LogOk, StepOk, Inv, Grounded, MissingHolds, Settled;
    ActsOk(s, a, ag);
    RecordFacts(s, ag.id);
    var s' := DoApplyingOp(s, a, ag, k, move);
    if move.RunOp? {
      if k >= |ag.t.ops| {
        AllSettled(s.docs, ag.id, ag.t, k);
        OwnStep(s, a, ag, s'.agents[a]);
      } else if !Hits(s.docs, ag.id, ag.t, k) {
        MissSettles(s.docs, ag.id, ag.t, k);
        OwnStep(s, a, ag, s'.agents[a]);
      } else {
        HitOk(s, a, ag, k, move.pulled);
      }
    }
  }

  lemma AllSettled(docs: map<DocKey, Doc>, id: ObjectId, t: Record, k: nat)
    requires Settled(docs, id, t, k) && k >= |t.ops|
    ensures Settled(docs, id, t.(state := Applied), |t.ops|)
  {
  }

  lemma MissSettles(docs: map<DocKey, Doc>, id: ObjectId, t: Record, k: nat)
    requires Settled(docs, id, t, k) && Grounded(docs, t.ops, t.revnos) && k < |t.ops| && !Hits(docs, id, t, k)
    ensures Settled(docs, id, t, k + 1)
  {
  }

  // The state after operation k of the agent hits.
  function HitState(s: State, a: nat, ag: Agent, k: nat, pulled: set<Token>): State
    requires k < |ag.t.ops| && k < |ag.t.revnos|
  {
    var op, revno := ag.t.ops[k], ag.t.revnos[k];
    var doc := DocAt(s.docs, op.key);
    With(s, a, ag.(pc := ApplyingOp(k + 1)))
      .(docs := s.docs[op.key := Doc(NextRevno(op.change, revno), doc.queue - pulled)],
        log := s.log + [Effect(ag.id, k, revno)])
  }

  lemma HitOk(s: State, a: nat, ag: Agent, k: nat, pulled: set<Token>)
    requires Acts(s, a, ag) && ag.pc == ApplyingOp(k)
    requires k < |ag.t.ops| && k < |ag.t.revnos| && Hits(s.docs, ag.id, ag.t, k)
    ensures StepOk(s, HitState(s, a, ag, k, pulled), a, ag.id)
  {
    hide LogOk, Inv, Settled, RecordOk, Grounded, EffectOk, Hits;
    ActsOk(s, a, ag);
    var s' := HitState(s, a, ag, k, pulled);
    var op, revno := ag.t.ops[k], ag.t.revnos[k];
    HitForward(s.records, s.docs, s'.docs, ag.id, ag.t, k, pulled);
    RecordsStay(s.records);
    RecordAgain(s.records, s.docs, s'.docs, s.records[ag.id]);
    HitSettles(s, s', a, ag, k);
    HitLogOk(s, s', a, ag, k);
    assert NoncesOk(s') by { NoncesStay(s, s', a, ag.(pc := ApplyingOp(k + 1))); }
  }

  lemma NoncesStay(s: State, s': State, a: nat, ag': Agent)
    requires Inv(s) && s'.records == s.records && s'.nonces == s.nonces && s'.agents == s.agents[a := ag'] &&
      !ag'.pc.Tokens?
    ensures NoncesOk(s')
  {
  }

  lemma HitForward(
      rs: map<ObjectId, Record>, docs: map<DocKey, Doc>, docs': map<DocKey, Doc>, id: ObjectId, t: Record,
      k: nat, pulled: set<Token>)
    requires k < |t.ops| && k < |t.revnos| && Hits(docs, id, t, k)
    requires var op := t.ops[k];
      docs' == docs[op.key := Doc(NextRevno(op.change, t.revnos[k]), DocAt(docs, op.key).queue - pulled)]
    ensures DocsForward(rs, docs, docs')
    ensures Abs(Revno(docs', t.ops[k].key)) > Abs(t.revnos[k])
  {
    EffectRaises(t.ops[k].change, t.revnos[k]);
  }

  lemma HitSettles(s: State, s': State, a: nat, ag: Agent, k: nat)
    requires Acts(s, a, ag) && ag.pc == ApplyingOp(k) && k < |ag.t.ops| && k < |ag.t.revnos|
    requires DocsForward(s.records, s.docs, s'.docs) && Abs(Revno(s'.docs, ag.t.ops[k].key)) > Abs(ag.t.revnos[k])
    ensures AgentOk(s'.docs, s.records[ag.id], ag.(pc := ApplyingOp(k + 1)))
  {
    hide LogOk, Inv, RecordOk, Grounded, EffectOk, DocsForward, FirstTouch;
    ActsOk(s, a, ag);
    NonceKnown(s, a, ag);
    SettledAgain(s.records, s.docs, s'.docs, ag.id, ag.t, k);
  }

  lemma NonceKnown(s: State, a: nat, ag: Agent)
    requires Acts(s, a, ag) && ag.t.state != Preparing
    ensures s.records[ag.id].state != Preparing && s.records[ag.id].nonce == ag.t.nonce
  {
    ActsOk(s, a, ag);
  }

  lemma HitLogOk(s: State, s': State, a: nat, ag: Agent, k: nat)
    requires Acts(s, a, ag) && ag.pc == ApplyingOp(k) && k < |ag.t.ops| && k < |ag.t.revnos| &&
      Hits(s.docs, ag.id, ag.t, k)
    requires s'.records == s.records && s'.log == s.log + [Effect(ag.id, k, ag.t.revnos[k])]
    requires DocsForward(s.records, s.docs, s'.docs) && Abs(Revno(s'.docs, ag.t.ops[k].key)) > Abs(ag.t.revnos[k])
    ensures LogOk(s')
  {
    hide Inv, RecordOk, Grounded, EffectOk, DocsForward, Settled, Hits;
    ActsOk(s, a, ag);
    var r, e := s.records[ag.id], Effect(ag.id, k, ag.t.revnos[k]);
    assert LogOk(s) && (forall id :: id in s.records ==> RecordOk(s.docs, s.records[id])) by { LogIs(s); }
    RecordsStay(s.records);
    var s0 := s'.(log := s.log);
    LogAgain(s, s0);
    NewEffectOk(s, s', a, ag, k);
    forall p | 0 <= p < |s.log| ensures InOrder(s.records, s.log[p], e) {
      EffectBefore(s.docs, r, ag.t, ag.id, s.log[p], k);
    }
    forall p | 0 <= p < |s'.log|
      ensures s'.log[p].id in s'.records && EffectOk(s'.docs, s'.records[s'.log[p].id], s'.log[p])
    {
      if p < |s.log| {
        assert s'.log[p] == s0.log[p];
      }
    }
    forall p, q | 0 <= p < q < |s'.log| ensures InOrder(s'.records, s'.log[p], s'.log[q]) {
      assert s'.log[p] == s0.log[p];
      if q < |s.log| {
        assert s'.log[q] == s0.log[q];
      }
    }
  }

  lemma LogIs(s: State)
    requires Inv(s)
    ensures LogOk(s) && forall id :: id in s.records ==> RecordOk(s.docs, s.records[id])
  {
  }

  lemma NewEffectOk(s: State, s': State, a: nat, ag: Agent, k: nat)
    requires Acts(s, a, ag) && ag.pc == ApplyingOp(k) && k < |ag.t.ops| && k < |ag.t.revnos|
    requires DocsForward(s.records, s.docs, s'.docs) && Abs(Revno(s'.docs, ag.t.ops[k].key)) > Abs(ag.t.revnos[k])
    ensures EffectOk(s'.docs, s.records[ag.id], Effect(ag.id, k, ag.t.revnos[k]))
  {
    hide LogOk, Inv, Grounded, DocsForward;
    ActsOk(s, a, ag);
    NonceKnown(s, a, ag);
    SettledAgain(s.records, s.docs, s'.docs, ag.id, ag.t, k);
  }

  // An operation that still hits has no effect in the log yet, and no later first operation
  // of its transaction has one either if it is itself the first on its document.
  lemma EffectBefore(docs: map<DocKey, Doc>, r: Record, t: Record, id: ObjectId, e: Effect, k: nat)
    requires k < |t.ops| && k < |t.revnos| && Hits(docs, id, t, k)
    requires e.id == id ==> EffectOk(docs, r, e) && Behind(t, r) && t.state == Applying
    ensures e.id == id ==> e.op != k && (e.op < |r.ops| && FirstTouch(r.ops, e.op) && FirstTouch(r.ops, k) ==> e.op < k)
  {
    assert e.id == id && FirstTouch(r.ops, k) && e.op > k ==> Past(docs, Token(id, r.nonce), r.ops[k], r.revnos[k]);
  }

  lemma ActKeeps(s: State, a: nat, move: Move)
    requires Inv(s) && a in s.agents && s.agents[a].id in s.records
    ensures var s' := DoAct(s, a, s.agents[a], move); s' == s || StepOk(s, s', a, s.agents[a].id)
  {
    hide Inv, StepOk, DoTop, DoTokens, DoLostPrepare, DoScanning, DoPrepped, DoSettingAborting, DoLostAbort, DoPulling,
      DoCheckpointing, DoLostCheckpoint, DoApplyingOp, DoMarkApplied;
    var ag := s.agents[a];
    match ag.pc
    case Top => TopOk(s, a, ag, move);
    case Tokens(nonce) => TokensOk(s, a, ag, nonce, move);
    case LostPrepare => LostPrepareOk(s, a, ag, move);
    case Scanning => ScanningOk(s, a, ag, move);
    case Prepped(vector) => PreppedOk(s, a, ag, vector, move);
    case SettingAborting => SettingAbortingOk(s, a, ag, move);
    case LostAbort => LostAbortOk(s, a, ag, move);
    case Pulling => PullingOk(s, a, ag, move);
    case Checkpointing(vector) => CheckpointingOk(s, a, ag, vector, move);
    case LostCheckpoint => LostCheckpointOk(s, a, ag, move);
    case ApplyingOp(k) => ApplyingOpOk(s, a, ag, k, move);
    case MarkApplied => MarkAppliedOk(s, a, ag, move);
    case Returned =>
    case Panicked =>
  }

  lemma InsertKeeps(s: State, id: ObjectId, ops: seq<Op>)
    requires Inv(s) && id !in s.records
    ensures var s' := s.(records := s.records[id := Record(ops, Preparing, "", [])]); Inv(s') && Forward(s, s')
  {
    hide AgentOk, EffectOk;
    var s' := s.(records := s.records[id := Record(ops, Preparing, "", [])]);
    DocsStay(s.records, s.docs);
    assert RecordsForward(s.records, s'.records);
    LogAgain(s, s');
  }

  lemma LoadKeeps(s: State, a: nat, id: ObjectId)
    requires Inv(s) && a !in s.agents && id in s.records
    ensures var s' := With(s, a, Agent(id, s.records[id], Top, map[])); Inv(s') && Forward(s, s')
  {
    hide LogOk, Grounded, MissingHolds;
    var s' := With(s, a, Agent(id, s.records[id], Top, map[]));
    assert s'.agents.Keys == s.agents.Keys + {a};
    DocsStay(s.records, s.docs);
    RecordsStay(s.records);
    RecordFacts(s, id);
    assert LogOk(s') by { SameLogOk(s, s'); }
  }

  lemma SameLogOk(s: State, s': State)
    requires LogOk(s) && s'.log == s.log && s'.records == s.records && s'.docs == s.docs
    ensures LogOk(s')
  {
  }

  lemma CrashKeeps(s: State, a: nat)
    requires Inv(s)
    ensures var s' := s.(agents := s.agents - {a}); Inv(s') && Forward(s, s')
  {
    hide LogOk, RecordOk, AgentOk;
    DocsStay(s.records, s.docs);
    RecordsStay(s.records);
    assert LogOk(s.(agents := s.agents - {a})) by { SameLogOk(s, s.(agents := s.agents - {a})); }
  }

  // Every step of the system keeps the invariant and moves nothing backwards.
  lemma PerformKeeps(s: State, step: Step)
    requires Inv(s)
    ensures Inv(Perform(s, step)) && Forward(s, Perform(s, step))
  {
    hide Inv, StepOk, DoAct, DocsForward, RecordsForward;
    DocsStay(s.records, s.docs);
    RecordsStay(s.records);
    match step
    case InsertTxn(id, ops) =>
      if id !in s.records {
        InsertKeeps(s, id, ops);
      }
    case Load(a, id) =>
      if a !in s.agents && id in s.records {
        LoadKeeps(s, a, id);
      }
    case Crash(a) => CrashKeeps(s, a);
    case Act(a, move) =>
      if a in s.agents && s.agents[a].id in s.records {
        ActKeeps(s, a, move);
        var s' := DoAct(s, a, s.agents[a], move);
        if s' != s {
          StepKeeps(s, s', a, s.agents[a].id);
          StepForward(s, s', a, s.agents[a].id);
        }
      }
  }

  lemma StepForward(s: State, s': State, a: nat, id: ObjectId)
    requires StepOk(s, s', a, id)
    ensures Forward(s, s')
  {
  }
}
