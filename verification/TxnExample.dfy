/** A run in which a transaction is applied: the statements about runs are not empty. */
module TxnExample {
  import opened TxnQueue
  import opened TxnRevnos
  import opened TxnProtocol
  import opened TxnComplete

  const DOC: DocKey := DocKey("accounts", "a")
  const OPS: seq<Op> := [Op(DOC, Update, false)]
  const TXN := 1

  function Documents(): map<DocKey, Doc> {
    map[DOC := Doc(3, {})]
  }

  // A runner prepares, checkpoints and applies the transaction.
  function Steps(): seq<Step> {
    [InsertTxn(TXN, OPS), Load(0, TXN), Act(0, Enter("n")), Act(0, PutToken(DOC)), Act(0, SavePrepared(true)),
     Act(0, AssertHolds), Act(0, SaveApplying), Act(0, Enter("")), Act(0, RunOp({})),
     Act(0, RunOp({})), Act(0, SaveApplied)]
  }

  lemma Unfold(docs: map<DocKey, Doc>, steps: seq<Step>, n: nat)
    requires n < |steps|
    ensures After(Initial(docs), steps[..n + 1]) == Perform(After(Initial(docs), steps[..n]), steps[n])
  {
    assert steps[..n + 1][..n] == steps[..n];
  }

  const TOKEN: Token := Token(TXN, "n")
  const FRESH: Record := Record(OPS, Preparing, "", [])
  const PREPARED: Record := Record(OPS, Prepared, "n", [])
  const APPLYING: Record := Record(OPS, Applying, "n", [3])
  const APPLIED: Record := Record(OPS, Applied, "n", [3])

  // The state from the first prepared document on; the runner's copy is never behind here.
  function Reaches(r: Record, pc: Pc, doc: Doc, log: seq<Effect>): State {
    State(map[TXN := r], map[DOC := doc], map[0 := Agent(TXN, r, pc, map[DOC := 3])], {"n"}, log)
  }

  lemma Starts()
    ensures var s := Perform(Perform(Perform(Initial(Documents()), InsertTxn(TXN, OPS)), Load(0, TXN)),
      Act(0, Enter("n")));
      s == State(map[TXN := FRESH], Documents(), map[0 := Agent(TXN, FRESH, Tokens("n"), map[])], {"n"}, [])
  {
  }

  lemma PutsToken()
    ensures Perform(State(map[TXN := FRESH], Documents(), map[0 := Agent(TXN, FRESH, Tokens("n"), map[])], {"n"}, []),
      Act(0, PutToken(DOC)))
      == Reaches(FRESH, Tokens("n"), Doc(3, {TOKEN}), [])
  {
    assert {} + {TOKEN} == {TOKEN};
    assert Documents()[DOC := Doc(3, {TOKEN})] == map[DOC := Doc(3, {TOKEN})];
  }

  lemma Prepares()
    ensures Perform(Reaches(FRESH, Tokens("n"), Doc(3, {TOKEN}), []), Act(0, SavePrepared(true)))
      == Reaches(PREPARED, Prepped([3]), Doc(3, {TOKEN}), [])
  {
    VectorOfOne();
    hide Vector;
    assert map[TXN := FRESH][TXN := PREPARED] == map[TXN := PREPARED];
  }

  lemma Checkpoints()
    ensures Perform(Reaches(PREPARED, Prepped([3]), Doc(3, {TOKEN}), []), Act(0, AssertHolds))
      == Reaches(PREPARED, Checkpointing([3]), Doc(3, {TOKEN}), [])
  {
  }

  lemma SavesVector()
    ensures Perform(Reaches(PREPARED, Checkpointing([3]), Doc(3, {TOKEN}), []), Act(0, SaveApplying))
      == Reaches(APPLYING, Top, Doc(3, {TOKEN}), [])
  {
    assert map[TXN := PREPARED][TXN := APPLYING] == map[TXN := APPLYING];
  }

  lemma Applies()
    ensures Perform(Reaches(APPLYING, Top, Doc(3, {TOKEN}), []), Act(0, Enter("")))
      == Reaches(APPLYING, ApplyingOp(0), Doc(3, {TOKEN}), [])
  {
  }

  lemma RunsOperation()
    ensures Perform(Reaches(APPLYING, ApplyingOp(0), Doc(3, {TOKEN}), []), Act(0, RunOp({})))
      == Reaches(APPLYING, ApplyingOp(1), Doc(4, {TOKEN}), [Effect(TXN, 0, 3)])
  {
    assert {TOKEN} - {} == {TOKEN};
    assert map[DOC := Doc(3, {TOKEN})][DOC := Doc(4, {TOKEN})] == map[DOC := Doc(4, {TOKEN})];
  }

  // The runner's copy is marked before the record is.
  function Marked(): State {
    State(map[TXN := APPLYING], map[DOC := Doc(4, {TOKEN})], map[0 := Agent(TXN, APPLIED, MarkApplied, map[DOC := 3])],
      {"n"},
          [Effect(TXN, 0, 3)])
  }

  lemma Finishes()
    ensures Perform(Reaches(APPLYING, ApplyingOp(1), Doc(4, {TOKEN}), [Effect(TXN, 0, 3)]), Act(0, RunOp({}))) ==
      Marked()
    ensures Perform(Marked(), Act(0, SaveApplied)) == Reaches(APPLIED, Returned, Doc(4, {TOKEN}), [Effect(TXN, 0, 3)])
  {
    assert map[TXN := APPLYING][TXN := APPLIED] == map[TXN := APPLIED];
  }

  lemma TakesEffect()
    ensures After(Initial(Documents()), Steps()) == Reaches(APPLIED, Returned, Doc(4, {TOKEN}), [Effect(TXN, 0, 3)])
  {
    hide After, Perform, Reaches;
    var docs, steps := Documents(), Steps();
    StartsInitial(docs, steps);
    Starts();
    Unfold(docs, steps, 0);
    Unfold(docs, steps, 1);
    Unfold(docs, steps, 2);
    PutsToken();
    Unfold(docs, steps, 3);
    Prepares();
    Unfold(docs, steps, 4);
    Checkpoints();
    SavesVector();
    Unfold(docs, steps, 5);
    Unfold(docs, steps, 6);
    Applies();
    RunsOperation();
    Unfold(docs, steps, 7);
    Unfold(docs, steps, 8);
    Finishes();
    Unfold(docs, steps, 9);
    Unfold(docs, steps, 10);
    assert steps[..11] == steps;
  }

  // In this run the turn of the transaction is kept.
  lemma KeepsTurn()
    ensures AllInTurn(Documents(), Steps(), TXN)
  {
    TakesEffect();
    hide After, AllInTurn;
    var s := Reaches(APPLIED, Returned, Doc(4, {TOKEN}), [Effect(TXN, 0, 3)]);
    assert InLog(s.log, TXN, 0) by { assert s.log[0].id == TXN && s.log[0].op == 0; }
    AppliedWholeExactly(Documents(), Steps(), TXN);
  }

  lemma StartsInitial(docs: map<DocKey, Doc>, steps: seq<Step>)
    ensures After(Initial(docs), steps[..0]) == Initial(docs)
  {
  }

  lemma VectorOfOne()
    ensures Vector(OPS, map[DOC := 3]) == [3]
  {
    assert OPS[..0] == [];
  }

  const ABORTING: Record := Record(OPS, Aborting, "n", [])
  const ABORTED: Record := Record(OPS, Aborted, "n", [])

  // The runner crashes when the transaction is aborting; another one finishes it.
  function AbortingSteps(): seq<Step> {
    [InsertTxn(TXN, OPS), Load(0, TXN), Act(0, Enter("n")), Act(0, PutToken(DOC)), Act(0, SavePrepared(true)),
     Act(0, AssertFails), Act(0, SaveAborting), Crash(0), Load(1, TXN), Act(1, Enter("")), Act(1, Pull(DOC, {TOKEN})),
     Act(1, SaveAborted)]
  }

  function Second(r: Record, pc: Pc, doc: Doc): State {
    State(map[TXN := r], map[DOC := doc], map[1 := Agent(TXN, r, pc, map[])], {"n"}, [])
  }

  lemma Gives()
    ensures Perform(Reaches(PREPARED, Prepped([3]), Doc(3, {TOKEN}), []), Act(0, AssertFails))
      == Reaches(PREPARED, SettingAborting, Doc(3, {TOKEN}), [])
    ensures Perform(Reaches(PREPARED, SettingAborting, Doc(3, {TOKEN}), []), Act(0, SaveAborting))
      == Reaches(ABORTING, Pulling, Doc(3, {TOKEN}), [])
  {
    assert map[TXN := PREPARED][TXN := ABORTING] == map[TXN := ABORTING];
  }

  lemma Crashes()
    ensures Perform(Perform(Reaches(ABORTING, Pulling, Doc(3, {TOKEN}), []), Crash(0)), Load(1, TXN))
      == Second(ABORTING, Top, Doc(3, {TOKEN}))
  {
    assert (map[0 := Agent(TXN, ABORTING, Pulling, map[DOC := 3])] - {0})[1 := Agent(TXN, ABORTING, Top, map[])]
      == map[1 := Agent(TXN, ABORTING, Top, map[])];
  }

  lemma Aborts()
    ensures Perform(Second(ABORTING, Top, Doc(3, {TOKEN})), Act(1, Enter(""))) ==
      Second(ABORTING, Pulling, Doc(3, {TOKEN}))
    ensures Perform(Second(ABORTING, Pulling, Doc(3, {TOKEN})), Act(1, Pull(DOC, {TOKEN}))) ==
      Second(ABORTING, Pulling, Doc(3, {}))
  {
    assert {TOKEN} - {TOKEN} == {};
    assert map[DOC := Doc(3, {TOKEN})][DOC := Doc(3, {})] == map[DOC := Doc(3, {})];
  }

  lemma SavesAborted()
    ensures Perform(Second(ABORTING, Pulling, Doc(3, {})), Act(1, SaveAborted)) == Second(ABORTED, Returned, Doc(3, {}))
  {
    assert map[TXN := ABORTING][TXN := ABORTED] == map[TXN := ABORTED];
  }

  lemma AbortsAfterCrash()
    ensures After(Initial(Documents()), AbortingSteps()) == Second(ABORTED, Returned, Doc(3, {}))
  {
    hide After, Perform, Reaches, Second;
    var docs, steps := Documents(), AbortingSteps();
    StartsInitial(docs, steps);
    Starts();
    Unfold(docs, steps, 0);
    Unfold(docs, steps, 1);
    Unfold(docs, steps, 2);
    PutsToken();
    Unfold(docs, steps, 3);
    Prepares();
    Unfold(docs, steps, 4);
    Gives();
    Unfold(docs, steps, 5);
    Unfold(docs, steps, 6);
    Crashes();
    Unfold(docs, steps, 7);
    Unfold(docs, steps, 8);
    Aborts();
    SavesAborted();
    Unfold(docs, steps, 9);
    Unfold(docs, steps, 10);
    Unfold(docs, steps, 11);
    assert steps[..12] == steps;
  }

  // A transaction that inserts a document that was never there: it reads as revision -1 and is
  // live at revision 2.
  const INSERTS: seq<Op> := [Op(DOC, Insert, true)]
  const INSERTING: Record := Record(INSERTS, Preparing, "", [])
  const INSERTED: Record := Record(INSERTS, Applying, "n", [-1])

  function Inserting(r: Record, pc: Pc, docs: map<DocKey, Doc>, revno: map<DocKey, int>, log: seq<Effect>): State {
    State(map[TXN := r], docs, map[0 := Agent(TXN, r, pc, revno)], {"n"}, log)
  }

  lemma MissingReads()
    ensures Perform(Inserting(INSERTING, Tokens("n"), map[], map[], []), Act(0, PutToken(DOC)))
      == Inserting(INSERTING, Tokens("n"), map[DOC := Doc(-1, {TOKEN})], map[DOC := -1], [])
  {
    assert {} + {TOKEN} == {TOKEN};
  }

  lemma InsertGoesLive()
    ensures Perform(Inserting(INSERTED, ApplyingOp(0), map[DOC := Doc(-1, {TOKEN})], map[DOC := -1], []),
      Act(0, RunOp({})))
      == Inserting(INSERTED, ApplyingOp(1), map[DOC := Doc(2, {TOKEN})], map[DOC := -1], [Effect(TXN, 0, -1)])
  {
    assert {TOKEN} - {} == {TOKEN};
    assert map[DOC := Doc(-1, {TOKEN})][DOC := Doc(2, {TOKEN})] == map[DOC := Doc(2, {TOKEN})];
  }

  // A document removed at revision 3 is missing at revision -4, and the next insertion makes it
  // live at revision 5.
  lemma Revisions()
    ensures NextRevno(Remove, 3) == -4 && NextRevno(Insert, -4) == 5 && NextRevno(Update, 3) == 4
    ensures NextRevno(Insert, 3) == 3 && NextRevno(Update, -4) == -4 && NextRevno(Remove, -4) == -4
    ensures NextRevno(Insert, -1) == 2 && NextRevno(Update, 0) == 1 && NextRevno(Remove, 0) == -1
  {
  }

  // A runner whose copy may be behind the record.
  function Behind(r: Record, t: Record, pc: Pc, revno: map<DocKey, int>): State {
    State(map[TXN := r], map[DOC := Doc(3, {TOKEN})], map[0 := Agent(TXN, t, pc, revno)], {"n"}, [])
  }

  const READ: map<DocKey, int> := map[DOC := 3]

  lemma Acting(r: Record, t: Record, pc: Pc, revno: map<DocKey, int>, move: Move)
    ensures Perform(Behind(r, t, pc, revno), Act(0, move))
      == DoAct(Behind(r, t, pc, revno), 0, Agent(TXN, t, pc, revno), move)
  {
    hide DoAct;
  }

  // Another runner was the first to prepare the transaction: its nonce is taken over, and the
  // revisions read are used if the token was found on the queues, or read again.
  lemma TakesOver()
    ensures Perform(Behind(PREPARED, FRESH, LostPrepare, READ), Act(0, Reload(true)))
      == Behind(PREPARED, PREPARED, Prepped([3]), READ)
    ensures Perform(Behind(PREPARED, FRESH, LostPrepare, READ), Act(0, Reload(false)))
      == Behind(PREPARED, PREPARED, Scanning, map[])
    ensures Perform(Behind(APPLYING, FRESH, LostPrepare, READ), Act(0, Reload(true)))
      == Behind(APPLYING, APPLYING, Top, READ)
  {
    hide Perform, DoTop, DoTokens, DoScanning, DoPrepped, DoSettingAborting, DoLostAbort, DoPulling, DoCheckpointing,
      DoLostCheckpoint, DoApplyingOp, DoMarkApplied;
    VectorOfOne();
    Acting(PREPARED, FRESH, LostPrepare, READ, Reload(true));
    Acting(PREPARED, FRESH, LostPrepare, READ, Reload(false));
    Acting(APPLYING, FRESH, LostPrepare, READ, Reload(true));
  }

  // The token that was put on is missing from a queue: everything is read again.
  lemma MissesToken()
    ensures Perform(Behind(FRESH, FRESH, Tokens("n"), READ), Act(0, SavePrepared(false)))
      == Behind(PREPARED, PREPARED, Scanning, map[])
  {
    hide Perform, DoTop, DoLostPrepare, DoScanning, DoPrepped, DoSettingAborting, DoLostAbort, DoPulling,
      DoCheckpointing, DoLostCheckpoint, DoApplyingOp, DoMarkApplied;
    Acting(FRESH, FRESH, Tokens("n"), READ, SavePrepared(false));
    assert map[TXN := FRESH][TXN := PREPARED] == map[TXN := PREPARED];
  }

  lemma LosesPrepare()
    ensures Perform(Behind(PREPARED, FRESH, Tokens("n"), READ), Act(0, SavePrepared(true)))
      == Behind(PREPARED, FRESH, LostPrepare, READ)
  {
    hide Perform, DoTop, DoLostPrepare, DoScanning, DoPrepped, DoSettingAborting, DoLostAbort, DoPulling,
      DoCheckpointing, DoLostCheckpoint, DoApplyingOp, DoMarkApplied;
    Acting(PREPARED, FRESH, Tokens("n"), READ, SavePrepared(true));
  }

  // A rescan goes on where it was as long as nobody else applies the transaction.
  lemma Rescans()
    ensures Perform(Behind(PREPARED, PREPARED, Scanning, map[]), Act(0, ReadDoc(DOC)))
      == Behind(PREPARED, PREPARED, Scanning, READ)
    ensures Perform(Behind(PREPARED, PREPARED, Scanning, READ), Act(0, Rescan))
      == Behind(PREPARED, PREPARED, Scanning, READ)
    ensures Perform(Behind(APPLYING, PREPARED, Scanning, READ), Act(0, Rescan))
      == Behind(APPLYING, APPLYING, Top, READ)
    ensures Perform(Behind(PREPARED, PREPARED, Scanning, READ), Act(0, FinishScan))
      == Behind(PREPARED, PREPARED, Prepped([3]), READ)
  {
    hide Perform, DoTop, DoTokens, DoLostPrepare, DoPrepped, DoSettingAborting, DoLostAbort, DoPulling,
      DoCheckpointing, DoLostCheckpoint, DoApplyingOp, DoMarkApplied;
    VectorOfOne();
    Acting(PREPARED, PREPARED, Scanning, map[], ReadDoc(DOC));
    Acting(PREPARED, PREPARED, Scanning, READ, Rescan);
    Acting(APPLYING, PREPARED, Scanning, READ, Rescan);
    Acting(PREPARED, PREPARED, Scanning, READ, FinishScan);
  }

  // Another runner decided what becomes of the transaction, or has finished it.
  lemma LosesAbort()
    ensures Perform(Behind(APPLYING, PREPARED, SettingAborting, READ), Act(0, SaveAborting))
      == Behind(APPLYING, PREPARED, LostAbort, READ)
    ensures Perform(Behind(APPLYING, PREPARED, LostAbort, READ), Act(0, Reload(true)))
      == Behind(APPLYING, APPLYING, Top, READ)
    ensures Perform(Behind(ABORTING, PREPARED, LostAbort, READ), Act(0, Reload(true)))
      == Behind(ABORTING, ABORTING, Pulling, READ)
  {
    hide Perform, DoTop, DoTokens, DoLostPrepare, DoScanning, DoPrepped, DoPulling, DoCheckpointing,
      DoLostCheckpoint, DoApplyingOp, DoMarkApplied;
    Acting(APPLYING, PREPARED, SettingAborting, READ, SaveAborting);
    Acting(APPLYING, PREPARED, LostAbort, READ, Reload(true));
    Acting(ABORTING, PREPARED, LostAbort, READ, Reload(true));
  }

  lemma LosesApply()
    ensures Perform(Behind(ABORTING, PREPARED, Checkpointing([3]), READ), Act(0, SaveApplying))
      == Behind(ABORTING, PREPARED, LostCheckpoint, READ)
    ensures Perform(Behind(ABORTING, PREPARED, LostCheckpoint, READ), Act(0, Reload(true)))
      == Behind(ABORTING, ABORTING, Top, READ)
  {
    hide Perform, DoTop, DoTokens, DoLostPrepare, DoScanning, DoPrepped, DoSettingAborting, DoLostAbort, DoPulling,
      DoApplyingOp, DoMarkApplied;
    Acting(ABORTING, PREPARED, Checkpointing([3]), READ, SaveApplying);
    Acting(ABORTING, PREPARED, LostCheckpoint, READ, Reload(true));
  }

  lemma AlreadyApplied()
    ensures Perform(Behind(APPLIED, APPLIED, MarkApplied, READ), Act(0, SaveApplied))
      == Behind(APPLIED, APPLIED, Returned, READ)
  {
    hide Perform, DoTop, DoTokens, DoLostPrepare, DoScanning, DoPrepped, DoSettingAborting, DoLostAbort, DoPulling,
      DoCheckpointing, DoLostCheckpoint, DoApplyingOp;
    Acting(APPLIED, APPLIED, MarkApplied, READ, SaveApplied);
  }
}
