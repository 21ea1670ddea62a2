/** The transaction protocol: any number of runners, any interleaving, crashes anywhere.

    The database is a store of transaction records and documents with atomic guarded
    updates. An agent is one activation of flusher.advance on its own, possibly stale, copy
    of a record; a runner with nested activations is several agents. Each move is one
    database access of one agent, or a step of its control flow. */
module TxnProtocol {
  import opened TxnQueue
  import opened TxnRevnos
  import opened Graphs

  datatype TxnState = Preparing | Prepared | Aborting | Applying | Aborted | Applied

  datatype Record = Record(ops: seq<Op>, state: TxnState, nonce: string, revnos: seq<int>)

  datatype Doc = Doc(revno: int, queue: set<Token>)

  // Where an activation of advance stands.
  datatype Pc =
    | Top                               // head of the loop in advance
    | Tokens(nonce: string)             // prepare: putting its token on the documents
    | LostPrepare                       // prepare: someone else saved a nonce
    | Scanning                          // rescan: reading the documents
    | Prepped(vector: seq<int>)         // prepare or rescan returned these revnos
    | SettingAborting                   // abortOrReload
    | LostAbort
    | Pulling
    | Checkpointing(vector: seq<int>)   // checkpoint
    | LostCheckpoint
    | ApplyingOp(k: nat)                // apply: about to run operation k
    | MarkApplied                       // apply: the last update
    | Returned
    | Panicked

  datatype Agent = Agent(id: ObjectId, t: Record, pc: Pc, revno: map<DocKey, int>)

  // An operation that changed a document.
  datatype Effect = Effect(id: ObjectId, op: nat, revno: int)

  // nonces holds every nonce ever made: newNonce draws them at random, taken here to be fresh.
  datatype State = State(records: map<ObjectId, Record>, docs: map<DocKey, Doc>, agents: map<nat, Agent>,
    nonces: set<string>, log: seq<Effect>)

  datatype Move =
    | Enter(nonce: string) | PutToken(d: DocKey) | SavePrepared(found: bool) | Reload(found: bool)
    | ReadDoc(d: DocKey) | Rescan | FinishScan | AssertFails | AssertHolds | SaveAborting
    | Pull(d: DocKey, tokens: set<Token>) | SaveAborted | SaveApplying | RunOp(pulled: set<Token>) | SaveApplied

  datatype Step =
    | InsertTxn(id: ObjectId, ops: seq<Op>)
    | Load(a: nat, id: ObjectId)
    | Crash(a: nat)
    | Act(a: nat, move: Move)

  // A document that was never seen is missing.
  function DocAt(docs: map<DocKey, Doc>, d: DocKey): Doc {
    if d in docs then docs[d] else Doc(-1, {})
  }

  function Revno(docs: map<DocKey, Doc>, d: DocKey): int {
    DocAt(docs, d).revno
  }

  // All documents of the operations have been read.
  predicate AllRead(ops: seq<Op>, revno: map<DocKey, int>) {
    forall i :: 0 <= i < |ops| ==> ops[i].key in revno
  }

  // No operation that asserts a missing document runs on a present one.
  predicate MissingHolds(ops: seq<Op>, revnos: seq<int>) {
    |ops| == |revnos| && forall i :: 0 <= i < |ops| && ops[i].missing ==> !Present(revnos[i])
  }

  function With(s: State, a: nat, ag: Agent): State {
    s.(agents := s.agents[a := ag])
  }

  function Reloaded(s: State, ag: Agent): Record
    requires ag.id in s.records
  {
    var r := s.records[ag.id];
    ag.t.(state := r.state, nonce := r.nonce, revnos := r.revnos)
  }

  function PullFrom(docs: map<DocKey, Doc>, d: DocKey, tokens: set<Token>): map<DocKey, Doc> {
    if d in docs then docs[d := docs[d].(queue := docs[d].queue - tokens)] else docs
  }

  // The state switch at the head of advance.
  function DoTop(s: State, a: nat, ag: Agent, move: Move): State {
    match move
    case Enter(nonce) =>
      (match ag.t.state
       case Preparing =>
         // tokenFor keeps a nonce already known and otherwise makes a new one.
         if ag.t.nonce != "" then With(s, a, ag.(pc := Tokens(ag.t.nonce), revno := map[]))
         else if nonce == "" || nonce in s.nonces then s
         else With(s.(nonces := s.nonces + {nonce}), a, ag.(pc := Tokens(nonce), revno := map[]))
       case Prepared => With(s, a, ag.(pc := if ag.t.nonce == "" then Panicked else Scanning, revno := map[]))
       case Applying => With(s, a, ag.(pc := ApplyingOp(0)))
       case Aborting => With(s, a, ag.(pc := Pulling))
       case Applied => With(s, a, ag.(pc := Returned))
       case Aborted => With(s, a, ag.(pc := Returned)))
    case _ => s
  }

  function DoTokens(s: State, a: nat, ag: Agent, nonce: string, move: Move): State
    requires ag.id in s.records
  {
    match move
    case PutToken(d) =>
      // One atomic find-and-modify: the token goes on the queue, the revision comes back.
      var doc := DocAt(s.docs, d);
      With(s.(docs := s.docs[d := doc.(queue := doc.queue + {Token(ag.id, nonce)})]), a,
        ag.(revno := ag.revno[d := doc.revno]))
    case SavePrepared(found) =>
      var r := s.records[ag.id];
      if !AllRead(ag.t.ops, ag.revno) then s
      else if r.state == Preparing then
        var t := ag.t.(state := Prepared, nonce := nonce);
        With(s.(records := s.records[ag.id := r.(state := Prepared, nonce := nonce)]), a,
             if found then ag.(t := t, pc := Prepped(Vector(t.ops, ag.revno)))
             else ag.(t := t, pc := Scanning, revno := map[]))
      else With(s, a, ag.(pc := LostPrepare))
    case Pull(d, tokens) =>
      // unstashToken takes a misplaced token off the stash again.
      s.(docs := PullFrom(s.docs, d, tokens))
    case _ => s
  }

  function DoLostPrepare(s: State, a: nat, ag: Agent, move: Move): State
    requires ag.id in s.records
  {
    match move
    case Reload(found) =>
      var t := Reloaded(s, ag);
      if t.state == Preparing then With(s, a, ag.(t := t, pc := Panicked))
      else if t.state != Prepared then With(s, a, ag.(t := t, pc := Top))
      else if t.nonce == "" then With(s, a, ag.(t := t, pc := Panicked))
      else if found && AllRead(t.ops, ag.revno) then With(s, a, ag.(t := t, pc := Prepped(Vector(t.ops, ag.revno))))
      else With(s, a, ag.(t := t, pc := Scanning, revno := map[]))
    case _ => s
  }

  function DoScanning(s: State, a: nat, ag: Agent, move: Move): State
    requires ag.id in s.records
  {
    if ag.t.state != Prepared then With(s, a, ag.(pc := Panicked))
    else match move
      case ReadDoc(d) => With(s, a, ag.(revno := ag.revno[d := Revno(s.docs, d)]))
      case Rescan =>
        // The document, its stash or the token was not there.
        var t := Reloaded(s, ag);
        With(s, a, ag.(t := t, pc := if t.state == Prepared then Scanning else Top))
      case FinishScan =>
        if AllRead(ag.t.ops, ag.revno) then With(s, a, ag.(pc := Prepped(Vector(ag.t.ops, ag.revno)))) else s
      case _ => s
  }

  function DoPrepped(s: State, a: nat, ag: Agent, vector: seq<int>, move: Move): State {
    if ag.t.state != Prepared then With(s, a, ag.(pc := Panicked))
    else match move
      case AssertFails => With(s, a, ag.(pc := SettingAborting))
      case AssertHolds => if MissingHolds(ag.t.ops, vector) then With(s, a, ag.(pc := Checkpointing(vector))) else s
      case _ => s
  }

  function DoSettingAborting(s: State, a: nat, ag: Agent, move: Move): State
    requires ag.id in s.records
  {
    if ag.t.state != Prepared then With(s, a, ag.(pc := Panicked))
    else match move
      case SaveAborting =>
        var r := s.records[ag.id];
        if r.state == Prepared then
          With(s.(records := s.records[ag.id := r.(state := Aborting)]), a,
            ag.(t := ag.t.(state := Aborting), pc := Pulling))
        else With(s, a, ag.(pc := LostAbort))
      case _ => s
  }

  function DoLostAbort(s: State, a: nat, ag: Agent, move: Move): State
    requires ag.id in s.records
  {
    match move
    case Reload(_) =>
      var t := Reloaded(s, ag);
      With(s, a, ag.(t := t, pc := if t.state == Aborting then Pulling else Top))
    case _ => s
  }

  function DoPulling(s: State, a: nat, ag: Agent, move: Move): State
    requires ag.id in s.records
  {
    match move
    case Pull(d, tokens) => s.(docs := PullFrom(s.docs, d, tokens))
    case SaveAborted =>
      // The one unguarded update of a record.
      With(s.(records := s.records[ag.id := s.records[ag.id].(state := Aborted)]), a,
        ag.(t := ag.t.(state := Aborted), pc := Returned))
    case _ => s
  }

  function DoCheckpointing(s: State, a: nat, ag: Agent, vector: seq<int>, move: Move): State
    requires ag.id in s.records
  {
    match move
    case SaveApplying =>
      var r := s.records[ag.id];
      if r.state == Prepared then
        With(s.(records := s.records[ag.id := r.(state := Applying, revnos := vector)]), a,
             ag.(t := ag.t.(state := Applying, revnos := vector), pc := Top))
      else With(s, a, ag.(pc := LostCheckpoint))
    case _ => s
  }

  function DoLostCheckpoint(s: State, a: nat, ag: Agent, move: Move): State
    requires ag.id in s.records
  {
    match move
    case Reload(_) => With(s, a, ag.(t := Reloaded(s, ag), pc := Top))
    case _ => s
  }

  // Whether operation k of the agent's copy finds its document as its guard wants it.
  predicate Hits(docs: map<DocKey, Doc>, id: ObjectId, t: Record, k: nat)
    requires k < |t.ops| && k < |t.revnos|
  {
    && Effective(t.ops[k].change, t.revnos[k])
    && Revno(docs, t.ops[k].key) == t.revnos[k]
    && Token(id, t.nonce) in DocAt(docs, t.ops[k].key).queue
  }

  function DoApplyingOp(s: State, a: nat, ag: Agent, k: nat, move: Move): State {
    if ag.t.state != Applying || ag.t.nonce == "" || |ag.t.revnos| != |ag.t.ops| then With(s, a, ag.(pc := Panicked))
    else match move
      case RunOp(pulled) =>
        if k >= |ag.t.ops| then With(s, a, ag.(t := ag.t.(state := Applied), pc := MarkApplied))
        else
          var next := With(s, a, ag.(pc := ApplyingOp(k + 1)));
          if !Hits(s.docs, ag.id, ag.t, k) then next
          else
            var op, revno := ag.t.ops[k], ag.t.revnos[k];
            var doc := DocAt(s.docs, op.key);
            next.(docs := s.docs[op.key := Doc(NextRevno(op.change, revno), doc.queue - pulled)],
                  log := s.log + [Effect(ag.id, k, revno)])
      case _ => s
  }

  function DoMarkApplied(s: State, a: nat, ag: Agent, move: Move): State
    requires ag.id in s.records
  {
    match move
    case SaveApplied =>
      var r := s.records[ag.id];
      var next := With(s, a, ag.(pc := Returned));
      if r.state == Applying then next.(records := s.records[ag.id := r.(state := Applied)]) else next
    case _ => s
  }

  function DoAct(s: State, a: nat, ag: Agent, move: Move): State
    requires ag.id in s.records
  {
    match ag.pc
    case Top => DoTop(s, a, ag, move)
    case Tokens(nonce) => DoTokens(s, a, ag, nonce, move)
    case LostPrepare => DoLostPrepare(s, a, ag, move)
    case Scanning => DoScanning(s, a, ag, move)
    case Prepped(vector) => DoPrepped(s, a, ag, vector, move)
    case SettingAborting => DoSettingAborting(s, a, ag, move)
    case LostAbort => DoLostAbort(s, a, ag, move)
    case Pulling => DoPulling(s, a, ag, move)
    case Checkpointing(vector) => DoCheckpointing(s, a, ag, vector, move)
    case LostCheckpoint => DoLostCheckpoint(s, a, ag, move)
    case ApplyingOp(k) => DoApplyingOp(s, a, ag, k, move)
    case MarkApplied => DoMarkApplied(s, a, ag, move)
    case Returned => s
    case Panicked => s
  }

  // One step of the whole system; a step that is not possible changes nothing.
  function Perform(s: State, step: Step): State {
    match step
    case InsertTxn(id, ops) => if id in s.records then s
      else s.(records := s.records[id := Record(ops, Preparing, "", [])])
    case Load(a, id) => if a in s.agents || id !in s.records then s
      else With(s, a, Agent(id, s.records[id], Top, map[]))
    case Crash(a) => s.(agents := s.agents - {a})
    case Act(a, move) =>
      if a in s.agents && s.agents[a].id in s.records then DoAct(s, a, s.agents[a], move) else s
  }

  // The state after the steps, in order.
  function After(s: State, steps: seq<Step>): State {
    if steps == [] then s else Perform(After(s, steps[..|steps| - 1]), steps[|steps| - 1])
  }

  // No transaction and no agent yet; the documents are arbitrary.
  function Initial(docs: map<DocKey, Doc>): State {
    State(map[], docs, map[], {}, [])
  }
}
