# MRTE collector: verified models

The repository captures MySQL traffic, parses it in parallel workers and stores the
requests in MongoDB to be replayed elsewhere. This project models its hardest parts, most
of them in the libraries it carries, and proves what they are for. `dafny verify
dfyconfig.toml` checks everything.

| files | subject |
|---|---|
| `Graphs`, `Components`, `TarjanState`, `Tarjan` | strongly connected components: the in-place depth-first search against a specification by reachability |
| `TxnQueue`, `TxnRun`, `TxnSchedule`, `TxnRecurse`, `TxnTokens`, `TxnRevnos` | the algorithms of the transaction flusher: queue graph, order of advances, search for prerequisites, revision vectors |
| `TxnProtocol`, `TxnSafety`, `TxnRuns`, `TxnFinal`, `TxnComplete`, `TxnProgress`, `TxnHistory`, `TxnExample` | multi-document transactions as a state machine: any number of runners with stale copies, any interleaving, crashes anywhere |
| `DecimalArith`, `DecimalFormat`, `DecimalString`, `DecimalParse`, `DecimalRoundTrip`, `DecimalGrammar` | decimal128 (section 3.5.2 of IEEE 754-2008): limb arithmetic, printer and parser |
| `BsonValue`, `BsonSkip`, `BsonEncoder`, `BsonDecoder`, `BsonRoundTrip`, `BsonCodec`, `BsonFormat` | BSON (bsonspec.org): the back-patching encoder, the cursor decoder and the table for skipping |
| `GridFile`, `GridWriter`, `GridReader` | files in chunks: a writer with background inserts that may fail, a reader with a prefetched chunk |
| `WireFrames`, `WireWriter`, `WireReader`, `WireLongData` | MySQL packets (`Protocol::Packet` of the MySQL Client/Server Protocol) over a network that splits, shortens and fails |
| `SqlLiterals`, `SqlEscape`, `SqlTemplates`, `SqlInterpolate`, `SqlLex`, `SqlValues` | escaping in place and interpolation, against a reader of quoted texts by section 9.1.1 of the MySQL Reference Manual |
| `RingQueue`, `SerializeBuffers` | a growing ring and a buffer that grows at both ends |
| `CollectorFrames`, `CollectorKeys`, `CollectorWorker`, `CollectorPipeline` | the capture pipeline: look-ahead, full parse (section 3.1 of RFC 791, section 3.1 of RFC 9293), batching, every interleaving |
| `Bytes` | bytes |

Code that changes state is a class or a method over arrays, proved against functions on
values; the properties are then proved of those functions.

Places where the code does not do what it or its documentation says, each with its exact
condition:

- `BsonRoundTrip.RoundTrip`: binaries of the generic and the obsolete subtype come back as plain
  byte slices, an empty obsolete one with four zero bytes (`BsonRoundTrip.OldBinaryIsLost`), and
  byte slices named like an array operator as arrays (`BsonRoundTrip.OperatorSliceIsArray`).
- `DecimalRoundTrip.RoundTripExactly`: values in the second form of the encoding print as zero,
  and of the significands of 10^34 and more only multiples of ten at the largest exponent come
  back.
- `DecimalRoundTrip.AcceptedExactly`: a text whose exponent is too large can be read as another
  value (`DecimalRoundTrip.WrongValue`), because the multiplication drops what is beyond 128 bits.
- `DecimalGrammar.SpelledRight`: without an exponent a text out of range is accepted with another
  value; a zero with 6177 decimals is read as NaN (`DecimalGrammar.ManyZeros`).
- `WireFrames.RoundTrip`: an empty payload is sent but never accepted by the reader.
- `WireWriter.NothingWrittenHolds`: the test meant for the first frame only holds at every
  frame, so a payload of several frames can be reported as not written although a part was.
- `WireLongData.EndsExactly`: with a packet limit of eight bytes the loop sends commands without
  data for ever (`WireLongData.NothingArrives`); with a smaller one it panics in its first turn
  (`WireLongData.CutCommand`).
- `SqlInterpolate.RunFills`: the packet limit is not applied behind the last argument that is
  not nil.
- `SqlTemplates.ArgumentReadBack`: a literal followed at once by a quote of the query, or by the
  literal of an adjacent string argument, is read on past its end.
- `GridReader.RetrySkips`: a read that is tried again after a failed fetch skips the chunk
  (`GridReader.SecondAttempt`, `GridReader.LostPrefetch`, `GridReader.LostLast`); later reads go
  on from there until a seek fetches a chunk again.
- `GridReader.Reader.Seek`: targets before the start of the file are not refused: a panic less
  than a chunk before it, an error and a negative offset further before it.
- `GridWriter.Writer.Close`: when the database never fails, a close waits in vain if and only if
  a chunk could not be marshalled before or bytes are buffered now that cannot be.
- `CollectorFrames.LookaheadInRange`: a frame that ends with its link header stops the capture
  loop, although the parser behind it would reject the frame.
- `CollectorWorker.Worker.Flush`: only 20 of the 30 slots are cleared; the others keep old
  requests alive, which is harmless, since they are never handed over again.

## Model

| member | source | states |
|---|---|---|
| `Tarjan.TarjanSort` | `MRTECollector/src/github.com/globalsign/mgo/txn/tarjan.go:9-31` | for every graph closed under successors the output partitions the nodes into exactly the maximal strongly connected components, each after every component it can reach, its members sorted |
| `Tarjan.TarjanData.StrongConnect` | `MRTECollector/src/github.com/globalsign/mgo/txn/tarjan.go:53-95` | one search keeps the invariant of the depth-first search: open nodes form chains on the stack, popped groups are complete components; the node returned bounds what its subtree reaches; the records never outnumber the nodes of the graph |
| `TarjanState.Capacity` | `MRTECollector/src/github.com/globalsign/mgo/txn/tarjan.go:57-58` | a node not numbered yet still fits the capacity reserved, so the pointer to its record stays good while the search goes on |
| `Tarjan.TarjanData.Follow` | `MRTECollector/src/github.com/globalsign/mgo/txn/tarjan.go:60-74` | after each successor the low link is the least index reachable so far, whether the successor was new, on the stack, or in a finished component |
| `Tarjan.TarjanData.Leave` | `MRTECollector/src/github.com/globalsign/mgo/txn/tarjan.go:76-94` | a node whose low link is its own index closes a component; any other stays open for an ancestor |
| `Tarjan.TarjanData.PopComponent` | `MRTECollector/src/github.com/globalsign/mgo/txn/tarjan.go:79-91` | what is popped is the stack from the root node up, unstacked and emitted as one component |
| `TarjanState.StartSearch` | `MRTECollector/src/github.com/globalsign/mgo/txn/tarjan.go:53-58` | pushing an unseen node reachable from the open ones keeps every part of the search invariant |
| `TarjanState.AfterChild` | `MRTECollector/src/github.com/globalsign/mgo/txn/tarjan.go:62-66` | taking over a finished child's low link keeps the bound that nothing below it on the stack is reached |
| `TarjanState.AfterSeen` | `MRTECollector/src/github.com/globalsign/mgo/txn/tarjan.go:67-72` | an edge to a stacked node lowers the bound to its index |
| `TarjanState.AfterPopped` | `MRTECollector/src/github.com/globalsign/mgo/txn/tarjan.go:61-73` | an edge to a node of a finished component reaches nothing open and may be ignored |
| `TarjanState.LeaveOpen` | `MRTECollector/src/github.com/globalsign/mgo/txn/tarjan.go:76-94` | a node that is not a root can return to an open node before it |
| `TarjanState.LeaveRoot` | `MRTECollector/src/github.com/globalsign/mgo/txn/tarjan.go:76-91` | the nodes from a root up are mutually reachable, and nothing outside them is mutually reachable with them |
| `Components.LayeredIsSort` | `MRTECollector/src/github.com/globalsign/mgo/txn/tarjan.go:17-30` | groups that are mutually reachable inside and reach only earlier groups are exactly the maximal components, also after sorting each group |
| `Components.SortsAgree` | `MRTECollector/src/github.com/globalsign/mgo/txn/tarjan.go:17-30` | two sorts of the same graph, explored in any order, have the same components with members in the same order |
| `TxnQueue.LaterIsReachable` | `MRTECollector/src/github.com/globalsign/mgo/txn/flusher.go:83-123` | although only neighbouring valid entries are linked, every valid entry reaches all later valid ones of its queue |
| `TxnQueue.QueueGraphClosed` | `MRTECollector/src/github.com/globalsign/mgo/txn/flusher.go:83-123` | the graph that is built is closed under successors, as the sort needs it |
| `TxnQueue.QueueOrderHonoured` | `MRTECollector/src/github.com/globalsign/mgo/txn/flusher.go:83-156` | of two valid entries the earlier one is in the same component or in one emitted later, so one advanced earlier |
| `TxnRun.BuildSuccessors` | `MRTECollector/src/github.com/globalsign/mgo/txn/flusher.go:78-123` | the graph has the valid transactions as nodes and exactly the links of neighbouring valid entries, and the goal is ready exactly when nothing links to it |
| `TxnRun.EnterQueue` | `MRTECollector/src/github.com/globalsign/mgo/txn/flusher.go:82-123` | one queue adds exactly the links of its neighbouring valid entries |
| `TxnRun.NextValid` | `MRTECollector/src/github.com/globalsign/mgo/txn/flusher.go:95-105` | the next valid entry behind a position, with only invalid ones between |
| `TxnSchedule.FlushSorted` | `MRTECollector/src/github.com/globalsign/mgo/txn/flusher.go:135-156` | components are advanced from the last to the first, each with the tokens of finished ones to pull, up to the first failure |
| `TxnSchedule.RunQueues` | `MRTECollector/src/github.com/globalsign/mgo/txn/flusher.go:78-156` | a ready goal is advanced alone, else the advances follow the schedule of a component sort of the queue graph |
| `TxnSchedule.ReadyMeansFirst` | `MRTECollector/src/github.com/globalsign/mgo/txn/flusher.go:114-127` | the goal is advanced alone exactly when no valid entry precedes a valid one of its own in any queue |
| `TxnSchedule.RunHonoursQueues` | `MRTECollector/src/github.com/globalsign/mgo/txn/flusher.go:78-156` | when a transaction is advanced every valid entry before one of its own was advanced before it or is in a cycle with it, also in runs cut short |
| `TxnSchedule.PullsOnlyAdvanced` | `MRTECollector/src/github.com/globalsign/mgo/txn/flusher.go:135-156` | tokens are pulled only of transactions already advanced, and of a cycle only once all of it was |
| `TxnSchedule.CyclesAgree` | `MRTECollector/src/github.com/globalsign/mgo/txn/flusher.go:78-156` | two runs over the same queues advance the members of each cycle in the same order, whatever the map iteration order |
| `TxnSchedule.ScheduleAt` | `MRTECollector/src/github.com/globalsign/mgo/txn/flusher.go:135-156` | where member k of component a stands in the schedule and which tokens it may pull |
| `TxnRecurse.Search.Recurse` | `MRTECollector/src/github.com/globalsign/mgo/txn/flusher.go:161-208` | the search visits no transaction twice, ends, and leaves nothing behind that an outer activation does not still handle, although inner activations skip preloaded ids; it succeeds if it met neither a failure nor an id without a record, and otherwise stopped at the first of either |
| `TxnRecurse.Search.LoadQueue` | `MRTECollector/src/github.com/globalsign/mgo/txn/flusher.go:168-206` | after a document's queue all ids on it are visited or preloaded by an outer activation |
| `TxnRecurse.Search.LoadBatch` | `MRTECollector/src/github.com/globalsign/mgo/txn/flusher.go:180-205` | a batch of at most a hundred is loaded at once and each of its ids visited unless it was meanwhile; no record is loaded one by one in a search that succeeds |
| `TxnRecurse.SearchPrerequisites` | `MRTECollector/src/github.com/globalsign/mgo/txn/flusher.go:161-208` | the outermost call succeeds if and only if every transaction reachable through the queues of waiting ones has a record and none of them fails; it visits only reachable ones, each once, all of them if it succeeds, and otherwise stopped at the first failure or missing record |
| `TxnTokens.HasPreReqs` | `MRTECollector/src/github.com/globalsign/mgo/txn/flusher.go:583-598` | the token is found exactly when it is on every queue, and there are prerequisites exactly when a foreign token precedes it on one |
| `TxnTokens.TokensToPull` | `MRTECollector/src/github.com/globalsign/mgo/txn/flusher.go:981-995` | exactly the queued tokens of the given transactions except the one to keep, from the back of the queue |
| `TxnRevnos.AssembledRevnos` | `MRTECollector/src/github.com/globalsign/mgo/txn/flusher.go:565-581` | each entry of the vector is the revision its operation meets when those before it have run |
| `TxnRevnos.EffectRaises` | `MRTECollector/src/github.com/globalsign/mgo/txn/flusher.go:570-577` | an effective operation raises the size of the revision by one and the sign tells whether the document is present |
| `TxnRevnos.VectorNeverMisses` | `MRTECollector/src/github.com/globalsign/mgo/txn/flusher.go:565-581` | running the guarded operations with their vector on undisturbed documents does what running them in order does |
| `TxnRevnos.FirstTouchReads` | `MRTECollector/src/github.com/globalsign/mgo/txn/flusher.go:565-581` | the first operation on a document gets the revision the document was read with |
| `TxnRevnos.OnlyOnItsRevision` | `MRTECollector/src/github.com/globalsign/mgo/txn/flusher.go:789-802` | a guarded operation runs on the revision it is meant for and on no other, and a second time does nothing |
| `TxnSafety.PerformKeeps` | `MRTECollector/src/github.com/globalsign/mgo/txn/flusher.go:210-979` | every step of every runner, of a crash and of a new transaction keeps the invariant, and takes records and documents forward only |
| `TxnSafety.ActKeeps` | `MRTECollector/src/github.com/globalsign/mgo/txn/flusher.go:210-979` | every database access of one activation keeps the invariant, whatever the others have done since it last looked |
| `TxnRuns.RunKeeps` | `MRTECollector/src/github.com/globalsign/mgo/txn/flusher.go:210-979` | the invariant holds after any interleaving of any number of activations with crashes anywhere |
| `TxnRuns.RecordsMoveForward` | `MRTECollector/src/github.com/globalsign/mgo/txn/flusher.go:389-410` | over a whole run a record's state only moves forward, and its nonce and revision vector are set once |
| `TxnRuns.RecordsStepByStep` | `MRTECollector/src/github.com/globalsign/mgo/txn/flusher.go:679-763` | a single step leaves a record's state or takes it to preparing, prepared, applying, applied or prepared, aborting, aborted in that order |
| `TxnRuns.NeverAppliedAndAborted` | `MRTECollector/src/github.com/globalsign/mgo/txn/flusher.go:679-763` | a transaction that is applying or applied at any time of a run is never aborting or aborted at any time of it |
| `TxnRuns.NoPanic` | `MRTECollector/src/github.com/globalsign/mgo/txn/flusher.go:400-404` | no run reaches one of these panics: still preparing after a lost race, wrong states in rescan, assert, abort and apply, a missing nonce |
| `TxnRuns.PanicsGuarded` | `MRTECollector/src/github.com/globalsign/mgo/txn/flusher.go:389-765` | why: wherever the code would panic the copy is in the state and has the nonce and vector that it needs |
| `TxnRuns.AbortWriteIsSafe` | `MRTECollector/src/github.com/globalsign/mgo/txn/flusher.go:727-735` | the unguarded write of the aborted state only ever meets a record that is aborting or aborted |
| `TxnRuns.OneVector` | `MRTECollector/src/github.com/globalsign/mgo/txn/flusher.go:738-763` | everyone who ever applies a transaction does so with the same nonce and the same vector, on which no insertion that asserts absence meets a present document |
| `TxnRuns.EffectsOnlyWhenRunning` | `MRTECollector/src/github.com/globalsign/mgo/txn/flusher.go:765-921` | documents are changed only by transactions that are applying or applied |
| `TxnRuns.AtMostOnce` | `MRTECollector/src/github.com/globalsign/mgo/txn/flusher.go:765-921` | each operation takes effect at most once however often and by however many runners it is applied |
| `TxnRuns.EffectsInOrder` | `MRTECollector/src/github.com/globalsign/mgo/txn/flusher.go:765-921` | the first operations on their documents take effect in the order of the transaction |
| `TxnRuns.LogAccountsForDocuments` | `MRTECollector/src/github.com/globalsign/mgo/txn/flusher.go:765-921` | the revision of every document is always the initial one with the logged effects replayed in order: nothing else changes it |
| `TxnFinal.AppliedIsSettled` | `MRTECollector/src/github.com/globalsign/mgo/txn/flusher.go:765-979` | whenever a record is applied, each first operation on a document was not effective, or its document has moved past its revision, or its token is gone: none is left that could still take effect |
| `TxnFinal.NothingAfterApplied` | `MRTECollector/src/github.com/globalsign/mgo/txn/flusher.go:765-979` | once a transaction is applied none of its first operations on a document takes effect any more, however many runners are still applying it |
| `TxnComplete.AppliedWholeExactly` | `MRTECollector/src/github.com/globalsign/mgo/txn/flusher.go:765-979` | in every run an applied transaction took effect as a whole, every operation that its vector makes effective being in the log, if and only if every step kept its turn: its documents were as its vector says when it was checkpointed, and none of them was changed by another transaction, nor its token pulled, before it had changed it |
| `TxnComplete.AppliedAsAWhole` | `MRTECollector/src/github.com/globalsign/mgo/txn/flusher.go:765-979` | such a transaction took effect exactly once, with no operation that its vector makes ineffective, and in the order of its operations |
| `TxnComplete.InTurnKeeps` | `MRTECollector/src/github.com/globalsign/mgo/txn/flusher.go:210-979` | as long as the turn of a transaction is kept, the next operation on each of its documents finds the document at its revision and with its token |
| `TxnComplete.BrokenLoses` | `MRTECollector/src/github.com/globalsign/mgo/txn/flusher.go:765-979` | the first step that does not keep it leaves an operation that can never take effect any more |
| `TxnExample.TakesEffect` | `MRTECollector/src/github.com/globalsign/mgo/txn/flusher.go:210-979` | a run in which a transaction is prepared, checkpointed, changes its document and is applied |
| `TxnExample.KeepsTurn` | `MRTECollector/src/github.com/globalsign/mgo/txn/flusher.go:210-979` | the turn of the transaction is kept in that run |
| `TxnExample.AbortsAfterCrash` | `MRTECollector/src/github.com/globalsign/mgo/txn/flusher.go:210-735` | a run in which the runner crashes when the transaction is aborting and another one pulls its token and aborts it |
| `TxnExample.MissingReads` | `MRTECollector/src/github.com/globalsign/mgo/txn/flusher.go:291-361` | a document that was never there reads as revision -1 once its token is put on |
| `TxnExample.InsertGoesLive` | `MRTECollector/src/github.com/globalsign/mgo/txn/flusher.go:765-921` | inserting a document at revision -1 makes it live at revision 2, keeps the token queued that is not to be pulled, and logs the effect |
| `TxnExample.Revisions` | `MRTECollector/src/github.com/globalsign/mgo/txn/flusher.go:565-581` | a document removed at revision 3 is missing at -4 and inserted again at 5; updates raise a revision by one, and operations that find nothing to do leave it |
| `TxnExample.TakesOver` | `MRTECollector/src/github.com/globalsign/mgo/txn/flusher.go:389-410` | a runner that lost the race to prepare takes over the nonce, uses what it read if the token was found and otherwise reads again |
| `TxnExample.MissesToken` | `MRTECollector/src/github.com/globalsign/mgo/txn/flusher.go:389-416` | a runner that prepared the transaction but misses its token on a queue reads everything again |
| `TxnExample.Rescans` | `MRTECollector/src/github.com/globalsign/mgo/txn/flusher.go:442-565` | a rescan keeps what it read and goes on as long as nobody else applies the transaction |
| `TxnExample.LosesAbort` | `MRTECollector/src/github.com/globalsign/mgo/txn/flusher.go:691-725` | a runner that lost the race to abort goes on aborting or looks again |
| `TxnExample.LosesApply` | `MRTECollector/src/github.com/globalsign/mgo/txn/flusher.go:738-763` | a runner that lost the race to apply looks again with the record reloaded |
| `TxnHistory.VectorWasRead` | `MRTECollector/src/github.com/globalsign/mgo/txn/flusher.go:389-763` | in every run the vector of an applying or applied transaction gives each first operation on a document a revision that the document really had at some time of the run |
| `TxnHistory.CollectedHere` | `MRTECollector/src/github.com/globalsign/mgo/txn/flusher.go:291-565` | in every run what an activation has collected while preparing or rescanning it read itself since it came to that place |
| `TxnProgress.ComesToAnEnd` | `MRTECollector/src/github.com/globalsign/mgo/txn/flusher.go:210-979` | after any run, with crashes anywhere, each activation has moves of its own, all others standing still, after which it has returned with its transaction applied or aborted: applied if it was applying, aborted if it was aborting |
| `TxnProgress.CanStillApply` | `MRTECollector/src/github.com/globalsign/mgo/txn/flusher.go:210-979` | at the head of the loop with an undecided transaction both ends are open: aborted always, applied if the documents it takes to be missing are missing now |
| `TxnProgress.ReturnedHasEnded` | `MRTECollector/src/github.com/globalsign/mgo/txn/flusher.go:210-240` | an activation only returns when its transaction is applied or aborted, by its copy and by the record |
| `DecimalArith.DivMod` | `MRTECollector/src/github.com/globalsign/mgo/bson/decimal.go:122-137` | exact quotient and remainder for every 128 bit dividend and non-zero 32 bit divisor |
| `DecimalArith.MulAdd` | `MRTECollector/src/github.com/globalsign/mgo/bson/decimal.go:299-312` | the exact sum and no overflow whenever the result is below 2^128; otherwise the sum modulo 2^128, of which without an addend no overflow is ever reported |
| `DecimalString.String` | `MRTECollector/src/github.com/globalsign/mgo/bson/decimal.go:40-120` | the text in closed form: fixed, leading zeros or scientific, from the nine digit blocks of the significand |
| `DecimalString.FillDigits` | `MRTECollector/src/github.com/globalsign/mgo/bson/decimal.go:66-105` | the digit loops put point, zeros and digits where the closed form has them, within the buffer of 48 |
| `DecimalParse.ScanDigits` | `MRTECollector/src/github.com/globalsign/mgo/bson/decimal.go:175-231` | the digit loop keeps (h 2^64 + l) mul + add equal to the value of the digits kept, at most 34 of them and always below 2^128 |
| `DecimalParse.ParseDecimal128` | `MRTECollector/src/github.com/globalsign/mgo/bson/decimal.go:149-297` | what the parser answers on every text: refused, or the value with these bits, spelled infinities and NaN and exponents out of range included |
| `DecimalParse.Descale` | `MRTECollector/src/github.com/globalsign/mgo/bson/decimal.go:258-270` | the subnormal loop takes off all the zeros it has to, or refuses a number that has not so many |
| `DecimalParse.Clamp` | `MRTECollector/src/github.com/globalsign/mgo/bson/decimal.go:271-282` | the clamping loop puts zeros on, nine at a time, refusing a product only by its low 128 bits |
| `DecimalRoundTrip.RoundTrip` | `MRTECollector/src/github.com/globalsign/mgo/bson/decimal.go:40-297` | the text of every value in the normal encoding with significand below 10^34 is parsed to the same bits |
| `DecimalRoundTrip.RoundTripExactly` | `MRTECollector/src/github.com/globalsign/mgo/bson/decimal.go:40-297` | a value comes back bit for bit if and only if it is in the normal encoding with significand below 10^34, or has the largest exponent and a multiple of ten from 10^34 on as significand, or is one of the three values the parser has for NaN and infinity |
| `DecimalRoundTrip.WideRoundTrip` | `MRTECollector/src/github.com/globalsign/mgo/bson/decimal.go:195-282` | a significand of 35 digits comes back exactly when it ends with a zero that clamping puts back at the largest exponent |
| `DecimalRoundTrip.LargeFormRead` | `MRTECollector/src/github.com/globalsign/mgo/bson/decimal.go:56-64` | the second form of the encoding prints as a zero and comes back as one in the first form, with its exponent cut to the largest |
| `DecimalRoundTrip.ClampExactly` | `MRTECollector/src/github.com/globalsign/mgo/bson/decimal.go:271-282` | clamping multiplies by the power of ten if and only if the whole result is below 2^113 |
| `DecimalRoundTrip.ClampedValue` | `MRTECollector/src/github.com/globalsign/mgo/bson/decimal.go:149-297` | a text with too large an exponent keeps its value if and only if the significand it needs is below 2^113 |
| `DecimalRoundTrip.AcceptedExactly` | `MRTECollector/src/github.com/globalsign/mgo/bson/decimal.go:149-297` | such a text is accepted if and only if after every nine zeros and after the last the low 128 bits of the scaled number are below 2^113; it is read as those bits, which are another value if and only if the significand it needs is 2^113 or more |
| `DecimalRoundTrip.WrongValue` | `MRTECollector/src/github.com/globalsign/mgo/bson/decimal.go:271-282` | a text that is accepted with another value, because the part of a product beyond 128 bits is dropped |
| `DecimalRoundTrip.PrintAndParse` | `MRTECollector/src/github.com/globalsign/mgo/bson/decimal.go:40-297` | the printer and the parser run one after the other give the value back under exactly that condition |
| `DecimalGrammar.ParseSpelled` | `MRTECollector/src/github.com/globalsign/mgo/bson/decimal.go:149-297` | the answer for every spelling of a number: optional sign, digits with an optional point, optional exponent in either letter with an optional sign |
| `DecimalGrammar.SpelledRight` | `MRTECollector/src/github.com/globalsign/mgo/bson/decimal.go:149-297` | a spelling is read as the number it spells, with its sign, if and only if all digits behind the first 34 are zeros, none of these before a point with digits behind it, the exponent is not too long, and the number is in range; without an exponent the range is not looked at |
| `DecimalGrammar.OnlySpellings` | `MRTECollector/src/github.com/globalsign/mgo/bson/decimal.go:149-297` | every text that is accepted is a spelling or the name of NaN or infinity |
| `DecimalGrammar.NameRead` | `MRTECollector/src/github.com/globalsign/mgo/bson/decimal.go:155-168` | nan, inf and infinity in any mixture of cases and with any sign are read as the values with these bits |
| `DecimalGrammar.ManyZeros` | `MRTECollector/src/github.com/globalsign/mgo/bson/decimal.go:220-234` | a zero with 6177 decimals is read as NaN |
| `DecimalGrammar.PrintedSpelling` | `MRTECollector/src/github.com/globalsign/mgo/bson/decimal.go:40-120` | every finite value is printed as the canonical spelling of its number: scientific with one digit before the point and a signed exponent without leading zeros, or plain with a digit before the point |
| `DecimalGrammar.PrintedNames` | `MRTECollector/src/github.com/globalsign/mgo/bson/decimal.go:40-49` | NaN and the infinities are printed by these names |
| `BsonEncoder.Encoder.AddDoc` | `MRTECollector/src/github.com/globalsign/mgo/bson/encode.go:158-202` | appends the encoding of the document with its length patched back in, and fails exactly for a malformed object id inside |
| `BsonEncoder.Encoder.AddSlice` | `MRTECollector/src/github.com/globalsign/mgo/bson/encode.go:310-346` | appends the elements numbered from zero |
| `BsonEncoder.Encoder.AddElem` | `MRTECollector/src/github.com/globalsign/mgo/bson/encode.go:354-583` | appends kind, name and encoding of any value, byte slices under the names of array operators as arrays |
| `BsonEncoder.Encoder.AddInts` | `MRTECollector/src/github.com/globalsign/mgo/bson/encode.go:465-470` | appends a byte slice as a numbered array of 32 bit numbers |
| `BsonEncoder.Encoder.AddValue` | `MRTECollector/src/github.com/globalsign/mgo/bson/encode.go:354-583` | appends the encoding of a value of any kind |
| `BsonEncoder.EveryIdFits` | `MRTECollector/src/github.com/globalsign/mgo/bson/encode.go:379-385` | encoding fails if and only if some id, however deep, is not of 12 bytes |
| `BsonEncoder.Encoder.AddBinary` | `MRTECollector/src/github.com/globalsign/mgo/bson/encode.go:592-603` | the obsolete kind gets a second length |
| `BsonEncoder.Encoder.SetInt32` | `MRTECollector/src/github.com/globalsign/mgo/bson/encode.go:621-626` | overwrites exactly the four reserved bytes |
| `BsonDecoder.Decoder.TakeDoc` | `MRTECollector/src/github.com/globalsign/mgo/bson/decode.go:581-602` | reads what the specification reads, consuming exactly the announced length |
| `BsonDecoder.Decoder.TakeElems` | `MRTECollector/src/github.com/globalsign/mgo/bson/decode.go:581-602` | reads the elements up to the end of the frame and no byte further |
| `BsonDecoder.Decoder.TakeVals` | `MRTECollector/src/github.com/globalsign/mgo/bson/decode.go:356-400` | reads array elements, their names skipped, up to the end of the frame |
| `BsonDecoder.Decoder.TakeValue` | `MRTECollector/src/github.com/globalsign/mgo/bson/decode.go:620-767` | reads a value of any kind or fails where the specification fails |
| `BsonDecoder.Decoder.TakeBinary` | `MRTECollector/src/github.com/globalsign/mgo/bson/decode.go:950-964` | generic and obsolete binaries are read as plain byte slices, with the inner length only if the outer is above four |
| `BsonDecoder.Decoder.TakeStr` | `MRTECollector/src/github.com/globalsign/mgo/bson/decode.go:966-973` | a string must end with a zero byte at its announced length |
| `BsonDecoder.Decoder.TakeCStr` | `MRTECollector/src/github.com/globalsign/mgo/bson/decode.go:975-989` | the bytes up to the next zero byte |
| `BsonDecoder.Decoder.Drop` | `MRTECollector/src/github.com/globalsign/mgo/bson/decode.go:606-618` | moves the cursor by the measured size or fails; wherever reading the element succeeds it succeeds too and stops at the same place |
| `BsonSkip.Measure` | `MRTECollector/src/github.com/globalsign/mgo/bson/decode.go:402-501` | the size by kind, announced length and terminators, walking the buffer for the two texts of a regular expression, is that of the specification for every buffer, kind and offset |
| `BsonRoundTrip.RoundTrip` | `MRTECollector/src/github.com/globalsign/mgo/bson/decode.go:356-1055` | any nested document below 2^31 bytes is decoded from its encoding and exactly its bytes are consumed at every level; it is the same document if and only if it holds no binary of the generic or obsolete kind and no byte slice named $in, $nin or $all |
| `BsonRoundTrip.ValueBack` | `MRTECollector/src/github.com/globalsign/mgo/bson/decode.go:620-767` | every value is read back from its encoding at any place of a buffer |
| `BsonRoundTrip.NormalExactly` | `MRTECollector/src/github.com/globalsign/mgo/bson/decode.go:705-711` | which values change in a round trip |
| `BsonRoundTrip.OldBinaryIsLost` | `MRTECollector/src/github.com/globalsign/mgo/bson/decode.go:950-964` | an empty binary of the obsolete kind comes back as a plain byte slice of four zero bytes |
| `BsonRoundTrip.OperatorSliceIsArray` | `MRTECollector/src/github.com/globalsign/mgo/bson/encode.go:465-470` | a byte slice under $in comes back as an array of numbers |
| `BsonRoundTrip.IntsBack` | `MRTECollector/src/github.com/globalsign/mgo/bson/encode.go:465-470` | a byte slice sent as an array is read back as the array of its bytes |
| `BsonSkip.SkipAgrees` | `MRTECollector/src/github.com/globalsign/mgo/bson/decode.go:402-501` | for every input and kind on which reading succeeds skipping succeeds too and stops at the same place |
| `BsonSkip.ScopedSize` | `MRTECollector/src/github.com/globalsign/mgo/bson/decode.go:402-501` | the announced length of scoped code is where reading it ends |
| `BsonFormat.ValueExactly` | `MRTECollector/src/github.com/globalsign/mgo/bson/decode.go:620-767` | reading a value succeeds and stops at a position if and only if the bytes up to there are a value of that type by bsonspec.org, stated with literal codes and bytes, and it is the value they mean |
| `BsonFormat.DocumentExactly` | `MRTECollector/src/github.com/globalsign/mgo/bson/decode.go:581-605` | the same of whole documents: lengths, names, zeros and nothing left over |
| `BsonFormat.SkipExactly` | `MRTECollector/src/github.com/globalsign/mgo/bson/decode.go:402-501` | skipping succeeds and stops at a position if and only if the bytes up to there have the length that type, announced length and terminators say |
| `BsonFormat.WrittenDocument` | `MRTECollector/src/github.com/globalsign/mgo/bson/encode.go:158-202` | the bytes written for a document of any values at any depth are a document in that sense |
| `BsonFormat.WrittenValue` | `MRTECollector/src/github.com/globalsign/mgo/bson/encode.go:354-590` | and so are the bytes of each value under its code |
| `BsonFormat.WrittenBinary` | `MRTECollector/src/github.com/globalsign/mgo/bson/encode.go:592-603` | the subtype of a binary and the doubled length of the old one |
| `BsonFormat.OperatorNames` | `MRTECollector/src/github.com/globalsign/mgo/bson/encode.go:465-470` | the three names under which byte slices are written as arrays |
| `BsonFormat.PositionNames` | `MRTECollector/src/github.com/globalsign/mgo/bson/encode.go:310-346` | array elements are named by their positions in decimal digits without leading zeros |
| `BsonFormat.HelloWorld` | `MRTECollector/src/github.com/globalsign/mgo/bson/encode.go:158-202` | the 22 bytes of the first example of bsonspec.org |
| `BsonFormat.AwesomeArray` | `MRTECollector/src/github.com/globalsign/mgo/bson/encode.go:158-202` | the 49 bytes of its second example, with a string, a float and a number in an array |
| `BsonCodec.MarshalUnmarshal` | `MRTECollector/src/github.com/globalsign/mgo/bson/encode.go:158-202` | encoder and decoder run one after the other give the document back under exactly that condition |
| `GridFile.FileIsContent` | `MRTECollector/src/github.com/globalsign/mgo/gridfs.go:540-552` | the stored chunks in order are the content, as many as the length divided by the chunk size and rounded up, all but the last of full size |
| `GridWriter.Writer.Write` | `MRTECollector/src/github.com/globalsign/mgo/gridfs.go:589-634` | every byte is buffered or in a chunk that is stored or on its way, unless an error is recorded, which needs a failing database, and only full chunks are sent |
| `GridWriter.Writer.Complement` | `MRTECollector/src/github.com/globalsign/mgo/gridfs.go:608-619` | the buffer is filled up to a full chunk and sent |
| `GridWriter.Writer.SendFullChunks` | `MRTECollector/src/github.com/globalsign/mgo/gridfs.go:621-629` | full chunks are sent while more than one chunk is left, so that a last full chunk stays buffered |
| `GridWriter.Writer.InsertChunk` | `MRTECollector/src/github.com/globalsign/mgo/gridfs.go:636-672` | the chunk is on its way under the next number; it waits while a megabyte is pending and not before, so that never more than a megabyte and a chunk is; one that cannot be marshalled is counted as pending for ever |
| `GridWriter.Writer.FinishTask` | `MRTECollector/src/github.com/globalsign/mgo/gridfs.go:663-671` | one background insert ends: the chunk is stored or the error recorded, and one fewer is pending |
| `GridWriter.Writer.FinishBetweenCalls` | `MRTECollector/src/github.com/globalsign/mgo/gridfs.go:663-671` | an insert that ends between two calls loses nothing |
| `GridWriter.Writer.Close` | `MRTECollector/src/github.com/globalsign/mgo/gridfs.go:522-569` | does not return if a chunk failed to be marshalled before, and returns if none did and none is to be sent now that cannot be; when nothing else fails these are the only cases; after a successful close the chunks are the file written, the length and the checksummed bytes agree with it and nothing is pending, and it succeeds unless something failed; after one without a file document no chunk is left |
| `GridWriter.Writer.CompleteWrite` | `MRTECollector/src/github.com/globalsign/mgo/gridfs.go:540-563` | returns unless a chunk was lost; the document of the file is there only with all chunks and the right length and checksum, and without it no chunk is left |
| `GridWriter.SendLast` | `MRTECollector/src/github.com/globalsign/mgo/gridfs.go:524-528` | the last buffered bytes as one more chunk complete the file |
| `GridReader.Reader.Read` | `MRTECollector/src/github.com/globalsign/mgo/gridfs.go:726-746` | from any state, also after failed fetches: the content from the position of the buffer on is put into the array, the rest of which stays as it was, and the offset moves by as much; the position is the offset for as long as no fetch has failed, and a failure leaves it ahead of it; then exactly content[offset .. min(offset + len(b), length)] is read, end of file coming only at the end; whichever fetches fail, now or in the cache, reading goes on to the first that fails and no further; with the position at the end of the content and the offset before it every read fails |
| `GridReader.Reader.Seek` | `MRTECollector/src/github.com/globalsign/mgo/gridfs.go:679-717` | from any state: the offset asked for, or no change past the end; a target less than a chunk before the start of a file that is not empty fetches the first chunk and panics on a negative index, one further before it asks for a chunk that is not there and leaves the offset negative; on a reader whose buffer is not at its offset a target taken to be in the buffer panics if and only if it is beyond it; otherwise the buffer starts at the offset again |
| `GridReader.Reader.GetChunk` | `MRTECollector/src/github.com/globalsign/mgo/gridfs.go:748-782` | the next chunk, prefetched or not, or a failure, and the one after it prefetched if there is one; whether it comes and what will come next are given for every pattern of failing fetches |
| `GridReader.PrefetchedNext` | `MRTECollector/src/github.com/globalsign/mgo/gridfs.go:762-780` | exactly the chunks that the file has are fetched ahead |
| `GridReader.RetrySkips` | `MRTECollector/src/github.com/globalsign/mgo/gridfs.go:734-745` | from any state and whichever fetches fail, by the cache or not: a read cut short by a failed fetch ends with the content before the missing chunk; tried again it puts the content behind it, up to the next failure, at the offset, which is right if and only if the two are the same bytes or none is there; behind a missing last chunk it fails again |
| `GridReader.RightExactly` | `MRTECollector/src/github.com/globalsign/mgo/gridfs.go:734-745` | bytes read from a position no less than the offset are those at the offset if and only if none was read or the content repeats itself from the one to the other |
| `GridReader.SecondAttempt` | `MRTECollector/src/github.com/globalsign/mgo/gridfs.go:734-745` | of a file of the bytes 1 and 2 in two chunks, the first of which fails to be fetched once, the second attempt reads 2 as the first byte |
| `GridReader.LostPrefetch` | `MRTECollector/src/github.com/globalsign/mgo/gridfs.go:734-782` | of a file of the bytes 1, 2 and 3 in three chunks, the second of which fails to be prefetched, the second attempt reads 3 behind 1 |
| `GridReader.LostLast` | `MRTECollector/src/github.com/globalsign/mgo/gridfs.go:734-782` | if the last of two chunks fails to be prefetched its byte cannot be read again although no other fetch fails |
| `GridReader.SeekInside` | `MRTECollector/src/github.com/globalsign/mgo/gridfs.go:703-707` | moving within the buffered chunk keeps the buffer the content from the offset on |
| `WireFrames.FramesBack` | `MRTECollector/src/github.com/go-sql-driver/mysql/packets.go:27-149` | the frames of a payload, read behind any data of earlier full frames, give that data and the payload, and the sequence number has moved on by the number of frames modulo 256 |
| `WireFrames.RoundTrip` | `MRTECollector/src/github.com/go-sql-driver/mysql/packets.go:27-149` | a payload is read back as written if and only if it is not empty, also at multiples of 2^24 - 1 bytes |
| `WireFrames.CutShort` | `MRTECollector/src/github.com/go-sql-driver/mysql/packets.go:27-87` | frames cut short anywhere are never taken for a packet |
| `WireFrames.FrameBytes` | `MRTECollector/src/github.com/go-sql-driver/mysql/packets.go:97-125` | the literal bytes of frames: length, number and data, and another frame after 0xFFFFFF bytes |
| `WireFrames.OnlyFrames` | `MRTECollector/src/github.com/go-sql-driver/mysql/packets.go:27-87` | nothing but the frames of a payload is read as that payload |
| `WireFrames.Refused` | `MRTECollector/src/github.com/go-sql-driver/mysql/packets.go:45-68` | a wrong number, an empty packet and a missing byte are told apart |
| `WireWriter.Connection.WritePacket` | `MRTECollector/src/github.com/go-sql-driver/mysql/packets.go:92-149` | what is sent and answered is that of the frames of the original payload although later headers overwrite sent bytes; nothing outside the packet is touched; too large payloads send nothing |
| `WireWriter.Connection.PutHeader` | `MRTECollector/src/github.com/go-sql-driver/mysql/packets.go:99-112` | length and sequence number in the four bytes before the payload, no other byte changed |
| `WireWriter.SendsFrames` | `MRTECollector/src/github.com/go-sql-driver/mysql/packets.go:99-131` | a successful write sent all frames, any other a part of them from the front |
| `WireWriter.Undisturbed` | `MRTECollector/src/github.com/go-sql-driver/mysql/packets.go:99-131` | a network that fails nothing takes every packet whole |
| `WireWriter.WrittenIsRead` | `MRTECollector/src/github.com/go-sql-driver/mysql/packets.go:27-149` | a reader of what was sent gets the payload after a successful write and no packet from an incomplete one |
| `WireWriter.NothingWrittenHolds` | `MRTECollector/src/github.com/go-sql-driver/mysql/packets.go:139-142` | the answer that nothing was written is right for every behaviour of the network if and only if the payload fits one frame |
| `WireWriter.SecondFrameFails` | `MRTECollector/src/github.com/go-sql-driver/mysql/packets.go:139-142` | a network on which a large payload is answered with nothing written after its first frame was sent |
| `WireWriter.EndsAt` | `MRTECollector/src/github.com/go-sql-driver/mysql/packets.go:117-149` | a write ends at the first frame that the network does not take whole: nothing written if that frame failed at once, an invalid connection otherwise, with exactly the bytes sent that the network took; done if there is none |
| `WireReader.Buffer.Fill` | `MRTECollector/src/github.com/go-sql-driver/mysql/buffer.go:41-90` | however the stream is fragmented the pending bytes stay the same and enough of them are buffered, unless the network fails or there are not so many |
| `WireReader.Buffer.MakeRoom` | `MRTECollector/src/github.com/go-sql-driver/mysql/buffer.go:42-61` | the buffered bytes are moved to the front and kept when the buffer grows |
| `WireReader.Buffer.ReadNext` | `MRTECollector/src/github.com/go-sql-driver/mysql/buffer.go:94-107` | exactly the next bytes of the stream |
| `WireReader.Connection.ReadPacket` | `MRTECollector/src/github.com/go-sql-driver/mysql/packets.go:27-87` | the packet at the front of the pending bytes, or the error of wrong order, of an empty first frame or of a stream that ends, whatever the fragmentation |
| `WireReader.AnsweredTo` | `MRTECollector/src/github.com/go-sql-driver/mysql/packets.go:31-68` | a sequence number ahead, one behind, an empty packet and a missing byte are told apart by the first four bytes |
| `WireLongData.Statement.WriteCommandLongData` | `MRTECollector/src/github.com/go-sql-driver/mysql/packets.go:836-883` | for every packet limit, network and number of turns: what was sent, how the loop stands and the sequence are those of the turns on values, although each command overwrites the end of the piece sent before it |
| `WireLongData.Ends` | `MRTECollector/src/github.com/go-sql-driver/mysql/packets.go:853-883` | with a limit above eight bytes the loop returns after at most as many turns as the argument has bytes, having sent one command per piece, or a part of them from the front when the network fails; no packet is too large |
| `WireLongData.EndsExactly` | `MRTECollector/src/github.com/go-sql-driver/mysql/packets.go:853-883` | over a network that fails nothing the loop comes to a successful end if and only if the argument is empty or the limit is above eight bytes |
| `WireLongData.NeverDone` | `MRTECollector/src/github.com/go-sql-driver/mysql/packets.go:853-883` | with a limit of eight bytes and less no turn takes anything of the argument, and whatever the network does the loop never returns successfully |
| `WireLongData.CutCommand` | `MRTECollector/src/github.com/go-sql-driver/mysql/packets.go:853-877` | with a limit of one to seven bytes the first turn sends the beginning of a command and then panics on a negative index; with a limit of zero it panics before anything is sent |
| `WireLongData.NothingArrives` | `MRTECollector/src/github.com/go-sql-driver/mysql/packets.go:853-883` | with a limit of eight bytes the loop goes round for ever over a network that fails nothing: n turns send n commands without data, leave the argument as it was, and a server gathers nothing of it |
| `WireLongData.ArgumentArrives` | `MRTECollector/src/github.com/go-sql-driver/mysql/packets.go:836-883` | a server that puts the pieces together has the argument |
| `WireLongData.CommandRead` | `MRTECollector/src/github.com/go-sql-driver/mysql/packets.go:858-871` | a server that reads the literal layout finds the statement id, the parameter id and the data |
| `SqlEscape.ReserveBuffer` | `MRTECollector/src/github.com/go-sql-driver/mysql/utils.go:501-511` | room for the reserved bytes, the old ones kept |
| `SqlEscape.EscapeBackslash` | `MRTECollector/src/github.com/go-sql-driver/mysql/utils.go:517-602` | the escaped bytes are appended within twice their length, nothing behind is touched |
| `SqlEscape.EscapeQuotes` | `MRTECollector/src/github.com/go-sql-driver/mysql/utils.go:610-646` | the bytes with apostrophes doubled are appended within twice their length |
| `SqlLiterals.ScanEscaped` | `MRTECollector/src/github.com/go-sql-driver/mysql/utils.go:513-646` | in either mode escaped bytes are read by MySQL's rules as themselves, whatever follows |
| `SqlLiterals.ReadBack` | `MRTECollector/src/github.com/go-sql-driver/mysql/connection.go:274-293` | reading a literal stops at the appended closing quote and gives the argument back if and only if no quote follows at once |
| `SqlLiterals.EscapeInjective` | `MRTECollector/src/github.com/go-sql-driver/mysql/utils.go:513-646` | different values have different literals |
| `SqlTemplates.AtMark` | `MRTECollector/src/github.com/go-sql-driver/mysql/connection.go:204-213` | the k-th placeholder becomes the k-th literal |
| `SqlTemplates.ArgumentReadBack` | `MRTECollector/src/github.com/go-sql-driver/mysql/connection.go:187-307` | every string and byte argument is read back from its place in the filled query, if and only if the filled text does not continue with a quote |
| `SqlLex.FilledTokens` | `MRTECollector/src/github.com/go-sql-driver/mysql/connection.go:187-307` | if placeholders stand outside quotes, the filled query is read from its start as the query with each placeholder replaced by the tokens of its literal if and only if no literal or quoted text that ends with an apostrophe is next to one that begins with one |
| `SqlLex.LexLiteral` | `MRTECollector/src/github.com/go-sql-driver/mysql/connection.go:214-297` | a literal is read as its own tokens, quoted text as one, unless it ends with an apostrophe and another one follows at once |
| `SqlLex.LiteralStuck` | `MRTECollector/src/github.com/go-sql-driver/mysql/connection.go:214-297` | in that case it is not read as its tokens |
| `SqlLex.Rescan` | `MRTECollector/src/github.com/go-sql-driver/mysql/connection.go:204-210` | what lies between the quotes of a quoted text of the query is read to the same value whatever is filled in behind it |
| `SqlLex.InterpolatedTokens` | `MRTECollector/src/github.com/go-sql-driver/mysql/connection.go:187-307` | the same of whatever the connection answers |
| `SqlValues.LiteralMeans` | `MRTECollector/src/github.com/go-sql-driver/mysql/connection.go:214-297` | the tokens of a literal, by their bytes, mean the argument and nothing else: NULL, a number, data marked by _binary, or a text |
| `SqlValues.NullOnly` | `MRTECollector/src/github.com/go-sql-driver/mysql/connection.go:214-297` | only nil arguments are read as NULL |
| `SqlValues.OneArgument` | `MRTECollector/src/github.com/go-sql-driver/mysql/connection.go:187-307` | the literal bytes of the answers for a query of one placeholder |
| `SqlValues.EscapeTable` | `MRTECollector/src/github.com/go-sql-driver/mysql/utils.go:517-602` | how each byte is escaped, in both modes |
| `SqlValues.UnescapeTable` | `MRTECollector/src/github.com/go-sql-driver/mysql/utils.go:517-602` | how an escaped byte is read, by section 9.1.1 of the MySQL Reference Manual |
| `SqlValues.EscapedIsTame` | `MRTECollector/src/github.com/go-sql-driver/mysql/utils.go:517-602` | escaped with backslashes a text holds no NUL, line end or ^Z |
| `SqlInterpolate.Connection.InterpolateParams` | `MRTECollector/src/github.com/go-sql-driver/mysql/connection.go:187-307` | skips on a wrong count, an argument without literal or a text too long at an argument that is not nil, refuses while input is unread, and else answers the filled query |
| `SqlInterpolate.RunFills` | `MRTECollector/src/github.com/go-sql-driver/mysql/connection.go:204-306` | the query is interpolated exactly when every argument has a literal and the text up to the last argument that is not nil fits; the text behind it is not measured |
| `SqlInterpolate.NullNotMeasured` | `MRTECollector/src/github.com/go-sql-driver/mysql/connection.go:214-217` | a nil argument is put in however small the packet limit |
| `SqlInterpolate.Connection.AppendLiteral` | `MRTECollector/src/github.com/go-sql-driver/mysql/connection.go:215-297` | appends the literal of an argument in the active mode |
| `RingQueue.Queue.Push` | `MRTECollector/src/github.com/globalsign/mgo/queue.go:38-49` | appends to the queue, wrapping round or growing; copies in all never exceed six per push |
| `RingQueue.Queue.Pop` | `MRTECollector/src/github.com/globalsign/mgo/queue.go:51-64` | takes the first element, or answers nil when empty; the slot is cleared |
| `RingQueue.Queue.Expand` | `MRTECollector/src/github.com/globalsign/mgo/queue.go:66-91` | a full ring grows in either case without changing the queue, and the old slots are cleared |
| `RingQueue.HoldsPush` | `MRTECollector/src/github.com/globalsign/mgo/queue.go:44-46` | a slot behind the last extends the ring at its end |
| `RingQueue.HoldsPop` | `MRTECollector/src/github.com/globalsign/mgo/queue.go:57-60` | the ring without its first slot holds the rest |
| `RingQueue.HoldsExpanded` | `MRTECollector/src/github.com/globalsign/mgo/queue.go:78-86` | opening a full ring between its last and first element keeps its contents |
| `RingQueue.PaidExpanded` | `MRTECollector/src/github.com/globalsign/mgo/queue.go:66-77` | copying a full ring is paid by what was saved, and the larger ring starts with enough |
| `RingQueue.SizesOf` | `MRTECollector/src/github.com/globalsign/mgo/queue.go:66-77` | the sizes of a growing queue: 8 slots first, doubled up to 1024, a quarter more from there on |
| `SerializeBuffers.SerializeBuffer.PrependBytes` | `MRTECollector/src/github.com/google/gopacket/writer.go:130-149` | room in front of the packet, every old byte kept, reallocating exactly when the prepended sizes since the last clear exceed the room |
| `SerializeBuffers.SerializeBuffer.AppendBytes` | `MRTECollector/src/github.com/google/gopacket/writer.go:151-169` | room behind the packet, every old byte kept, reallocating exactly when the appended sizes exceed the room |
| `SerializeBuffers.SerializeBuffer.Clear` | `MRTECollector/src/github.com/google/gopacket/writer.go:171-175` | always in range; the packet is empty and all room free |
| `SerializeBuffers.SerializeBuffer.SerializeLayers` | `MRTECollector/src/github.com/google/gopacket/writer.go:188-198` | the packet is the layers nested in each other, and the room is that of the operations in order |
| `SerializeBuffers.NoAllocation` | `MRTECollector/src/github.com/google/gopacket/writer.go:130-169` | nothing is allocated if and only if the sums of the sizes at both ends fit the room |
| `SerializeBuffers.RepeatAllocatesNothing` | `MRTECollector/src/github.com/google/gopacket/writer.go:75-79` | after a clear the same operations, or any that add no more at either end, allocate nothing, and neither does any further round |
| `CollectorFrames.LookaheadIsPort` | `MRTECollector/src/mrte/custom_packet_parser.go:103-199` | for every frame that is accepted the port looked up ahead is the parsed source port |
| `CollectorFrames.LookaheadInRange` | `MRTECollector/src/mrte/custom_packet_parser.go:112-128` | looking ahead stays within the frame if and only if it is longer than the link header |
| `CollectorFrames.ParseEncoded` | `MRTECollector/src/mrte/custom_packet_parser.go:131-199` | any TCP segment in an IPv4 datagram, with any options and padding, is parsed to its sender and exactly its payload |
| `CollectorFrames.ParsedByPlaces` | `MRTECollector/src/mrte/custom_packet_parser.go:131-199` | exactly the frames with room for all headers, Ethernet type 0x0800 and protocol number 6 are accepted, and sender, port and payload are the bytes at their places |
| `CollectorFrames.LookaheadByPlaces` | `MRTECollector/src/mrte/custom_packet_parser.go:103-128` | the port looked up ahead is the number at the place where the IP header ends, or zero |
| `CollectorFrames.RejectedFor` | `MRTECollector/src/mrte/custom_packet_parser.go:131-199` | why a frame is rejected |
| `CollectorKeys.Uitoa` | `MRTECollector/src/mrte/custom_packet_parser.go:213-222` | the decimal text of any 64 bit number, within the buffer |
| `CollectorKeys.IpToString` | `MRTECollector/src/mrte/custom_packet_parser.go:202-211` | the dotted text of an address |
| `CollectorKeys.LastDigit` | `MRTECollector/src/mrte/custom_packet_parser.go:213-222` | the text of a number is the text without its last digit, followed by it |
| `CollectorKeys.KeyInjective` | `MRTECollector/MRTECollector.go:172-173` | different clients never share the key of an unfinished request |
| `CollectorKeys.LocalKey` | `MRTECollector/MRTECollector.go:172-173` | the key of 192.168.0.1 and port 3306, letter by letter |
| `CollectorWorker.Worker.Iterate` | `MRTECollector/MRTECollector.go:138-269` | one round of a worker: the batch index stays in bounds, and the batch, what was handed over and the counters are those of the round |
| `CollectorWorker.Worker.Flush` | `MRTECollector/MRTECollector.go:255-268` | a full or forced batch is handed over whole, inserted or counted as errors; then the first 20 slots are empty and the requests of a larger batch stay in the others |
| `CollectorWorker.RoundKeepsOrder` | `MRTECollector/MRTECollector.go:138-269` | a round hands requests over in append order, none lost or doubled, and inserted plus errors is what was handed over |
| `CollectorWorker.ThirtyGoOut` | `MRTECollector/MRTECollector.go:255-268` | the batch goes out with its thirtieth request or a tick and waits otherwise |
| `CollectorPipeline.SenderInRange` | `MRTECollector/MRTECollector.go:279-285` | a session is sent to an existing worker for every 32 bit port but the least, and for that one only if the threads divide 2^31; no server reports it |
| `CollectorPipeline.RequestOnItsWorker` | `MRTECollector/MRTECollector.go:284-330` | a request always goes through the worker of its port, whether captured or made |
| `CollectorPipeline.RoutedExactly` | `MRTECollector/MRTECollector.go:279-330` | a captured packet has a worker if and only if it is longer than its link header, a prepared request if and only if its port is not negative or is a multiple of the threads |
| `CollectorPipeline.TakenExactly` | `MRTECollector/MRTECollector.go:279-330` | a packet is taken if and only if it has a worker with fewer than 1000 packets waiting |
| `CollectorPipeline.RunKeeps` | `MRTECollector/MRTECollector.go:109-330` | in every interleaving of capture, sender and workers each worker has, in order, what was sent to it |
| `CollectorPipeline.EachPortInOrder` | `MRTECollector/MRTECollector.go:109-330` | in every run the requests of a port go through one worker only, which hands them over in the order in which they were sent, none lost or doubled |
| `CollectorPipeline.EveryRequestAccounted` | `MRTECollector/MRTECollector.go:255-268` | in every run inserted, errors, the batch and the channel of a worker make up exactly what was sent to it, and the batch is never full |

## Left out

- TxnProtocol: an insertion together with the removal of its stash, and a removal together with the update of its stash, are one step; the code's own comment admits a race there.
- TxnProtocol: document and stash are one place with one queue and one revision, so putting a token and reading it back is one atomic step; the retries for misplaced tokens appear as pulling a token again.
- TxnProtocol: which tokens are pulled is left open (any set), and so is the outcome of assertions on document content; only the assertion of absence is decided by the vector.
- TxnProtocol: nonces are taken to be fresh, where the code draws 32 random bits; with a repeated nonce the statements about tokens do not hold.
- TxnProtocol: the change log, the limit on queue lengths (an error return, which is a crash of the activation here), purging of missing documents, `Run`, `Resume` and `ResumeAll` themselves.
- TxnComplete.AppliedWholeExactly: that the flusher keeps the turn of each transaction is not proved; the order in which a runner advances them is (`TxnSchedule.RunHonoursQueues`), but the queues of the state machine are sets.
- TxnFinal.AppliedIsSettled: is stated for the first operation of a transaction on each document, as are `TxnFinal.NothingAfterApplied` and `TxnRuns.EffectsInOrder`; these hold in every run, `TxnComplete.AppliedAsAWhole` covers all operations when the turn is kept.
- TxnRevnos.VectorNeverMisses: is about revisions; document content is not modelled.
- TxnRecurse.Search.Recurse: queues and advance verdicts are fixed during the search, while in the code each advance may refresh queues.
- Tarjan.TarjanSort: requires a graph closed under successors, which `TxnQueue.QueueGraphClosed` proves of every graph that `run` builds; library sorting is an insertion sort.
- DecimalRoundTrip.ClampedValue: is about texts of an integer with an exponent above the range; texts with a point are covered by `DecimalParse.ParseDecimal128` and `DecimalRoundTrip.ClampExactly`.
- BsonEncoder.Encoder.AddValue: values are an algebraic type in place of reflection; struct tags, getters, maps, number coercions, the cache of small numbers and time rounding are not modelled; floats are 64 bit patterns and regular expression options are already sorted.
- BsonDecoder.Decoder.TakeValue: setters, raw values and typed targets are not modelled; a scope is an ordered document rather than a map.
- GridWriter.Writer.InsertChunk: whether chunks can be marshalled is fixed for a file, by its id; the checksum is the sequence of bytes given to it.
- GridWriter.Writer.Close: the removal of chunks after an error succeeds, as the code ignores its result.
- GridReader.Reader.Read: prefetching is complete when it is waited for.
- WireReader.Buffer.ReadNext: returns the bytes by value; that a later read overwrites the slice the code returns is not modelled, nor are timeouts and cancellation.
- WireWriter.Connection.WritePacket: deadlines and cancellation are not modelled.
- SqlInterpolate.Connection.InterpolateParams: integers, floats and times arrive as formatted text.
- SqlLex.FilledTokens: comments in the query are not told apart from other text.
- SqlEscape.EscapeBackslash: one method stands for the versions for byte slices and for strings, which are the same code; likewise `SqlEscape.EscapeQuotes`.
- CollectorWorker.Worker.Iterate: what the reassembly and the parsing of a MySQL payload yield is a parameter, at most one request for each packet; expiry of partial requests and the crash on payloads of fewer than four bytes are not modelled.
- CollectorPipeline.RunKeeps: fast parsing mode only; the reading of the session list, its filtering and the statistics are not modelled.
- Socket pool, cluster synchronisation, sessions and iterators: mostly network and timing.
- The player written in Java: database, thread and console plumbing.
- Packet capture, servers, TLS, authentication, logging, flags and URL parsing: foreign code or easy.
