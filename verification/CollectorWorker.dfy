/** A collector worker: it batches requests and hands them to the bulk insert. */
module CollectorWorker {
  import opened Bytes
  import opened CollectorFrames

  const QUEUE_BATCH_SIZE: nat := 30
  const CLEARED_SLOTS: nat := 20

  datatype MysqlRequest = MysqlRequest(srcIp: bytes, srcPort: int, body: bytes)

  // What the MySQL payload of a frame yields: a request that is complete and wanted, or none.
  datatype Outcome = Nothing | Complete(body: bytes)

  datatype Packet = Captured(data: bytes, outcome: Outcome) | Prepared(request: MysqlRequest)

  // The request, if any, that a packet adds to the batch.
  function Emitted(p: Packet, linkType: int): (r: seq<MysqlRequest>)
    ensures |r| <= 1
  {
    match p
    case Prepared(request) => [request]
    case Captured(data, outcome) =>
      match ParsePacketFast(data, linkType)
      case Rejected(_) => []
      case Request(srcIp, srcPort, _) =>
        if outcome.Complete? then [MysqlRequest(srcIp, srcPort, outcome.body)] else []
  }

  datatype Event = Received(packet: Packet) | Ticked

  function Appended(e: Event, linkType: int): (r: seq<MysqlRequest>)
    ensures |r| <= 1
  {
    match e
    case Received(p) => Emitted(p, linkType)
    case Ticked => []
  }

  // The requests waiting in the batch, those handed to the bulk insert so far, and how many
  // of them it took or failed on.
  datatype View = View(pending: seq<MysqlRequest>, handed: seq<MysqlRequest>, inserted: nat, errors: nat)

  predicate Accounted(v: View) {
    |v.pending| < QUEUE_BATCH_SIZE && |v.handed| == v.inserted + v.errors
  }

  // One round of the worker's loop; the bulk insert takes all or counts as failed.
  function Round(v: View, e: Event, linkType: int, succeeds: bool): View {
    var pending := v.pending + Appended(e, linkType);
    if |pending| >= QUEUE_BATCH_SIZE || e.Ticked? then
      View([], v.handed + pending,
           if succeeds then v.inserted + |pending| else v.inserted,
           if succeeds then v.errors else v.errors + |pending|)
    else v.(pending := pending)
  }

  // A round loses, doubles and reorders nothing, and every request is accounted for.
  lemma RoundKeepsOrder(v: View, e: Event, linkType: int, succeeds: bool)
    requires Accounted(v)
    ensures var w := Round(v, e, linkType, succeeds);
      && Accounted(w) && v.handed <= w.handed
      && w.handed + w.pending == v.handed + v.pending + Appended(e, linkType)
  {
    var pending := v.pending + Appended(e, linkType);
    assert v.handed + pending == v.handed + v.pending + Appended(e, linkType);
    assert v.handed + pending + [] == v.handed + pending;
  }

  // A batch goes out with its thirtieth request, or with a tick; otherwise it waits.
  lemma ThirtyGoOut(v: View, e: Event, linkType: int, succeeds: bool)
    requires Accounted(v)
    ensures var w := Round(v, e, linkType, succeeds);
      if e == Ticked || (|v.pending| == 29 && Appended(e, linkType) != []) then w.pending == []
      else w.pending == v.pending + Appended(e, linkType) && w.handed == v.handed
  {
  }

  datatype Slot = Empty | Full(request: MysqlRequest)

  class Worker {
    const linkType: int
    var batches: array<Slot>
    var batched: nat
    var forceFlush: bool
    var inserted: nat
    var errors: nat
    ghost var handed: seq<MysqlRequest>

    // The first slots are the batch; slots behind it may still hold requests handed over before.
    ghost predicate Batch(pending: seq<MysqlRequest>)
      reads this, batches
    {
      && batches.Length == QUEUE_BATCH_SIZE && batched == |pending| <= QUEUE_BATCH_SIZE
      && forall k :: 0 <= k < batched ==> batches[k] == Full(pending[k])
    }

    constructor (linkType: int)
      ensures this.linkType == linkType && Batch([]) && !forceFlush && fresh(batches)
      ensures inserted == 0 && errors == 0 && handed == []
    {
      this.linkType := linkType;
      batches := new Slot[QUEUE_BATCH_SIZE](_ => Empty);
      batched, forceFlush, inserted, errors, handed := 0, false, 0, 0, [];
    }

    method Append(request: MysqlRequest, ghost pending: seq<MysqlRequest>)
      requires Batch(pending) && |pending| < QUEUE_BATCH_SIZE
      modifies this`batched, batches
      ensures Batch(pending + [request])
    {
      batches[batched] := Full(request);
      batched := batched + 1;
    }

    // One round of the loop over packets and ticks.
    method Iterate(e: Event, succeeds: bool, ghost v: View) returns (ghost w: View)
      requires Batch(v.pending) && !forceFlush && Accounted(v) && v == View(v.pending, handed, inserted, errors)
      modifies this, batches
      ensures w == Round(v, e, linkType, succeeds) == View(w.pending, handed, inserted, errors)
      ensures Batch(w.pending) && !forceFlush && Accounted(w) && batches == old(batches)
    {
      ghost var pending := v.pending;
      match e {
        case Received(Prepared(request)) =>
          Append(request, pending);
          pending := pending + [request];
        case Received(Captured(data, outcome)) =>
          var mp := ParsePacketFast(data, linkType);
          if mp.Request? && outcome.Complete? {
            var request := MysqlRequest(mp.srcIp, mp.srcPort, outcome.body);
            Append(request, pending);
            pending := pending + [request];
          }
        case Ticked =>
          forceFlush := true;
      }
      assert pending == v.pending + Appended(e, linkType);
      Flush(pending, succeeds);
      w := Round(v, e, linkType, succeeds);
    }

    // Hands over the batch when it is full or a tick forces it. Only the first 20 slots are then
    // cleared: requests of a larger batch stay in the others until they are overwritten.
    method Flush(ghost pending: seq<MysqlRequest>, succeeds: bool)
      requires Batch(pending)
      modifies this`batched, this`forceFlush, this`inserted, this`errors, this`handed, batches
      ensures !forceFlush
      ensures if |pending| < QUEUE_BATCH_SIZE && !old(forceFlush) then
          Batch(pending) && handed == old(handed) && inserted == old(inserted) && errors == old(errors)
        else
          Batch([]) && handed == old(handed) + pending &&
          inserted == old(inserted) + (if succeeds then |pending| else 0) &&
          errors == old(errors) + (if succeeds then 0 else |pending|)
      ensures forall k :: 0 <= k < QUEUE_BATCH_SIZE ==>
        batches[k] == if k < 20 && pending != [] && batched == 0 then Empty else old(batches[k])
      ensures batched == 0 ==> forall k :: 20 <= k < |pending| ==> batches[k] == Full(pending[k])
    {
      if batched >= QUEUE_BATCH_SIZE || forceFlush {
        if batched > 0 {
          var taken: nat := if succeeds then batched else 0;
          handed := handed + Requests(batches[..batched]);
          assert Requests(batches[..batched]) == pending;
          inserted := inserted + taken;
          errors := errors + (batched - taken);
          for idx := 0 to CLEARED_SLOTS
            modifies batches
            invariant forall k :: 0 <= k < QUEUE_BATCH_SIZE ==>
              batches[k] == if k < idx then Empty else old(batches[k])
          {
            batches[idx] := Empty;
          }
        }
        assert pending == [] ==> handed == handed + pending;
        batched := 0;
        forceFlush := false;
      }
    }
  }

  // The requests in slots that are full.
  ghost function Requests(slots: seq<Slot>): (r: seq<MysqlRequest>)
    requires forall k :: 0 <= k < |slots| ==> slots[k].Full?
    ensures |r| == |slots| && forall k :: 0 <= k < |slots| ==> slots[k] == Full(r[k])
  {
    seq(|slots|, k requires 0 <= k < |slots| => slots[k].request)
  }
}
