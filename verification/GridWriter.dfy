/** Writing a GridFS file: chunks are inserted by background tasks that may fail or be slow. */
module GridWriter {
  import opened Bytes
  import opened GridFile

  const MAX_PENDING_BYTES: int := 1024 * 1024

  // A chunk is stored or on its way, with this value.
  ghost predicate Sent(stored: Chunks, pending: Chunks, n: nat, data: bytes) {
    && (n in stored || n in pending)
    && (n in stored ==> n !in pending && stored[n] == data)
    && (n in pending ==> pending[n] == data)
  }

  // The chunks sent are the first chunks of what was written, all full; the rest of it is
  // buffered.
  ghost predicate Placed(stored: Chunks, pending: Chunks, written: bytes, size: nat, chunk: nat, wbuf: bytes) {
    && size > 0 && |wbuf| <= size
    && |written| == chunk * size + |wbuf| && written[chunk * size..] == wbuf
    && (forall n :: n in stored || n in pending ==> n < chunk)
    && (forall n: nat :: n < chunk ==> n * size + size <= |written|)
    && (forall n: nat :: n < chunk ==> Sent(stored, pending, n, written[n * size..n * size + size]))
  }

  // The chunks sent are all the chunks of what was written.
  ghost predicate AllSent(stored: Chunks, pending: Chunks, written: bytes, size: nat) {
    && size > 0
    && (forall n: nat :: n in stored || n in pending ==> n * size < |written|)
    && (forall n: nat :: n * size < |written| ==> Sent(stored, pending, n, ChunkOf(written, size, n)))
  }

  // Less than a megabyte was pending when the last task was started.
  predicate Bounded(size: nat, wpending: nat) {
    wpending > 0 ==> size * (wpending - 1) < 1048576
  }

  lemma StillBounded(size: nat, wpending: nat)
    requires wpending > 0 && Bounded(size, wpending)
    ensures Bounded(size, wpending - 1)
  {
    if wpending > 1 {
      assert size * (wpending - 1) == size * (wpending - 2) + size;
    }
  }

  lemma BoundedMore(size: nat, wpending: nat)
    requires size * wpending < MAX_PENDING_BYTES
    ensures Bounded(size, wpending + 1)
  {
  }

  // The task of chunk n finishes and the chunk is stored.
  lemma PlacedFinished(stored: Chunks, pending: Chunks, written: bytes, size: nat, chunk: nat, wbuf: bytes, n: nat)
    requires Placed(stored, pending, written, size, chunk, wbuf) && n in pending
    ensures Placed(stored[n := pending[n]], pending - {n}, written, size, chunk, wbuf)
  {
    forall m: nat, data | Sent(stored, pending, m, data) ensures Sent(stored[n := pending[n]], pending - {n}, m, data) {
    }
  }

  lemma AllSentFinished(stored: Chunks, pending: Chunks, written: bytes, size: nat, n: nat)
    requires AllSent(stored, pending, written, size) && n in pending
    ensures AllSent(stored[n := pending[n]], pending - {n}, written, size)
  {
    forall m: nat, data | Sent(stored, pending, m, data) ensures Sent(stored[n := pending[n]], pending - {n}, m, data) {
    }
  }

  // More is written to the buffer.
  lemma BufferMore(stored: Chunks, pending: Chunks, written: bytes, size: nat, chunk: nat, wbuf: bytes, data: bytes)
    requires Placed(stored, pending, written, size, chunk, wbuf) && |wbuf| + |data| <= size
    ensures Placed(stored, pending, written + data, size, chunk, wbuf + data)
  {
    var more := written + data;
    forall n: nat | n < chunk ensures Sent(stored, pending, n, more[n * size..n * size + size]) {
      assert more[n * size..n * size + size] == written[n * size..n * size + size];
      assert Sent(stored, pending, n, written[n * size..n * size + size]);
    }
    assert more[chunk * size..] == wbuf + data;
  }

  lemma SentMore(stored: Chunks, pending: Chunks, chunk: nat, wbuf: bytes, n: nat, data: bytes)
    requires Sent(stored, pending, n, data) && n != chunk
    ensures Sent(stored, pending[chunk := wbuf], n, data)
  {
  }

  // A full buffer goes out as the next chunk.
  lemma SendFull(stored: Chunks, pending: Chunks, written: bytes, size: nat, chunk: nat, wbuf: bytes)
    requires Placed(stored, pending, written, size, chunk, wbuf) && |wbuf| == size
    ensures Placed(stored, pending[chunk := wbuf], written, size, chunk + 1, [])
  {
    assert (chunk + 1) * size == chunk * size + size;
    assert written[chunk * size..chunk * size + size] == wbuf;
    forall n: nat | n < chunk + 1
      ensures n * size + size <= |written| &&
        Sent(stored, pending[chunk := wbuf], n, written[n * size..n * size + size])
    {
      if n < chunk {
        SentMore(stored, pending, chunk, wbuf, n, written[n * size..n * size + size]);
      }
    }
  }

  // What is left in the buffer goes out as the last chunk.
  lemma SendLast(stored: Chunks, pending: Chunks, written: bytes, size: nat, chunk: nat, wbuf: bytes)
    requires Placed(stored, pending, written, size, chunk, wbuf) && wbuf != []
    ensures AllSent(stored, pending[chunk := wbuf], written, size)
  {
    hide ChunkOf, Sent;
    forall n: nat | n * size < |written| ensures Sent(stored, pending[chunk := wbuf], n, ChunkOf(written, size, n)) {
      SentWithLast(stored, pending, written, size, chunk, wbuf, n);
    }
    forall n: nat | n in stored || n in pending[chunk := wbuf] ensures n * size < |written| {
      MulOrder(n, chunk, size);
    }
  }

  lemma SentWithLast(stored: Chunks, pending: Chunks, written: bytes, size: nat, chunk: nat, wbuf: bytes, n: nat)
    requires Placed(stored, pending, written, size, chunk, wbuf) && wbuf != [] && n * size < |written|
    ensures Sent(stored, pending[chunk := wbuf], n, ChunkOf(written, size, n))
  {
    assert (chunk + 1) * size == chunk * size + size;
    MulOrder(chunk + 1, n, size);
    assert (n + 1) * size == n * size + size;
    if n < chunk {
      SentMore(stored, pending, chunk, wbuf, n, written[n * size..n * size + size]);
    } else {
      assert n == chunk && ChunkOf(written, size, n) == wbuf;
    }
  }

  lemma SendNothing(stored: Chunks, pending: Chunks, written: bytes, size: nat, chunk: nat)
    requires Placed(stored, pending, written, size, chunk, [])
    ensures AllSent(stored, pending, written, size)
  {
    forall n: nat | n * size < |written| ensures Sent(stored, pending, n, ChunkOf(written, size, n)) {
      MulOrder(chunk, n, size);
      assert (n + 1) * size == n * size + size;
    }
    forall n: nat | n in stored || n in pending ensures n * size < |written| {
      MulOrder(n, chunk, size);
    }
  }

  // When all chunks are sent and no task is left, the file is complete.
  lemma Complete(stored: Chunks, written: bytes, size: nat)
    requires AllSent(stored, map[], written, size)
    ensures IsFile(stored, written, size)
  {
    forall n: nat | n * size < |written| ensures n in stored && stored[n] == ChunkOf(written, size, n) {
      assert Sent(stored, map[], n, ChunkOf(written, size, n));
    }
  }

  class Writer {
    const chunkSize: nat
    // Whether the database never fails, and whether chunks can be marshalled with the id of
    // the file.
    const reliable: bool
    const marshals: bool
    var chunk: nat
    var length: nat
    var wbuf: bytes
    var err: bool
    var wpending: nat
    // The bytes given to the checksum.
    var summed: bytes
    // The chunk inserts still running, the chunks in the database, and whether the document
    // of the file is there.
    var pending: Chunks
    var stored: Chunks
    var inserted: bool
    // The chunks counted as pending although no task was started for them, and whether a call
    // waits for a task that will never end.
    var lost: nat
    var stuck: bool
    // Everything written so far.
    ghost var written: bytes

    // wpending counts the running inserts, all of chunks already numbered, and the lost ones.
    ghost predicate Counted()
      reads this`wpending, this`pending, this`chunk, this`lost, this`err
    {
      && wpending == |pending| + lost && (forall n :: n in pending ==> n < chunk)
      && (lost > 0 ==> err && !marshals) && Bounded(chunkSize, wpending)
    }

    // As long as no error is recorded nothing is lost.
    ghost predicate Valid()
      reads this
    {
      && Counted() && chunkSize > 0 && !stuck
      && (!err ==> Placed(stored, pending, written, chunkSize, chunk, wbuf))
      && (!err ==> length == |written| && summed + wbuf == written)
    }

    constructor (chunkSize: nat, reliable: bool, marshals: bool)
      requires chunkSize > 0
      ensures Valid() && written == [] && !err && stored == map[] && pending == map[] && !inserted
      ensures this.chunkSize == chunkSize && this.reliable == reliable && this.marshals == marshals && lost == 0
    {
      this.chunkSize, this.reliable, this.marshals := chunkSize, reliable, marshals;
      lost, stuck := 0, false;
      chunk, length, wbuf, err, wpending, summed := 0, 0, [], false, 0, [];
      pending, stored, inserted, written := map[], map[], false, [];
    }

    // The background task of one chunk: it stores the chunk or records an error.
    method FinishTask(n: nat, succeeds: bool)
      requires n in pending && Counted()
      modifies this`pending, this`stored, this`wpending, this`err
      ensures Counted() && pending == old(pending) - {n} && |pending| < |old(pending)|
      ensures err == (old(err) || !succeeds)
      ensures stored == if succeeds then old(stored)[n := old(pending)[n]] else old(stored)
    {
      if succeeds {
        stored := stored[n := pending[n]];
      } else {
        err := true;
      }
      RemoveOne(pending, n);
      pending := pending - {n};
      StillBounded(chunkSize, wpending);
      wpending := wpending - 1;
    }

    // A task may also finish between two calls.
    method FinishBetweenCalls(n: nat, succeeds: bool)
      requires Valid() && n in pending
      modifies this`pending, this`stored, this`wpending, this`err
      ensures Valid() && pending == old(pending) - {n} && err == (old(err) || !succeeds)
    {
      hide Placed;
      if !err {
        PlacedFinished(stored, pending, written, chunkSize, chunk, wbuf, n);
      }
      FinishTask(n, succeeds);
    }

    // Waiting releases the lock: at least one task finishes, in any order.
    method Wait(ghost size: nat, ghost w: bytes, ghost buffer: bytes, ghost n: nat)
      requires Counted() && pending != map[]
      modifies this`pending, this`stored, this`wpending, this`err
      ensures Counted() && pending.Keys <= old(pending.Keys) && |pending| < |old(pending)|
      ensures (old(err) ==> err) && (reliable ==> err == old(err))
      ensures !err && old(Placed(stored, pending, w, size, n, buffer)) ==> Placed(stored, pending, w, size, n, buffer)
      ensures !err && old(AllSent(stored, pending, w, size)) ==> AllSent(stored, pending, w, size)
    {
      hide Placed, AllSent, Bounded;
      var again := true;
      while again && pending != map[]
        invariant Counted() && pending.Keys <= old(pending.Keys)
        invariant |pending| <= |old(pending)| && (|pending| == |old(pending)| ==> again)
        invariant (old(err) ==> err) && (reliable ==> err == old(err))
        invariant !err && old(Placed(stored, pending, w, size, n, buffer)) ==>
          Placed(stored, pending, w, size, n, buffer)
        invariant !err && old(AllSent(stored, pending, w, size)) ==> AllSent(stored, pending, w, size)
        decreases |pending|
      {
        SomeTasks(pending);
        var task :| task in pending;
        var succeeds: bool := *;
        succeeds := succeeds || reliable;
        if Placed(stored, pending, w, size, n, buffer) {
          PlacedFinished(stored, pending, w, size, n, buffer, task);
        }
        if AllSent(stored, pending, w, size) {
          AllSentFinished(stored, pending, w, size, task);
        }
        FinishTask(task, succeeds);
        again := *;
      }
    }

    // Sends one chunk; it waits while a megabyte is pending. A chunk that cannot be marshalled
    // stays counted for ever.
    method InsertChunk(data: bytes)
      requires Counted() && chunkSize > 0 && !stuck
      requires !err ==> Placed(stored, pending, written, chunkSize, chunk, data) && data != []
      modifies this`pending, this`stored, this`wpending, this`err, this`chunk, this`summed, this`lost, this`stuck
      ensures Counted() && summed == old(summed) + data && (stuck ==> lost > 0) && old(lost) <= lost
      ensures (old(err) ==> err) && (reliable && marshals ==> err == old(err))
      ensures marshals ==> lost == old(lost)
      // Nothing is waited for while less than a megabyte is pending.
      ensures old(chunkSize * wpending) < 1048576 ==>
        pending == (if marshals then old(pending)[old(chunk) := data] else old(pending)) && stored == old(stored)
      ensures reliable && !old(err) && !marshals && !stuck ==> lost > 0
      ensures !err ==> AllSent(stored, pending, written, chunkSize)
      ensures !err && |data| == chunkSize ==> Placed(stored, pending, written, chunkSize, chunk, [])
    {
      hide Placed, AllSent, Bounded;
      var n := chunk;
      chunk := chunk + 1;
      summed := summed + data;
      while chunkSize * wpending >= MAX_PENDING_BYTES
        invariant Counted() && n !in pending && !stuck && lost == old(lost)
        invariant (old(err) ==> err) && (reliable ==> err == old(err))
        invariant chunk == n + 1 && summed == old(summed) + data
        invariant old(chunkSize * wpending) < 1048576 ==>
          wpending == old(wpending) && pending == old(pending) && stored == old(stored)
        invariant !err ==> Placed(stored, pending, written, chunkSize, n, data)
        decreases |pending|
      {
        SomePending(chunkSize, wpending);
        if pending == map[] {
          stuck := true;
          return;
        }
        Wait(chunkSize, written, data, n);
        if err {
          return;
        }
      }
      BoundedMore(chunkSize, wpending);
      StartTask(n, data);
    }

    // The second half of it: the chunk is marshalled and its task started.
    method StartTask(n: nat, data: bytes)
      requires Bounded(chunkSize, wpending + 1)
      requires Counted() && chunkSize > 0 && n !in pending && chunk == n + 1
      requires !err ==> Placed(stored, pending, written, chunkSize, n, data) && data != []
      modifies this`pending, this`wpending, this`err, this`lost
      ensures Counted() && err == (old(err) || !marshals) && lost == if marshals then old(lost) else old(lost) + 1
      ensures pending == if marshals then old(pending)[n := data] else old(pending)
      ensures !err ==> AllSent(stored, pending, written, chunkSize)
      ensures !err && |data| == chunkSize ==> Placed(stored, pending, written, chunkSize, chunk, [])
    {
      hide Placed, AllSent, Bounded;
      wpending := wpending + 1;
      if !marshals {
        err := true;
        lost := lost + 1;
        return;
      }
      if !err {
        SendLast(stored, pending, written, chunkSize, n, data);
        if |data| == chunkSize {
          SendFull(stored, pending, written, chunkSize, n, data);
        }
      }
      pending := pending[n := data];
    }

    // All but the last chunk have the full size, so a full buffer is kept until more comes.
    // A call that gets stuck does not return; nothing is said of what it leaves.
    method Write(data: bytes) returns (n: nat, ok: bool)
      requires Valid()
      modifies this
      ensures stuck ==> lost > 0
      ensures !stuck ==> Valid() && inserted == old(inserted) && ok == !err
      ensures (old(err) ==> err) && (reliable && marshals ==> err == old(err) && lost == old(lost))
      ensures old(err) ==> n == 0 && written == old(written) && !stuck
      ensures !old(err) && !stuck ==> n == |data| && written == old(written) + data
      // Only a buffer that is filled up to the last byte goes out at once; a last full chunk of
      // the rest stays.
      ensures !old(err) && !stuck ==>
        (wbuf == [] <==> |old(wbuf)| + |data| == if |old(wbuf)| > 0 then chunkSize else 0)
    {
      hide Placed, AllSent, Bounded;
      if err {
        return 0, false;
      }
      n := |data|;
      length := length + n;
      ok := true;
      if |wbuf| + |data| < chunkSize {
        KeepInBuffer(data);
        return;
      }
      var rest := data;
      if |wbuf| > 0 {
        rest := Complement(data);
        if stuck {
          return;
        }
      }
      rest := SendFullChunks(rest);
      if stuck {
        return;
      }
      KeepInBuffer(rest);
      ok := !err;
    }

    // Nothing is buffered: what was written is in the chunks sent.
    ghost predicate Drained()
      reads this
    {
      && Counted() && chunkSize > 0 && wbuf == [] && !stuck
      && (!err ==> Placed(stored, pending, written, chunkSize, chunk, []) && summed == written)
    }

    // The first step of Write: the buffer is filled up and sent.
    method Complement(data: bytes) returns (rest: bytes)
      requires Counted() && chunkSize > 0 && |wbuf| > 0 && |wbuf| + |data| >= chunkSize && !stuck
      requires Placed(stored, pending, written, chunkSize, chunk, wbuf) && summed + wbuf == written
      modifies this`pending, this`stored, this`wpending, this`err, this`chunk, this`summed, this`wbuf, this`written,
        this`lost, this`stuck
      ensures if stuck then lost > 0 else Drained() && written + rest == old(written) + data
      ensures |rest| == |old(wbuf)| + |data| - chunkSize
      ensures (old(err) ==> err) && (reliable && marshals ==> err == old(err) && Counted())
    {
      hide Placed, AllSent, Bounded;
      PlacedSize(stored, pending, written, chunkSize, chunk, wbuf);
      var missing := Min(chunkSize - |wbuf|, |data|);
      BufferMore(stored, pending, written, chunkSize, chunk, wbuf, data[..missing]);
      wbuf := wbuf + data[..missing];
      written := written + data[..missing];
      rest := data[missing..];
      assert summed + wbuf == written;
      assert written + rest == old(written) + data;
      InsertChunk(wbuf);
      wbuf := [];
    }

    // The second step of Write: full chunks go out without being buffered.
    method SendFullChunks(data: bytes) returns (rest: bytes)
      requires Drained()
      modifies this`pending, this`stored, this`wpending, this`err, this`chunk, this`summed, this`written, this`lost,
        this`stuck
      ensures if stuck then lost > 0 else Drained() && written + rest == old(written) + data && |rest| <= chunkSize
      ensures !stuck ==> (rest == [] <==> data == [])
      ensures (old(err) ==> err) && (reliable && marshals ==> err == old(err) && Counted())
    {
      hide Placed, AllSent, Bounded;
      rest := data;
      while |rest| > chunkSize
        invariant Drained() && written + rest == old(written) + data && (rest == [] <==> data == [])
        invariant (old(err) ==> err) && (reliable && marshals ==> err == old(err))
        decreases |rest|
      {
        var part := rest[..chunkSize];
        if !err {
          BufferMore(stored, pending, written, chunkSize, chunk, [], part);
          assert [] + part == part;
        }
        assert written + part + rest[chunkSize..] == written + rest;
        written := written + part;
        rest := rest[chunkSize..];
        InsertChunk(part);
        if stuck {
          return;
        }
      }
    }

    method KeepInBuffer(data: bytes)
      requires Counted() && chunkSize > 0 && !stuck
      requires !err ==> Placed(stored, pending, written, chunkSize, chunk, wbuf) && |wbuf| + |data| <= chunkSize
      requires !err ==> length == |written| + |data| && summed + wbuf == written
      modifies this`wbuf, this`written
      ensures Valid() && written == old(written) + data && wbuf == old(wbuf) + data
    {
      hide Placed, AllSent, Bounded;
      if !err {
        BufferMore(stored, pending, written, chunkSize, chunk, wbuf, data);
        assert summed + (wbuf + data) == written + data;
      }
      wbuf := wbuf + data;
      written := written + data;
    }

    method Abort()
      requires Valid()
      modifies this`err
      ensures Valid() && err
    {
      err := true;
    }

    // A close does not return if a chunk was lost, or is lost now because the buffered bytes
    // cannot be marshalled; when nothing else fails these are the only cases. A successful one
    // leaves the complete file and no running insert; a failed one leaves no chunk behind
    // unless only the index could not be made.
    method Close() returns (ok: bool)
      requires Valid() && !inserted
      modifies this
      ensures old(lost) > 0 ==> stuck
      ensures stuck ==> old(lost) > 0 || (!marshals && !old(err) && |old(wbuf)| > 0)
      ensures reliable ==> (stuck <==> old(lost) > 0 || (!marshals && !old(err) && |old(wbuf)| > 0))
      ensures written == old(written) && (!stuck ==> wpending == 0 && pending == map[])
      ensures ok ==> inserted && !old(err) && !stuck
      ensures reliable && marshals && !old(err) ==> ok
      ensures inserted ==> IsFile(stored, written, chunkSize) && length == |written| && summed == written
      ensures !inserted && !stuck ==> stored == map[]
    {
      hide Placed, AllSent, IsFile, Bounded;
      ok := false;
      if |wbuf| > 0 && !err {
        InsertChunk(wbuf);
        wbuf := [];
        if stuck {
          return;
        }
      } else if !err {
        SendNothing(stored, pending, written, chunkSize, chunk);
      }
      CompleteWrite();
      ok := !err && !stuck;
    }

    // Waits for the tasks, then inserts the document of the file, or removes its chunks.
    method CompleteWrite()
      requires Counted() && !inserted && !stuck
      requires !err ==> AllSent(stored, pending, written, chunkSize) && length == |written| && summed == written
      modifies this`pending, this`stored, this`wpending, this`err, this`inserted, this`stuck
      ensures stuck <==> old(lost) > 0
      ensures !stuck ==> wpending == 0 && pending == map[]
      ensures !err && !stuck ==> inserted && !old(err)
      ensures reliable && !old(err) && !stuck ==> !err
      ensures inserted ==> IsFile(stored, written, chunkSize) && length == |written| && summed == written
      ensures !inserted && !stuck ==> stored == map[]
    {
      hide Placed, AllSent, IsFile, Bounded;
      ghost var atStake := lost;
      while wpending > 0
        invariant Counted() && !inserted && !stuck
        invariant (old(err) ==> err) && (reliable ==> err == old(err))
        invariant !err ==> AllSent(stored, pending, written, chunkSize) && length == |written| && summed == written
        invariant lost == atStake
        decreases |pending|
      {
        if pending == map[] {
          stuck := true;
          return;
        }
        Wait(chunkSize, written, [], 0);
      }
      assert pending == map[];
      if !err {
        Complete(stored, written, chunkSize);
        inserted := *;
        inserted := inserted || reliable;
        err := !inserted;
      }
      if err {
        stored := map[];
      } else {
        // Making the index may still fail.
        err := *;
        err := err && !reliable;
      }
    }
  }

  lemma SomeTasks(tasks: Chunks)
    ensures tasks == map[] || exists n :: n in tasks
  {
    if forall n :: n !in tasks {
      assert tasks == map[];
    }
  }

  lemma RemoveOne(tasks: Chunks, n: nat)
    requires n in tasks
    ensures |tasks - {n}| == |tasks| - 1
  {
    assert (tasks - {n}).Keys == tasks.Keys - {n};
    assert |tasks| == |tasks.Keys| && |tasks - {n}| == |(tasks - {n}).Keys|;
  }

  lemma SomePending(size: nat, n: nat)
    requires size * n >= MAX_PENDING_BYTES
    ensures n > 0
  {
  }

  lemma PlacedSize(stored: Chunks, pending: Chunks, written: bytes, size: nat, n: nat, data: bytes)
    requires Placed(stored, pending, written, size, n, data)
    ensures |data| <= size
  {
  }
}
