/** Reading a GridFS file: one chunk buffered, the next one prefetched. */
module GridReader {
  import opened Bytes
  import opened GridFile

  datatype Whence = FromStart | FromCurrent | FromEnd

  // A chunk fetched in the background, unless that failed; the stored chunks do not change
  // meanwhile.
  datatype Cache = NoCache | Cached(n: int, data: bytes, ok: bool)

  datatype ReadEnd = Done | EndOfFile | ReadFailed

  datatype Turn = GoOn | Stop | Fail

  datatype SeekEnd = Moved | PastEnd | SeekFailed | Panicked

  predicate Stored(chunks: Chunks, n: int) {
    n >= 0 && n in chunks
  }

  // What the next fetches will bring: the chunk to be fetched next, the number of the chunk
  // prefetched and whether that succeeded, and which of the later fetches fail.
  datatype Prefetch = Nothing | Prefetched(n: int, ok: bool)
  datatype Supply = Supply(chunk: int, prefetch: Prefetch, failures: seq<bool>)

  predicate Hit(s: Supply) {
    s.prefetch.Prefetched? && s.prefetch.n == s.chunk
  }

  predicate Succeeds(failures: seq<bool>) {
    failures == [] || !failures[0]
  }

  function Rest(failures: seq<bool>): seq<bool> {
    if failures == [] then [] else failures[1..]
  }

  // Whether the next fetch succeeds.
  predicate Comes(length: nat, size: nat, s: Supply) {
    size > 0 && InFile(length, size, s.chunk) && if Hit(s) then s.prefetch.ok else Succeeds(s.failures)
  }

  // The supply after the next fetch, with the chunk behind it prefetched if there is one.
  function Next(length: nat, size: nat, s: Supply): Supply {
    var chunk, failures := s.chunk + 1, if Hit(s) then s.failures else Rest(s.failures);
    if chunk * size < length then
      Supply(chunk, Prefetched(chunk, InFile(length, size, chunk) && Succeeds(failures)), Rest(failures))
    else Supply(chunk, Nothing, failures)
  }

  // Exactly the chunks that the file has are fetched ahead, each after the one before it.
  lemma PrefetchedNext(length: nat, size: nat, s: Supply)
    requires s.chunk >= 0
    ensures var ahead := Next(length, size, s).prefetch;
      if length > (s.chunk + 1) * size then ahead.Prefetched? && ahead.n == s.chunk + 1 else ahead == Nothing
  {
  }

  // The supply after the first fetch that fails.
  function Failed(length: nat, size: nat, s: Supply): (r: Supply)
    ensures r.chunk > s.chunk
    decreases length - s.chunk
  {
    if Comes(length, size, s) then
      ChunksBefore(length, size, s.chunk);
      Failed(length, size, Next(length, size, s))
    else Next(length, size, s)
  }

  lemma FailedStep(length: nat, size: nat, s: Supply)
    ensures Failed(length, size, s) ==
      if Comes(length, size, s) then Failed(length, size, Next(length, size, s)) else Next(length, size, s)
  {
  }

  lemma ChunksBefore(length: nat, size: nat, chunk: nat)
    requires size > 0 && InFile(length, size, chunk)
    ensures chunk < length
  {
    Scale(size, chunk);
  }

  lemma EdgeOrder(length: nat, size: nat, chunk: int, later: int)
    requires chunk <= later
    ensures Edge(length, size, chunk) <= Edge(length, size, later)
  {
    if 0 <= chunk {
      MulOrder(chunk, later, size);
    }
  }

  lemma LimitAhead(length: nat, size: nat, s: Supply)
    ensures Edge(length, size, s.chunk) <= Edge(length, size, Failed(length, size, s).chunk - 1) <= length
  {
    EdgeOrder(length, size, s.chunk, Failed(length, size, s).chunk - 1);
  }

  ghost predicate CacheAgrees(cache: Cache, chunks: Chunks) {
    cache.Cached? && cache.ok ==> Stored(chunks, cache.n) && cache.data == chunks[cache.n]
  }

  ghost predicate NoneFails(failures: seq<bool>) {
    forall k :: 0 <= k < |failures| ==> !failures[k]
  }

  // Where the chunks before this one end in the content.
  function Edge(length: nat, size: nat, chunk: int): nat {
    if chunk < 0 then 0 else Scaled(length, size, chunk)
  }

  function Scaled(length: nat, size: nat, chunk: nat): nat {
    Min(chunk * size, length)
  }

  // Whether a file of that length has the chunk.
  predicate InFile(length: nat, size: nat, chunk: int) {
    chunk >= 0 && chunk * size < length
  }

  // The buffer holds the end of the content before the next chunk to be fetched.
  ghost predicate Holds(content: bytes, size: nat, chunk: int, rbuf: bytes) {
    var edge := Edge(|content|, size, chunk);
    |rbuf| <= edge <= |content| && rbuf == content[edge - |rbuf|..edge]
  }

  lemma TakeFromBuffer(content: bytes, size: nat, chunk: int, rbuf: bytes, i: nat)
    requires Holds(content, size, chunk, rbuf) && i <= |rbuf|
    ensures Holds(content, size, chunk, rbuf[i..])
    ensures var at := Edge(|content|, size, chunk) - |rbuf|; at + i <= |content| && content[at..at + i] == rbuf[..i]
  {
    var edge := Edge(|content|, size, chunk);
    var at := edge - |rbuf|;
    assert content[at..edge][..i] == content[at..at + i];
    assert content[at..edge][i..] == content[at + i..edge];
  }

  lemma Refill(content: bytes, size: nat, chunk: int)
    requires size > 0 && InFile(|content|, size, chunk)
    ensures var data := ChunkOf(content, size, chunk);
      && data != [] && Holds(content, size, chunk + 1, data)
      && Edge(|content|, size, chunk + 1) - |data| == Edge(|content|, size, chunk) == chunk * size
  {
    assert (chunk + 1) * size == chunk * size + size;
  }

  lemma EmptyBuffer(content: bytes, size: nat, chunk: int)
    ensures Holds(content, size, chunk, [])
    ensures Edge(|content|, size, chunk) <= Edge(|content|, size, chunk + 1) <= |content|
    ensures chunk >= 0 && !InFile(|content|, size, chunk) ==> Edge(|content|, size, chunk) == |content|
  {
    hide Edge, InFile;
    EdgeOrder(|content|, size, chunk, chunk + 1);
    EdgeInside(|content|, size, chunk);
    EdgeInside(|content|, size, chunk + 1);
  }

  lemma FirstEdge(length: nat, size: nat)
    ensures Edge(length, size, 0) == 0
  {
  }

  lemma EdgeInside(length: nat, size: nat, chunk: int)
    ensures Edge(length, size, chunk) <= length
    ensures chunk >= 0 && !InFile(length, size, chunk) ==> Edge(length, size, chunk) == length
  {
  }

  // The chunk of a target, the quotient being cut off towards zero.
  function ChunkAt(target: int, size: nat): int
    requires size > 0
  {
    if target >= 0 then target / size else -(-target / size)
  }

  lemma TargetInChunk(length: nat, size: nat, target: int)
    requires size > 0 && target < length
    ensures var c := ChunkAt(target, size);
      if target >= 0 then
        InFile(length, size, c) && target < Edge(length, size, c + 1) && c * size <= target < c * size + size
      else if target + size > 0 then c == 0 && (InFile(length, size, c) <==> length > 0)
      else c < 0
  {
    if target >= 0 {
      WithinChunk(target, size);
      EdgeBeyond(length, size, target / size, target);
    } else {
      hide Edge;
      SmallQuotient(-target, size);
    }
  }

  lemma WithinChunk(target: nat, size: nat)
    requires size > 0
    ensures target / size >= 0 && target / size * size <= target < target / size * size + size
  {
    assert target == target / size * size + target % size;
  }

  lemma EdgeBeyond(length: nat, size: nat, chunk: nat, target: nat)
    requires chunk * size <= target < chunk * size + size && target < length
    ensures InFile(length, size, chunk) && target < Edge(length, size, chunk + 1)
  {
    assert (chunk + 1) * size == chunk * size + size;
  }

  lemma SmallQuotient(d: nat, size: nat)
    requires size > 0
    ensures d / size >= 0 && (d / size == 0 <==> d < size)
  {
    assert d == d / size * size + d % size;
    if d / size > 0 {
      Scale(d / size, size);
    }
  }

  // As long as the buffer starts at the offset, a target in the chunk of the buffer and not
  // before the offset lies in the buffer.
  lemma SeekInside(content: bytes, size: nat, chunk: int, offset: int, rbuf: bytes, target: int)
    requires size > 0 && Holds(content, size, chunk, rbuf) && offset == Edge(|content|, size, chunk) - |rbuf|
    requires offset <= target < |content| && ChunkAt(target, size) + 1 == chunk
    ensures target - offset <= |rbuf|
    ensures Holds(content, size, chunk, rbuf[target - offset..])
    ensures content[target..Edge(|content|, size, chunk)] == rbuf[target - offset..]
  {
    TargetInChunk(|content|, size, target);
    TakeFromBuffer(content, size, chunk, rbuf, target - offset);
  }

  // The first n bytes of the destination are those of the content from a position on.
  ghost predicate ReadSoFar(now: bytes, before: bytes, n: nat, content: bytes, at: nat) {
    && n <= |now| == |before| && at + n <= |content|
    && now[..n] == content[at..at + n] && now[n..] == before[n..]
  }

  lemma ReadMore(past: bytes, now: bytes, before: bytes, n: nat, i: nat, content: bytes, at: nat, data: bytes)
    requires ReadSoFar(past, before, n, content, at) && n + i <= |past| == |now| && |data| == i
    requires now[..n + i] == past[..n] + data && now[n + i..] == past[n + i..]
    requires at + n + i <= |content| && content[at + n..at + n + i] == data
    ensures ReadSoFar(now, before, n + i, content, at)
  {
    assert content[at..at + n + i] == content[at..at + n] + content[at + n..at + n + i];
    assert before[n + i..] == before[n..][i..] == past[n..][i..] == past[n + i..];
  }

  lemma NothingRead(b: bytes, content: bytes, at: nat)
    requires at <= |content|
    ensures ReadSoFar(b, b, 0, content, at)
  {
  }

  // Whether the bytes are those of the content at the offset.
  ghost predicate RightAt(content: bytes, offset: int, got: bytes) {
    got == [] || (0 <= offset && offset + |got| <= |content| && got == content[offset..offset + |got|])
  }

  // So many bytes of the content from the offset on come again at the later position.
  ghost predicate Repeats(content: bytes, offset: int, at: nat, n: nat)
    requires offset <= at && at + n <= |content|
  {
    0 <= offset && forall k :: offset <= k < offset + n ==> content[k] == content[k + (at - offset)]
  }

  // Bytes read from a position no less than the offset are right exactly if none was asked
  // for, if the two agree, or if the content repeats itself from the one to the other.
  lemma RightExactly(content: bytes, offset: int, at: nat, n: nat, got: bytes)
    requires offset <= at && at + n <= |content| && got == content[at..at + n]
    ensures RightAt(content, offset, got) <==> n == 0 || Repeats(content, offset, at, n)
  {
    if RightAt(content, offset, got) && n > 0 {
      forall k | offset <= k < offset + n ensures content[k] == content[k + (at - offset)] {
        assert content[offset..offset + n][k - offset] == content[at..at + n][k - offset];
      }
    }
  }

  class Reader {
    const chunks: Chunks
    const length: nat
    const chunkSize: nat
    ghost const content: bytes
    // Which of the next fetches fail; those beyond the list succeed.
    var failures: seq<bool>
    var chunk: int
    var offset: int
    var rbuf: bytes
    var rcache: Cache

    ghost predicate Opened()
      reads this`rcache
    {
      IsFile(chunks, content, chunkSize) && CacheAgrees(rcache, chunks)
    }

    // Where the buffer starts in the content.
    ghost function Position(): (at: int)
      reads this`chunk, this`rbuf
    {
      Edge(length, chunkSize, chunk) - |rbuf|
    }

    // What holds whatever failed: the offset is not ahead of the buffer.
    ghost predicate Ready()
      reads this
    {
      && Opened() && length == |content| && Holds(content, chunkSize, chunk, rbuf)
      && (offset == length || offset <= Position())
    }

    // The buffer starts at the offset. At the end of the file it is of no further use.
    ghost predicate Aligned()
      reads this
    {
      offset == length || (chunk >= 0 && offset == Position())
    }

    ghost predicate Valid()
      reads this
    {
      Ready() && Aligned()
    }

    // No fetch of a chunk of the file fails any more.
    ghost predicate Undisturbed()
      reads this`failures, this`rcache
    {
      NoneFails(failures) && (rcache.Cached? && Stored(chunks, rcache.n) ==> rcache.ok)
    }

    ghost function Ahead(): Supply
      reads this`chunk, this`failures, this`rcache
    {
      Supply(chunk, if rcache.Cached? then Prefetched(rcache.n, rcache.ok) else Nothing, failures)
    }

    // Where the content ends that comes before the next fetch to fail.
    ghost function Limit(): nat
      reads this`chunk, this`failures, this`rcache
    {
      Edge(length, chunkSize, Failed(length, chunkSize, Ahead()).chunk - 1)
    }

    constructor (chunks: Chunks, length: nat, chunkSize: nat, failures: seq<bool>, ghost content: bytes)
      requires IsFile(chunks, content, chunkSize) && length == |content|
      ensures Valid() && this.content == content && this.length == length && this.chunkSize == chunkSize
      ensures offset == 0 && chunk == 0 && rbuf == [] && rcache == NoCache && this.failures == failures
    {
      hide IsFile, Edge, Holds, Failed, Next, Comes;
      FirstEdge(length, chunkSize);
      EmptyBuffer(content, chunkSize, 0);
      this.chunks, this.length, this.chunkSize, this.content := chunks, length, chunkSize, content;
      this.failures := failures;
      chunk, offset, rbuf, rcache := 0, 0, [], NoCache;
    }

    method Fetch(n: int) returns (data: bytes, ok: bool)
      modifies this`failures
      ensures ok == (Stored(chunks, n) && Succeeds(old(failures)))
      ensures ok ==> data == chunks[n]
      ensures !ok ==> data == []
      ensures failures == Rest(old(failures))
    {
      ok := Stored(chunks, n) && Succeeds(failures);
      data := if ok then chunks[n] else [];
      failures := Rest(failures);
    }

    // Fetches the current chunk, from the cache if it is there, and schedules the next one.
    // The chunk number moves on also when the fetch fails.
    method GetChunk() returns (data: bytes, ok: bool)
      requires Opened() && length == |content|
      modifies this`chunk, this`rcache, this`failures
      ensures Opened() && chunk == old(chunk) + 1
      ensures ok ==> InFile(length, chunkSize, old(chunk)) && data == ChunkOf(content, chunkSize, old(chunk))
      ensures !ok ==> data == []
      ensures old(Undisturbed()) ==> Undisturbed() && (ok <==> InFile(length, chunkSize, old(chunk)))
      ensures ok == Comes(length, chunkSize, old(Ahead())) && Ahead() == Next(length, chunkSize, old(Ahead()))
    {
      hide ChunkOf;
      var cache := rcache;
      rcache := NoCache;
      if cache.Cached? && cache.n == chunk {
        data, ok := if cache.ok then cache.data else [], cache.ok;
      } else {
        data, ok := Fetch(chunk);
      }
      chunk := chunk + 1;
      if chunk * chunkSize < length {
        var next, fetched := Fetch(chunk);
        rcache := Cached(chunk, next, fetched);
      }
    }

    // Replaces an empty buffer.
    method FillBuffer() returns (ok: bool)
      requires Opened() && length == |content| && rbuf == []
      modifies this`chunk, this`rcache, this`failures, this`rbuf
      ensures Opened() && chunk == old(chunk) + 1 && Holds(content, chunkSize, chunk, rbuf)
      ensures if ok then Position() == old(Position()) && rbuf != [] else rbuf == [] && Position() >= old(Position())
      ensures ok ==> old(chunk) >= 0 && InFile(length, chunkSize, old(chunk)) && Position() == old(chunk) * chunkSize
      ensures !ok && old(chunk) >= 0 && !InFile(length, chunkSize, old(chunk)) ==> old(Position()) == length
      ensures old(Undisturbed()) ==> Undisturbed() && (ok <==> InFile(length, chunkSize, old(chunk)))
      ensures Ahead() == Next(length, chunkSize, old(Ahead()))
      ensures if ok then Failed(length, chunkSize, Ahead()) == Failed(length, chunkSize, old(Ahead()))
        else Ahead() == Failed(length, chunkSize, old(Ahead()))
    {
      hide IsFile, Holds, Edge, ChunkOf, InFile, CacheAgrees, NoneFails, Failed, Next, Comes;
      FileSize(chunks, content, chunkSize);
      FailedStep(length, chunkSize, Ahead());
      EmptyBuffer(content, chunkSize, chunk);
      EmptyBuffer(content, chunkSize, chunk + 1);
      rbuf, ok := GetChunk();
      if ok {
        Refill(content, chunkSize, chunk - 1);
      }
    }

    // Fills b as far as the file goes; n bytes were read, from the position of the buffer on.
    // A failed fetch, in the cache or not, ends it and takes that position behind the missing
    // chunk, while the offset stays.
    method Read(b: array<byte>) returns (n: nat, end: ReadEnd)
      requires Ready()
      modifies this`chunk, this`offset, this`rbuf, this`rcache, this`failures, b
      ensures Ready() && offset == old(offset) + n
      ensures end == EndOfFile <==> old(offset) == length
      ensures end == EndOfFile ==> n == 0 && b[..] == old(b[..]) && Position() == old(Position())
      ensures end != EndOfFile ==> old(Position()) >= 0 && ReadSoFar(b[..], old(b[..]), n, content, old(Position()))
      ensures end == Done ==> (n == b.Length || offset == length) && Position() == old(Position()) + n
      ensures end == Done ==> chunk >= 0 || n == 0
      ensures end == ReadFailed ==> n < b.Length && offset < length && rbuf == [] && Position() >= old(Position()) + n
      ensures old(Valid()) && end != EndOfFile ==> old(offset) == old(Position())
      ensures old(Position()) == length && old(offset) < length && b.Length > 0 ==>
        end == ReadFailed && n == 0 && Position() == length
      ensures old(Valid()) && end != ReadFailed ==> Valid() && n == Min(b.Length, length - old(offset))
      ensures old(Undisturbed()) ==> Undisturbed()
      ensures old(Undisturbed()) && end != EndOfFile ==>
        n == if old(chunk) < 0 then 0 else Min(b.Length, length - old(Position()))
      ensures end != EndOfFile ==>
        old(Position()) + n <= old(Limit()) && (n == b.Length || old(Position()) + n == old(Limit()))
      ensures end == ReadFailed ==> Ahead() == Failed(length, chunkSize, old(Ahead()))
      ensures end != ReadFailed ==> Failed(length, chunkSize, Ahead()) == Failed(length, chunkSize, old(Ahead()))
    {
      hide IsFile, Holds, Edge, InFile, ReadSoFar, Failed, Next, Reader.Undisturbed, Reader.Ahead, Reader.Opened;
      n := 0;
      if offset == length {
        return 0, EndOfFile;
      }
      PositionInside(content, chunkSize, chunk, rbuf);
      NothingRead(b[..], content, Position());
      while true
        invariant Ready() && n <= b.Length && offset == old(offset) + n < length
        invariant old(Position()) >= 0 && Position() == old(Position()) + n
        invariant ReadSoFar(b[..], old(b[..]), n, content, old(Position()))
        invariant if old(chunk) < 0 then chunk == old(chunk) && n == 0 else chunk >= 0
        invariant old(Undisturbed()) ==> Undisturbed()
        invariant Failed(length, chunkSize, Ahead()) == Failed(length, chunkSize, old(Ahead()))
        decreases length - offset, if rbuf == [] then 1 else 0
      {
        var turn;
        n, turn := TakeTurn(b, n, old(b[..]), old(Position()));
        if turn != GoOn {
          return n, if turn == Stop then Done else ReadFailed;
        }
      }
    }

    // One turn of the loop.
    method TakeTurn(b: array<byte>, n: nat, ghost before: bytes, ghost at: nat) returns (m: nat, turn: Turn)
      requires Ready() && n <= b.Length && offset < length && Position() == at + n
      requires ReadSoFar(b[..], before, n, content, at)
      modifies this`chunk, this`offset, this`rbuf, this`rcache, this`failures, b
      ensures Ready() && n <= m <= b.Length && offset == old(offset) + m - n
      ensures ReadSoFar(b[..], before, m, content, at)
      ensures turn == Stop <==> m == b.Length || offset == length
      ensures turn == Fail ==> rbuf == [] && at + m <= Position()
      ensures turn != Fail ==> Position() == at + m
      ensures turn == GoOn ==> rbuf != [] && old(chunk) >= 0 && chunk >= 0 && (m > n || old(rbuf) == [])
      ensures turn == Stop ==> chunk == old(chunk)
      ensures at + m <= length && offset <= Position() <= length
      ensures old(chunk) < 0 ==> m == n
      ensures old(Undisturbed()) ==> Undisturbed() && (turn == Fail && old(chunk) >= 0 ==> at + m == length)
      ensures at + m <= old(Limit()) && (turn == Fail ==> at + m == old(Limit()))
      ensures turn == Stop && m < b.Length ==> at + m == old(Limit())
      ensures if turn == Fail then Ahead() == Failed(length, chunkSize, old(Ahead()))
        else Failed(length, chunkSize, Ahead()) == Failed(length, chunkSize, old(Ahead()))
    {
      hide IsFile, Holds, Edge, InFile, ReadSoFar, Failed, Next, Comes, Reader.Undisturbed, Reader.Opened;
      LimitAhead(length, chunkSize, Ahead());
      m := TakeOut(b, n, before, at);
      if m == b.Length || offset == length {
        return m, Stop;
      }
      assert rbuf == [];
      var ok := FillBuffer();
      PositionInside(content, chunkSize, chunk, rbuf);
      turn := if ok then GoOn else Fail;
    }

    // Moves as much of the buffer as fits to the destination, of which n bytes are filled.
    method TakeOut(b: array<byte>, n: nat, ghost before: bytes, ghost at: nat) returns (m: nat)
      requires Ready() && n <= b.Length && offset < length && Position() == at + n
      requires ReadSoFar(b[..], before, n, content, at)
      modifies this`offset, this`rbuf, b
      ensures Ready() && n <= m <= b.Length && offset == old(offset) + m - n && Position() == at + m
      ensures ReadSoFar(b[..], before, m, content, at) && m == n + Min(b.Length - n, |old(rbuf)|)
      ensures rbuf == old(rbuf)[m - n..] && (m == b.Length || rbuf == []) && offset <= Position() <= length
      ensures chunk < 0 ==> m == n
    {
      hide IsFile, Holds, Edge, ReadSoFar, Reader.Opened;
      var i := Min(b.Length - n, |rbuf|);
      PositionInside(content, chunkSize, chunk, rbuf);
      TakeFromBuffer(content, chunkSize, chunk, rbuf, i);
      ghost var past := b[..];
      CopyTo(b, n, rbuf[..i]);
      assert b[..][..n + i] == past[..n] + rbuf[..i] && b[..][n + i..] == past[n + i..];
      ReadMore(past, b[..], before, n, i, content, at, rbuf[..i]);
      m := n + i;
      offset := offset + i;
      rbuf := rbuf[i..];
      PositionInside(content, chunkSize, chunk, rbuf);
    }

    // copy(b, rbuf), where b was cut off at position at.
    method CopyTo(b: array<byte>, at: nat, data: bytes)
      requires at + |data| <= b.Length
      modifies b
      ensures b[..at + |data|] == old(b[..at]) + data && b[at + |data|..] == old(b[at + |data|..])
    {
      for k := 0 to |data|
        invariant b[..at] == old(b[..at]) && b[at..at + k] == data[..k] && b[at + k..] == old(b[at + k..])
      {
        b[at + k] := data[k];
      }
    }

    // The target is taken to be in the buffer.
    ghost predicate Near(target: int)
      reads this
      requires chunkSize > 0
    {
      ChunkAt(target, chunkSize) + 1 == chunk && target >= offset
    }

    // Moves the offset; seeking past the end fails and changes nothing. Targets before the
    // start are not refused: less than a chunk before it, the first chunk is fetched and then
    // cut at a negative index; further before it, a chunk is asked for that is not there.
    method Seek(distance: int, whence: Whence) returns (pos: int, end: SeekEnd)
      requires Ready()
      modifies this`chunk, this`offset, this`rbuf, this`rcache, this`failures
      ensures Ready() && chunkSize > 0
      ensures end != Panicked ==> pos == offset
      ensures end == Moved || end == SeekFailed ==> offset == old(Target(distance, whence))
      ensures end == PastEnd <==> old(Target(distance, whence)) > length
      ensures end == PastEnd ==> offset == old(offset) && chunk == old(chunk) && |rbuf| == |old(rbuf)|
      ensures old(Target(distance, whence)) == length ==> end == Moved
      ensures var t := old(Target(distance, whence));
        t < length && old(Near(Target(distance, whence))) ==>
          && end == (if t - old(offset) <= |old(rbuf)| then Moved else Panicked)
          && Position() - offset == old(Position() - offset)
      ensures var t := old(Target(distance, whence));
        t < length && !old(Near(Target(distance, whence))) ==>
          && offset == t && chunk == ChunkAt(t, chunkSize) + 1
          && (end == Moved ==> t >= 0 && Valid())
          && (end == Panicked ==> 0 < t + chunkSize && t < 0 < length)
          && (end == SeekFailed ==> rbuf == [])
          && (t + chunkSize <= 0 || (t < 0 && length == 0) ==> end == SeekFailed)
          && (old(Undisturbed()) ==> end == SeekOutcome(t))
      ensures old(Undisturbed()) ==> Undisturbed()
      ensures old(Valid()) && end == Moved ==> Valid()
      ensures old(Valid()) && old(Target(distance, whence)) >= 0 ==>
        end != Panicked && (old(Undisturbed()) ==> end != SeekFailed)
    {
      hide IsFile, Holds, Edge, CacheAgrees, InFile, NoneFails, ChunkAt;
      PositionInside(content, chunkSize, chunk, rbuf);
      FileSize(chunks, content, chunkSize);
      var target := distance;
      match whence {
        case FromStart =>
        case FromCurrent => target := target + offset;
        case FromEnd => target := target + length;
      }
      if target > length {
        return offset, PastEnd;
      }
      if target == length {
        offset := target;
        return offset, Moved;
      }
      var c := ChunkAt(target, chunkSize);
      if c + 1 == chunk && target >= offset {
        if Aligned() {
          SeekInside(content, chunkSize, chunk, offset, rbuf, target);
        }
        if target - offset > |rbuf| {
          return offset, Panicked;
        }
        TakeFromBuffer(content, chunkSize, chunk, rbuf, target - offset);
        rbuf := rbuf[target - offset..];
        offset := target;
        return offset, Moved;
      }
      end := SeekAfresh(target);
      return offset, end;
    }

    // Seeking to a chunk that is not in the buffer.
    method SeekAfresh(target: int) returns (end: SeekEnd)
      requires Opened() && length == |content| && chunkSize > 0 && target < length
      modifies this`chunk, this`offset, this`rbuf, this`rcache, this`failures
      ensures Ready() && offset == target && chunk == ChunkAt(target, chunkSize) + 1
      ensures end == Moved ==> target >= 0 && Valid()
      ensures end == Panicked ==> 0 < target + chunkSize && target < 0 < length
      ensures end == SeekFailed ==> rbuf == []
      ensures end != PastEnd && (target + chunkSize <= 0 || (target < 0 && length == 0) ==> end == SeekFailed)
      ensures old(Undisturbed()) ==> Undisturbed() && end == SeekOutcome(target)
    {
      hide IsFile, Holds, Edge, CacheAgrees, InFile, NoneFails, ChunkAt;
      TargetInChunk(length, chunkSize, target);
      var c := ChunkAt(target, chunkSize);
      offset := target;
      chunk := c;
      rbuf := [];
      EmptyBuffer(content, chunkSize, c);
      EmptyBuffer(content, chunkSize, c + 1);
      var ok := FillBuffer();
      if !ok {
        return SeekFailed;
      }
      PositionInside(content, chunkSize, chunk, rbuf);
      if offset < 0 {
        return Panicked;
      }
      TakeFromBuffer(content, chunkSize, chunk, rbuf, offset - c * chunkSize);
      rbuf := rbuf[offset - c * chunkSize..];
      return Moved;
    }

    // How a seek ends that has to fetch a chunk, when nothing fails.
    ghost function SeekOutcome(target: int): SeekEnd {
      if target >= 0 then Moved else if 0 < target + chunkSize && length > 0 then Panicked else SeekFailed
    }

    function Target(distance: int, whence: Whence): int
      reads this
    {
      match whence
      case FromStart => distance
      case FromCurrent => distance + offset
      case FromEnd => distance + length
    }
  }

  // A read cut short by a failed fetch, of any chunk and by the cache or not, and then tried
  // again goes on behind the missing chunk, up to the next failure: it puts the bytes from there
  // on at the offset, which is right exactly if they are the same.
  method RetrySkips(reader: Reader, b: array<byte>) returns (n: nat, first: ReadEnd, m: nat, second: ReadEnd)
    requires reader.Ready() && reader.offset < reader.length
    requires reader.Limit() < reader.Position() + b.Length
    requires reader.offset + (reader.Limit() - reader.Position()) < reader.length
    modifies reader`chunk, reader`offset, reader`rbuf, reader`rcache, reader`failures, b
    ensures reader.Ready() && n == old(reader.Limit() - reader.Position()) && first == ReadFailed
    ensures reader.offset == old(reader.offset) + n + m && m <= b.Length && second != EndOfFile
    ensures var behind := Failed(reader.length, reader.chunkSize, old(reader.Ahead()));
      var next := Edge(reader.length, reader.chunkSize, behind.chunk);
      var limit := Edge(reader.length, reader.chunkSize, Failed(reader.length, reader.chunkSize, behind).chunk - 1);
      && next <= limit <= reader.length && old(reader.offset) + n <= next
      && (old(reader.Valid()) ==> old(reader.offset) + n < next)
      && m == (if b.Length <= limit - next then b.Length else limit - next)
      && b[..m] == reader.content[next..next + m]
      && (m < b.Length && reader.offset < reader.length ==> second == ReadFailed)
      && (m == b.Length || reader.offset == reader.length ==> second == Done)
      && (second == ReadFailed && limit == reader.length ==> reader.Position() == reader.length)
      && (RightAt(reader.content, old(reader.offset) + n, b[..m]) <==>
          m == 0 || Repeats(reader.content, old(reader.offset) + n, next, m))
  {
    hide IsFile, Holds, Edge, Failed, Next, Comes, NoneFails, RightAt, InFile, Repeats;
    FileSize(reader.chunks, reader.content, reader.chunkSize);
    PositionInside(reader.content, reader.chunkSize, reader.chunk, reader.rbuf);
    LimitAhead(reader.length, reader.chunkSize, reader.Ahead());
    ghost var valid, behind := reader.Valid(), Failed(reader.length, reader.chunkSize, reader.Ahead());
    LimitAhead(reader.length, reader.chunkSize, behind);
    n, first := reader.Read(b);
    ghost var at, next := reader.offset, reader.Position();
    if valid {
      EdgeMoves(reader.length, reader.chunkSize, behind.chunk - 1);
    }
    PositionInside(reader.content, reader.chunkSize, reader.chunk, reader.rbuf);
    m, second := reader.Read(b);
    PositionInside(reader.content, reader.chunkSize, reader.chunk, reader.rbuf);
    RightExactly(reader.content, at, next, m, b[..m]);
  }

  lemma EdgeMoves(length: nat, size: nat, chunk: int)
    requires size > 0 && chunk >= 0 && Edge(length, size, chunk) < length
    ensures Edge(length, size, chunk) < Edge(length, size, chunk + 1)
  {
    assert (chunk + 1) * size == chunk * size + size;
  }

  // The file holds the bytes 1 and 2 in two chunks. The fetch of the first fails, no other
  // does: the second attempt to read the first byte answers with the second.
  method SecondAttempt() returns (first: ReadEnd, second: ReadEnd, got: bytes)
    ensures first == ReadFailed && second == Done && got == [2]
  {
    hide Reader.Opened, Holds, RightAt, Repeats;
    var content: bytes := [1, 2];
    var chunks: Chunks := map[0 := content[0..1], 1 := content[1..2]];
    assert IsFile(chunks, content, 1);
    var reader := new Reader(chunks, 2, 1, [true], content);
    var b := new byte[1];
    var n, m;
    n, first, m, second := RetrySkips(reader, b);
    got := b[..m];
  }

  // The file holds the bytes 1, 2 and 3 in three chunks, and prefetching the second fails. The
  // read ends behind the first byte; tried again it puts the third in the place of the second.
  method LostPrefetch() returns (n: nat, first: ReadEnd, got: bytes)
    ensures n == 1 && first == ReadFailed && got == [3]
  {
    hide Reader.Opened, Holds, RightAt, Repeats;
    var content: bytes := [1, 2, 3];
    var chunks: Chunks := map[0 := content[0..1], 1 := content[1..2], 2 := content[2..3]];
    assert IsFile(chunks, content, 1);
    var reader := new Reader(chunks, 3, 1, [false, true], content);
    var b := new byte[3];
    var m, second;
    n, first, m, second := RetrySkips(reader, b);
    got := b[..m];
  }

  // The file holds the bytes 1 and 2 in two chunks, and prefetching the last fails. The second
  // byte cannot be read again, although no other fetch fails.
  method LostLast() returns (n: nat, m: nat, second: ReadEnd, later: nat, third: ReadEnd)
    ensures n == 1 && m == later == 0 && second == third == ReadFailed
  {
    hide Reader.Opened, Holds, RightAt, Repeats;
    var content: bytes := [1, 2];
    var chunks: Chunks := map[0 := content[0..1], 1 := content[1..2]];
    assert IsFile(chunks, content, 1);
    var reader := new Reader(chunks, 2, 1, [false, true], content);
    var b := new byte[2];
    var first;
    n, first, m, second := RetrySkips(reader, b);
    later, third := reader.Read(b);
  }

  lemma PositionInside(content: bytes, size: nat, chunk: int, rbuf: bytes)
    requires Holds(content, size, chunk, rbuf)
    ensures 0 <= Edge(|content|, size, chunk) - |rbuf| <= |content|
    ensures chunk < 0 ==> rbuf == [] && Edge(|content|, size, chunk) == 0
  {
  }

  lemma FileSize(chunks: Chunks, content: bytes, size: nat)
    requires IsFile(chunks, content, size)
    ensures size > 0
  {
  }
}
