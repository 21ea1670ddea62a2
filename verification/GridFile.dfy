/** How a GridFS file lies in its chunks. */
module GridFile {
  import opened Bytes

  type Chunks = map<nat, bytes>

  function Min(a: nat, b: nat): nat {
    if a < b then a else b
  }

  // The chunk that starts at n * size, cut off at the end of the content.
  function ChunkOf(content: bytes, size: nat, n: nat): bytes
    requires n * size <= |content|
  {
    content[n * size..Min((n + 1) * size, |content|)]
  }

  // The number of chunks, the length divided by the size and rounded up.
  function Count(length: nat, size: nat): nat
    requires size > 0
  {
    (length + size - 1) / size
  }

  lemma CountBounds(length: nat, size: nat)
    requires size > 0
    ensures length <= Count(length, size) * size < length + size
  {
  }

  lemma InCount(length: nat, size: nat, n: nat)
    requires size > 0
    ensures n < Count(length, size) <==> n * size < length
  {
    CountBounds(length, size);
    var c := Count(length, size);
    if n < c {
      MulOrder(n + 1, c, size);
    } else {
      MulOrder(c, n, size);
    }
  }

  lemma Scale(d: nat, m: nat)
    ensures d * m >= 0 && (d > 0 ==> d * m >= m)
  {
    if d > 0 {
      assert d * m == (d - 1) * m + m;
    }
  }

  lemma MulOrder(a: nat, b: nat, m: nat)
    ensures a <= b ==> a * m <= b * m
    ensures a < b ==> a * m + m <= b * m
  {
    if a <= b {
      Scale(b - a, m);
      assert b * m == a * m + (b - a) * m;
    }
  }

  // The chunks hold the content: every one but the last has the full size.
  ghost predicate IsFile(chunks: Chunks, content: bytes, size: nat) {
    && size > 0
    && (forall n: nat :: n in chunks <==> n * size < |content|)
    && (forall n: nat :: n in chunks ==> chunks[n] == ChunkOf(content, size, n))
  }

  function Concat(chunks: Chunks, n: nat): bytes
    requires forall k :: 0 <= k < n ==> k in chunks
  {
    if n == 0 then [] else Concat(chunks, n - 1) + chunks[n - 1]
  }

  lemma {:induction false} ConcatIsPrefix(chunks: Chunks, content: bytes, size: nat, n: nat)
    requires IsFile(chunks, content, size) && n <= Count(|content|, size)
    ensures forall k :: 0 <= k < n ==> k in chunks
    ensures Concat(chunks, n) == content[..Min(n * size, |content|)]
  {
    hide Count, ChunkOf;
    forall k | 0 <= k < n ensures k in chunks { InCount(|content|, size, k); }
    if n > 0 {
      ConcatIsPrefix(chunks, content, size, n - 1);
      InCount(|content|, size, n - 1);
      OneMore(content, size, n - 1);
    }
  }

  lemma OneMore(content: bytes, size: nat, n: nat)
    requires n * size < |content|
    ensures content[..Min(n * size, |content|)] + ChunkOf(content, size, n) == content[..Min((n + 1) * size, |content|)]
  {
    MulOrder(n, n + 1, size);
  }

  // The chunks in order are the content; there are as many as the length needs, all of the
  // full size but for the last.
  lemma FileIsContent(chunks: Chunks, content: bytes, size: nat)
    requires IsFile(chunks, content, size)
    ensures forall k :: 0 <= k < Count(|content|, size) ==> k in chunks
    ensures forall k: nat :: k in chunks <==> k < Count(|content|, size)
    ensures Concat(chunks, Count(|content|, size)) == content
    ensures forall k :: 0 <= k && k + 1 < Count(|content|, size) ==> |chunks[k]| == size
  {
    hide Concat, ChunkOf, Count;
    var c := Count(|content|, size);
    ConcatIsPrefix(chunks, content, size, c);
    CountBounds(|content|, size);
    assert content[..Min(c * size, |content|)] == content;
    forall k: nat ensures k in chunks <==> k < c { InCount(|content|, size, k); }
    forall k | 0 <= k && k + 1 < c ensures |chunks[k]| == size { FullChunk(chunks, content, size, k); }
  }

  lemma FullChunk(chunks: Chunks, content: bytes, size: nat, k: nat)
    requires IsFile(chunks, content, size) && k + 1 < Count(|content|, size)
    ensures k in chunks && |chunks[k]| == size
  {
    InCount(|content|, size, k + 1);
    MulOrder(k, k + 1, size);
    assert (k + 1) * size == k * size + size;
    assert chunks[k] == ChunkOf(content, size, k);
  }
}
