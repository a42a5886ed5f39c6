/** How `AddDataBinary` (internal/service/backend/server.go) cuts a binary's
    body into chunks: fixed-size chunks numbered from 1 in body order, with a
    shorter trailing chunk for what is left. A chunk size of 0 never flushes
    inside the loop, so the whole body becomes one chunk. */
module Chunking {
  import opened Strings

  /** `BINARY_CHUNK_SIZE` when the configuration sets none */
  const BinaryChunkSize := 1024

  /** The chunks, in order-number order: chunk k (0-based) has order number k + 1. */
  function Split(body: Bytes, size: nat): seq<Bytes>
    decreases |body|
  {
    if body == [] then []
    else if size == 0 || |body| <= size then [body]
    else [body[..size]] + Split(body[size..], size)
  }

  function Concat(chunks: seq<Bytes>): Bytes {
    if chunks == [] then [] else chunks[0] + Concat(chunks[1..])
  }

  function Min(a: int, b: int): int { if a <= b then a else b }

  /** ⌈n / d⌉ */
  function CeilDiv(n: nat, d: nat): nat
    requires d > 0
  {
    (n + d - 1) / d
  }

  /** Joining the chunks in order gives the body back. */
  lemma {:induction false} SplitConcat(body: Bytes, size: nat)
    ensures Concat(Split(body, size)) == body
    decreases |body|
  {
    if body == [] {
    } else if size == 0 || |body| <= size {
      assert Concat([body]) == body + Concat([]);
    } else {
      SplitConcat(body[size..], size);
      var rest := Split(body[size..], size);
      assert ([body[..size]] + rest)[1..] == rest;
      assert body[..size] + body[size..] == body;
    }
  }

  lemma MulAtLeast(a: int, d: int)
    requires d > 0
    ensures a >= 1 ==> a * d >= d
    ensures a <= -1 ==> a * d <= -d
  {
    if a >= 1 {
      assert a * d == (a - 1) * d + d;
    } else if a <= -1 {
      assert a * d == (a + 1) * d - d;
    }
  }

  /** Euclidean division has one quotient and one remainder. */
  lemma DivUnique(x: int, d: int, q: int, r: int)
    requires d > 0 && 0 <= r < d && x == q * d + r
    ensures x / d == q && x % d == r
  {
    var q1, r1 := x / d, x % d;
    assert x == q1 * d + r1;
    assert (q - q1) * d == r1 - r;
    MulAtLeast(q - q1, d);
  }

  /** K chunks of at most S bytes cover N bytes, and K - 1 full ones do not. */
  lemma {:induction false} SplitBounds(body: Bytes, size: nat)
    requires size > 0 && body != []
    ensures (|Split(body, size)| - 1) * size < |body| <= |Split(body, size)| * size
    decreases |body|
  {
    if |body| > size {
      var k := |Split(body[size..], size)|;
      SplitBounds(body[size..], size);
      assert (k + 1 - 1) * size == (k - 1) * size + size;
      assert (k + 1) * size == k * size + size;
    }
  }

  /** There are ⌈N / S⌉ chunks: none for an empty body, and no gap in the
      order numbers 1 .. ⌈N / S⌉. */
  lemma SplitCount(body: Bytes, size: nat)
    requires size > 0
    ensures |Split(body, size)| == CeilDiv(|body|, size)
  {
    var n, k := |body|, |Split(body, size)|;
    if body == [] {
      DivUnique(size - 1, size, 0, size - 1);
    } else {
      SplitBounds(body, size);
      assert (k - 1) * size == k * size - size;
      DivUnique(n + size - 1, size, k, n + size - 1 - k * size);
    }
  }

  /** Chunk k (0-based) is the body's bytes k·S up to (k+1)·S, or to the end
      for the last chunk. */
  lemma {:induction false} SplitAt(body: Bytes, size: nat, k: nat)
    requires size > 0 && k < |Split(body, size)|
    ensures k * size < |body|
    ensures Split(body, size)[k] == body[k * size .. Min((k + 1) * size, |body|)]
    decreases |body|
  {
    if |body| <= size {
      assert k == 0;
    } else if k == 0 {
    } else {
      var rest := body[size..];
      assert Split(body, size)[k] == Split(rest, size)[k - 1];
      SplitAt(rest, size, k - 1);
      assert (k - 1) * size + size == k * size;
      assert k * size + size == (k + 1) * size;
      assert rest[(k - 1) * size .. Min(k * size, |rest|)] == body[k * size .. Min((k + 1) * size, |body|)];
    }
  }

  /** Every chunk but the last has S bytes; the last has N mod S bytes, or S
      when S divides N; no chunk is empty. */
  lemma SplitSizes(body: Bytes, size: nat)
    requires size > 0
    ensures forall k :: 0 <= k < |Split(body, size)| - 1 ==> |Split(body, size)[k]| == size
    ensures Split(body, size) != [] ==>
              |Split(body, size)[|Split(body, size)| - 1]| == if |body| % size == 0 then size else |body| % size
    ensures forall k :: 0 <= k < |Split(body, size)| ==> |Split(body, size)[k]| > 0
  {
    var chunks := Split(body, size);
    forall k | 0 <= k < |chunks|
      ensures |chunks[k]| > 0
      ensures k < |chunks| - 1 ==> |chunks[k]| == size
    {
      SplitAt(body, size, k);
      if k < |chunks| - 1 {
        SplitAt(body, size, k + 1);
        assert (k + 1) * size == k * size + size;
      }
    }
    if chunks != [] {
      var n, k := |body|, |chunks|;
      SplitBounds(body, size);
      SplitAt(body, size, k - 1);
      assert (k - 1 + 1) * size == k * size;
      var m := n - (k - 1) * size;
      assert |chunks[k - 1]| == m;
      if m == size {
        DivUnique(n, size, k, 0);
      } else {
        DivUnique(n, size, k - 1, m);
      }
    }
  }

  /** Multiplying by a positive number keeps the order. */
  lemma MulLess(a: int, b: int, d: int)
    requires d > 0
    ensures a * d < b * d <==> a < b
    ensures a * d <= b * d <==> a <= b
  {
    MulAtLeast(b - a, d);
    MulAtLeast(a - b, d);
    assert (b - a) * d == b * d - a * d;
  }

  /** A chunk the loop flushes when its counter reaches S: bytes n·S up to
      (n+1)·S are chunk n. */
  lemma FullChunk(body: Bytes, size: nat, n: nat)
    requires size > 0 && (n + 1) * size <= |body|
    ensures n < |Split(body, size)|
    ensures Split(body, size)[n] == body[n * size .. (n + 1) * size]
  {
    var k := |Split(body, size)|;
    SplitBounds(body, size);
    MulLess(k, n + 1, size);
    SplitAt(body, size, n);
  }

  /** What is left when the body ends with the counter between 0 and S is
      the last chunk. */
  lemma TrailingChunk(body: Bytes, size: nat, n: nat)
    requires size > 0 && n * size < |body| < (n + 1) * size
    ensures |Split(body, size)| == n + 1
    ensures Split(body, size)[n] == body[n * size ..]
  {
    var k := |Split(body, size)|;
    SplitBounds(body, size);
    MulLess(k - 1, n + 1, size);
    MulLess(n, k, size);
    SplitAt(body, size, n);
    assert (n + 1) * size == n * size + size;
  }

  /** When the body ends with the counter at 0, every chunk has been flushed. */
  lemma ExactChunks(body: Bytes, size: nat, n: nat)
    requires size > 0 && n * size == |body|
    ensures |Split(body, size)| == n
  {
    if body != [] {
      var k := |Split(body, size)|;
      SplitBounds(body, size);
      MulLess(k - 1, n, size);
      MulLess(n, k, size);
    } else {
      MulLess(n, 1, size);
    }
  }

  /** The byte loop's position in the body: i bytes read, the first n chunks
      flushed, and the bytes read since the last flush gathered in `chunk`. */
  ghost predicate Gathered(body: Bytes, size: nat, i: nat, n: nat, chunk: Bytes) {
    && |chunk| <= i <= |body| && chunk == body[i - |chunk| .. i]
    && (size > 0 ==> n * size + |chunk| == i && |chunk| < size)
    && (size == 0 ==> n == 0 && |chunk| == i)
  }

  /** One more byte read: when the gathered bytes reach S they are chunk n,
      flushed, and gathering starts over. */
  lemma GatherByte(body: Bytes, size: nat, i: nat, n: nat, chunk: Bytes)
    requires Gathered(body, size, i, n, chunk) && i < |body|
    ensures var next := chunk + [body[i]];
            if |next| == size then
              n < |Split(body, size)| && Split(body, size)[n] == next && Gathered(body, size, i + 1, n + 1, [])
            else
              Gathered(body, size, i + 1, n, next)
  {
    var next := chunk + [body[i]];
    assert body[i - |chunk| .. i + 1] == body[i - |chunk| .. i] + [body[i]];
    if |next| == size {
      assert (n + 1) * size == n * size + size;
      FullChunk(body, size, n);
    }
  }

  /** The body read to its end: a non-empty remainder is the last chunk,
      and otherwise every chunk has been flushed. */
  lemma GatheredAll(body: Bytes, size: nat, n: nat, chunk: Bytes)
    requires Gathered(body, size, |body|, n, chunk)
    ensures chunk != [] ==> |Split(body, size)| == n + 1 && Split(body, size)[n] == chunk
    ensures chunk == [] ==> |Split(body, size)| == n
  {
    if chunk != [] {
      if size > 0 {
        TrailingChunk(body, size, n);
      } else {
        SplitUnbounded(body);
      }
    } else if size > 0 {
      ExactChunks(body, size, n);
    }
  }

  /** A 2500-byte body at the default chunk size is cut into chunks of 1024,
      1024 and 452 bytes. */
  lemma DefaultSizeExample(body: Bytes)
    requires |body| == 2500
    ensures |Split(body, BinaryChunkSize)| == 3
    ensures |Split(body, BinaryChunkSize)[0]| == 1024 && |Split(body, BinaryChunkSize)[1]| == 1024
    ensures |Split(body, BinaryChunkSize)[2]| == 452
  {
    SplitCount(body, BinaryChunkSize);
    SplitSizes(body, BinaryChunkSize);
  }

  /** With chunk size 0 a non-empty body is a single chunk. */
  lemma SplitUnbounded(body: Bytes)
    requires body != []
    ensures Split(body, 0) == [body]
  {
  }
}
