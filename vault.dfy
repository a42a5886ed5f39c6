/** What the service's record and binary operations (internal/service/backend/
    server.go) do with the cipher, as functions of the random bytes they draw:
    the fields of a record encrypted in order until the first failure, the
    fields of a stored record decrypted in order, and the chunks of a binary
    encrypted and stored one by one. Each `Encrypt` draws a NonceSize-byte
    nonce from `crypto/rand.Reader`; a reader that has run dry fails that
    draw and every later one. */
module Vault {
  import opened Wrappers
  import opened Strings
  import opened Errors
  import Crypt
  import Chunking
  import Storage
  import Random

  const NonceSize := Crypt.NonceSize

  /** The nonce the draw numbered k (from 0) gets, if the pool still has it. */
  function NthNonce(pool: Bytes, k: nat): (n: Option<Bytes>)
    ensures n.Some? <==> NonceSize * (k + 1) <= |pool|
    ensures n.Some? ==> |n.value| == NonceSize
  {
    if NonceSize * (k + 1) <= |pool| then Some(pool[NonceSize * k .. NonceSize * (k + 1)]) else None
  }

  /** What is left of the pool after n draws (the reader empties when a draw fails). */
  function PoolAfter(pool: Bytes, n: nat): Bytes {
    if NonceSize * n <= |pool| then pool[NonceSize * n ..] else []
  }

  /** One draw by `io.ReadFull`: the next nonce and the rest of the pool. */
  lemma DrawShift(pool: Bytes, k: nat)
    ensures NthNonce(pool, 0) == (if |pool| >= NonceSize then Some(pool[..NonceSize]) else None)
    ensures NthNonce(PoolAfter(pool, 1), k) == NthNonce(pool, k + 1)
    ensures PoolAfter(PoolAfter(pool, 1), k) == PoolAfter(pool, k + 1)
  {
    if |pool| >= NonceSize && NonceSize * (k + 2) <= |pool| {
      assert pool[NonceSize..][NonceSize * k .. NonceSize * (k + 1)] == pool[NonceSize * (k + 1) .. NonceSize * (k + 2)];
    }
  }

  /** Draw number n, made after n earlier draws. */
  lemma DrawAt(pool: Bytes, n: nat)
    ensures NthNonce(PoolAfter(pool, n), 0) == NthNonce(pool, n)
    ensures PoolAfter(PoolAfter(pool, n), 1) == PoolAfter(pool, n + 1)
  {
    if NonceSize * (n + 1) <= |pool| {
      assert pool[NonceSize * n ..][..NonceSize] == pool[NonceSize * n .. NonceSize * (n + 1)];
    }
  }

  /** How many of the first n draws got their bytes. */
  function Drawn(pool: Bytes, n: nat): (d: nat)
    ensures d <= n
  {
    if n == 0 then 0 else Drawn(pool, n - 1) + (if NthNonce(pool, n - 1).Some? then 1 else 0)
  }

  /** A draw succeeds only if every earlier one did. */
  lemma {:induction false} DrawnAll(pool: Bytes, n: nat)
    requires NthNonce(pool, n).Some?
    ensures Drawn(pool, n) == n
    ensures forall k :: 0 <= k < n ==> NthNonce(pool, k).Some?
  {
    if n > 0 {
      DrawnAll(pool, n - 1);
    }
  }

  /** The result of encrypting the fields of a record in place, in order,
      until the first failure: the field values then, the failure and the
      field it hit, and the pool left. */
  datatype Sealing = Sealing(fields: seq<Bytes>, failure: Option<Error>, failedAt: nat, pool: Bytes)

  /** The sequence `x, err = Encrypt(x); if err != nil { return }` run from
      field k on, field j drawing the nonce numbered j from `pool`. A failed
      draw stops it and leaves its field "", the empty result the Go
      multi-assignment stores. */
  function SealFrom(c: Crypt.Crypt, g: Crypt.Aead, pool: Bytes, fields: seq<Bytes>, k: nat): (s: Sealing)
    requires Crypt.AesKeySize(|c.secretKey|) && k <= |fields|
    ensures |s.fields| == |fields|
    ensures s.failure.Some? ==> k <= s.failedAt < |fields|
    decreases |fields| - k
  {
    if k == |fields| then Sealing(fields, None, 0, PoolAfter(pool, k))
    else
      match Crypt.Encrypt(c, g, NthNonce(pool, k), fields[k])
      case Err(e) => Sealing(fields[k := []], Some(e), k, PoolAfter(pool, k + 1))
      case Ok(v) => SealFrom(c, g, pool, fields[k := v], k + 1)
  }

  /** One step of a sealing: field k's encryption, then the rest. */
  lemma SealStep(c: Crypt.Crypt, g: Crypt.Aead, pool: Bytes, fields: seq<Bytes>, k: nat)
    requires Crypt.AesKeySize(|c.secretKey|) && k < |fields|
    ensures var e := Crypt.Encrypt(c, g, NthNonce(pool, k), fields[k]);
            SealFrom(c, g, pool, fields, k) ==
              if e.Err? then Sealing(fields[k := []], Some(e.error), k, PoolAfter(pool, k + 1))
              else SealFrom(c, g, pool, fields[k := e.value], k + 1)
  {
  }

  /** One `(*Crypt).Encrypt(x)` by the service: a nonce drawn from the
      reader, and "" with the error when the draw fails. */
  method Seal(rand: Random.Reader, c: Crypt.Crypt, g: Crypt.Aead, x: Bytes) returns (v: Bytes, err: Option<Error>)
    requires Crypt.AesKeySize(|c.secretKey|)
    modifies rand
    ensures rand.pool == PoolAfter(old(rand.pool), 1)
    ensures var e := Crypt.Encrypt(c, g, NthNonce(old(rand.pool), 0), x);
            && (e.Ok? ==> v == e.value && err.None?)
            && (e.Err? ==> v == [] && err == Some(e.error))
  {
    DrawShift(rand.pool, 0);
    var nonce := rand.ReadFull(Crypt.NonceSize);
    var e := Crypt.Encrypt(c, g, nonce, x);
    if e.Err? {
      return [], Some(e.error);
    }
    return e.value, None;
  }

  /** `Seal` of field k of a record whose fields are encrypted in order
      with the nonces of pool p: the step the in-place sealing takes there. */
  method SealNext(rand: Random.Reader, c: Crypt.Crypt, g: Crypt.Aead, ghost p: Bytes, ghost f: seq<Bytes>, k: nat, x: Bytes)
    returns (v: Bytes, err: Option<Error>)
    requires Crypt.AesKeySize(|c.secretKey|) && k < |f| && f[k] == x && rand.pool == PoolAfter(p, k)
    modifies rand
    ensures rand.pool == PoolAfter(p, k + 1)
    ensures err.None? ==> SealFrom(c, g, p, f, k) == SealFrom(c, g, p, f[k := v], k + 1)
    ensures err.Some? ==> v == [] && SealFrom(c, g, p, f, k) == Sealing(f[k := []], err, k, rand.pool)
  {
    DrawAt(p, k);
    SealStep(c, g, p, f, k);
    v, err := Seal(rand, c, g, x);
  }

  /** A record's whole sealing, from its first field. */
  function SealAll(c: Crypt.Crypt, g: Crypt.Aead, pool: Bytes, fields: seq<Bytes>): (s: Sealing)
    requires Crypt.AesKeySize(|c.secretKey|)
    ensures |s.fields| == |fields|
    ensures s.failure.Some? ==> s.failedAt < |fields|
  {
    SealFrom(c, g, pool, fields, 0)
  }

  /** How a sealing from field k ends: it completes exactly when no field is
      left or the pool holds a nonce for every field; otherwise it stops at
      the first field from k whose draw fails, with the error `Encrypt`
      gives for a missing nonce, and the reader is then empty. */
  lemma {:induction false} SealFromOutcome(c: Crypt.Crypt, g: Crypt.Aead, pool: Bytes, fields: seq<Bytes>, k: nat)
    requires Crypt.AesKeySize(|c.secretKey|) && k <= |fields|
    ensures var s := SealFrom(c, g, pool, fields, k);
      && (s.failure.None? <==> k == |fields| || NonceSize * |fields| <= |pool|)
      && s.pool == PoolAfter(pool, if s.failure.None? then |fields| else s.failedAt + 1)
      && (s.failure.Some? ==>
            && NthNonce(pool, s.failedAt).None?
            && (s.failedAt > k ==> NthNonce(pool, s.failedAt - 1).Some?)
            && s.failure == Some(Crypt.Encrypt(c, g, None, fields[s.failedAt]).error))
    decreases |fields| - k
  {
    if k < |fields| && NthNonce(pool, k).Some? {
      var v := Crypt.Encrypt(c, g, NthNonce(pool, k), fields[k]).value;
      SealFromOutcome(c, g, pool, fields[k := v], k + 1);
    }
  }

  /** What a sealing from field k leaves in the fields: up to the failure,
      field j encrypted with nonce j; the failed field empty; the fields
      after it, and those before k, as they were. */
  lemma {:induction false} SealFromFields(c: Crypt.Crypt, g: Crypt.Aead, pool: Bytes, fields: seq<Bytes>, k: nat)
    requires Crypt.AesKeySize(|c.secretKey|) && k <= |fields|
    ensures var s := SealFrom(c, g, pool, fields, k);
      && (forall j :: 0 <= j < k ==> s.fields[j] == fields[j])
      && (forall j :: k <= j < |fields| && (s.failure.None? || j < s.failedAt) ==>
            NthNonce(pool, j).Some? && s.fields[j] == Crypt.Encrypt(c, g, NthNonce(pool, j), fields[j]).value)
      && (s.failure.Some? ==>
            s.fields[s.failedAt] == [] && forall j :: s.failedAt < j < |fields| ==> s.fields[j] == fields[j])
    decreases |fields| - k
  {
    if k < |fields| && NthNonce(pool, k).Some? {
      var v := Crypt.Encrypt(c, g, NthNonce(pool, k), fields[k]).value;
      var next := fields[k := v];
      SealFromFields(c, g, pool, next, k + 1);
      assert forall j :: 0 <= j < |fields| && j != k ==> next[j] == fields[j];
    }
  }

  /** The result of decrypting the fields of a stored record in place, in
      order, until the first failure: the field values then, and the field
      that failed with its error. */
  datatype Opening = Opening(fields: seq<Bytes>, failure: Option<(nat, Error)>)

  /** The sequence `x, err = decrypt(x); if err != nil { return err }` run
      from field k on; a failed field is left "". */
  function OpenFrom(decrypt: Bytes -> Result<Bytes, Error>, fields: seq<Bytes>, k: nat): (o: Opening)
    requires k <= |fields|
    ensures |o.fields| == |fields|
    ensures o.failure.Some? ==> k <= o.failure.value.0 < |fields|
    decreases |fields| - k
  {
    if k == |fields| then Opening(fields, None)
    else
      match decrypt(fields[k])
      case Err(e) => Opening(fields[k := []], Some((k, e)))
      case Ok(p) => OpenFrom(decrypt, fields[k := p], k + 1)
  }

  /** One step of an opening: field k's decryption, then the rest. */
  lemma OpenStep(decrypt: Bytes -> Result<Bytes, Error>, fields: seq<Bytes>, k: nat)
    requires k < |fields|
    ensures var d := decrypt(fields[k]);
            OpenFrom(decrypt, fields, k) ==
              if d.Err? then Opening(fields[k := []], Some((k, d.error)))
              else OpenFrom(decrypt, fields[k := d.value], k + 1)
  {
  }

  /** `(*Crypt).Decrypt` of the service's cipher, as a function value. */
  function Opener(c: Crypt.Crypt, g: Crypt.Aead): Bytes -> Result<Bytes, Error> {
    x => Crypt.Decrypt(c, g, x)
  }

  /** A stored record's whole opening, from its first field. */
  function OpenAll(c: Crypt.Crypt, g: Crypt.Aead, fields: seq<Bytes>): (o: Opening)
    ensures |o.fields| == |fields|
    ensures o.failure.Some? ==> o.failure.value.0 < |fields|
  {
    OpenFrom(Opener(c, g), fields, 0)
  }

  /** How an opening from field k ends: it fails exactly when some field
      from k on does not decrypt, and then at the first such field, with
      that field's error. */
  lemma {:induction false} OpenFromOutcome(decrypt: Bytes -> Result<Bytes, Error>, fields: seq<Bytes>, k: nat)
    requires k <= |fields|
    ensures var o := OpenFrom(decrypt, fields, k);
      && (o.failure.None? <==> forall j :: k <= j < |fields| ==> decrypt(fields[j]).Ok?)
      && (o.failure.Some? ==>
            && decrypt(fields[o.failure.value.0]) == Err(o.failure.value.1)
            && forall j :: k <= j < o.failure.value.0 ==> decrypt(fields[j]).Ok?)
    decreases |fields| - k
  {
    if k < |fields| {
      var d := decrypt(fields[k]);
      if d.Ok? {
        var next := fields[k := d.value];
        OpenFromOutcome(decrypt, next, k + 1);
        assert forall j :: 0 <= j < |fields| && j != k ==> next[j] == fields[j];
      }
    }
  }

  /** What an opening from field k leaves in the fields: up to the failure,
      each field's plaintext; the failed field empty; the fields after it,
      and those before k, as they were. */
  lemma {:induction false} OpenFromFields(decrypt: Bytes -> Result<Bytes, Error>, fields: seq<Bytes>, k: nat)
    requires k <= |fields|
    ensures var o := OpenFrom(decrypt, fields, k);
      && (forall j :: 0 <= j < k ==> o.fields[j] == fields[j])
      && (forall j :: k <= j < |fields| && (o.failure.None? || j < o.failure.value.0) ==>
            decrypt(fields[j]).Ok? && o.fields[j] == decrypt(fields[j]).value)
      && (o.failure.Some? ==>
            o.fields[o.failure.value.0] == [] && forall j :: o.failure.value.0 < j < |fields| ==> o.fields[j] == fields[j])
    decreases |fields| - k
  {
    if k < |fields| {
      var d := decrypt(fields[k]);
      if d.Ok? {
        var next := fields[k := d.value];
        assert OpenFrom(decrypt, fields, k) == OpenFrom(decrypt, next, k + 1);
        OpenFromFields(decrypt, next, k + 1);
        assert forall j :: 0 <= j < |fields| && j != k ==> next[j] == fields[j];
      }
    }
  }

  /** What is sealed is what opens: under the AEAD laws, decrypting the
      fields a complete sealing left gives the plaintext fields back. */
  lemma {:induction false} OpenSealed(c: Crypt.Crypt, g: Crypt.Aead, pool: Bytes, fields: seq<Bytes>)
    requires Crypt.Lawful(g) && Crypt.AesKeySize(|c.secretKey|)
    requires NonceSize * |fields| <= |pool|
    ensures OpenAll(c, g, SealAll(c, g, pool, fields).fields) == Opening(fields, None)
  {
    var s := SealAll(c, g, pool, fields);
    SealFromOutcome(c, g, pool, fields, 0);
    SealFromFields(c, g, pool, fields, 0);
    forall k | 0 <= k < |fields|
      ensures Crypt.Decrypt(c, g, s.fields[k]) == Ok(fields[k])
    {
      assert NthNonce(pool, k).Some? by {
        assert NonceSize * (k + 1) <= NonceSize * |fields|;
      }
      Crypt.RoundTrip(c, g, NthNonce(pool, k).value, fields[k]);
    }
    OpenFromOutcome(Opener(c, g), s.fields, 0);
    OpenFromFields(Opener(c, g), s.fields, 0);
    var o := OpenAll(c, g, s.fields);
    assert o.fields == fields;
  }

  /** A binary being stored: its row id, its chunks, the pool the chunk
      encryptions draw from, and the position of the first chunk's query. */
  datatype Upload = Upload(binID: int, chunks: seq<Bytes>, pool: Bytes, firstQuery: nat)

  /** Chunk k (from 0) reaches the table: its nonce was drawn, and its query
      (numbered after the chunks stored before it) is not rejected. */
  predicate Landed(u: Upload, failing: set<nat>, k: nat) {
    NthNonce(u.pool, k).Some? && u.firstQuery + k !in failing
  }

  predicate AllLanded(u: Upload, failing: set<nat>) {
    forall k :: 0 <= k < |u.chunks| ==> Landed(u, failing, k)
  }

  /** The contexts a chunk worker wraps its failure with. */
  const EncryptChunk := "failed to encrypt chunk"
  const AddChunk := "failed to add binary chunk"

  /** What the worker for chunk k returns: the failed draw, the rejected
      `AddBinaryChunk`, or nothing. */
  function ChunkError(c: Crypt.Crypt, g: Crypt.Aead, failing: set<nat>, u: Upload, k: nat): (e: Option<Error>)
    requires k < |u.chunks|
    ensures e.None? <==> Landed(u, failing, k)
    ensures forall s :: e.Some? ==> !Is(e.value, s)
  {
    if NthNonce(u.pool, k).None? then Some(Wrap(EncryptChunk, Crypt.Encrypt(c, g, None, u.chunks[k]).error))
    else if u.firstQuery + k in failing then Some(Wrap(AddChunk, Storage.Fault(Storage.ExecQuery)))
    else None
  }

  /** What `g.Wait()` reports after the first n chunks' workers: the first
      error in order-number order, if any. */
  function FirstError(c: Crypt.Crypt, g: Crypt.Aead, failing: set<nat>, u: Upload, n: nat): (e: Option<Error>)
    requires n <= |u.chunks|
    ensures e.None? <==> forall k :: 0 <= k < n ==> Landed(u, failing, k)
  {
    if n == 0 then None
    else
      var e := FirstError(c, g, failing, u, n - 1);
      if e.Some? then e else ChunkError(c, g, failing, u, n - 1)
  }

  /** The error reported is that of the lowest-numbered chunk that did not
      land, and every chunk before it landed. */
  lemma {:induction false} FirstErrorIsFirst(c: Crypt.Crypt, g: Crypt.Aead, failing: set<nat>, u: Upload, n: nat)
    requires n <= |u.chunks|
    ensures FirstError(c, g, failing, u, n).Some? ==>
              exists k :: (0 <= k < n && FirstError(c, g, failing, u, n) == ChunkError(c, g, failing, u, k) &&
                           forall j :: 0 <= j < k ==> Landed(u, failing, j))
  {
    if n > 0 {
      FirstErrorIsFirst(c, g, failing, u, n - 1);
      if FirstError(c, g, failing, u, n - 1).None? && !Landed(u, failing, n - 1) {
        assert 0 <= n - 1 < n && FirstError(c, g, failing, u, n) == ChunkError(c, g, failing, u, n - 1);
      }
    }
  }

  /** The stored form of chunk k. */
  function Ciphertext(c: Crypt.Crypt, g: Crypt.Aead, u: Upload, k: nat): Bytes
    requires Crypt.AesKeySize(|c.secretKey|) && k < |u.chunks| && NthNonce(u.pool, k).Some?
  {
    Crypt.Encrypt(c, g, NthNonce(u.pool, k), u.chunks[k]).value
  }

  /** The chunk rows the first n chunks add, keyed (binary id, order number). */
  function Writes(c: Crypt.Crypt, g: Crypt.Aead, failing: set<nat>, u: Upload, n: nat): map<(int, int), Bytes>
    requires Crypt.AesKeySize(|c.secretKey|) && n <= |u.chunks|
  {
    if n == 0 then map[]
    else
      var w := Writes(c, g, failing, u, n - 1);
      if Landed(u, failing, n - 1) then w[(u.binID, n) := Ciphertext(c, g, u, n - 1)] else w
  }

  /** Before any worker: no draw made, no row added, no error. */
  lemma NoneFed(c: Crypt.Crypt, g: Crypt.Aead, failing: set<nat>, u: Upload, base: map<(int, int), Bytes>)
    requires Crypt.AesKeySize(|c.secretKey|)
    ensures PoolAfter(u.pool, 0) == u.pool && Drawn(u.pool, 0) == 0
    ensures base + Writes(c, g, failing, u, 0) == base && FirstError(c, g, failing, u, 0).None?
  {
  }

  /** Chunk n's worker adds its row over whatever the table held, when it lands. */
  lemma WritesStep(c: Crypt.Crypt, g: Crypt.Aead, failing: set<nat>, u: Upload, base: map<(int, int), Bytes>, n: nat)
    requires Crypt.AesKeySize(|c.secretKey|) && 1 <= n <= |u.chunks|
    ensures Landed(u, failing, n - 1) ==>
              base + Writes(c, g, failing, u, n) == (base + Writes(c, g, failing, u, n - 1))[(u.binID, n) := Ciphertext(c, g, u, n - 1)]
    ensures !Landed(u, failing, n - 1) ==> base + Writes(c, g, failing, u, n) == base + Writes(c, g, failing, u, n - 1)
  {
    var w := Writes(c, g, failing, u, n - 1);
    if Landed(u, failing, n - 1) {
      assert (base + w)[(u.binID, n) := Ciphertext(c, g, u, n - 1)] == base + w[(u.binID, n) := Ciphertext(c, g, u, n - 1)];
    }
  }

  /** The worker for chunk n (numbered from 1), run once the earlier ones
      are done: from the pool, query count and rows they left, the draw, the
      query and the row it makes are the ones the upload's n-th step names,
      and what it returns is that chunk's error. */
  lemma ChunkStored(c: Crypt.Crypt, g: Crypt.Aead, failing: set<nat>, u: Upload, base: map<(int, int), Bytes>, n: nat,
                    pool: Bytes, queries: nat, chunks: map<(int, int), Bytes>, err: Option<Error>,
                    pool': Bytes, queries': nat, chunks': map<(int, int), Bytes>)
    requires Crypt.AesKeySize(|c.secretKey|) && 1 <= n <= |u.chunks|
    requires pool == PoolAfter(u.pool, n - 1) && queries == u.firstQuery + Drawn(u.pool, n - 1)
    requires chunks == base + Writes(c, g, failing, u, n - 1)
    requires pool' == PoolAfter(pool, 1)
    requires NthNonce(pool, 0).None? ==>
               && err == Some(Wrap(EncryptChunk, Crypt.Encrypt(c, g, None, u.chunks[n - 1]).error))
               && chunks' == chunks && queries' == queries
    requires NthNonce(pool, 0).Some? ==> queries' == queries + 1
    requires NthNonce(pool, 0).Some? && queries in failing ==>
               err == Some(Wrap(AddChunk, Storage.Fault(Storage.ExecQuery))) && chunks' == chunks
    requires NthNonce(pool, 0).Some? && queries !in failing ==>
               err.None? && chunks' == chunks[(u.binID, n) := Crypt.Encrypt(c, g, NthNonce(pool, 0), u.chunks[n - 1]).value]
    ensures pool' == PoolAfter(u.pool, n) && queries' == u.firstQuery + Drawn(u.pool, n)
    ensures chunks' == base + Writes(c, g, failing, u, n)
    ensures err == ChunkError(c, g, failing, u, n - 1)
  {
    DrawAt(u.pool, n - 1);
    WritesStep(c, g, failing, u, base, n);
    if NthNonce(u.pool, n - 1).Some? {
      DrawnAll(u.pool, n - 1);
    }
  }

  /** The chunk rows are exactly those of landed chunks, each under the
      binary's id and its order number: no row for another binary, none past
      the last chunk, none for a chunk that failed. */
  lemma {:induction false} WritesExactly(c: Crypt.Crypt, g: Crypt.Aead, failing: set<nat>, u: Upload, n: nat)
    requires Crypt.AesKeySize(|c.secretKey|) && n <= |u.chunks|
    ensures forall key :: key in Writes(c, g, failing, u, n) <==>
              key.0 == u.binID && 1 <= key.1 <= n && Landed(u, failing, key.1 - 1)
    ensures forall j :: 1 <= j <= n && Landed(u, failing, j - 1) ==>
              Writes(c, g, failing, u, n)[(u.binID, j)] == Ciphertext(c, g, u, j - 1)
  {
    if n > 0 {
      WritesExactly(c, g, failing, u, n - 1);
    }
  }

  /** The binary as read back: the decrypted chunks 1 .. n of `binID`
      joined in order-number order, if every one is there and opens. */
  function Reassemble(c: Crypt.Crypt, g: Crypt.Aead, rows: map<(int, int), Bytes>, binID: int, n: nat): Option<Bytes> {
    if n == 0 then Some([])
    else
      match Reassemble(c, g, rows, binID, n - 1)
      case None => None
      case Some(prefix) =>
        if (binID, n) in rows && Crypt.Decrypt(c, g, rows[(binID, n)]).Ok?
        then Some(prefix + Crypt.Decrypt(c, g, rows[(binID, n)]).value)
        else None
  }

  lemma {:induction false} ConcatSnoc(chunks: seq<Bytes>, x: Bytes)
    ensures Chunking.Concat(chunks + [x]) == Chunking.Concat(chunks) + x
  {
    if chunks != [] {
      assert (chunks + [x])[1..] == chunks[1..] + [x];
      ConcatSnoc(chunks[1..], x);
    }
  }

  /** A landed chunk's row holds its ciphertext, whatever other rows the
      table held before under other binary ids. */
  lemma RowOfChunk(c: Crypt.Crypt, g: Crypt.Aead, failing: set<nat>, u: Upload,
                   base: map<(int, int), Bytes>, n: nat, j: nat)
    requires Crypt.AesKeySize(|c.secretKey|)
    requires 1 <= j <= n <= |u.chunks| && Landed(u, failing, j - 1)
    ensures (u.binID, j) in base + Writes(c, g, failing, u, n)
    ensures (base + Writes(c, g, failing, u, n))[(u.binID, j)] == Ciphertext(c, g, u, j - 1)
  {
    WritesExactly(c, g, failing, u, n);
  }

  /** Under the AEAD laws a chunk's ciphertext decrypts to the chunk. */
  lemma CiphertextOpens(c: Crypt.Crypt, g: Crypt.Aead, u: Upload, k: nat)
    requires Crypt.Lawful(g) && Crypt.AesKeySize(|c.secretKey|)
    requires k < |u.chunks| && NthNonce(u.pool, k).Some?
    ensures Crypt.Decrypt(c, g, Ciphertext(c, g, u, k)) == Ok(u.chunks[k])
  {
    Crypt.RoundTrip(c, g, NthNonce(u.pool, k).value, u.chunks[k]);
  }

  /** When every chunk landed, the binary's rows decrypt, in order-number
      order, to its chunks. */
  lemma LandedRowsOpen(c: Crypt.Crypt, g: Crypt.Aead, failing: set<nat>, u: Upload,
                       base: map<(int, int), Bytes>, n: nat)
    requires Crypt.Lawful(g) && Crypt.AesKeySize(|c.secretKey|)
    requires n <= |u.chunks| && AllLanded(u, failing)
    ensures forall j :: 1 <= j <= n ==> (u.binID, j) in base + Writes(c, g, failing, u, n)
    ensures forall j :: 1 <= j <= n ==>
              Crypt.Decrypt(c, g, (base + Writes(c, g, failing, u, n))[(u.binID, j)]) == Ok(u.chunks[j - 1])
  {
    forall j | 1 <= j <= n
      ensures (u.binID, j) in base + Writes(c, g, failing, u, n)
      ensures Crypt.Decrypt(c, g, (base + Writes(c, g, failing, u, n))[(u.binID, j)]) == Ok(u.chunks[j - 1])
    {
      LandedRowOpens(c, g, failing, u, base, n, j);
    }
  }

  /** Row j of a landed upload decrypts to chunk j - 1. */
  lemma LandedRowOpens(c: Crypt.Crypt, g: Crypt.Aead, failing: set<nat>, u: Upload,
                       base: map<(int, int), Bytes>, n: nat, j: int)
    requires Crypt.Lawful(g) && Crypt.AesKeySize(|c.secretKey|)
    requires n <= |u.chunks| && AllLanded(u, failing) && 1 <= j <= n
    ensures (u.binID, j) in base + Writes(c, g, failing, u, n)
    ensures Crypt.Decrypt(c, g, (base + Writes(c, g, failing, u, n))[(u.binID, j)]) == Ok(u.chunks[j - 1])
  {
    assert Landed(u, failing, j - 1);
    RowOfChunk(c, g, failing, u, base, n, j);
    CiphertextOpens(c, g, u, j - 1);
  }

  /** Reassembly over a table whose rows 1 .. n of `binID` open to the
      given chunks gives those chunks joined. */
  lemma {:induction false} ReassembleOpens(c: Crypt.Crypt, g: Crypt.Aead, rows: map<(int, int), Bytes>,
                                           binID: int, chunks: seq<Bytes>, n: nat)
    requires n <= |chunks|
    requires forall j :: 1 <= j <= n ==> (binID, j) in rows
    requires forall j :: 1 <= j <= n ==> Crypt.Decrypt(c, g, rows[(binID, j)]) == Ok(chunks[j - 1])
    ensures Reassemble(c, g, rows, binID, n) == Some(Chunking.Concat(chunks[..n]))
  {
    if n > 0 {
      ReassembleOpens(c, g, rows, binID, chunks, n - 1);
      assert chunks[..n] == chunks[..n - 1] + [chunks[n - 1]];
      ConcatSnoc(chunks[..n - 1], chunks[n - 1]);
    }
  }

  /** Reading the landed binary back in order-number order gives its chunks
      joined, which for the whole upload is the body. */
  lemma UploadReassembles(c: Crypt.Crypt, g: Crypt.Aead, failing: set<nat>, u: Upload,
                          base: map<(int, int), Bytes>, n: nat)
    requires Crypt.Lawful(g) && Crypt.AesKeySize(|c.secretKey|)
    requires n <= |u.chunks| && AllLanded(u, failing)
    ensures Reassemble(c, g, base + Writes(c, g, failing, u, n), u.binID, n) == Some(Chunking.Concat(u.chunks[..n]))
  {
    LandedRowsOpen(c, g, failing, u, base, n);
    ReassembleOpens(c, g, base + Writes(c, g, failing, u, n), u.binID, u.chunks, n);
  }

  /** A binary whose every chunk landed reads back, in order-number order,
      as its body; its rows are exactly order numbers 1 .. the chunk count. */
  lemma BodyReadsBack(c: Crypt.Crypt, g: Crypt.Aead, failing: set<nat>, u: Upload,
                      base: map<(int, int), Bytes>, body: Bytes, size: nat)
    requires Crypt.Lawful(g) && Crypt.AesKeySize(|c.secretKey|)
    requires u.chunks == Chunking.Split(body, size) && AllLanded(u, failing)
    ensures Reassemble(c, g, base + Writes(c, g, failing, u, |u.chunks|), u.binID, |u.chunks|) == Some(body)
    ensures forall key :: key in Writes(c, g, failing, u, |u.chunks|) <==>
              key.0 == u.binID && 1 <= key.1 <= |u.chunks|
  {
    UploadReassembles(c, g, failing, u, base, |u.chunks|);
    assert u.chunks[..|u.chunks|] == u.chunks;
    Chunking.SplitConcat(body, size);
    WritesExactly(c, g, failing, u, |u.chunks|);
  }
}
