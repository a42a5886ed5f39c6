/** The cipher envelope of internal/lib/crypt: AES-256-GCM (NIST SP 800-38D)
    with a fresh random nonce per call, stored as the lower-case Base 16 text
    of `nonce ‖ Seal(nonce, plaintext)`.

    AES-GCM itself is foreign code. It is the value `Aead` (two functions of
    key, nonce and input), and `Lawful` states the only facts about it the
    model relies on; `LawsAreConsistent` shows that some AEAD obeys them. */
module Crypt {
  import opened Wrappers
  import opened Strings
  import opened Errors
  import Hex

  /** The only key length `New` accepts. */
  const KeySize := 32
  /** `aesGCM.NonceSize()` for the standard GCM construction. */
  const NonceSize := 12
  /** The GCM authentication tag that `Seal` appends. */
  const TagSize := 16

  /** `seal(key, nonce, plaintext)` is ciphertext‖tag; `open(key, nonce, data)`
      gives the plaintext back or `None` when authentication fails. */
  datatype Aead = Aead(seal: (Bytes, Bytes, Bytes) -> Bytes, open: (Bytes, Bytes, Bytes) -> Option<Bytes>)

  /** The AEAD laws: sealing adds exactly a tag, opening a sealed message
      gives the plaintext, and nothing opens that `seal` did not produce
      under the same key and nonce. */
  ghost predicate Lawful(g: Aead) {
    && (forall k, n, p :: |g.seal(k, n, p)| == |p| + TagSize)
    && (forall k, n, p :: g.open(k, n, g.seal(k, n, p)) == Some(p))
    && (forall k, n, c :: g.open(k, n, c).Some? ==> g.seal(k, n, g.open(k, n, c).value) == c)
  }

  /** The laws do not contradict each other. */
  lemma LawsAreConsistent()
    ensures exists g :: Lawful(g)
  {
    var tag: Bytes := seq(TagSize, _ => 0);
    var g := Aead(
      (k: Bytes, n: Bytes, p: Bytes) => p + tag,
      (k: Bytes, n: Bytes, c: Bytes) =>
        if |c| >= TagSize && c[|c| - TagSize..] == tag then Some(c[..|c| - TagSize]) else None);
    forall k: Bytes, n: Bytes, p: Bytes ensures g.open(k, n, g.seal(k, n, p)) == Some(p) {
      var c := p + tag;
      assert c[|c| - TagSize..] == tag && c[..|c| - TagSize] == p;
    }
    forall k: Bytes, n: Bytes, c: Bytes | g.open(k, n, c).Some?
      ensures g.seal(k, n, g.open(k, n, c).value) == c
    {
      assert c[..|c| - TagSize] + c[|c| - TagSize..] == c;
    }
    assert Lawful(g);
  }

  /** A `*Crypt` holds the secret key it was built with. */
  datatype Crypt = Crypt(secretKey: Bytes)

  /** `aes.NewCipher` accepts AES-128, AES-192 and AES-256 keys. */
  predicate AesKeySize(n: int) {
    n == 16 || n == 24 || n == 32
  }

  /** The texts of the errors `Encrypt` and `Decrypt` return. Their own
      contexts are spelled as in the source. The library errors they wrap
      are stood for by one text per kind, since nothing in the server reads
      a wrapped error's message: `UnexpectedEOF` for the `io.EOF` or
      `io.ErrUnexpectedEOF` of a short read, `InvalidHex` for either of
      `hex.DecodeString`'s errors, and `ShortCipherText` for the error the
      corrected `Decrypt` gives. */
  const NonceContext := "filed to make nonce"
  const UnexpectedEOF := "unexpected EOF"
  const DecodeContext := "failed to decode encrypted string"
  const InvalidHex := "encoding/hex: invalid byte or odd length"
  const OpenContext := "filed to open cipher text"
  const AuthenticationFailed := "cipher: message authentication failed"
  const SliceOutOfRange := "runtime error: slice bounds out of range"
  const SplitContext := "failed to split cipher text"
  const ShortCipherText := "cipher text shorter than the nonce"

  const InvalidKeySize := Wrap("filed to create new cipher block", Opaque("crypto/aes: invalid key size"))

  /** `crypt.New`: the key must be exactly 32 bytes long. */
  function New(secretKey: Bytes): (r: Result<Crypt, Error>)
    ensures r.Err? <==> |secretKey| != KeySize
    ensures r.Err? ==> r.error == Sentinel(CryptSecretKeyLen)
    ensures r.Ok? ==> r.value.secretKey == secretKey && AesKeySize(|r.value.secretKey|)
  {
    if |secretKey| != KeySize then Err(Sentinel(CryptSecretKeyLen)) else Ok(Crypt(secretKey))
  }

  /** `(*Crypt).Encrypt`. `nonce` is what `io.ReadFull(rand.Reader, nonce)`
      delivered: `None` when the read failed, otherwise exactly NonceSize bytes. */
  function Encrypt(c: Crypt, g: Aead, nonce: Option<Bytes>, plaintext: Bytes): (r: Result<Bytes, Error>)
    requires nonce.Some? ==> |nonce.value| == NonceSize
    ensures r.Err? <==> !AesKeySize(|c.secretKey|) || nonce.None?
  {
    if !AesKeySize(|c.secretKey|) then Err(InvalidKeySize)
    else if nonce.None? then Err(Wrap(NonceContext, Opaque(UnexpectedEOF)))
    else Ok(Hex.Encode(nonce.value + g.seal(c.secretKey, nonce.value, plaintext)))
  }

  /** What a Go call can end in: a return, or a run-time panic. */
  datatype Outcome<T> = Returned(result: Result<T, Error>) | Panicked(reason: string)

  /** `(*Crypt).Decrypt` exactly as written: decoded input shorter than the
      nonce reaches `enc[nonceSize:]`, which panics. */
  function DecryptAsWritten(c: Crypt, g: Aead, encrypted: Bytes): (r: Outcome<Bytes>)
    ensures r.Panicked? <==>
              Hex.Decode(encrypted).Some? && AesKeySize(|c.secretKey|) && |Hex.Decode(encrypted).value| < NonceSize
    ensures r.Returned? && r.result.Ok? ==>
              && Hex.Decode(encrypted).Some?
              && var enc := Hex.Decode(encrypted).value;
                 |enc| >= NonceSize && g.open(c.secretKey, enc[..NonceSize], enc[NonceSize..]) == Some(r.result.value)
  {
    match Hex.Decode(encrypted)
    case None => Returned(Err(Wrap(DecodeContext, Opaque(InvalidHex))))
    case Some(enc) =>
      if !AesKeySize(|c.secretKey|) then Returned(Err(InvalidKeySize))
      else if |enc| < NonceSize then Panicked(SliceOutOfRange)
      else
        match g.open(c.secretKey, enc[..NonceSize], enc[NonceSize..])
        case None => Returned(Err(Wrap(OpenContext, Opaque(AuthenticationFailed))))
        case Some(plaintext) => Returned(Ok(plaintext))
  }

  /** `(*Crypt).Decrypt` as intended: a truncated input is one more way for
      decryption to fail, not a panic. The rest of the model uses this one. */
  function Decrypt(c: Crypt, g: Aead, encrypted: Bytes): (r: Result<Bytes, Error>)
    ensures DecryptAsWritten(c, g, encrypted).Returned? ==> r == DecryptAsWritten(c, g, encrypted).result
    ensures var enc := Hex.Decode(encrypted);
            r.Ok? <==> enc.Some? && AesKeySize(|c.secretKey|) && |enc.value| >= NonceSize &&
                       g.open(c.secretKey, enc.value[..NonceSize], enc.value[NonceSize..]).Some?
  {
    match DecryptAsWritten(c, g, encrypted)
    case Returned(r) => r
    case Panicked(_) => Err(Wrap(SplitContext, Opaque(ShortCipherText)))
  }

  /** The stored form: lower-case hex of `nonce ‖ Seal(nonce, p)`, whose
      length is 2·(NonceSize + |p| + TagSize). */
  lemma EncryptFormat(c: Crypt, g: Aead, nonce: Bytes, p: Bytes)
    requires Lawful(g) && AesKeySize(|c.secretKey|) && |nonce| == NonceSize
    ensures Encrypt(c, g, Some(nonce), p) == Ok(Hex.Encode(nonce + g.seal(c.secretKey, nonce, p)))
    ensures |Encrypt(c, g, Some(nonce), p).value| == 2 * (NonceSize + |p| + TagSize)
    ensures Hex.IsLowerHex(Encrypt(c, g, Some(nonce), p).value)
  {
  }

  /** Decrypt(Encrypt(p)) == p, whatever nonce was drawn. */
  lemma RoundTrip(c: Crypt, g: Aead, nonce: Bytes, p: Bytes)
    requires Lawful(g) && AesKeySize(|c.secretKey|) && |nonce| == NonceSize
    ensures DecryptAsWritten(c, g, Encrypt(c, g, Some(nonce), p).value) == Returned(Ok(p))
    ensures Decrypt(c, g, Encrypt(c, g, Some(nonce), p).value) == Ok(p)
  {
    var sealed := nonce + g.seal(c.secretKey, nonce, p);
    Hex.DecodeEncode(sealed);
    assert sealed[..NonceSize] == nonce && sealed[NonceSize..] == g.seal(c.secretKey, nonce, p);
  }

  /** Input that is not hex (odd length or a non-hex byte) is an error, not a panic. */
  lemma DecryptRejectsBadHex(c: Crypt, g: Aead, s: Bytes)
    requires |s| % 2 == 1 || exists i :: 0 <= i < |s| && Hex.Value(s[i]).None?
    ensures DecryptAsWritten(c, g, s).Returned? && Decrypt(c, g, s).Err?
  {
    Hex.DecodeSucceedsIff(s);
  }

  /** When `Open` refuses (tampered bytes, wrong key), there is no plaintext. */
  lemma DecryptRejectsUnopened(c: Crypt, g: Aead, s: Bytes)
    requires AesKeySize(|c.secretKey|)
    requires Hex.Decode(s).Some? && |Hex.Decode(s).value| >= NonceSize
    requires g.open(c.secretKey, Hex.Decode(s).value[..NonceSize], Hex.Decode(s).value[NonceSize..]).None?
    ensures DecryptAsWritten(c, g, s).Returned? && Decrypt(c, g, s).Err?
  {
  }

  /** A successful decryption is never a silently wrong plaintext: the input
      encodes `nonce ‖ Seal(nonce, p)` for the plaintext returned. */
  lemma DecryptIsAuthentic(c: Crypt, g: Aead, s: Bytes, p: Bytes)
    requires Lawful(g)
    requires Decrypt(c, g, s) == Ok(p)
    ensures exists nonce :: |nonce| == NonceSize && Hex.Decode(s) == Some(nonce + g.seal(c.secretKey, nonce, p))
  {
    var enc := Hex.Decode(s).value;
    var nonce := enc[..NonceSize];
    assert enc == nonce + enc[NonceSize..];
  }

  /** As written, decoded input shorter than the nonce panics; the empty
      string is such an input. */
  lemma ShortInputPanics(c: Crypt, g: Aead, s: Bytes)
    requires AesKeySize(|c.secretKey|)
    requires Hex.Decode(s).Some? && |Hex.Decode(s).value| < NonceSize
    ensures DecryptAsWritten(c, g, s).Panicked?
    ensures DecryptAsWritten(c, g, []).Panicked?
  {
  }

  /** The corrected Decrypt reports such an input as an error. */
  lemma DecryptShortFails(c: Crypt, g: Aead, s: Bytes)
    requires Hex.Decode(s).Some? && |Hex.Decode(s).value| < NonceSize
    ensures Decrypt(c, g, s).Err?
  {
  }
}
