/** Base 16 encoding (section 8 of RFC 4648) as Go's `encoding/hex` and
    `fmt.Sprintf("%x", b)` do it: the encoder writes lower-case digits, the
    decoder accepts either case. */
module Hex {
  import opened Wrappers
  import opened Strings

  predicate IsLowerHexDigit(c: Byte) {
    '0' as Byte <= c <= '9' as Byte || 'a' as Byte <= c <= 'f' as Byte
  }

  predicate IsLowerHex(s: Bytes) {
    forall i :: 0 <= i < |s| ==> IsLowerHexDigit(s[i])
  }

  /** The lower-case digit for a nibble. */
  function Digit(n: int): (c: Byte)
    requires 0 <= n < 16
    ensures IsLowerHexDigit(c)
  {
    if n < 10 then ('0' as int + n) as Byte else ('a' as int + n - 10) as Byte
  }

  /** The nibble a digit stands for; `None` for a byte that is not a hex digit. */
  function Value(c: Byte): (r: Option<int>)
    ensures r.Some? ==> 0 <= r.value < 16
    ensures IsLowerHexDigit(c) ==> r.Some?
  {
    if '0' as Byte <= c <= '9' as Byte then Some(c as int - '0' as int)
    else if 'a' as Byte <= c <= 'f' as Byte then Some(c as int - 'a' as int + 10)
    else if 'A' as Byte <= c <= 'F' as Byte then Some(c as int - 'A' as int + 10)
    else None
  }

  lemma ValueOfDigit(n: int)
    requires 0 <= n < 16
    ensures Value(Digit(n)) == Some(n)
  {
  }

  /** `hex.EncodeToString(b)`, also what `fmt.Sprintf("%x", b)` prints. */
  function Encode(b: Bytes): (r: Bytes)
    ensures |r| == 2 * |b|
    ensures IsLowerHex(r)
  {
    if b == [] then []
    else [Digit(b[0] as int / 16), Digit(b[0] as int % 16)] + Encode(b[1..])
  }

  /** `hex.DecodeString(s)`: `None` for an odd length or a byte that is not a
      hex digit of either case. */
  function Decode(s: Bytes): (r: Option<Bytes>)
    ensures r.Some? ==> 2 * |r.value| == |s|
  {
    if |s| == 0 then Some([])
    else if |s| == 1 then None
    else
      match (Value(s[0]), Value(s[1]), Decode(s[2..]))
      case (Some(hi), Some(lo), Some(rest)) => Some([(hi * 16 + lo) as Byte] + rest)
      case _ => None
  }

  /** Decoding undoes encoding. */
  lemma {:induction false} DecodeEncode(b: Bytes)
    ensures Decode(Encode(b)) == Some(b)
  {
    if b != [] {
      var e := Encode(b);
      assert e[2..] == Encode(b[1..]);
      ValueOfDigit(b[0] as int / 16);
      ValueOfDigit(b[0] as int % 16);
      DecodeEncode(b[1..]);
      assert [b[0]] + b[1..] == b;
    }
  }

  /** Encoding undoes decoding of lower-case input. */
  lemma {:induction false} EncodeDecode(s: Bytes)
    requires IsLowerHex(s)
    requires Decode(s).Some?
    ensures Encode(Decode(s).value) == s
  {
    if |s| >= 2 {
      assert IsLowerHex(s[2..]) by {
        forall i | 0 <= i < |s[2..]| ensures IsLowerHexDigit(s[2..][i]) {
          assert s[2..][i] == s[i + 2];
        }
      }
      EncodeDecode(s[2..]);
      var hi, lo := Value(s[0]).value, Value(s[1]).value;
      DigitOfValue(s[0]);
      DigitOfValue(s[1]);
      Nibbles(hi, lo);
      var d := Decode(s).value;
      assert d == [(hi * 16 + lo) as Byte] + Decode(s[2..]).value;
      assert d[0] as int / 16 == hi && d[0] as int % 16 == lo;
      assert d[1..] == Decode(s[2..]).value;
      assert s == [s[0], s[1]] + s[2..];
    }
  }

  /** A lower-case digit is the digit of its own value. */
  lemma DigitOfValue(c: Byte)
    requires IsLowerHexDigit(c)
    ensures Digit(Value(c).value) == c
  {
  }

  /** The two nibbles of a byte come back out of it. */
  lemma Nibbles(hi: int, lo: int)
    requires 0 <= hi < 16 && 0 <= lo < 16
    ensures (hi * 16 + lo) / 16 == hi && (hi * 16 + lo) % 16 == lo
  {
  }

  /** Decoding fails exactly on an odd length or a byte that is no hex digit. */
  lemma {:induction false} DecodeSucceedsIff(s: Bytes)
    ensures Decode(s).Some? <==> |s| % 2 == 0 && forall i :: 0 <= i < |s| ==> Value(s[i]).Some?
    decreases |s|
  {
    if |s| >= 2 {
      DecodeSucceedsIff(s[2..]);
      assert forall i :: 2 <= i < |s| ==> s[i] == s[2..][i - 2];
      if Decode(s).Some? {
        assert forall i :: 0 <= i < |s| ==> Value(s[i]).Some? by {
          forall i | 0 <= i < |s| ensures Value(s[i]).Some? {
            if i >= 2 { assert s[i] == s[2..][i - 2]; }
          }
        }
      }
      if |s| % 2 == 0 && forall i :: 0 <= i < |s| ==> Value(s[i]).Some? {
        assert forall i :: 0 <= i < |s[2..]| ==> Value(s[2..][i]).Some? by {
          forall i | 0 <= i < |s[2..]| ensures Value(s[2..][i]).Some? {
            assert s[2..][i] == s[i + 2];
          }
        }
      }
    } else if |s| == 1 {
      assert Decode(s).None?;
    }
  }
}
