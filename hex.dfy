/** Go's `hex.EncodeToString` as the POST handler uses it to turn 8 random bytes into a
    storage key: Base16 (section 8 of RFC 4648) with the lowercase alphabet. */
module Hex {
  import opened Wrappers

  /** Go's `byte`. */
  type byte = b: int | 0 <= b < 256

  /** The digit table of `encoding/hex` ("hextable"). */
  const Alphabet: string := "0123456789abcdef"

  predicate IsLowerHex(s: string) {
    forall i :: 0 <= i < |s| ==> s[i] in Alphabet
  }

  /** Each byte becomes two digits, high nibble first. */
  function EncodeToString(src: seq<byte>): (dst: string)
    ensures |dst| == 2 * |src|
    ensures IsLowerHex(dst)
  {
    if src == [] then ""
    else [Alphabet[src[0] / 16], Alphabet[src[0] % 16]] + EncodeToString(src[1..])
  }

  /** Value of one hex digit; like Go's decoder it also accepts upper case. */
  function DigitValue(c: char): (r: Option<nat>)
    ensures r.Some? ==> r.value < 16
    ensures c in Alphabet ==> r.Some? && Alphabet[r.value] == c
  {
    if '0' <= c <= '9' then Some(c as int - '0' as int)
    else if 'a' <= c <= 'f' then Some(c as int - 'a' as int + 10)
    else if 'A' <= c <= 'F' then Some(c as int - 'A' as int + 10)
    else None
  }

  /** One byte from two digits, high nibble first. */
  function DecodePair(hi: char, lo: char): (r: Option<byte>)
  {
    match DigitValue(hi)
    case None => None
    case Some(h) =>
      match DigitValue(lo)
      case None => None
      case Some(l) => Some(h * 16 + l)
  }

  /** Reference decoder, the inverse of `EncodeToString`: None on odd length or a non-digit. */
  function Decode(s: string): (r: Option<seq<byte>>)
    ensures r.Some? ==> |s| == 2 * |r.value|
  {
    if |s| == 0 then Some([])
    else if |s| == 1 then None
    else
      match DecodePair(s[0], s[1])
      case None => None
      case Some(b) =>
        match Decode(s[2..])
        case None => None
        case Some(rest) => Some([b] + rest)
  }

  lemma DigitOfAlphabet(n: nat)
    requires n < 16
    ensures DigitValue(Alphabet[n]) == Some(n)
  {
  }

  lemma PairOfByte(b: byte)
    ensures DecodePair(Alphabet[b / 16], Alphabet[b % 16]) == Some(b)
  {
    DigitOfAlphabet(b / 16);
    DigitOfAlphabet(b % 16);
  }

  /** Decoding an encoded key gives the bytes back. */
  lemma {:induction false} DecodeEncode(src: seq<byte>)
    ensures Decode(EncodeToString(src)) == Some(src)
  {
    if src != [] {
      var b := src[0];
      var s := EncodeToString(src);
      assert s == [Alphabet[b / 16], Alphabet[b % 16]] + EncodeToString(src[1..]);
      assert s[0] == Alphabet[b / 16] && s[1] == Alphabet[b % 16];
      assert s[2..] == EncodeToString(src[1..]);
      PairOfByte(b);
      DecodeEncode(src[1..]);
      assert [b] + src[1..] == src;
    }
  }

  /** Encoding a decoded lowercase string gives the string back. */
  lemma {:induction false} EncodeDecode(s: string)
    requires IsLowerHex(s) && |s| % 2 == 0
    ensures Decode(s).Some? && EncodeToString(Decode(s).value) == s
  {
    if |s| > 0 {
      assert s[0] in Alphabet && s[1] in Alphabet;
      var hi := DigitValue(s[0]).value;
      var lo := DigitValue(s[1]).value;
      var b: byte := hi * 16 + lo;
      assert DecodePair(s[0], s[1]) == Some(b);
      assert b / 16 == hi && b % 16 == lo;
      assert IsLowerHex(s[2..]) by {
        forall i | 0 <= i < |s[2..]| ensures s[2..][i] in Alphabet {
          assert s[2..][i] == s[i + 2];
        }
      }
      EncodeDecode(s[2..]);
      var rest := Decode(s[2..]).value;
      assert Decode(s) == Some([b] + rest);
      assert ([b] + rest)[1..] == rest;
      assert EncodeToString([b] + rest) == [s[0], s[1]] + s[2..];
      assert s == [s[0], s[1]] + s[2..];
    }
  }

  /** Distinct byte arrays give distinct keys. */
  lemma EncodeInjective(a: seq<byte>, b: seq<byte>)
    requires EncodeToString(a) == EncodeToString(b)
    ensures a == b
  {
    DecodeEncode(a);
    DecodeEncode(b);
  }
}
