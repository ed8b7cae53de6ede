/** Hexadecimal text: `encode_hex` and the three decoders of the harness. */
module Hex {
  import opened Text

  function HexDigit(n: nat): byte
    requires n < 16
  {
    if n < 10 then 0x30 + n else 0x57 + n
  }

  /** One digit as `from_str_radix(.., 16)` reads it: both cases are accepted. */
  function DigitValue(c: byte): (r: Option<nat>)
    ensures r.Some? ==> r.value < 16
  {
    if 0x30 <= c <= 0x39 then Some(c - 0x30)
    else if 0x61 <= c <= 0x66 then Some(c - 0x57)
    else if 0x41 <= c <= 0x46 then Some(c - 0x37)
    else None
  }

  /** `u8::from_str_radix` on two bytes; like every Rust integer parser it takes a
      leading plus sign. */
  function PairValue(a: byte, c: byte): Option<byte> {
    match (DigitValue(a), DigitValue(c))
    case (Some(hi), Some(lo)) => Some(16 * hi + lo)
    case (None, Some(lo)) => if a == PLUS then Some(lo) else None
    case (_, None) => None
  }

  function EncodeHex(b: Bytes): (s: Str)
    ensures |s| == 2 * |b|
  {
    if b == [] then [] else [HexDigit(b[0] / 16), HexDigit(b[0] % 16)] + EncodeHex(b[1..])
  }

  /** The checking decoder: fails on odd length and on any pair that is not hex. */
  function DecodeHex(s: Str): (r: Option<Bytes>)
    ensures r.Some? ==> |s| == 2 * |r.value|
  {
    if s == [] then Some([])
    else if |s| == 1 then None
    else match (PairValue(s[0], s[1]), DecodeHex(s[2..]))
      case (Some(v), Some(rest)) => Some([v] + rest)
      case _ => None
  }

  /** The chain-sync fixture's decoder: any error yields the empty string. */
  function DecodeHexOrEmpty(s: Str): Bytes {
    match DecodeHex(s)
    case Some(b) => b
    case None => []
  }

  /** Text of even length. On an odd length the next decoder would slice past the end
      of its input and panic. */
  type HexText = s: Str | |s| % 2 == 0

  /** The block store's decoder: bad pairs are dropped. */
  function DecodeHexLossy(s: HexText): Bytes {
    if s == [] then []
    else match PairValue(s[0], s[1])
      case Some(v) => [v] + DecodeHexLossy(s[2..])
      case None => DecodeHexLossy(s[2..])
  }

  lemma PairOfByte(v: byte)
    ensures PairValue(HexDigit(v / 16), HexDigit(v % 16)) == Some(v)
  {
  }

  lemma {:induction false} DecodeOfEncode(b: Bytes)
    ensures DecodeHex(EncodeHex(b)) == Some(b)
    ensures DecodeHexOrEmpty(EncodeHex(b)) == b
    ensures DecodeHexLossy(EncodeHex(b)) == b
  {
    if b != [] {
      PairOfByte(b[0]);
      DecodeOfEncode(b[1..]);
      assert EncodeHex(b)[2..] == EncodeHex(b[1..]);
      assert [b[0]] + b[1..] == b;
    }
  }

  predicate IsLowerHex(c: byte) {
    0x30 <= c <= 0x39 || 0x61 <= c <= 0x66
  }

  predicate LowerHex(s: Str) {
    forall i :: 0 <= i < |s| ==> IsLowerHex(s[i])
  }

  /** Decoding forgets letter case and the stray plus sign and nothing else: encoding
      again gives the same text exactly when it was lower-case hex to begin with. */
  lemma {:induction false} EncodeOfDecode(s: Str)
    requires DecodeHex(s).Some?
    ensures EncodeHex(DecodeHex(s).value) == s <==> LowerHex(s)
  {
    if s != [] {
      var v, rest := PairValue(s[0], s[1]).value, DecodeHex(s[2..]).value;
      EncodeOfDecode(s[2..]);
      LowerHexCons(s);
      EncodeCons(v, rest);
      hide DecodeHex, EncodeHex, LowerHex;
      PairLower(s[0], s[1], v);
      assert DecodeHex(s).value == [v] + rest;
      assert s == [s[0], s[1]] + s[2..];
      assert EncodeHex([v] + rest) == s <==> [HexDigit(v / 16), HexDigit(v % 16)] == [s[0], s[1]] && EncodeHex(rest) == s[2..] by {
        SplitTwo([HexDigit(v / 16), HexDigit(v % 16)], EncodeHex(rest), [s[0], s[1]], s[2..]);
      }
    }
  }

  lemma SplitTwo(a: Str, b: Str, c: Str, d: Str)
    requires |a| == |c|
    ensures a + b == c + d <==> a == c && b == d
  {
    if a + b == c + d {
      assert (a + b)[..|a|] == a && (c + d)[..|a|] == c;
      assert (a + b)[|a|..] == b && (c + d)[|a|..] == d;
    }
  }

  lemma EncodeCons(v: byte, rest: Bytes)
    ensures EncodeHex([v] + rest) == [HexDigit(v / 16), HexDigit(v % 16)] + EncodeHex(rest)
  {
    assert ([v] + rest)[1..] == rest;
  }

  lemma LowerHexCons(s: Str)
    requires |s| >= 2
    ensures LowerHex(s) <==> IsLowerHex(s[0]) && IsLowerHex(s[1]) && LowerHex(s[2..])
  {
    assert s == [s[0], s[1]] + s[2..];
  }

  lemma PairLower(a: byte, c: byte, v: byte)
    requires PairValue(a, c) == Some(v)
    ensures [HexDigit(v / 16), HexDigit(v % 16)] == [a, c] <==> IsLowerHex(a) && IsLowerHex(c)
  {
  }
}
