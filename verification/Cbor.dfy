/** The minimal CBOR used for synthetic headers (sections 3.1 and 4.2.1 of RFC 8949). */
module Cbor {
  import opened Text

  function CborUint(v: u64): (b: Bytes)
    ensures 1 <= |b| <= 9
  {
    if v <= 23 then [v]
    else if v <= 0xFF then [0x18] + BigEndian(v, 1)
    else if v <= 0xFFFF then [0x19] + BigEndian(v, 2)
    else if v <= 0xFFFF_FFFF then [0x1a] + BigEndian(v, 4)
    else [0x1b] + BigEndian(v, 8)
  }

  /** How many argument bytes follow an initial byte of major type 0. */
  function ArgumentWidth(first: byte): Option<nat> {
    if first <= 23 then Some(0)
    else if first == 0x18 then Some(1)
    else if first == 0x19 then Some(2)
    else if first == 0x1a then Some(4)
    else if first == 0x1b then Some(8)
    else None
  }

  /** A general decoder of unsigned integers: it accepts every width, minimal or not,
      and returns the bytes that follow. */
  function DecodeUint(b: Bytes): (r: Option<(nat, Bytes)>)
    ensures r.Some? ==> |r.value.1| < |b|
  {
    if b == [] then None
    else match ArgumentWidth(b[0])
      case None => None
      case Some(w) =>
        if |b| < 1 + w then None
        else if w == 0 then Some((b[0], b[1..]))
        else Some((FromBigEndian(b[1..1 + w]), b[1 + w..]))
  }

  lemma DecodeOfTagged(tag: byte, w: nat, v: u64, rest: Bytes)
    requires ArgumentWidth(tag) == Some(w) && w > 0 && v < Pow256(w)
    ensures DecodeUint([tag] + BigEndian(v, w) + rest) == Some((v, rest))
  {
    var b := [tag] + BigEndian(v, w) + rest;
    BigEndianRoundTrip(v, w);
    assert b[1..1 + w] == BigEndian(v, w) && b[1 + w..] == rest;
  }

  lemma DecodeOfCborUint(v: u64, rest: Bytes)
    ensures DecodeUint(CborUint(v) + rest) == Some((v, rest))
  {
    Pow256Values();
    if v <= 23 { assert ([v] + rest)[1..] == rest; }
    else if v <= 0xFF { DecodeOfTagged(0x18, 1, v, rest); }
    else if v <= 0xFFFF { DecodeOfTagged(0x19, 2, v, rest); }
    else if v <= 0xFFFF_FFFF { DecodeOfTagged(0x1a, 4, v, rest); }
    else { DecodeOfTagged(0x1b, 8, v, rest); }
  }

  /** No encoding the decoder accepts for `v` is shorter. */
  lemma CborUintShortest(v: u64, other: Bytes)
    requires DecodeUint(other) == Some((v, []))
    ensures |CborUint(v)| <= |other|
  {
    Pow256Values();
    assert ArgumentWidth(other[0]).value == |other| - 1;
  }

  lemma CborUintPrefixFree(v: u64, w: u64)
    requires CborUint(v) <= CborUint(w)
    ensures v == w
  {
    var rest := CborUint(w)[|CborUint(v)|..];
    assert CborUint(w) == CborUint(v) + rest;
    DecodeOfCborUint(v, rest);
    assert CborUint(w) + [] == CborUint(w);
    DecodeOfCborUint(w, []);
  }

  // ---- headers -----------------------------------------------------------------

  /** `array(2)[ array(2)[block_number, slot], null ]`. */
  function SyntheticHeader(blockNumber: u64, slot: u64): Bytes {
    [0x82, 0x82] + CborUint(blockNumber) + CborUint(slot) + [0xf6]
  }

  /** What a reader of that shape gets: block number first, then slot. */
  function ReadHeader(b: Bytes): Option<(nat, nat)> {
    if |b| < 2 || b[0] != 0x82 || b[1] != 0x82 then None
    else match DecodeUint(b[2..])
      case None => None
      case Some((number, afterNumber)) =>
        match DecodeUint(afterNumber)
        case Some((slot, tail)) => if tail == [0xf6] then Some((number, slot)) else None
        case None => None
  }

  lemma HeaderRoundTrip(blockNumber: u64, slot: u64)
    ensures ReadHeader(SyntheticHeader(blockNumber, slot)) == Some((blockNumber, slot))
  {
    var number, tail := CborUint(blockNumber), CborUint(slot) + [0xf6];
    assert SyntheticHeader(blockNumber, slot) == [0x82, 0x82] + (number + tail);
    assert ([0x82, 0x82] + (number + tail))[2..] == number + tail;
    DecodeOfCborUint(blockNumber, tail);
    DecodeOfCborUint(slot, [0xf6]);
  }

  lemma HeaderInjective(n1: u64, s1: u64, n2: u64, s2: u64)
    requires SyntheticHeader(n1, s1) == SyntheticHeader(n2, s2)
    ensures n1 == n2 && s1 == s2
  {
    HeaderRoundTrip(n1, s1);
    HeaderRoundTrip(n2, s2);
  }
}
