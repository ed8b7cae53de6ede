/** The text and byte forms, read off position by position: which characters stand for which
    bytes, and which texts are points. */
module Notation {
  import opened Text
  import opened Hex
  import opened Points
  import opened Cbor

  /** `c` writes the digit `v`: in lower case, or in upper case. */
  ghost predicate Lower(c: byte, v: nat) {
    v < 16 && c == "0123456789abcdef"[v] as int
  }

  ghost predicate Upper(c: byte, v: nat) {
    v < 16 && c == "0123456789ABCDEF"[v] as int
  }

  /** Two characters that read as the byte `v`: two digits of either case, or a plus sign and
      one digit. */
  ghost predicate Reads(a: byte, c: byte, v: nat) {
    exists hi: nat, lo: nat {:trigger Lower(a, hi), Lower(c, lo)} {:trigger Upper(a, hi), Upper(c, lo)} ::
      && (Lower(c, lo) || Upper(c, lo))
      && (((Lower(a, hi) || Upper(a, hi)) && v == 16 * hi + lo) || (a == '+' as int && hi == 0 && v == lo))
  }

  lemma DigitWritten(c: byte, v: nat)
    ensures DigitValue(c) == Some(v) <==> Lower(c, v) || Upper(c, v)
    ensures v < 16 ==> Lower(HexDigit(v), v)
  {
  }

  lemma PairReads(a: byte, c: byte, v: byte)
    ensures PairValue(a, c) == Some(v) <==> Reads(a, c, v)
  {
    hide Lower, Upper;
    forall x: nat ensures DigitValue(a) == Some(x) <==> Lower(a, x) || Upper(a, x) { DigitWritten(a, x); }
    forall x: nat ensures DigitValue(c) == Some(x) <==> Lower(c, x) || Upper(c, x) { DigitWritten(c, x); }
    if PairValue(a, c) == Some(v) {
      var lo := DigitValue(c).value;
      var hi := if DigitValue(a).Some? then DigitValue(a).value else 0;
      assert Lower(c, lo) || Upper(c, lo);
    }
  }

  /** Encoded text: two lower-case digits a byte, the high one first. */
  lemma {:induction false} EncodeAt(b: Bytes, i: nat)
    requires i < |b|
    ensures Lower(EncodeHex(b)[2 * i], b[i] / 16) && Lower(EncodeHex(b)[2 * i + 1], b[i] % 16)
  {
    DigitWritten(0, b[i] / 16);
    DigitWritten(0, b[i] % 16);
    hide Lower;
    if i > 0 {
      EncodeAt(b[1..], i - 1);
      assert EncodeHex(b)[2..] == EncodeHex(b[1..]);
    }
  }

  ghost predicate AllRead(s: Str, b: Bytes) {
    |s| == 2 * |b| && forall i :: 0 <= i < |b| ==> Reads(s[2 * i], s[2 * i + 1], b[i])
  }

  lemma AllReadStep(s: Str, b: Bytes)
    requires |s| >= 2 && b != []
    ensures AllRead(s, b) <==> Reads(s[0], s[1], b[0]) && AllRead(s[2..], b[1..])
  {
    hide Reads;
    if |s| == 2 * |b| {
      assert forall i :: 0 <= i < |b| - 1 ==>
        b[1..][i] == b[i + 1] && s[2..][2 * i] == s[2 * (i + 1)] && s[2..][2 * i + 1] == s[2 * (i + 1) + 1];
      if Reads(s[0], s[1], b[0]) && AllRead(s[2..], b[1..]) {
        forall i | 0 <= i < |b| ensures Reads(s[2 * i], s[2 * i + 1], b[i]) {
          if i > 0 { assert Reads(s[2..][2 * (i - 1)], s[2..][2 * (i - 1) + 1], b[1..][i - 1]); }
        }
      }
      if AllRead(s, b) {
        assert Reads(s[2 * 0], s[2 * 0 + 1], b[0]);
        forall i | 0 <= i < |b| - 1 ensures Reads(s[2..][2 * i], s[2..][2 * i + 1], b[1..][i]) {
          assert Reads(s[2 * (i + 1)], s[2 * (i + 1) + 1], b[i + 1]);
        }
      }
    }
  }

  lemma DecodeStep(s: Str, b: Bytes)
    requires |s| >= 2 && b != []
    ensures DecodeHex(s) == Some(b) <==> PairValue(s[0], s[1]) == Some(b[0]) && DecodeHex(s[2..]) == Some(b[1..])
  {
    hide PairValue;
    assert b == [b[0]] + b[1..];
  }

  /** The checking decoder accepts exactly the texts of even length whose pairs all read as
      bytes, and returns those bytes in order. */
  lemma {:induction false} DecodeExactly(s: Str, b: Bytes)
    ensures DecodeHex(s) == Some(b) <==>
      |s| == 2 * |b| && forall i :: 0 <= i < |b| ==> Reads(s[2 * i], s[2 * i + 1], b[i])
  {
    assert AllRead(s, b) <==> |s| == 2 * |b| && forall i :: 0 <= i < |b| ==> Reads(s[2 * i], s[2 * i + 1], b[i]);
    if |s| < 2 || b == [] {
      NothingToDecode(s, b);
    } else {
      DecodeExactly(s[2..], b[1..]);
      AllReadStep(s, b);
      hide AllRead, Reads, PairValue, DecodeHex;
      PairReads(s[0], s[1], b[0]);
      DecodeStep(s, b);
    }
  }

  lemma NothingToDecode(s: Str, b: Bytes)
    requires |s| < 2 || b == []
    ensures DecodeHex(s) == Some(b) <==> s == [] && b == []
  {
  }

  /** What the other two decoders make of text that does not decode: the one gives up on all
      of it, the other drops the pairs that do not read. */
  lemma {:induction false} BadText(s: HexText)
    ensures DecodeHex(s).None? ==> DecodeHexOrEmpty(s) == []
    ensures DecodeHex(s).Some? ==> DecodeHexOrEmpty(s) == DecodeHexLossy(s) == DecodeHex(s).value
    ensures |DecodeHexLossy(s)| <= |s| / 2
    ensures DecodeHex(s).None? <==> |DecodeHexLossy(s)| < |s| / 2
  {
    hide PairValue;
    if s != [] { BadText(s[2..]); }
  }

  lemma LossyStep(s: HexText)
    requires s != []
    ensures DecodeHexLossy(s) == DecodeHexLossy(s[..2]) + DecodeHexLossy(s[2..])
  {
    hide PairValue;
    assert s[..2][2..] == [];
  }

  lemma {:induction false} LossyConcat(s: HexText, t: HexText)
    requires |s + t| % 2 == 0
    ensures DecodeHexLossy(s + t) == DecodeHexLossy(s) + DecodeHexLossy(t)
  {
    if s == [] {
      assert s + t == t && DecodeHexLossy(s) == [];
    } else {
      hide DecodeHexLossy;
      LossyConcat(s[2..], t);
      LossyStep(s);
      LossyStep(s + t);
      assert (s + t)[2..] == s[2..] + t && (s + t)[..2] == s[..2];
      Regroup(DecodeHexLossy(s[..2]), DecodeHexLossy(s[2..]), DecodeHexLossy(t));
    }
  }

  lemma Regroup(a: Bytes, b: Bytes, c: Bytes)
    ensures a + (b + c) == a + b + c
  {
  }

  /** A single pair, read or dropped. */
  lemma LossyPair(a: byte, c: byte)
    ensures forall v: byte :: Reads(a, c, v) ==> DecodeHexLossy([a, c]) == [v]
    ensures (forall v: byte :: !Reads(a, c, v)) ==> DecodeHexLossy([a, c]) == []
  {
    hide Reads, PairValue;
    forall v: byte ensures PairValue(a, c) == Some(v) <==> Reads(a, c, v) { PairReads(a, c, v); }
    assert [a, c][2..] == [];
  }

  ghost predicate FirstColonAt(s: Str, i: nat) {
    i < |s| && s[i] == ':' as int && forall j :: 0 <= j < i ==> s[j] != ':' as int
  }

  lemma ColonFound(s: Str, i: nat)
    ensures FirstColonAt(s, i) <==> IndexOf(s, COLON) == i < |s|
  {
  }

  lemma OriginText()
    ensures Ascii("origin") == ORIGIN_TEXT
    ensures IndexOf(ORIGIN_TEXT, COLON) == |ORIGIN_TEXT|
  {
    assert forall i :: 0 <= i < |ORIGIN_TEXT| ==> ORIGIN_TEXT[i] != COLON;
  }

  /** A text is a specific point exactly when what stands before its first colon is a 64-bit
      number and what stands after it is hex; `origin` is the origin. */
  lemma PointExactly(s: Str, slot: u64, hash: Bytes)
    ensures ParsePoint(s) == Some(Origin) <==> s == Ascii("origin")
    ensures ParsePoint(s) == Some(Specific(slot, hash)) <==>
      exists i: nat :: FirstColonAt(s, i) && ParseU64(s[..i]) == Some(slot) && DecodeHex(s[i + 1..]) == Some(hash)
  {
    hide ParseU64, DecodeHex, FirstColonAt, IndexOf, Ascii;
    OriginText();
    forall i: nat ensures FirstColonAt(s, i) <==> IndexOf(s, COLON) == i < |s| { ColonFound(s, i); }
    if ParsePoint(s) == Some(Specific(slot, hash)) { assert FirstColonAt(s, IndexOf(s, COLON)); }
  }

  /** Numbers the encoder does not write: a plus sign is read over, too large a number is
      refused. */
  lemma NumberTexts(n: nat)
    ensures n <= U64_MAX ==> ParseU64(Decimal(n)) == Some(n) == ParseU64([PLUS] + Decimal(n))
    ensures n > U64_MAX ==> ParseU64(Decimal(n)) == None == ParseU64([PLUS] + Decimal(n))
  {
    DecimalValueOfDecimal(n);
    assert IsDigit(Decimal(n)[0]);
    var signed := [PLUS] + Decimal(n);
    assert signed[1..] == Decimal(n) && |signed| > 1;
  }

  /** Anything but digits is refused, save one plus sign in front of some. */
  lemma NotNumbers(s: Str, i: nat)
    requires i < |s| && !IsDigit(s[i]) && (i > 0 || s[i] != '+' as int || |s| == 1)
    ensures ParseU64(s) == None == ParseU64([])
  {
    var signed := |s| > 1 && s[0] == PLUS;
    var digits, k := if signed then s[1..] else s, if signed then i - 1 else i;
    assert 0 <= k < |digits| && !IsDigit(digits[k]);
  }

  lemma {:induction false} NoLeadingZero(n: nat)
    ensures Decimal(n)[0] == '0' as int ==> n == 0
  {
    if n >= 10 { NoLeadingZero(n / 10); }
  }

  /** Some texts and bytes in full. */
  lemma WrittenNumbers()
    ensures Decimal(138) == Ascii("138") && Decimal(62) == Ascii("62") && Decimal(0) == Ascii("0")
  {
    assert Decimal(13) == [0x31, 0x33];
  }

  lemma {:induction false} ZeroBytes(n: nat)
    ensures BigEndian(0, n) == Zeros(n)
  {
    if n > 0 { ZeroBytes(n - 1); }
  }

  /** The low byte last, zeros in front. */
  lemma SmallBigEndian(v: byte, n: nat)
    requires n > 0
    ensures BigEndian(v, n) == Zeros(n - 1) + [v]
  {
    ZeroBytes(n - 1);
  }

  lemma WrittenBytes()
    ensures BigEndian(0x0102, 2) == [1, 2]
    ensures CborUint(23) == [23] && CborUint(24) == [0x18, 24] && CborUint(500) == [0x19, 0x01, 0xf4]
    ensures SyntheticHeader(0, 138) == [0x82, 0x82, 0x00, 0x18, 0x8a, 0xf6]
  {
    SmallBigEndian(24, 1);
    SmallBigEndian(138, 1);
    SmallBigEndian(1, 1);
    assert 500 / 0x100 == 1 && 500 % 0x100 == 0xf4;
    assert BigEndian(500, 2) == BigEndian(1, 1) + [0xf4];
    assert BigEndian(0x0102, 2) == BigEndian(1, 1) + [2];
    hide BigEndian;
  }
}
