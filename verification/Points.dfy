/** Chain points and their text form `origin` / `slot:hexhash`. */
module Points {
  import opened Text
  import opened Hex

  datatype Point = Origin | Specific(slot: u64, hash: Bytes)

  const ORIGIN_TEXT: Str := [0x6f, 0x72, 0x69, 0x67, 0x69, 0x6e]  // "origin"

  function PointToStr(p: Point): Str {
    match p
    case Origin => ORIGIN_TEXT
    case Specific(slot, hash) => Decimal(slot) + [COLON] + EncodeHex(hash)
  }

  /** Offset of the first `c` in `s`, or `|s|`. */
  function IndexOf(s: Str, c: byte): (i: nat)
    ensures i <= |s|
    ensures i < |s| ==> s[i] == c
    ensures forall j :: 0 <= j < i ==> s[j] != c
  {
    if s == [] || s[0] == c then 0 else 1 + IndexOf(s[1..], c)
  }

  function ParsePoint(s: Str): Option<Point> {
    if s == ORIGIN_TEXT then Some(Origin)
    else
      var i := IndexOf(s, COLON);
      if i == |s| then None
      else match (ParseU64(s[..i]), DecodeHex(s[i + 1..]))
        case (Some(slot), Some(hash)) => Some(Specific(slot, hash))
        case _ => None
  }

  lemma FirstColon(left: Str, right: Str)
    requires forall i :: 0 <= i < |left| ==> left[i] != COLON
    ensures IndexOf(left + [COLON] + right, COLON) == |left|
  {
    var s := left + [COLON] + right;
    assert s[|left|] == COLON;
    assert forall i :: 0 <= i < |left| ==> s[i] == left[i];
  }

  /** Every point survives being written and read back. */
  lemma PointRoundTrip(p: Point)
    ensures ParsePoint(PointToStr(p)) == Some(p)
  {
    match p
    case Origin =>
    case Specific(slot, hash) =>
      var left, right := Decimal(slot), EncodeHex(hash);
      var s := PointToStr(p);
      assert IsDigit(left[0]) && s[0] == left[0];
      assert s != ORIGIN_TEXT;
      FirstColon(left, right);
      ParseOfDecimal(slot);
      DecodeOfEncode(hash);
      assert s[..|left|] == left && s[|left| + 1..] == right;
  }

  lemma PointTextInjective(p: Point, q: Point)
    requires PointToStr(p) == PointToStr(q)
    ensures p == q
  {
    PointRoundTrip(p);
    PointRoundTrip(q);
  }
}
