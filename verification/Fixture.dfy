/** The chain-sync fixture and the cursor that walks it. */
module Fixture {
  import opened Text
  import opened Hex
  import opened Points

  datatype FixtureEntry = FixtureEntry(
    slot: u64, blockHash: HexText, blockNumber: u64, cborHex: HexText, variant: byte)

  datatype FixtureChain = FixtureChain(anchor: Point, entries: seq<FixtureEntry>)

  datatype Tip = Tip(point: Point, blockNumber: u64)

  function EntryPoint(e: FixtureEntry): Point {
    Specific(e.slot, DecodeHexOrEmpty(e.blockHash))
  }

  function TipOf(chain: FixtureChain): Tip {
    if chain.entries == [] then Tip(chain.anchor, 0)
    else
      var last := chain.entries[|chain.entries| - 1];
      Tip(EntryPoint(last), last.blockNumber)
  }

  /** The point at a cursor position: the anchor up to 0, entry `k - 1` at `k`. */
  function PointAt(chain: FixtureChain, pos: int): Point
    requires pos <= |chain.entries|
  {
    if pos <= 0 then chain.anchor else EntryPoint(chain.entries[pos - 1])
  }

  ghost predicate OnChain(chain: FixtureChain, p: Point) {
    p == chain.anchor || exists i :: 0 <= i < |chain.entries| && EntryPoint(chain.entries[i]) == p
  }

  /** Position of the first entry named by `p`, counting from 1, or 0 when there is none. */
  function EntryPos(entries: seq<FixtureEntry>, p: Point): (k: nat)
    ensures k <= |entries|
    ensures k > 0 ==> EntryPoint(entries[k - 1]) == p
    ensures k == 0 <==> forall i :: 0 <= i < |entries| ==> EntryPoint(entries[i]) != p
    ensures forall i :: 0 <= i < k - 1 ==> EntryPoint(entries[i]) != p
  {
    if entries == [] then 0
    else if EntryPoint(entries[0]) == p then 1
    else
      var rest := EntryPos(entries[1..], p);
      if rest == 0 then 0 else rest + 1
  }

  function PointToPos(chain: FixtureChain, p: Point): (k: Option<nat>)
    ensures k.Some? <==> OnChain(chain, p)
    ensures k.Some? ==> k.value <= |chain.entries| && PointAt(chain, k.value) == p
  {
    match p
    case Origin => if chain.anchor == Origin then Some(0) else None
    case Specific(_, _) =>
      if chain.anchor == p then Some(0)
      else
        var k := EntryPos(chain.entries, p);
        if k == 0 then None else Some(k)
  }

  /** `find_map` over the client's candidates in the client's order. */
  function FindIntersect(chain: FixtureChain, points: seq<Point>): Option<nat> {
    if points == [] then None
    else match PointToPos(chain, points[0])
      case Some(k) => Some(k)
      case None => FindIntersect(chain, points[1..])
  }

  /** The client's first on-chain candidate wins, whatever its height. */
  lemma {:induction false} FirstCandidateWins(chain: FixtureChain, points: seq<Point>, j: nat)
    requires j < |points| && OnChain(chain, points[j])
    requires forall i :: 0 <= i < j ==> !OnChain(chain, points[i])
    ensures var k := FindIntersect(chain, points);
      k == PointToPos(chain, points[j]) && k.value <= |chain.entries| && PointAt(chain, k.value) == points[j]
  {
    hide OnChain, EntryPos;
    if j > 0 {
      FirstCandidateWins(chain, points[1..], j - 1);
    }
  }

  lemma {:induction false} NoCandidate(chain: FixtureChain, points: seq<Point>)
    ensures FindIntersect(chain, points).None? <==> forall j :: 0 <= j < |points| ==> !OnChain(chain, points[j])
  {
    hide OnChain, EntryPos;
    if points != [] {
      NoCandidate(chain, points[1..]);
      assert forall j :: 0 < j < |points| ==> points[1..][j - 1] == points[j];
    }
  }

  lemma {:induction false} IntersectInRange(chain: FixtureChain, points: seq<Point>)
    ensures FindIntersect(chain, points).Some? ==> FindIntersect(chain, points).value <= |chain.entries|
  {
    if points != [] {
      IntersectInRange(chain, points[1..]);
    }
  }

  /** The position found is that of a candidate. */
  lemma {:induction false} IntersectNamesCandidate(chain: FixtureChain, points: seq<Point>)
    requires FindIntersect(chain, points).Some?
    ensures var k := FindIntersect(chain, points).value;
      k <= |chain.entries| && PointAt(chain, k) in points && OnChain(chain, PointAt(chain, k))
  {
    hide EntryPos, OnChain;
    if PointToPos(chain, points[0]).None? {
      IntersectNamesCandidate(chain, points[1..]);
    }
  }

  /** Where one step takes the cursor. */
  function AdvancedPos(chain: FixtureChain, pos: int): int {
    if pos + 1 > |chain.entries| then pos else pos + 1
  }

  /** The entry served by a step from `pos`: none at the tip, and none when the step only
      reaches the anchor. */
  function ServedFrom(chain: FixtureChain, pos: int): Option<FixtureEntry>
    requires -1 <= pos
  {
    if 0 <= pos < |chain.entries| then Some(chain.entries[pos]) else None
  }

  /** A traversal cursor; it starts before the anchor. */
  class Cursor {
    const chain: FixtureChain
    var pos: int

    ghost predicate Valid()
      reads this
    {
      -1 <= pos <= |chain.entries|
    }

    constructor (chain: FixtureChain)
      ensures Valid() && this.chain == chain && pos == -1
    {
      this.chain := chain;
      pos := -1;
    }

    method SetPos(newPos: int)
      requires -1 <= newPos <= |chain.entries|
      modifies this
      ensures Valid() && pos == newPos
      ensures forall points :: newPos >= 0 && FindIntersect(chain, points) == Some(newPos) ==>
        PointAt(chain, pos) in points && OnChain(chain, PointAt(chain, pos))
    {
      pos := newPos;
      forall points | newPos >= 0 && FindIntersect(chain, points) == Some(newPos)
        ensures PointAt(chain, pos) in points && OnChain(chain, PointAt(chain, pos))
      {
        IntersectNamesCandidate(chain, points);
      }
    }

    method CurrentPoint() returns (p: Point)
      requires Valid()
      ensures p == PointAt(chain, pos)
    {
      if pos <= 0 {
        p := chain.anchor;
      } else {
        var e := chain.entries[pos - 1];
        p := Specific(e.slot, DecodeHexOrEmpty(e.blockHash));
      }
    }

    method Advance() returns (e: Option<FixtureEntry>)
      requires Valid()
      modifies this
      ensures Valid()
      ensures pos == AdvancedPos(chain, old(pos)) && e == ServedFrom(chain, old(pos))
    {
      var next := pos + 1;
      if next > |chain.entries| {
        e := None;
      } else {
        pos := next;
        e := if pos == 0 then None else Some(chain.entries[pos - 1]);
      }
    }
  }
}
