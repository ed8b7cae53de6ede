/** Theorems about what production rules do to a chain. */
module ProductionTheorems {
  import opened Text
  import opened Cbor
  import opened Points
  import opened Schedule
  import opened Production
  import Declaration
  import Hex

  // ---- time may be cut anywhere ----------------------------------------------------

  lemma {:induction false} ProduceAllConcat(h: HashFn, id: Str, peer: Peer, s: seq<u64>, t: seq<u64>)
    ensures ProduceAll(h, id, peer, s + t) == ProduceAll(h, id, ProduceAll(h, id, peer, s), t)
    ensures EventsAll(h, id, peer, s + t)
         == EventsAll(h, id, peer, s) + EventsAll(h, id, ProduceAll(h, id, peer, s), t)
  {
    hide ProduceAll, EventsAll, ProduceAt, EventAt;
    if t == [] {
      assert s + t == s;
      ProduceNone(h, id, ProduceAll(h, id, peer, s));
      assert EventsAll(h, id, peer, s) + [] == EventsAll(h, id, peer, s);
    } else {
      var init, last := t[..|t| - 1], t[|t| - 1];
      ProduceAllConcat(h, id, peer, s, init);
      assert t == init + [last] && s + t == (s + init) + [last];
      ProduceOneMore(h, id, peer, s + init, last);
      ProduceOneMore(h, id, ProduceAll(h, id, peer, s), init, last);
    }
  }

  lemma ProduceNone(h: HashFn, id: Str, peer: Peer)
    ensures ProduceAll(h, id, peer, []) == peer && EventsAll(h, id, peer, []) == []
  {
  }

  lemma ProduceOneMore(h: HashFn, id: Str, peer: Peer, slots: seq<u64>, last: u64)
    ensures ProduceAll(h, id, peer, slots + [last]) == ProduceAt(h, id, ProduceAll(h, id, peer, slots), last)
    ensures EventsAll(h, id, peer, slots + [last])
         == EventsAll(h, id, peer, slots) + [EventAt(h, id, ProduceAll(h, id, peer, slots), last)]
  {
    hide ProduceAt, EventAt;
    assert (slots + [last])[..|slots|] == slots;
  }

  /** Producing over `(a, b]` and then over `(b, c]` is producing over `(a, c]`:
      same chain, same block store, same events. */
  lemma SplitInvariance(h: HashFn, id: Str, peer: Peer, a: int, b: int, c: int)
    requires -1 <= a <= b <= c <= U64_MAX
    ensures Produce(h, id, Produce(h, id, peer, a, b), b, c) == Produce(h, id, peer, a, c)
    ensures ProductionEvents(h, id, peer, a, b) + ProductionEvents(h, id, Produce(h, id, peer, a, b), b, c)
         == ProductionEvents(h, id, peer, a, c)
  {
    FiringSplit(RuleOf(peer), a, b, c);
    ProduceAllConcat(h, id, peer, FiringSlots(RuleOf(peer), a, b), FiringSlots(RuleOf(peer), b, c));
  }

  lemma ProduceStep(h: HashFn, id: Str, peer: Peer, a: int, c: int)
    requires -1 <= a < c <= U64_MAX
    ensures var before := Produce(h, id, peer, a, c - 1);
      Produce(h, id, peer, a, c) == if FiresAt(RuleOf(peer), c) then ProduceAt(h, id, before, c) else before
  {
    hide ProduceAt, FiresAt;
    var before, all := FiringSlots(RuleOf(peer), a, c - 1), FiringSlots(RuleOf(peer), a, c);
    if FiresAt(RuleOf(peer), c) {
      assert all == before + [c] && all[..|all| - 1] == before;
    } else {
      assert all == before;
    }
  }

  // ---- the shape of produced entries -------------------------------------------------

  /** Entry `j` is the block its peer makes on top of the first `j` entries, it extends
      the chain in time, and its body is stored. */
  ghost predicate IsProduced(h: HashFn, id: Str, peer: Peer, j: nat)
    requires j < |peer.chain|
  {
    var e := peer.chain[j];
    && e == NewEntry(h, ContextOf(RuleOf(peer)), id, e.slot, peer.chain[..j])
    && !Covered(peer.chain[..j], e.slot)
    && FiresAt(RuleOf(peer), e.slot)
    && (e.slot, e.blockHash) in peer.store
    && peer.store[(e.slot, e.blockHash)] == EMPTY_BODY
  }

  lemma ProduceAtShape(h: HashFn, id: Str, peer: Peer, slot: u64)
    requires FiresAt(RuleOf(peer), slot)
    ensures var after := ProduceAt(h, id, peer, slot);
      && peer.chain <= after.chain && |after.chain| <= |peer.chain| + 1
      && (|after.chain| > |peer.chain| ==>
            IsProduced(h, id, after, |peer.chain|) && after.chain[|peer.chain|].slot == slot)
      && forall j :: 0 <= j < |peer.chain| && IsProduced(h, id, peer, j) ==> IsProduced(h, id, after, j)
  {
    var after := ProduceAt(h, id, peer, slot);
    if !Covered(peer.chain, slot) {
      assert after.chain[..|peer.chain|] == peer.chain;
      forall j | 0 <= j < |peer.chain| && IsProduced(h, id, peer, j) ensures IsProduced(h, id, after, j) {
        assert after.chain[..j] == peer.chain[..j];
      }
    }
  }

  /** Old entries stay as a prefix and every new one `IsProduced`. */
  ghost predicate Extends(h: HashFn, id: Str, peer: Peer, after: Peer) {
    && after.rule == peer.rule
    && peer.chain <= after.chain
    && forall j :: |peer.chain| <= j < |after.chain| ==> IsProduced(h, id, after, j)
  }

  lemma {:induction false} ProducedEntries(h: HashFn, id: Str, peer: Peer, start: int, upTo: int)
    requires -1 <= start <= upTo <= U64_MAX
    ensures Extends(h, id, peer, Produce(h, id, peer, start, upTo))
    ensures forall j :: |peer.chain| <= j < |Produce(h, id, peer, start, upTo).chain| ==>
      start < Produce(h, id, peer, start, upTo).chain[j].slot <= upTo
    decreases upTo
  {
    hide IsProduced, ProduceAt;
    if start < upTo {
      ProducedEntries(h, id, peer, start, upTo - 1);
      ProduceStep(h, id, peer, start, upTo);
      var before, after := Produce(h, id, peer, start, upTo - 1), Produce(h, id, peer, start, upTo);
      if FiresAt(RuleOf(peer), upTo) {
        ProduceAtShape(h, id, before, upTo);
        forall j | |peer.chain| <= j < |after.chain|
          ensures start < after.chain[j].slot <= upTo && IsProduced(h, id, after, j)
        {
          if j < |before.chain| { assert after.chain[j] == before.chain[j]; }
        }
      }
    }
  }

  ghost predicate KeyOfNew(peer: Peer, after: Peer, key: BlockKey) {
    exists j :: |peer.chain| <= j < |after.chain| && (after.chain[j].slot, after.chain[j].blockHash) == key
  }

  ghost predicate StoredOrKept(peer: Peer, after: Peer, key: BlockKey) {
    && (KeyOfNew(peer, after, key) ==> key in after.store && after.store[key] == EMPTY_BODY)
    && (!KeyOfNew(peer, after, key) ==> (key in after.store <==> key in peer.store))
    && (!KeyOfNew(peer, after, key) && key in peer.store ==> after.store[key] == peer.store[key])
  }

  lemma StoredOrKeptAt(h: HashFn, id: Str, peer: Peer, slot: u64, key: BlockKey)
    ensures StoredOrKept(peer, ProduceAt(h, id, peer, slot), key)
  {
    hide SyntheticHeader, BlockPreimage, ContextOf;
    var after := ProduceAt(h, id, peer, slot);
    if Covered(peer.chain, slot) {
      NothingNew(peer, key);
    } else {
      var entry := after.chain[|peer.chain|];
      assert after.store == peer.store[(slot, entry.blockHash) := EMPTY_BODY];
      assert KeyOfNew(peer, after, key) <==> (slot, entry.blockHash) == key;
    }
  }

  /** Production stores an empty body under the key of each entry it adds and touches no
      other key. */
  lemma {:induction false} StoreFrame(h: HashFn, id: Str, peer: Peer, start: int, upTo: int, key: BlockKey)
    requires -1 <= start <= upTo <= U64_MAX
    ensures StoredOrKept(peer, Produce(h, id, peer, start, upTo), key)
    decreases upTo
  {
    hide IsProduced, ProduceAt, KeyOfNew;
    var before, after := peer, Produce(h, id, peer, start, upTo);
    if start < upTo {
      before := Produce(h, id, peer, start, upTo - 1);
      StoreFrame(h, id, peer, start, upTo - 1, key);
      ProduceStep(h, id, peer, start, upTo);
      ProducedEntries(h, id, peer, start, upTo - 1);
      if FiresAt(RuleOf(peer), upTo) {
        StoredOrKeptAt(h, id, before, upTo, key);
        ProduceAtShape(h, id, before, upTo);
        KeyOfNewStep(peer, before, after, key);
      }
    } else {
      NothingNew(peer, key);
    }
  }

  lemma NothingNew(peer: Peer, key: BlockKey)
    ensures !KeyOfNew(peer, peer, key)
  {
  }

  lemma KeyOfNewStep(peer: Peer, before: Peer, after: Peer, key: BlockKey)
    requires |peer.chain| <= |before.chain|
    requires before.chain <= after.chain && |after.chain| <= |before.chain| + 1
    ensures KeyOfNew(peer, after, key) <==> KeyOfNew(peer, before, key) || KeyOfNew(before, after, key)
  {
    assert forall j :: 0 <= j < |before.chain| ==> after.chain[j] == before.chain[j];
  }

  /** The skipped slots are exactly those the chain had reached; afterwards the tip is
      at or past the last slot that fired. */
  lemma {:induction false} TipReached(h: HashFn, id: Str, peer: Peer, a: int, c: int, x: u64)
    requires -1 <= a < x <= c <= U64_MAX && FiresAt(RuleOf(peer), x)
    ensures Covered(Produce(h, id, peer, a, c).chain, x)
    decreases c
  {
    hide ProduceAt, Covered, FiresAt, Produce;
    ProduceStep(h, id, peer, a, c);
    CoverageGrows(h, id, Produce(h, id, peer, a, c - 1), c, x);
    if x < c {
      TipReached(h, id, peer, a, c - 1, x);
    }
  }

  lemma CoverageGrows(h: HashFn, id: Str, peer: Peer, slot: u64, x: u64)
    requires x <= slot
    ensures x == slot || Covered(peer.chain, x) ==> Covered(ProduceAt(h, id, peer, slot).chain, x)
  {
    hide SyntheticHeader, BlockPreimage, ContextOf;
  }

  // ---- preimages -----------------------------------------------------------------------

  /** With predecessor hashes of equal length the preimage determines all three parts. */
  lemma PreimageInjective(id1: Str, slot1: u64, prev1: Bytes, id2: Str, slot2: u64, prev2: Bytes)
    requires |prev1| == |prev2|
    ensures Preimage(id1, slot1, prev1) == Preimage(id2, slot2, prev2)
       <==> id1 == id2 && slot1 == slot2 && prev1 == prev2
  {
    var p, q := Preimage(id1, slot1, prev1), Preimage(id2, slot2, prev2);
    if p == q {
      var n := |id1|;
      assert p[..n] == id1 && q[..n] == id2;
      assert p[n..n + 8] == BigEndian(slot1, 8) && q[n..n + 8] == BigEndian(slot2, 8);
      assert p[n + 8..] == prev1 && q[n + 8..] == prev2;
      SlotBytesInjective(slot1, slot2);
    }
  }

  /** Under one id and slot the predecessor is determined whatever its length. */
  lemma SameIdPreimage(id: Str, slot: u64, p: Bytes, q: Bytes)
    ensures Preimage(id, slot, p) == Preimage(id, slot, q) <==> p == q
  {
    assert Preimage(id, slot, p)[|id| + 8..] == p && Preimage(id, slot, q)[|id| + 8..] == q;
  }

  /** Across ids it takes equal lengths: here the three parts run together. */
  lemma PreimageAmbiguous()
    ensures Preimage([], 1, [5]) == Preimage([0], 261, [])
  {
    hide BigEndian, Zeros;
    var z := Zeros(6);
    LowBytes(0, 1);
    LowBytes(1, 5);
    ZerosAtEnd(6);
    assert [] + (z + [0, 1]) + [5] == (z + [0]) + [1, 5];
    assert [0] + (z + [1, 5]) + [] == ([0] + z) + [1, 5];
  }

  lemma LowBytes(hi: byte, lo: byte)
    ensures BigEndian(hi * 0x100 + lo, 8) == Zeros(6) + [hi, lo]
  {
    ZeroBytes(6);
    assert BigEndian(hi, 7) == BigEndian(0, 6) + [hi];
  }

  lemma {:induction false} ZeroBytes(n: nat)
    ensures BigEndian(0, n) == Zeros(n)
  {
    if n > 0 {
      ZeroBytes(n - 1);
      ZerosAtEnd(n - 1);
    }
  }

  lemma {:induction false} ZerosAtEnd(n: nat)
    ensures Zeros(n) + [0] == [0] + Zeros(n)
  {
    if n > 0 { ZerosAtEnd(n - 1); }
  }

  /** Peers share the canonical pre-fork identity exactly when their timing agrees. */
  lemma CanonicalRootInjective(f1: u64, i1: u64, k1: u64, f2: u64, i2: u64, k2: u64)
    ensures CanonicalRoot(f1, i1, k1) == CanonicalRoot(f2, i2, k2) <==> f1 == f2 && i1 == i2 && k1 == k2
  {
    var r1, r2 := CanonicalRoot(f1, i1, k1), CanonicalRoot(f2, i2, k2);
    if r1 == r2 {
      var t1, t2 := Decimal(i1) + [COLON] + Decimal(k1), Decimal(i2) + [COLON] + Decimal(k2);
      SplitAtColon(f1, t1, f2, t2);
      SplitAtColon(i1, Decimal(k1), i2, Decimal(k2));
      DecimalValueOfDecimal(k1);
      DecimalValueOfDecimal(k2);
    }
  }

  lemma SplitAtColon(m: nat, s: Str, n: nat, t: Str)
    requires Decimal(m) + [COLON] + s == Decimal(n) + [COLON] + t
    ensures m == n && s == t
  {
    var a, b := Decimal(m) + [COLON] + s, Decimal(n) + [COLON] + t;
    FirstColon(Decimal(m), s);
    FirstColon(Decimal(n), t);
    assert a[..|Decimal(m)|] == Decimal(m) && b[..|Decimal(n)|] == Decimal(n);
    assert a[|Decimal(m)| + 1..] == s && b[|Decimal(n)| + 1..] == t;
    DecimalValueOfDecimal(m);
    DecimalValueOfDecimal(n);
  }

  /** Two different byte strings with the same hash. */
  ghost predicate Collision(h: HashFn, x: Bytes, y: Bytes) {
    x != y && h(x) == h(y)
  }

  // ---- two peers with the same timing ------------------------------------------------

  ghost predicate SameButHash(x: ChainEntry, y: ChainEntry) {
    x == y.(blockHash := x.blockHash)
  }

  ghost predicate Twins(a: seq<ChainEntry>, b: seq<ChainEntry>) {
    |a| == |b| && forall j :: 0 <= j < |a| ==> SameButHash(a[j], b[j])
  }

  ghost predicate SameFirings(r: ProductionRule, s: ProductionRule) {
    forall x: u64 :: FiresAt(r, x) <==> FiresAt(s, x)
  }

  lemma TwinEntries(h: HashFn, idA: Str, a: Peer, idB: Str, b: Peer, slot: u64)
    requires Twins(a.chain, b.chain)
    ensures Twins(ProduceAt(h, idA, a, slot).chain, ProduceAt(h, idB, b, slot).chain)
  {
    hide SyntheticHeader, BlockPreimage;
    if a.chain != [] {
      assert SameButHash(a.chain[|a.chain| - 1], b.chain[|b.chain| - 1]);
    }
  }

  /** Equal timing and twin starts give twin chains: only hashes can differ. */
  lemma {:induction false} TwinsStayTwins(h: HashFn, idA: Str, a: Peer, idB: Str, b: Peer, start: int, upTo: int)
    requires -1 <= start <= upTo <= U64_MAX
    requires SameFirings(RuleOf(a), RuleOf(b)) && Twins(a.chain, b.chain)
    ensures Twins(Produce(h, idA, a, start, upTo).chain, Produce(h, idB, b, start, upTo).chain)
    decreases upTo
  {
    hide ProduceAt, Twins, FiresAt;
    if start < upTo {
      TwinsStayTwins(h, idA, a, idB, b, start, upTo - 1);
      ProduceStep(h, idA, a, start, upTo);
      ProduceStep(h, idB, b, start, upTo);
      assert FiresAt(RuleOf(a), upTo) <==> FiresAt(RuleOf(b), upTo);
      TwinEntries(h, idA, Produce(h, idA, a, start, upTo - 1), idB, Produce(h, idB, b, start, upTo - 1), upTo);
    }
  }

  /** The byte string whose hash names entry `j`, as the peer's rule prescribes it. */
  ghost function HashedBytes(id: Str, peer: Peer, j: nat): Bytes
    requires j < |peer.chain|
  {
    BlockPreimage(ContextOf(RuleOf(peer)), id, peer.chain[j].slot, peer.chain[..j])
  }

  lemma ProducedHash(h: HashFn, id: Str, peer: Peer, j: nat)
    requires j < |peer.chain| && IsProduced(h, id, peer, j)
    ensures peer.chain[j].blockHash == h(HashedBytes(id, peer, j))
    ensures !Covered(peer.chain[..j], peer.chain[j].slot)
  {
    hide SyntheticHeader, BlockPreimage;
  }

  ghost predicate SameInputsBelow(r: RuleContext, idA: Str, s: RuleContext, idB: Str, limit: u64) {
    forall x: u64, prev: Bytes :: x < limit ==>
      InputsOf(r, idA, x, prev).id == InputsOf(s, idB, x, prev).id
      && InputsOf(r, idA, x, prev).prev == InputsOf(s, idB, x, prev).prev
  }

  /** Below a slot up to which two rules hash the same inputs, twin chains are equal. */
  lemma {:induction false} EqualBelow(
      h: HashFn, idA: Str, a: Peer, pa: Peer, idB: Str, b: Peer, pb: Peer, limit: u64, j: nat)
    requires Extends(h, idA, a, pa) && Extends(h, idB, b, pb)
    requires a.chain == b.chain && Twins(pa.chain, pb.chain)
    requires SameInputsBelow(ContextOf(RuleOf(a)), idA, ContextOf(RuleOf(b)), idB, limit)
    requires j < |pa.chain| && (j >= |a.chain| ==> pa.chain[j].slot < limit)
    ensures pa.chain[..j + 1] == pb.chain[..j + 1]
  {
    hide IsProduced, InputsOf, ContextOf, Preimage;
    if j < |a.chain| {
      assert pa.chain[..j + 1] == a.chain[..j + 1] && pb.chain[..j + 1] == b.chain[..j + 1];
    } else {
      ProducedHash(h, idA, pa, j);
      ProducedHash(h, idB, pb, j);
      assert SameButHash(pa.chain[j], pb.chain[j]);
      if j > 0 {
        assert pa.chain[..j][j - 1].slot < pa.chain[j].slot;
        EqualBelow(h, idA, a, pa, idB, b, pb, limit, j - 1);
      }
      assert pa.chain[..j] == pb.chain[..j];
      assert pa.chain[..j + 1] == pa.chain[..j] + [pa.chain[j]];
      assert pb.chain[..j + 1] == pb.chain[..j] + [pb.chain[j]];
    }
  }

  /** Equal starts give predecessors of equal length: before the first produced block they are
      the same, after it both are 32 bytes. */
  lemma PrevHashWidths(h: HashFn, idA: Str, a: Peer, pa: Peer, idB: Str, b: Peer, pb: Peer, j: nat)
    requires Extends(h, idA, a, pa) && Extends(h, idB, b, pb) && a.chain == b.chain
    requires |a.chain| <= j <= |pa.chain| && j <= |pb.chain|
    ensures |PrevHash(pa.chain[..j])| == |PrevHash(pb.chain[..j])|
  {
    hide IsProduced, HashedBytes;
    if j > |a.chain| {
      ProducedHash(h, idA, pa, j - 1);
      ProducedHash(h, idB, pb, j - 1);
    } else {
      assert pa.chain[..j] == a.chain && pb.chain[..j] == b.chain;
    }
  }

  ghost predicate SameTimingFork(ra: ProductionRule, rb: ProductionRule) {
    && ra.ForkedFromSlot? && rb.ForkedFromSlot?
    && (ra.firstSlot, ra.interval, ra.forkSlot) == (rb.firstSlot, rb.interval, rb.forkSlot)
  }

  lemma ForkPoint(h: HashFn, idA: Str, a: Peer, pa: Peer, idB: Str, b: Peer, pb: Peer, j: nat)
    requires Extends(h, idA, a, pa) && Extends(h, idB, b, pb)
    requires SameTimingFork(RuleOf(a), RuleOf(b)) && RuleOf(a).forkMarker != RuleOf(b).forkMarker
    requires a.chain == b.chain && Twins(pa.chain, pb.chain)
    requires |a.chain| <= j < |pa.chain| && pa.chain[j].slot >= RuleOf(a).forkSlot
    ensures HashedBytes(idA, pa, j) != HashedBytes(idB, pb, j)
    ensures pa.chain[j].blockHash == h(HashedBytes(idA, pa, j))
    ensures pb.chain[j].blockHash == h(HashedBytes(idB, pb, j))
  {
    hide IsProduced, CanonicalRoot, Preimage;
    ProducedHash(h, idA, pa, j);
    ProducedHash(h, idB, pb, j);
    assert SameButHash(pa.chain[j], pb.chain[j]);
    PrevHashWidths(h, idA, a, pa, idB, b, pb, j);
    var ma, mb := [NUL] + RuleOf(a).forkMarker, [NUL] + RuleOf(b).forkMarker;
    assert ma[1..] == RuleOf(a).forkMarker && mb[1..] == RuleOf(b).forkMarker;
    PreimageInjective(ma, pa.chain[j].slot, PrevHash(pa.chain[..j]), mb, pb.chain[j].slot, PrevHash(pb.chain[..j]));
  }

  /** Below the fork slot the chains are equal so far; at or above it the two hashes
      differ, unless the hash function collides on two named inputs. */
  ghost predicate ForkedAt(h: HashFn, idA: Str, pa: Peer, idB: Str, pb: Peer, forkSlot: u64, j: nat)
    requires j < |pa.chain| == |pb.chain|
  {
    && (pa.chain[j].slot < forkSlot ==> pa.chain[..j + 1] == pb.chain[..j + 1])
    && (pa.chain[j].slot >= forkSlot ==>
          || pa.chain[j].blockHash != pb.chain[j].blockHash
          || Collision(h, HashedBytes(idA, pa, j), HashedBytes(idB, pb, j)))
  }

  /** Two forked peers with equal timing, different markers and equal starting chains
      agree on all slots, numbers and headers, agree completely below the fork slot, and
      diverge in every hash from it on. */
  lemma ForkTheorem(h: HashFn, idA: Str, a: Peer, idB: Str, b: Peer, start: int, upTo: int)
    requires -1 <= start <= upTo <= U64_MAX
    requires SameTimingFork(RuleOf(a), RuleOf(b)) && RuleOf(a).forkMarker != RuleOf(b).forkMarker
    requires a.chain == b.chain
    ensures var pa, pb := Produce(h, idA, a, start, upTo), Produce(h, idB, b, start, upTo);
      && Twins(pa.chain, pb.chain)
      && forall j :: |a.chain| <= j < |pa.chain| ==> ForkedAt(h, idA, pa, idB, pb, RuleOf(a).forkSlot, j)
  {
    hide IsProduced, HashedBytes, Produce;
    var pa, pb := Produce(h, idA, a, start, upTo), Produce(h, idB, b, start, upTo);
    TwinsStayTwins(h, idA, a, idB, b, start, upTo);
    ProducedEntries(h, idA, a, start, upTo);
    ProducedEntries(h, idB, b, start, upTo);
    forall j | |a.chain| <= j < |pa.chain| ensures ForkedAt(h, idA, pa, idB, pb, RuleOf(a).forkSlot, j) {
      if pa.chain[j].slot < RuleOf(a).forkSlot {
        EqualBelow(h, idA, a, pa, idB, b, pb, RuleOf(a).forkSlot, j);
      } else {
        ForkPoint(h, idA, a, pa, idB, b, pb, j);
      }
    }
  }

  // ---- what a produced block is ------------------------------------------------------------

  /** The predecessor's hash, or 32 zero bytes for the first block. */
  ghost function PrevOf(chain: seq<ChainEntry>, j: nat): Bytes
    requires j <= |chain|
  {
    if j == 0 then Zeros(32) else chain[j - 1].blockHash
  }

  lemma PrevIs(chain: seq<ChainEntry>, j: nat)
    requires j <= |chain|
    ensures PrevHash(chain[..j]) == PrevOf(chain, j)
    ensures NextNumber(chain[..j]) == if j == 0 then 0 else (chain[j - 1].blockNumber + 1) % (U64_MAX + 1)
  {
    if j > 0 { assert chain[..j][j - 1] == chain[j - 1]; }
  }

  /** A block hash covers this text, the block's slot and this predecessor, in that order. */
  ghost predicate Covers(h: HashFn, chain: seq<ChainEntry>, j: nat, text: Str, prev: Bytes)
    requires j < |chain|
  {
    chain[j].blockHash == h(text + BigEndian(chain[j].slot, 8) + prev)
  }

  /** Everything about a produced block but its hash: number one past its predecessor's in
      64 bits, the header that says so, header variant 6, and the stored body 0xa0. */
  lemma ProducedContents(h: HashFn, id: Str, peer: Peer, start: int, upTo: int, j: nat)
    requires -1 <= start <= upTo <= U64_MAX
    requires |peer.chain| <= j < |Produce(h, id, peer, start, upTo).chain|
    ensures var after := Produce(h, id, peer, start, upTo); var e := after.chain[j];
      && e.blockNumber == (if j == 0 then 0 else (after.chain[j - 1].blockNumber + 1) % 0x1_0000_0000_0000_0000)
      && e.headerCbor == [0x82, 0x82] + CborUint(e.blockNumber) + CborUint(e.slot) + [0xf6]
      && e.variant == 6
      && (e.slot, e.blockHash) in after.store && after.store[(e.slot, e.blockHash)] == [0xa0]
  {
    hide BlockPreimage, CborUint, Covered, FiresAt, Produce;
    var after := Produce(h, id, peer, start, upTo);
    ProducedEntries(h, id, peer, start, upTo);
    assert IsProduced(h, id, after, j);
    PrevIs(after.chain, j);
  }

  /** A forked peer's blocks follow each other like anyone's: the hash covers the predecessor's
      hash, under the decimal text `first:interval:fork` below the fork slot and under a
      zero byte and the marker from it on. */
  lemma ForkedBlocksLinked(h: HashFn, id: Str, peer: Peer, start: int, upTo: int, j: nat)
    requires -1 <= start <= upTo <= U64_MAX && RuleOf(peer).ForkedFromSlot?
    requires |peer.chain| <= j < |Produce(h, id, peer, start, upTo).chain|
    ensures var chain := Produce(h, id, peer, start, upTo).chain; var rule := RuleOf(peer);
      var text := if chain[j].slot < rule.forkSlot
        then Decimal(rule.firstSlot) + [0x3a] + Decimal(rule.interval) + [0x3a] + Decimal(rule.forkSlot)
        else [0] + rule.forkMarker;
      Covers(h, chain, j, text, PrevOf(chain, j))
  {
    hide IsProduced, Produce, Decimal;
    var after := Produce(h, id, peer, start, upTo);
    ProducedEntries(h, id, peer, start, upTo);
    ProducedHash(h, id, after, j);
    PrevIs(after.chain, j);
    var rule := RuleOf(peer);
    assert CanonicalRoot(rule.firstSlot, rule.interval, rule.forkSlot)
        == Decimal(rule.firstSlot) + [0x3a] + Decimal(rule.interval) + [0x3a] + Decimal(rule.forkSlot);
  }

  // ---- broken links ------------------------------------------------------------------

  /** A block follows its predecessor when its hash covers the peer's id, the block's slot and
      the predecessor's hash. */
  ghost predicate Linked(h: HashFn, id: Str, peer: Peer, j: nat)
    requires j < |peer.chain|
  {
    Covers(h, peer.chain, j, id, PrevOf(peer.chain, j))
  }

  /** Rules whose blocks all follow their predecessors under the peer's own identity. */
  predicate HonestLinks(rule: ProductionRule) {
    rule.EveryNSlots? || rule.AtSlots? || rule.SkipsSlots?
  }

  lemma HonestBlocksLinked(h: HashFn, id: Str, peer: Peer, start: int, upTo: int, j: nat)
    requires -1 <= start <= upTo <= U64_MAX && HonestLinks(RuleOf(peer))
    requires |peer.chain| <= j < |Produce(h, id, peer, start, upTo).chain|
    ensures Linked(h, id, Produce(h, id, peer, start, upTo), j)
  {
    hide IsProduced, CanonicalRoot, Produce;
    ProducedEntries(h, id, peer, start, upTo);
    ProducedHash(h, id, Produce(h, id, peer, start, upTo), j);
    PrevIs(Produce(h, id, peer, start, upTo).chain, j);
  }

  /** Below the break the chain equals the honest one so far; from it on the hash covers
      the wrong hash. */
  ghost predicate BrokenAt(h: HashFn, id: Str, pb: Peer, ph: Peer, breakAt: u64, wrong: Bytes, j: nat)
    requires j < |pb.chain| == |ph.chain|
  {
    && (pb.chain[j].slot < breakAt ==> pb.chain[..j + 1] == ph.chain[..j + 1])
    && (pb.chain[j].slot >= breakAt ==> Covers(h, pb.chain, j, id, wrong))
  }

  /** A broken peer beside an honest one with the same identity, timing and start: the
      same slots and numbers, equal entries below the break, and from the break on each
      hash covers the fixed wrong hash whatever the predecessor is. */
  lemma BrokenTheorem(h: HashFn, id: Str, broken: Peer, honest: Peer, start: int, upTo: int)
    requires -1 <= start <= upTo <= U64_MAX
    requires RuleOf(broken).BrokenPrevHash? && RuleOf(honest).EveryNSlots?
    requires (RuleOf(broken).firstSlot, RuleOf(broken).interval) == (RuleOf(honest).firstSlot, RuleOf(honest).interval)
    requires broken.chain == honest.chain
    ensures var pb, ph := Produce(h, id, broken, start, upTo), Produce(h, id, honest, start, upTo);
      && Twins(pb.chain, ph.chain)
      && forall j :: |broken.chain| <= j < |pb.chain| ==>
           BrokenAt(h, id, pb, ph, RuleOf(broken).breakAtSlot, WrongHash(RuleOf(broken)), j)
  {
    hide IsProduced, Produce, CanonicalRoot;
    var pb, ph := Produce(h, id, broken, start, upTo), Produce(h, id, honest, start, upTo);
    var breakAt, wrong := RuleOf(broken).breakAtSlot, WrongHash(RuleOf(broken));
    TwinsStayTwins(h, id, broken, id, honest, start, upTo);
    ProducedEntries(h, id, broken, start, upTo);
    ProducedEntries(h, id, honest, start, upTo);
    forall j | |broken.chain| <= j < |pb.chain| ensures BrokenAt(h, id, pb, ph, breakAt, wrong, j) {
      ProducedHash(h, id, pb, j);
      if pb.chain[j].slot < breakAt {
        EqualBelow(h, id, broken, pb, id, honest, ph, breakAt, j);
      }
    }
  }

  /** The declared wrong hash, or 32 zero bytes if it does not decode. */
  ghost function WrongHash(rule: ProductionRule): Bytes
    requires rule.BrokenPrevHash?
  {
    if Hex.DecodeHex(rule.wrongHash).Some? then Hex.DecodeHex(rule.wrongHash).value else Zeros(32)
  }

  /** From the break on a link survives only if the predecessor's hash happens to be the
      wrong hash, or the hash function collides on the two byte strings. */
  lemma BreakSevers(h: HashFn, id: Str, broken: Peer, after: Peer, j: nat)
    requires Extends(h, id, broken, after)
    requires RuleOf(broken).BrokenPrevHash?
    requires |broken.chain| <= j < |after.chain| && after.chain[j].slot >= RuleOf(broken).breakAtSlot
    ensures var wrong, prev := WrongHash(RuleOf(broken)), PrevHash(after.chain[..j]);
      var head := id + BigEndian(after.chain[j].slot, 8);
      Linked(h, id, after, j) <==> prev == wrong || Collision(h, head + prev, head + wrong)
  {
    hide IsProduced, CanonicalRoot;
    ProducedHash(h, id, after, j);
    PrevIs(after.chain, j);
    SameIdPreimage(id, after.chain[j].slot, PrevHash(after.chain[..j]), WrongHash(RuleOf(broken)));
  }

  // ---- what the events say -----------------------------------------------------------

  /** Event `i` evaluates the rule at slot `i` on the chain left by the earlier slots. */
  lemma {:induction false} EventSlots(h: HashFn, id: Str, peer: Peer, slots: seq<u64>, i: nat)
    requires i < |slots|
    ensures EventsAll(h, id, peer, slots)[i] == EventAt(h, id, ProduceAll(h, id, peer, slots[..i]), slots[i])
  {
    hide EventAt, ProduceAt;
    var init := slots[..|slots| - 1];
    if i < |init| {
      EventSlots(h, id, peer, init, i);
      assert init[..i] == slots[..i];
    }
  }

  /** The mark a rule puts on a block: forks and breaks from their slot on, sparse rules
      always, honest rules never. */
  function MarkOf(rule: ProductionRule, slot: u64): Option<string> {
    match rule
    case ForkedFromSlot(_, _, forkSlot, _) => if slot >= forkSlot then Some("fork_divergence") else None
    case BrokenPrevHash(_, _, breakAtSlot, _) => if slot >= breakAtSlot then Some("broken_prev_hash") else None
    case SkipsSlots(_, _, _) => Some("sparse_chain")
    case _ => None
  }

  /** What an evaluation reports: the rule by its scenario name, and either a skipped slot or
      the block just put on the chain, with its hash in hex and its mark. */
  lemma EventContents(h: HashFn, id: Str, peer: Peer, slot: u64)
    ensures var e, rule, after := EventAt(h, id, peer, slot), RuleOf(peer), ProduceAt(h, id, peer, slot);
      && e.peerId == id && e.slot == slot
      && (rule.NoProduction? ==> e.ruleKind == "none")
      && (rule.EveryNSlots? ==> e.ruleKind == "every_n_slots")
      && (rule.AtSlots? ==> e.ruleKind == "at_slots")
      && (rule.ForkedFromSlot? ==> e.ruleKind == "forked_from_slot")
      && (rule.SkipsSlots? ==> e.ruleKind == "skips_slots")
      && (rule.BrokenPrevHash? ==> e.ruleKind == "broken_prev_hash")
      && (e.skipped <==> peer.chain != [] && peer.chain[|peer.chain| - 1].slot >= slot)
      && (e.skipped ==> after == peer && e.blockNumber == 0 && e.blockHashHex == [] && e.defect == None)
      && (!e.skipped ==>
            && |after.chain| == |peer.chain| + 1 && after.chain[..|peer.chain|] == peer.chain
            && var block := after.chain[|peer.chain|];
              && block.slot == slot && block.blockNumber == e.blockNumber
              && Hex.EncodeHex(block.blockHash) == e.blockHashHex
              && e.defect == MarkOf(rule, slot))
  {
    hide BlockPreimage, SyntheticHeader, KindStr, InputsOf, MarkOf;
    KindNames(RuleOf(peer));
    MarkAgrees(RuleOf(peer), id, slot, PrevHash(peer.chain));
  }

  lemma KindNames(rule: ProductionRule)
    ensures KindStr(rule) == match rule
      case NoProduction => "none"
      case EveryNSlots(_, _) => "every_n_slots"
      case AtSlots(_) => "at_slots"
      case ForkedFromSlot(_, _, _, _) => "forked_from_slot"
      case SkipsSlots(_, _, _) => "skips_slots"
      case BrokenPrevHash(_, _, _, _) => "broken_prev_hash"
  {
  }

  lemma MarkAgrees(rule: ProductionRule, id: Str, slot: u64, prev: Bytes)
    ensures InputsOf(ContextOf(rule), id, slot, prev).defect == MarkOf(rule, slot)
  {
    hide CanonicalRoot, Hex.DecodeHex;
  }
}
