/** One peer's chain and what a production rule does to it.

    The block hash is an arbitrary function from byte strings to 32-byte strings. It is
    never assumed injective (no such function is): where the harness relies on two
    hashes being different, the two distinct preimages are exhibited instead. */
module Production {
  import opened Text
  import opened Hex
  import opened Cbor
  import opened Schedule

  type Hash = b: Bytes | |b| == 32 witness Zeros(32)
  type HashFn = Bytes -> Hash

  const NO_HASH: Bytes := Zeros(32)
  const HEADER_VARIANT: byte := 6
  const EMPTY_BODY: Bytes := [0xa0]
  const NUL: byte := 0

  datatype ChainEntry = ChainEntry(
    slot: u64, blockHash: Bytes, blockNumber: u64, headerCbor: Bytes, variant: byte)

  type BlockKey = (u64, Bytes)
  type BlockStore = map<BlockKey, Bytes>

  /** The value of a peer's runtime state. */
  datatype Peer = Peer(chain: seq<ChainEntry>, store: BlockStore, rule: Option<ProductionRule>)

  datatype ProductionEvent = ProductionEvent(
    peerId: Str, slot: u64, ruleKind: string, skipped: bool,
    blockNumber: u64, blockHashHex: Str, defect: Option<string>)

  function KindStr(rule: ProductionRule): string {
    match rule
    case NoProduction => "none"
    case EveryNSlots(_, _) => "every_n_slots"
    case AtSlots(_) => "at_slots"
    case ForkedFromSlot(_, _, _, _) => "forked_from_slot"
    case SkipsSlots(_, _, _) => "skips_slots"
    case BrokenPrevHash(_, _, _, _) => "broken_prev_hash"
  }

  function RuleOf(peer: Peer): ProductionRule {
    match peer.rule
    case None => NoProduction
    case Some(rule) => rule
  }

  // ---- hash inputs ---------------------------------------------------------------

  datatype RuleContext =
    | Honest
    | Forked(forkSlot: u64, forkMarker: Str, canonicalRoot: Str)
    | Broken(breakAtSlot: u64, wrongHash: Bytes)
    | Sparse

  /** The identity under which all peers with this timing hash their pre-fork blocks. */
  function CanonicalRoot(firstSlot: u64, interval: u64, forkSlot: u64): Str {
    Decimal(firstSlot) + [COLON] + (Decimal(interval) + [COLON] + Decimal(forkSlot))
  }

  function ContextOf(rule: ProductionRule): RuleContext {
    match rule
    case ForkedFromSlot(firstSlot, interval, forkSlot, forkMarker) =>
      Forked(forkSlot, forkMarker, CanonicalRoot(firstSlot, interval, forkSlot))
    case BrokenPrevHash(_, _, breakAtSlot, wrongHash) =>
      Broken(breakAtSlot, if DecodeHex(wrongHash).Some? then DecodeHex(wrongHash).value else NO_HASH)
    case SkipsSlots(_, _, _) => Sparse
    case _ => Honest
  }

  datatype HashInputs = HashInputs(id: Str, prev: Bytes, defect: Option<string>)

  function InputsOf(ctx: RuleContext, peerId: Str, slot: u64, prev: Bytes): HashInputs {
    match ctx
    case Forked(forkSlot, forkMarker, root) =>
      if slot < forkSlot then HashInputs(root, prev, None)
      else HashInputs([NUL] + forkMarker, prev, Some("fork_divergence"))
    case Broken(breakAtSlot, wrongHash) =>
      if slot >= breakAtSlot then HashInputs(peerId, wrongHash, Some("broken_prev_hash"))
      else HashInputs(peerId, prev, None)
    case Sparse => HashInputs(peerId, prev, Some("sparse_chain"))
    case Honest => HashInputs(peerId, prev, None)
  }

  function Preimage(id: Str, slot: u64, prev: Bytes): Bytes {
    id + BigEndian(slot, 8) + prev
  }

  // ---- one slot --------------------------------------------------------------------

  function PrevHash(chain: seq<ChainEntry>): Bytes {
    if chain == [] then NO_HASH else chain[|chain| - 1].blockHash
  }

  /** The predecessor's number plus one in 64-bit arithmetic; 0 on an empty chain. */
  function NextNumber(chain: seq<ChainEntry>): u64 {
    if chain == [] then 0 else (chain[|chain| - 1].blockNumber + 1) % (U64_MAX + 1)
  }

  function TipSlot(chain: seq<ChainEntry>): Option<u64> {
    if chain == [] then None else Some(chain[|chain| - 1].slot)
  }

  /** An explicit extension already reached this slot. */
  predicate Covered(chain: seq<ChainEntry>, slot: u64) {
    chain != [] && chain[|chain| - 1].slot >= slot
  }

  /** The byte string hashed for the block a peer would put on top of `chain` at `slot`. */
  function BlockPreimage(ctx: RuleContext, id: Str, slot: u64, chain: seq<ChainEntry>): Bytes {
    var inputs := InputsOf(ctx, id, slot, PrevHash(chain));
    Preimage(inputs.id, slot, inputs.prev)
  }

  function NewEntry(h: HashFn, ctx: RuleContext, id: Str, slot: u64, chain: seq<ChainEntry>): ChainEntry {
    var number := NextNumber(chain);
    ChainEntry(slot, h(BlockPreimage(ctx, id, slot, chain)), number,
               SyntheticHeader(number, slot), HEADER_VARIANT)
  }

  function ProduceAt(h: HashFn, id: Str, peer: Peer, slot: u64): Peer {
    if Covered(peer.chain, slot) then peer
    else
      var entry := NewEntry(h, ContextOf(RuleOf(peer)), id, slot, peer.chain);
      peer.(chain := peer.chain + [entry], store := peer.store[(slot, entry.blockHash) := EMPTY_BODY])
  }

  function EventAt(h: HashFn, id: Str, peer: Peer, slot: u64): ProductionEvent {
    var kind := KindStr(RuleOf(peer));
    if Covered(peer.chain, slot) then ProductionEvent(id, slot, kind, true, 0, [], None)
    else
      var ctx := ContextOf(RuleOf(peer));
      var entry := NewEntry(h, ctx, id, slot, peer.chain);
      ProductionEvent(id, slot, kind, false, entry.blockNumber, EncodeHex(entry.blockHash),
                      InputsOf(ctx, id, slot, PrevHash(peer.chain)).defect)
  }

  /** An explicit extension, with or without a body. */
  function ExtendPeer(peer: Peer, entry: ChainEntry, body: Option<Bytes>): Peer {
    peer.(chain := peer.chain + [entry],
          store := if body.Some? then peer.store[(entry.slot, entry.blockHash) := body.value] else peer.store)
  }

  // ---- many slots --------------------------------------------------------------------

  function ProduceAll(h: HashFn, id: Str, peer: Peer, slots: seq<u64>): (r: Peer)
    ensures r.rule == peer.rule
  {
    if slots == [] then peer
    else ProduceAt(h, id, ProduceAll(h, id, peer, slots[..|slots| - 1]), slots[|slots| - 1])
  }

  function EventsAll(h: HashFn, id: Str, peer: Peer, slots: seq<u64>): (r: seq<ProductionEvent>)
    ensures |r| == |slots| && forall i :: 0 <= i < |r| ==> r[i].peerId == id
  {
    if slots == [] then []
    else
      var init := slots[..|slots| - 1];
      EventsAll(h, id, peer, init) + [EventAt(h, id, ProduceAll(h, id, peer, init), slots[|slots| - 1])]
  }

  /** The clock moves from `after` to `upTo`. */
  function Produce(h: HashFn, id: Str, peer: Peer, after: int, upTo: int): (r: Peer)
    requires -1 <= after && upTo <= U64_MAX
    ensures r.rule == peer.rule
  {
    ProduceAll(h, id, peer, FiringSlots(RuleOf(peer), after, upTo))
  }

  function ProductionEvents(h: HashFn, id: Str, peer: Peer, after: int, upTo: int): seq<ProductionEvent>
    requires -1 <= after && upTo <= U64_MAX
  {
    EventsAll(h, id, peer, FiringSlots(RuleOf(peer), after, upTo))
  }
}
