/** Range answers: serving a peer's block store is looking up the entries between two keys
    of a map, and for a peer of the imaginary network those are the blocks of its chain. */
module BlockFetchRanges {
  import opened Text
  import opened Points
  import opened Ordering
  import opened BlockFixture
  import opened ScriptRules
  import opened BlockFetchServer
  import opened Production
  import opened ProductionTheorems
  import opened PeerStates
  import opened Timeline
  import opened TimelineTheorems

  // ---- one range ------------------------------------------------------------------------------

  /** The fixture behind `serve_block_fetch as_peer`: an empty store counts as none. */
  function ServedFixture(store: Store): Option<BlockFixtureChain> {
    var chain := FromBlockStore(store);
    if chain.entries == [] then None else Some(chain)
  }

  function BodiesAt(keys: seq<Key>, store: Store): (r: seq<Bytes>)
    requires forall k :: k in keys ==> k in store
    ensures |r| == |keys| && forall i :: 0 <= i < |r| ==> r[i] == store[keys[i]]
  {
    if keys == [] then [] else [store[keys[0]]] + BodiesAt(keys[1..], store)
  }

  /** Both end points stored and in order: the bodies between them. Nothing otherwise. */
  ghost function StoredBodies(store: Store, from: Point, to: Point): seq<Bytes> {
    if from.Origin? || to.Origin? then []
    else
      var a, b := (from.slot, from.hash), (to.slot, to.hash);
      if a in store && b in store && KeyLe(a, b) then BodiesAt(SortedKeys(KeysBetween(store, a, b)), store) else []
  }

  lemma BatchIsStored(store: Store, from: Point, to: Point)
    ensures BatchBodies(FromRequest, RequestRange(from, to), ServedFixture(store)) == StoredBodies(store, from, to)
  {
    hide FindRange, SortedKeys, KeyLe, FromBlockStore, StoredEntry, BodyBytes;
    RangeAgreesWithStore(store, from, to);
    if StoredRange(store, from, to).Some? {
      var keys := SortedKeys(KeysBetween(store, (from.slot, from.hash), (to.slot, to.hash)));
      ListedBodies(keys, store);
      assert FromBlockStore(store).entries != [] by { StoredNotEmpty(store, (from.slot, from.hash)); }
    }
  }

  lemma ListedBodies(keys: seq<Key>, store: Store)
    requires forall k :: k in keys ==> k in store
    ensures Bodies(ListEntries(keys, store)) == BodiesAt(keys, store)
  {
    hide StoredEntry, BodyBytes;
    forall i | 0 <= i < |keys| ensures BodyBytes(ListEntries(keys, store)[i]) == store[keys[i]] {
      StoredEntryReadsBack(keys[i], store[keys[i]]);
    }
  }

  lemma StoredNotEmpty(store: Store, k: Key)
    requires k in store
    ensures FromBlockStore(store).entries != []
  {
    assert k in SortedKeys(store.Keys);
  }

  function BlockMsgs(bodies: seq<Bytes>): (r: seq<Message>)
    ensures |r| == |bodies| && forall i :: 0 <= i < |r| ==> r[i] == BlockMsg(bodies[i])
  {
    if bodies == [] then [] else BlockMsgs(bodies[..|bodies| - 1]) + [BlockMsg(bodies[|bodies| - 1])]
  }

  /** The messages that answer a range request. */
  function Answer(bodies: seq<Bytes>): seq<Message> {
    if bodies == [] then [NoBlocksMsg] else [StartBatchMsg] + BlockMsgs(bodies) + [BatchDoneMsg]
  }

  lemma {:induction false} BlocksSent(s: Session, bodies: seq<Bytes>)
    ensures SayBlocks(s, bodies).sent == s.sent + BlockMsgs(bodies)
  {
    if bodies != [] { BlocksSent(s, bodies[..|bodies| - 1]); }
  }

  lemma Joined(sent: seq<Message>, first: Message, middle: seq<Message>, last: Message)
    ensures sent + [first] + middle + [last] == sent + ([first] + middle + [last])
  {
  }

  lemma BatchSent(s: Session, bodies: seq<Bytes>)
    ensures SayBatch(s, bodies).sent == s.sent + Answer(bodies)
    ensures SayBatch(s, bodies).status == s.status
  {
    hide BlockMsgs, SayBlocks;
    BlocksSent(SayStart(s), bodies);
    SayBlocksKeeps(SayStart(s), bodies);
    Joined(s.sent, StartBatchMsg, BlockMsgs(bodies), BatchDoneMsg);
  }

  // ---- a whole session --------------------------------------------------------------------------

  predicate Streams(rule: ScriptRule) {
    (rule.on == OnRequestRange || rule.on == OnAny) && rule.send == StreamBatch(FromRequest)
  }

  predicate AllRanges(rs: seq<Request>) {
    forall i :: 0 <= i < |rs| ==> rs[i].RequestRange?
  }

  ghost function Answers(store: Store, rs: seq<Request>): seq<Message>
    requires AllRanges(rs)
  {
    if rs == [] then [] else Answer(StoredBodies(store, rs[0].from, rs[0].to)) + Answers(store, rs[1..])
  }

  lemma StreamStep(rules: seq<ScriptRule>, store: Store, s: Session, r: Request)
    requires s.status == Running && s.ruleIdx < |rules| && Streams(rules[s.ruleIdx]) && r.RequestRange?
    ensures var s' := Serve(rules, ServedFixture(store), s, r);
      && s'.status == Running && s'.ruleIdx <= s.ruleIdx + 1
      && s'.sent == s.sent + Answer(StoredBodies(store, r.from, r.to))
  {
    hide BatchBodies, ServedFixture, StoredBodies, SayBatch, Answer;
    var send, s1 := rules[s.ruleIdx].send, Received(s, r);
    assert NextMatch(rules, s.ruleIdx, OnOf(r)) == Some(s.ruleIdx);
    var s2 := s1.(ruleIdx := IdxAfter(rules, s.ruleIdx, s.ruleIdx), fired := s.fired + [s.ruleIdx]);
    BatchIsStored(store, r.from, r.to);
    BatchSent(s2, StoredBodies(store, r.from, r.to));
    SendsKeep(SendsOf(send), r, ServedFixture(store), s2);
    var s3 := ExecuteSingle(send, r, ServedFixture(store), s2);
    assert ExecuteSends([send][1..], r, ServedFixture(store), s3) == s3;
  }

  /** A script with enough streaming rules answers every range request from the store: one
      batch with exactly the bodies between the two keys, in key order, or one refusal. */
  lemma {:induction false} RangesFromStore(rules: seq<ScriptRule>, store: Store, s: Session, rs: seq<Request>)
    requires s.status == Running && AllRanges(rs) && s.ruleIdx + |rs| <= |rules|
    requires forall i :: 0 <= i < |rules| ==> Streams(rules[i])
    ensures var s' := ServeAll(rules, ServedFixture(store), s, rs);
      s'.status == Running && s'.sent == s.sent + Answers(store, rs)
    decreases |rs|
  {
    hide Serve, ServedFixture, Answer, StoredBodies, Streams;
    if rs != [] {
      StreamStep(rules, store, s, rs[0]);
      RangesFromStore(rules, store, Serve(rules, ServedFixture(store), s, rs[0]), rs[1..]);
    }
  }

  // ---- generated scripts ----------------------------------------------------------------------------

  /** The script generated when none is written cannot serve blocks: its cursor send belongs
      to the other protocol, so the first range request ends the session in an error, with
      nothing sent. */
  lemma GeneratedScriptFails(fixture: Option<BlockFixtureChain>, r: Request, rs: seq<Request>)
    requires r.RequestRange?
    ensures var s := ServeAll(GenerateForBlockFetch(false), fixture, START, [r] + rs);
      s.status == Failed(WrongProtocol) && s.sent == []
  {
    var rules := GenerateForBlockFetch(false);
    assert NextMatch(rules, 0, OnOf(r)) == Some(0);
    var s2 := Received(START, r).(fired := [0]);
    var s3 := s2.(status := Failed(WrongProtocol));
    assert ExecuteSends([CursorRange][1..], r, fixture, s3) == s3;
    assert Serve(rules, fixture, START, r) == s3;
    assert ([r] + rs)[1..] == rs;
    FinishedStays(rules, fixture, Serve(rules, fixture, START, r), rs);
  }

  function Refusals(n: nat): (r: seq<Message>)
    ensures |r| == n && forall i :: 0 <= i < n ==> r[i] == NoBlocksMsg
  {
    if n == 0 then [] else [NoBlocksMsg] + Refusals(n - 1)
  }

  /** With refusal as the default, every range request is refused and the session goes on. */
  lemma {:induction false} DefaultRefuses(fixture: Option<BlockFixtureChain>, s: Session, rs: seq<Request>)
    requires AllRanges(rs) && s.ruleIdx == 0 && s.status == Running
    ensures var s' := ServeAll(GenerateForBlockFetch(true), fixture, s, rs);
      s'.status == Running && s'.sent == s.sent + Refusals(|rs|)
    decreases |rs|
  {
    var rules := GenerateForBlockFetch(true);
    if rs != [] {
      assert NextMatch(rules, 0, OnOf(rs[0])) == Some(0);
      var s2 := Received(s, rs[0]).(fired := s.fired + [0]);
      assert ExecuteSends([NoBlocks][1..], rs[0], fixture, SayNoBlocks(s2)) == SayNoBlocks(s2);
      assert Serve(rules, fixture, s, rs[0]) == SayNoBlocks(s2);
      DefaultRefuses(fixture, SayNoBlocks(s2), rs[1..]);
    }
  }

  // ---- peers of the imaginary network ------------------------------------------------------------------

  function KeyOf(e: ChainEntry): Key {
    (e.slot, e.blockHash)
  }

  function PointOf(e: ChainEntry): Point {
    Specific(e.slot, e.blockHash)
  }

  function KeysOf(chain: seq<ChainEntry>): (r: seq<Key>)
    ensures |r| == |chain| && forall i :: 0 <= i < |r| ==> r[i] == KeyOf(chain[i])
  {
    if chain == [] then [] else [KeyOf(chain[0])] + KeysOf(chain[1..])
  }

  /** A body is stored for every chain entry and for nothing else. */
  ghost predicate FullyStored(peer: Peer) {
    forall key: BlockKey :: key in peer.store <==> key in KeysOf(peer.chain)
  }

  predicate CarriesBody(step: Step) {
    step.PeerExtendsChain? ==> step.blockBody.Some?
  }

  lemma NewKeys(before: Peer, after: Peer, key: BlockKey)
    requires before.chain <= after.chain
    ensures key in KeysOf(after.chain) <==> key in KeysOf(before.chain) || KeyOfNew(before, after, key)
  {
    assert forall i :: 0 <= i < |before.chain| ==> KeysOf(after.chain)[i] == KeysOf(before.chain)[i];
    if KeyOfNew(before, after, key) {
      var j :| |before.chain| <= j < |after.chain| && (after.chain[j].slot, after.chain[j].blockHash) == key;
      assert KeysOf(after.chain)[j] == key;
    }
  }

  lemma StepKeepsFullyStored(h: HashFn, net: Net, step: Step, id: Str)
    requires StepFits(net, step) && id in net.peers && FullyStored(net.peers[id]) && CarriesBody(step)
    ensures FullyStored(PeerAfter(h, net, step, id))
  {
    hide Hex.DecodeHex, Produce, KeyOfNew, KeysOf, IsProduced;
    var peer, after := net.peers[id], PeerAfter(h, net, step, id);
    if IsExtension(net, step, id) {
      var e := ExplicitEntry(step);
      forall key: BlockKey ensures key in after.store <==> key in KeysOf(after.chain) {
        NewKeys(peer, after, key);
        assert KeyOfNew(peer, after, key) <==> KeyOf(e) == key by { OneNewKey(peer, after, e, key); }
      }
    } else if net.clock.Some? {
      forall key: BlockKey ensures key in after.store <==> key in KeysOf(after.chain) {
        StoreFrame(h, id, peer, net.clock.value, ClockAfter(net, step).value, key);
        ProducedEntries(h, id, peer, net.clock.value, ClockAfter(net, step).value);
        NewKeys(peer, after, key);
      }
    }
  }

  lemma OneNewKey(before: Peer, after: Peer, e: ChainEntry, key: BlockKey)
    requires after.chain == before.chain + [e]
    ensures KeyOfNew(before, after, key) <==> KeyOf(e) == key
  {
    assert after.chain[|before.chain|] == e;
  }

  lemma {:induction false} RunKeepsFullyStored(h: HashFn, net: Net, steps: seq<Step>, id: Str)
    requires RunFits(h, net, steps) && id in net.peers && FullyStored(net.peers[id])
    requires forall i :: 0 <= i < |steps| ==> CarriesBody(steps[i])
    ensures FullyStored(RunNet(h, net, steps).peers[id])
    decreases |steps|
  {
    hide FullyStored, PeerAfter, StepProblem, ClockAfter;
    if steps != [] {
      StepKeepsFullyStored(h, net, steps[0], id);
      RunKeepsFullyStored(h, StepNet(h, net, steps[0]), steps[1..], id);
    }
  }

  lemma KeyInRange(chain: seq<ChainEntry>, i: nat, m: nat, j: nat)
    requires IncreasingSlots(chain) && i < |chain| && m < |chain| && j < |chain|
    ensures KeyLe(KeyOf(chain[i]), KeyOf(chain[m])) && KeyLe(KeyOf(chain[m]), KeyOf(chain[j])) <==> i <= m <= j
  {
    hide BytesLt;
    BytesLtIrreflexive(chain[i].blockHash);
  }

  lemma ChainSlice(chain: seq<ChainEntry>, i: nat, j: nat, k: Key)
    requires i <= j < |chain|
    ensures k in KeysOf(chain[i..j + 1]) <==> exists m :: i <= m <= j && KeyOf(chain[m]) == k
  {
    var part := KeysOf(chain[i..j + 1]);
    assert forall m :: i <= m <= j ==> part[m - i] == KeyOf(chain[m]);
    if k in part {
      var n :| 0 <= n < |part| && part[n] == k;
      assert KeyOf(chain[i + n]) == k;
    }
  }

  /** On such a peer the keys between two blocks of the chain are the chain between them. */
  lemma ChainIsRange(peer: Peer, i: nat, j: nat)
    requires IncreasingSlots(peer.chain) && FullyStored(peer) && i <= j < |peer.chain|
    ensures SortedKeys(KeysBetween(peer.store, KeyOf(peer.chain[i]), KeyOf(peer.chain[j])))
         == KeysOf(peer.chain[i..j + 1])
  {
    hide KeyLe, KeyLt, KeysOf, KeyOf, IncreasingSlots, SortedKeys;
    var chain, part := peer.chain, KeysOf(peer.chain[i..j + 1]);
    var between := KeysBetween(peer.store, KeyOf(chain[i]), KeyOf(chain[j]));
    forall k: Key ensures k in part <==> k in between {
      ChainSlice(chain, i, j, k);
      ChainSlice(chain, 0, |chain| - 1, k);
      assert chain[0..|chain| - 1 + 1] == chain;
      assert k in between <==> k in KeysOf(chain) && KeyLe(KeyOf(chain[i]), k) && KeyLe(k, KeyOf(chain[j]));
      forall m | 0 <= m < |chain|
        ensures KeyLe(KeyOf(chain[i]), KeyOf(chain[m])) && KeyLe(KeyOf(chain[m]), KeyOf(chain[j])) <==> i <= m <= j
      {
        KeyInRange(chain, i, m, j);
      }
    }
    assert Sorted(part, KeyLt) by { PartSorted(peer.chain, i, j); }
    SortedKeysUnique(between, part);
  }

  lemma PartSorted(chain: seq<ChainEntry>, i: nat, j: nat)
    requires IncreasingSlots(chain) && i <= j < |chain|
    ensures Sorted(KeysOf(chain[i..j + 1]), KeyLt)
  {
    hide BytesLt;
    var part := KeysOf(chain[i..j + 1]);
    assert forall m :: 0 <= m < |part| ==> part[m] == KeyOf(chain[i + m]);
  }

  /** What a client synchronises it can fetch: after any run whose explicit extensions carry
      bodies, asking a peer that started empty for the range from its i-th to its j-th
      block yields one batch with one body per block, in chain order. */
  lemma FetchesWhatWasSynced(h: HashFn, net: Net, steps: seq<Step>, id: Str, i: nat, j: nat)
    requires RunReady(h, net, steps) && forall n :: 0 <= n < |steps| ==> CarriesBody(steps[n])
    requires id in net.peers && net.peers[id].chain == [] && net.peers[id].store == map[]
    requires i <= j < |RunNet(h, net, steps).peers[id].chain|
    ensures var peer := RunNet(h, net, steps).peers[id];
      var part := KeysOf(peer.chain[i..j + 1]);
      && (forall k :: k in part ==> k in peer.store)
      && StoredBodies(peer.store, PointOf(peer.chain[i]), PointOf(peer.chain[j])) == BodiesAt(part, peer.store)
  {
    hide RunNet, RunReady, KeysOf, SortedKeys, BodiesAt, KeyLt, FullyStored;
    var peer := RunNet(h, net, steps).peers[id];
    EmptyFullyStored(net.peers[id]);
    assert IncreasingSlots(net.peers[id].chain);
    ChainInvariant(h, net, steps, id);
    RunKeepsFullyStored(h, net, steps, id);
    ChainIsRange(peer, i, j);
    KeysStored(peer, i);
    KeysStored(peer, j);
    KeyInRange(peer.chain, i, i, j);
  }

  lemma EmptyFullyStored(peer: Peer)
    requires peer.chain == [] && peer.store == map[]
    ensures FullyStored(peer)
  {
  }

  lemma KeysStored(peer: Peer, i: nat)
    requires FullyStored(peer) && i < |peer.chain|
    ensures KeyOf(peer.chain[i]) in peer.store
  {
    assert KeysOf(peer.chain)[i] == KeyOf(peer.chain[i]);
  }

  lemma {:induction false} SingleKey(store: Store, k: Key)
    requires k in store
    ensures SortedKeys(KeysBetween(store, k, k)) == [k]
  {
    hide KeyLt;
    KeyOrder();
    SortedKeysUnique(KeysBetween(store, k, k), [k]);
  }

  /** Every block a clock move produced can be fetched by its own point ever after. */
  lemma ProducedBlockFetched(h: HashFn, net: Net, step: Step, later: seq<Step>, id: Str)
    requires id in net.peers && net.clock.Some? && step.MovesClock()
    requires StepFits(net, step) && RunFits(h, StepNet(h, net, step), later)
    ensures var mid := StepNet(h, net, step); var after := RunNet(h, mid, later).peers[id];
      forall j :: |net.peers[id].chain| <= j < |mid.peers[id].chain| ==>
        StoredBodies(after.store, PointOf(mid.peers[id].chain[j]), PointOf(mid.peers[id].chain[j])) == [[0xa0]]
  {
    BodiesKept(h, net, step, later, id);
    hide RunNet, KeysBetween, StepNet, StoredBodies;
    var mid := StepNet(h, net, step);
    var store := RunNet(h, mid, later).peers[id].store;
    forall j | |net.peers[id].chain| <= j < |mid.peers[id].chain|
      ensures StoredBodies(store, PointOf(mid.peers[id].chain[j]), PointOf(mid.peers[id].chain[j])) == [[0xa0]]
    {
      assert BodyAt(RunNet(h, mid, later).peers[id], KeyOf(mid.peers[id].chain[j]), [0xa0]);
      OwnPoint(store, mid.peers[id].chain[j]);
    }
  }

  /** A stored block is all that lies between its own key and itself. */
  lemma OwnPoint(store: Store, e: ChainEntry)
    requires KeyOf(e) in store
    ensures StoredBodies(store, PointOf(e), PointOf(e)) == [store[KeyOf(e)]]
  {
    hide KeysBetween;
    SingleKey(store, KeyOf(e));
    assert BodiesAt([KeyOf(e)], store) == [store[KeyOf(e)]];
  }

  /** The body given with an explicit extension is what a fetch of that block by its own point
      yields, then and after any later run. */
  lemma GivenBlockFetched(h: HashFn, net: Net, step: Step, later: seq<Step>)
    requires step.PeerExtendsChain? && StepProblem(net, step).None? && step.blockBody.Some?
    requires RunFits(h, StepNet(h, net, step), later)
    ensures Hex.DecodeHex(step.blockHash).Some? && Hex.DecodeHex(step.blockBody.value).Some?
    ensures var p := Specific(step.slot, Hex.DecodeHex(step.blockHash).value);
      StoredBodies(RunNet(h, StepNet(h, net, step), later).peers[step.peerId].store, p, p)
        == [Hex.DecodeHex(step.blockBody.value).value]
  {
    hide RunNet, KeysBetween, Hex.DecodeHex;
    GivenBodyKept(h, net, step, later);
    var key := (step.slot, Hex.DecodeHex(step.blockHash).value);
    var store := RunNet(h, StepNet(h, net, step), later).peers[step.peerId].store;
    SingleKey(store, key);
    assert BodiesAt([key], store) == [store[key]];
  }
}
