/** Peers as the runner holds them: mutable objects in a map, changed in place when the
    clock moves. Every method is tied to the value-level functions of `Production`. */
module PeerStates {
  import opened Text
  import opened Hex
  import opened Cbor
  import opened Points
  import opened Schedule
  import opened Production
  import opened Fixture
  import opened BlockFixture
  import ProductionTheorems

  // ---- between chain entries and fixtures ------------------------------------------------

  function ToFixtureEntry(e: ChainEntry): FixtureEntry {
    FixtureEntry(e.slot, EncodeHex(e.blockHash), e.blockNumber, EncodeHex(e.headerCbor), e.variant)
  }

  function FromFixtureEntry(e: FixtureEntry): ChainEntry {
    ChainEntry(e.slot, DecodeHexLossy(e.blockHash), e.blockNumber, DecodeHexLossy(e.cborHex), e.variant)
  }

  lemma FixtureEntryRoundTrip(e: ChainEntry)
    ensures FromFixtureEntry(ToFixtureEntry(e)) == e
    ensures EntryPoint(ToFixtureEntry(e)) == Specific(e.slot, e.blockHash)
  {
    DecodeOfEncode(e.blockHash);
    DecodeOfEncode(e.headerCbor);
  }

  /** The part of a chain a client may see at `currentSlot`; all of it without a clock. */
  function Visible(chain: seq<ChainEntry>, currentSlot: Option<u64>): seq<ChainEntry> {
    if chain == [] then []
    else if currentSlot.None? || chain[0].slot <= currentSlot.value
    then [chain[0]] + Visible(chain[1..], currentSlot)
    else Visible(chain[1..], currentSlot)
  }

  function ToFixtureEntries(chain: seq<ChainEntry>): (r: seq<FixtureEntry>)
    ensures |r| == |chain|
    ensures forall i :: 0 <= i < |chain| ==> r[i] == ToFixtureEntry(chain[i])
  {
    if chain == [] then [] else [ToFixtureEntry(chain[0])] + ToFixtureEntries(chain[1..])
  }

  function FromFixtureEntries(entries: seq<FixtureEntry>): (r: seq<ChainEntry>)
    ensures |r| == |entries|
    ensures forall i :: 0 <= i < |entries| ==> r[i] == FromFixtureEntry(entries[i])
  {
    if entries == [] then [] else [FromFixtureEntry(entries[0])] + FromFixtureEntries(entries[1..])
  }

  function FilteredFixtureChain(chain: seq<ChainEntry>, currentSlot: Option<u64>): FixtureChain {
    FixtureChain(Origin, ToFixtureEntries(Visible(chain, currentSlot)))
  }

  /** What is served is the visible part, byte for byte: a peer loaded from it holds
      exactly those entries. */
  lemma ServedChainReadsBack(chain: seq<ChainEntry>, currentSlot: Option<u64>)
    ensures FromFixtureEntries(FilteredFixtureChain(chain, currentSlot).entries) == Visible(chain, currentSlot)
  {
    hide ToFixtureEntry, FromFixtureEntry;
    var visible := Visible(chain, currentSlot);
    forall i | 0 <= i < |visible| ensures FromFixtureEntry(ToFixtureEntry(visible[i])) == visible[i] {
      FixtureEntryRoundTrip(visible[i]);
    }
  }

  ghost predicate IncreasingSlots(chain: seq<ChainEntry>) {
    forall i, j :: 0 <= i < j < |chain| ==> chain[i].slot < chain[j].slot
  }

  /** On a chain with increasing slots the clock hides a suffix and nothing else. */
  lemma {:induction false} VisibleIsPrefix(chain: seq<ChainEntry>, clock: u64)
    requires IncreasingSlots(chain)
    ensures var seen := Visible(chain, Some(clock));
      && seen <= chain
      && (forall i :: 0 <= i < |chain| ==> (i < |seen| <==> chain[i].slot <= clock))
  {
    if chain != [] {
      VisibleIsPrefix(chain[1..], clock);
      var rest := Visible(chain[1..], Some(clock));
      assert chain == [chain[0]] + chain[1..];
      if chain[0].slot <= clock {
        assert Visible(chain, Some(clock)) == [chain[0]] + rest;
        forall i | 0 < i < |chain| ensures i < 1 + |rest| <==> chain[i].slot <= clock {
          assert chain[i] == chain[1..][i - 1];
        }
      } else {
        assert forall i :: 0 < i < |chain| ==> chain[0].slot < chain[i].slot;
        assert rest == [];
      }
    }
  }

  /** On any chain, sorted or not, the clock decides each entry by its own slot. */
  lemma {:induction false} VisibleAt(chain: seq<ChainEntry>, rest: seq<ChainEntry>, e: ChainEntry, clock: u64)
    ensures Visible(chain + rest, Some(clock)) == Visible(chain, Some(clock)) + Visible(rest, Some(clock))
    ensures Visible([e], Some(clock)) == if e.slot <= clock then [e] else []
  {
    assert [e][1..] == [];
    if chain == [] {
      assert chain + rest == rest;
    } else {
      VisibleAt(chain[1..], rest, e, clock);
      assert (chain + rest)[1..] == chain[1..] + rest;
    }
  }

  /** Without a clock everything is visible. */
  lemma {:induction false} VisibleWithoutClock(chain: seq<ChainEntry>)
    ensures Visible(chain, None) == chain
  {
    if chain != [] {
      VisibleWithoutClock(chain[1..]);
      assert chain == [chain[0]] + chain[1..];
    }
  }

  // ---- the mutable peer ---------------------------------------------------------------------

  class PeerState {
    var chainEntries: seq<ChainEntry>
    var blockStore: BlockStore
    var productionRule: Option<ProductionRule>

    ghost function View(): Peer
      reads this
    {
      Peer(chainEntries, blockStore, productionRule)
    }

    constructor ()
      ensures View() == Peer([], map[], None)
    {
      chainEntries, blockStore, productionRule := [], map[], None;
    }

    constructor FromFixtureChain(chain: FixtureChain)
      ensures View() == Peer(FromFixtureEntries(chain.entries), map[], None)
      ensures forall served, clock :: chain == FilteredFixtureChain(served, clock) ==>
        chainEntries == Visible(served, clock)
    {
      chainEntries, blockStore, productionRule := FromFixtureEntries(chain.entries), map[], None;
      new;
      forall served, clock | chain == FilteredFixtureChain(served, clock)
        ensures chainEntries == Visible(served, clock)
      {
        ServedChainReadsBack(served, clock);
      }
    }

    /** What is served of the chain: exactly its visible part, in a form that reads back. */
    method ServedHeaders(currentSlot: Option<u64>) returns (chain: FixtureChain)
      ensures chain == FilteredFixtureChain(chainEntries, currentSlot)
      ensures FromFixtureEntries(chain.entries) == Visible(chainEntries, currentSlot)
    {
      ServedChainReadsBack(chainEntries, currentSlot);
      chain := FilteredFixtureChain(chainEntries, currentSlot);
    }

    method ChainTipSlot() returns (tip: Option<u64>)
      ensures tip == TipSlot(chainEntries)
      ensures forall slot :: Covered(chainEntries, slot) <==> tip.Some? && tip.value >= slot
    {
      tip := if chainEntries == [] then None else Some(chainEntries[|chainEntries| - 1].slot);
    }

    method Append(entry: ChainEntry, body: Option<Bytes>)
      modifies this
      ensures View() == ExtendPeer(old(View()), entry, body)
    {
      chainEntries := chainEntries + [entry];
      if body.Some? {
        blockStore := blockStore[(entry.slot, entry.blockHash) := body.value];
      }
    }

    /** Inserts every body of a loaded fixture, later entries winning. */
    method ExtendFromBlockFixtureChain(chain: BlockFixtureChain)
      modifies this
      ensures View() == old(View()).(store := ExtendStore(old(blockStore), chain.entries))
    {
      hide EntryKey, BodyBytes;
      for n := 0 to |chain.entries|
        invariant View() == old(View()).(store := ExtendStore(old(blockStore), chain.entries[..n]))
      {
        var entry := chain.entries[n];
        assert chain.entries[..n + 1][..n] == chain.entries[..n];
        blockStore := blockStore[EntryKey(entry) := BodyBytes(entry)];
      }
      assert chain.entries[..|chain.entries|] == chain.entries;
    }

    /** The body of the production loop: append and store a block, or note that the tip
        already covers the slot. */
    method ProduceSlot(h: HashFn, peerId: Str, ruleKind: string, slot: u64, ctx: RuleContext)
      returns (event: ProductionEvent)
      requires ctx == ContextOf(RuleOf(View())) && ruleKind == KindStr(RuleOf(View()))
      modifies this
      ensures View() == ProduceAt(h, peerId, old(View()), slot)
      ensures event == EventAt(h, peerId, old(View()), slot)
    {
      hide ContextOf, KindStr, InputsOf, SyntheticHeader, EncodeHex, Preimage;
      var tip := ChainTipSlot();
      if tip.Some? && tip.value >= slot {
        return ProductionEvent(peerId, slot, ruleKind, true, 0, [], None);
      }
      var actualPrev := PrevHash(chainEntries);
      var number := NextNumber(chainEntries);
      var inputs := InputsOf(ctx, peerId, slot, actualPrev);
      var hash := h(Preimage(inputs.id, slot, inputs.prev));
      chainEntries := chainEntries + [
        ChainEntry(slot, hash, number, SyntheticHeader(number, slot), HEADER_VARIANT)];
      blockStore := blockStore[(slot, hash) := EMPTY_BODY];
      event := ProductionEvent(peerId, slot, ruleKind, false, number, EncodeHex(hash), inputs.defect);
    }

    method ProduceSlots(h: HashFn, peerId: Str, ruleKind: string, slots: seq<u64>, ctx: RuleContext)
      returns (events: seq<ProductionEvent>)
      requires ctx == ContextOf(RuleOf(View())) && ruleKind == KindStr(RuleOf(View()))
      modifies this
      ensures View() == ProduceAll(h, peerId, old(View()), slots)
      ensures events == EventsAll(h, peerId, old(View()), slots)
    {
      hide ContextOf, KindStr, ProduceAt, EventAt;
      events := [];
      for n := 0 to |slots|
        invariant View() == ProduceAll(h, peerId, old(View()), slots[..n])
        invariant events == EventsAll(h, peerId, old(View()), slots[..n])
      {
        assert slots[..n + 1][..n] == slots[..n];
        var event := ProduceSlot(h, peerId, ruleKind, slots[n], ctx);
        events := events + [event];
      }
      assert slots[..|slots|] == slots;
    }
  }

  // ---- all peers ------------------------------------------------------------------------------

  type Peers = map<Str, PeerState>

  /** Each peer is its own object, as in a map that owns its values. */
  ghost predicate Separate(peers: Peers) {
    forall a, b :: a in peers && b in peers && a != b ==> peers[a] != peers[b]
  }

  predicate Active(rule: Option<ProductionRule>) {
    rule.Some? && !rule.value.NoProduction?
  }

  /** What the clock move `(oldSlot, newSlot]` asks of a rule: validated, and no 64-bit
      overflow when its slots are computed. */
  predicate ReadyRule(rule: Option<ProductionRule>, oldSlot: u64, newSlot: u64) {
    Active(rule) ==>
      && oldSlot < U64_MAX
      && (rule.value.AtSlots? ==> Increasing(rule.value.slots))
      && Fits(rule.value, oldSlot + 1, newSlot)
  }

  function EventsOf(events: seq<ProductionEvent>, id: Str): seq<ProductionEvent> {
    if events == [] then []
    else
      var last := events[|events| - 1];
      EventsOf(events[..|events| - 1], id) + if last.peerId == id then [last] else []
  }

  lemma {:induction false} EventsOfConcat(a: seq<ProductionEvent>, b: seq<ProductionEvent>, id: Str)
    ensures EventsOf(a + b, id) == EventsOf(a, id) + EventsOf(b, id)
  {
    if b == [] {
      assert a + b == a;
    } else {
      EventsOfConcat(a, b[..|b| - 1], id);
      assert (a + b)[..|a + b| - 1] == a + b[..|b| - 1];
    }
  }

  /** Events that are all of one peer. */
  lemma {:induction false} EventsOfOnePeer(events: seq<ProductionEvent>, peerId: Str, id: Str)
    requires forall i :: 0 <= i < |events| ==> events[i].peerId == peerId
    ensures EventsOf(events, id) == if id == peerId then events else []
  {
    if events != [] { EventsOfOnePeer(events[..|events| - 1], peerId, id); }
  }

  datatype Task = Task(peerId: Str, ruleKind: string, slots: seq<u64>, ctx: RuleContext)

  /** What the scan must collect for a peer whose rule fires. */
  ghost predicate TaskFor(task: Task, peers: Peers, oldSlot: u64, newSlot: u64)
    reads peers.Values
  {
    task.peerId in peers && TaskOf(task, peers[task.peerId].View(), oldSlot, newSlot)
  }

  ghost predicate TaskOf(task: Task, peer: Peer, oldSlot: u64, newSlot: u64) {
    && task.ruleKind == KindStr(RuleOf(peer))
    && task.slots == FiringSlots(RuleOf(peer), oldSlot, newSlot)
    && task.ctx == ContextOf(RuleOf(peer))
  }

  ghost predicate HasTask(tasks: seq<Task>, id: Str) {
    exists i :: 0 <= i < |tasks| && tasks[i].peerId == id
  }

  ghost predicate DistinctTasks(tasks: seq<Task>) {
    forall i, j :: 0 <= i < j < |tasks| ==> tasks[i].peerId != tasks[j].peerId
  }

  /** Phase 1: an immutable scan, in whatever order the map is iterated. */
  method CollectTasks(peers: Peers, oldSlot: u64, newSlot: u64) returns (tasks: seq<Task>)
    requires forall id :: id in peers ==> ReadyRule(peers[id].productionRule, oldSlot, newSlot)
    ensures forall i :: 0 <= i < |tasks| ==> TaskFor(tasks[i], peers, oldSlot, newSlot)
    ensures DistinctTasks(tasks)
    ensures forall id :: id in peers && !HasTask(tasks, id) ==>
      FiringSlots(RuleOf(peers[id].View()), oldSlot, newSlot) == []
  {
    hide KindStr, ContextOf, Fits;
    tasks := [];
    var todo := peers.Keys;
    while todo != {}
      invariant todo <= peers.Keys
      invariant forall i :: 0 <= i < |tasks| ==> TaskFor(tasks[i], peers, oldSlot, newSlot)
      invariant forall i :: 0 <= i < |tasks| ==> tasks[i].peerId !in todo
      invariant DistinctTasks(tasks)
      invariant forall id :: id in peers && id !in todo && !HasTask(tasks, id) ==>
        FiringSlots(RuleOf(peers[id].View()), oldSlot, newSlot) == []
      decreases todo
    {
      var id :| id in todo;
      todo := todo - {id};
      var before := tasks;
      if Active(peers[id].productionRule) {
        var rule := peers[id].productionRule.value;
        var slots := SlotsInRange(rule, oldSlot + 1, newSlot);
        if slots != [] {
          tasks := tasks + [Task(id, KindStr(rule), slots, ContextOf(rule))];
          assert tasks[|before|].peerId == id;
          assert forall x :: HasTask(before, x) ==> HasTask(tasks, x) by {
            assert forall i :: 0 <= i < |before| ==> tasks[i] == before[i];
          }
        }
      } else {
        NeverFires(oldSlot, newSlot);
      }
    }
  }

  ghost function Views(peers: Peers): map<Str, Peer>
    reads peers.Values
  {
    map id | id in peers :: peers[id].View()
  }

  /** Every peer's rule applied over `(oldSlot, newSlot]`. */
  ghost function MovedAll(h: HashFn, peers: map<Str, Peer>, oldSlot: u64, newSlot: u64): map<Str, Peer> {
    map id | id in peers :: Produce(h, id, peers[id], oldSlot, newSlot)
  }

  /** Peers with a task among the first `t` have moved, the others not, and each peer's
      events are those of its move. */
  ghost predicate Progress(
      h: HashFn, before: map<Str, Peer>, now: map<Str, Peer>, events: seq<ProductionEvent>,
      tasks: seq<Task>, t: nat, oldSlot: u64, newSlot: u64)
    requires t <= |tasks|
  {
    && now.Keys == before.Keys
    && (forall id :: id in before ==>
          now[id] == if HasTask(tasks[..t], id) then Produce(h, id, before[id], oldSlot, newSlot) else before[id])
    && (forall id :: id in before ==>
          EventsOf(events, id) ==
            if HasTask(tasks[..t], id) then ProductionEvents(h, id, before[id], oldSlot, newSlot) else [])
    && (forall id :: id !in before ==> EventsOf(events, id) == [])
  }

  lemma ProgressStep(
      h: HashFn, before: map<Str, Peer>, now: map<Str, Peer>, events: seq<ProductionEvent>, more: seq<ProductionEvent>,
      tasks: seq<Task>, t: nat, oldSlot: u64, newSlot: u64)
    requires t < |tasks| && DistinctTasks(tasks) && Progress(h, before, now, events, tasks, t, oldSlot, newSlot)
    requires tasks[t].peerId in before
    requires TaskOf(tasks[t], before[tasks[t].peerId], oldSlot, newSlot)
    requires more == EventsAll(h, tasks[t].peerId, now[tasks[t].peerId], tasks[t].slots)
    ensures var id := tasks[t].peerId;
      Progress(h, before, now[id := ProduceAll(h, id, now[id], tasks[t].slots)], events + more, tasks, t + 1, oldSlot, newSlot)
  {
    hide HasTask, EventsAll, ProduceAll, FiringSlots, EventsOf;
    HasTaskStep(tasks, t);
    forall id ensures EventsOf(events + more, id) == EventsOf(events, id) + if id == tasks[t].peerId then more else [] {
      EventsOfConcat(events, more, id);
      EventsOfOnePeer(more, tasks[t].peerId, id);
    }
  }

  lemma NotYet(
      h: HashFn, before: map<Str, Peer>, now: map<Str, Peer>, events: seq<ProductionEvent>,
      tasks: seq<Task>, t: nat, oldSlot: u64, newSlot: u64)
    requires t < |tasks| && DistinctTasks(tasks) && Progress(h, before, now, events, tasks, t, oldSlot, newSlot)
    requires tasks[t].peerId in before
    ensures tasks[t].peerId in now && now[tasks[t].peerId] == before[tasks[t].peerId]
  {
    HasTaskStep(tasks, t);
  }

  /** Phase 2 for one task: one peer changes, the others do not. */
  method RunTask(h: HashFn, peers: Peers, task: Task, ghost oldSlot: u64, ghost newSlot: u64)
    returns (events: seq<ProductionEvent>)
    requires Separate(peers) && TaskFor(task, peers, oldSlot, newSlot)
    modifies peers.Values
    ensures var id := task.peerId; var now := old(Views(peers));
      && Views(peers) == now[id := ProduceAll(h, id, now[id], task.slots)]
      && events == EventsAll(h, id, now[id], task.slots)
  {
    hide KindStr, ContextOf, FiringSlots, ProduceAll, EventsAll;
    events := peers[task.peerId].ProduceSlots(h, task.peerId, task.ruleKind, task.slots, task.ctx);
  }

  /** Moves every peer over `(oldSlot, newSlot]`. Peers are visited in no particular
      order; the outcome does not depend on it. */
  method ApplyProductionRules(h: HashFn, peers: Peers, oldSlot: u64, newSlot: u64)
    returns (events: seq<ProductionEvent>)
    requires Separate(peers)
    requires forall id :: id in peers ==> ReadyRule(peers[id].productionRule, oldSlot, newSlot)
    modifies peers.Values
    ensures Views(peers) == MovedAll(h, old(Views(peers)), oldSlot, newSlot)
    ensures forall id ::
      EventsOf(events, id) == if id in peers then ProductionEvents(h, id, old(Views(peers))[id], oldSlot, newSlot) else []
  {
    hide KindStr, ContextOf, ReadyRule, FiringSlots, ProduceAll, EventsAll, Progress, HasTask, EventsOf, Produce;
    hide ProductionEvents, DistinctTasks, MovedAll;
    var tasks := CollectTasks(peers, oldSlot, newSlot);
    events := [];
    ghost var before := Views(peers);
    assert forall i :: 0 <= i < |tasks| ==>
      tasks[i].peerId in before && TaskOf(tasks[i], before[tasks[i].peerId], oldSlot, newSlot);
    assert Progress(h, before, before, events, tasks, 0, oldSlot, newSlot) by { NoProgress(h, before, tasks, oldSlot, newSlot); }
    for t := 0 to |tasks|
      invariant Progress(h, before, Views(peers), events, tasks, t, oldSlot, newSlot)
    {
      ghost var now := Views(peers);
      NotYet(h, before, now, events, tasks, t, oldSlot, newSlot);
      var more := RunTask(h, peers, tasks[t], oldSlot, newSlot);
      ProgressStep(h, before, now, events, more, tasks, t, oldSlot, newSlot);
      events := events + more;
    }
    AllMoved(h, before, Views(peers), events, tasks, oldSlot, newSlot);
  }

  lemma NoProgress(h: HashFn, before: map<Str, Peer>, tasks: seq<Task>, oldSlot: u64, newSlot: u64)
    ensures Progress(h, before, before, [], tasks, 0, oldSlot, newSlot)
  {
  }

  lemma AllMoved(
      h: HashFn, before: map<Str, Peer>, now: map<Str, Peer>, events: seq<ProductionEvent>,
      tasks: seq<Task>, oldSlot: u64, newSlot: u64)
    requires Progress(h, before, now, events, tasks, |tasks|, oldSlot, newSlot)
    requires forall id :: id in before && !HasTask(tasks, id) ==>
      FiringSlots(RuleOf(before[id]), oldSlot, newSlot) == []
    ensures now == MovedAll(h, before, oldSlot, newSlot)
    ensures forall id ::
      EventsOf(events, id) == if id in before then ProductionEvents(h, id, before[id], oldSlot, newSlot) else []
  {
    hide HasTask, Produce, ProductionEvents, FiringSlots, EventsOf;
    assert tasks[..|tasks|] == tasks;
    forall id | id in before && !HasTask(tasks, id)
      ensures before[id] == Produce(h, id, before[id], oldSlot, newSlot)
      ensures ProductionEvents(h, id, before[id], oldSlot, newSlot) == []
    {
      NothingFired(h, id, before[id], oldSlot, newSlot);
    }
  }

  lemma HasTaskStep(tasks: seq<Task>, t: nat)
    requires t < |tasks| && DistinctTasks(tasks)
    ensures !HasTask(tasks[..t], tasks[t].peerId)
    ensures forall id :: HasTask(tasks[..t + 1], id) <==> HasTask(tasks[..t], id) || id == tasks[t].peerId
  {
    var before, after := tasks[..t], tasks[..t + 1];
    assert forall i :: 0 <= i < t ==> before[i] == after[i] == tasks[i];
    assert after[t] == tasks[t];
  }

  lemma NothingFired(h: HashFn, id: Str, peer: Peer, after: int, upTo: int)
    requires -1 <= after && upTo <= U64_MAX && FiringSlots(RuleOf(peer), after, upTo) == []
    ensures Produce(h, id, peer, after, upTo) == peer
    ensures ProductionEvents(h, id, peer, after, upTo) == []
  {
  }

  lemma {:induction false} NeverFires(after: int, upTo: int)
    requires -1 <= after && upTo <= U64_MAX
    ensures FiringSlots(NoProduction, after, upTo) == []
    decreases upTo - after
  {
    if upTo > after { NeverFires(after, upTo - 1); }
  }
}
