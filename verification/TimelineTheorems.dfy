/** What holds over whole runs of the imaginary network. */
module TimelineTheorems {
  import opened Text
  import opened Hex
  import opened Cbor
  import opened Schedule
  import opened Production
  import opened ProductionTheorems
  import opened PeerStates
  import opened Timeline
  import Declaration

  // ---- replaying a trace -------------------------------------------------------------------

  /** The chain entry a trace record announces, if any. */
  function Announced(r: Record): seq<ChainEntry> {
    match r
    case Extended(entry) => [entry]
    case Fired(e) =>
      if e.skipped then []
      else [ChainEntry(e.slot, DecodeHexOrEmpty(e.blockHashHex), e.blockNumber,
                       SyntheticHeader(e.blockNumber, e.slot), HEADER_VARIANT)]
  }

  function Replay(chain: seq<ChainEntry>, log: seq<Record>): seq<ChainEntry> {
    if log == [] then chain else Replay(chain, log[..|log| - 1]) + Announced(log[|log| - 1])
  }

  function FiredSlots(log: seq<Record>): seq<u64> {
    if log == [] then []
    else
      var last := log[|log| - 1];
      FiredSlots(log[..|log| - 1]) + if last.Fired? then [last.event.slot] else []
  }

  /** A record is right about the chain it was made on: an evaluation is the rule's, an
      explicit entry lies past the tip. */
  ghost predicate RecordOk(h: HashFn, id: Str, rule: ProductionRule, chain: seq<ChainEntry>, r: Record) {
    match r
    case Fired(e) => e == EventAt(h, id, Peer(chain, map[], Some(rule)), e.slot)
    case Extended(entry) => !Covered(chain, entry.slot)
  }

  ghost predicate LogOk(h: HashFn, id: Str, rule: ProductionRule, chain: seq<ChainEntry>, log: seq<Record>) {
    forall i :: 0 <= i < |log| ==> RecordOk(h, id, rule, Replay(chain, log[..i]), log[i])
  }

  lemma {:induction false} ReplayConcat(chain: seq<ChainEntry>, a: seq<Record>, b: seq<Record>)
    ensures Replay(chain, a + b) == Replay(Replay(chain, a), b)
    ensures FiredSlots(a + b) == FiredSlots(a) + FiredSlots(b)
  {
    hide Announced;
    if b == [] {
      assert a + b == a;
    } else {
      ReplayConcat(chain, a, b[..|b| - 1]);
      assert (a + b)[..|a + b| - 1] == a + b[..|b| - 1];
    }
  }

  lemma LogOkConcat(h: HashFn, id: Str, rule: ProductionRule, chain: seq<ChainEntry>, a: seq<Record>, b: seq<Record>)
    requires LogOk(h, id, rule, chain, a) && LogOk(h, id, rule, Replay(chain, a), b)
    ensures LogOk(h, id, rule, chain, a + b)
  {
    hide RecordOk, Replay;
    forall i | 0 <= i < |a + b| ensures RecordOk(h, id, rule, Replay(chain, (a + b)[..i]), (a + b)[i]) {
      if i < |a| {
        assert (a + b)[..i] == a[..i];
      } else {
        assert (a + b)[..i] == a + b[..i - |a|];
        ReplayConcat(chain, a, b[..i - |a|]);
      }
    }
  }

  /** What one evaluation announces is what it adds. */
  lemma AnnouncedIsProduced(h: HashFn, id: Str, peer: Peer, slot: u64)
    ensures peer.chain + Announced(Fired(EventAt(h, id, peer, slot))) == ProduceAt(h, id, peer, slot).chain
    ensures RecordOk(h, id, RuleOf(peer), peer.chain, Fired(EventAt(h, id, peer, slot)))
  {
    hide SyntheticHeader, EncodeHex, DecodeHex, BlockPreimage, InputsOf, ContextOf, KindStr;
    DecodeOfEncode(NewEntry(h, ContextOf(RuleOf(peer)), id, slot, peer.chain).blockHash);
  }

  /** The events of a clock move replay to the chain it leaves. */
  lemma {:induction false} ProductionReplays(h: HashFn, id: Str, peer: Peer, slots: seq<u64>)
    ensures var log := FiredAll(EventsAll(h, id, peer, slots));
      && Replay(peer.chain, log) == ProduceAll(h, id, peer, slots).chain
      && FiredSlots(log) == slots
      && LogOk(h, id, RuleOf(peer), peer.chain, log)
  {
    hide Announced, ProduceAt, EventAt, RecordOk;
    if slots != [] {
      var init, last := slots[..|slots| - 1], slots[|slots| - 1];
      ProductionReplays(h, id, peer, init);
      var before := ProduceAll(h, id, peer, init);
      var record := Fired(EventAt(h, id, before, last));
      var log := FiredAll(EventsAll(h, id, peer, init));
      assert EventsAll(h, id, peer, slots)[..|init|] == EventsAll(h, id, peer, init);
      assert FiredAll(EventsAll(h, id, peer, slots)) == log + [record];
      assert (log + [record])[..|log|] == log;
      AnnouncedIsProduced(h, id, before, last);
      EventFields(h, id, before, last);
      LogOkOne(h, id, RuleOf(peer), peer.chain, log, record);
    }
  }

  lemma EventFields(h: HashFn, id: Str, peer: Peer, slot: u64)
    ensures EventAt(h, id, peer, slot).slot == slot && EventAt(h, id, peer, slot).peerId == id
    ensures EventAt(h, id, peer, slot).skipped <==> Covered(peer.chain, slot)
  {
    hide NewEntry, InputsOf, ContextOf, KindStr;
  }

  lemma LogOkOne(h: HashFn, id: Str, rule: ProductionRule, chain: seq<ChainEntry>, log: seq<Record>, r: Record)
    requires LogOk(h, id, rule, chain, log) && RecordOk(h, id, rule, Replay(chain, log), r)
    ensures LogOk(h, id, rule, chain, log + [r])
  {
    hide RecordOk;
    assert [r][..0] == [];
    LogOkConcat(h, id, rule, chain, log, [r]);
  }

  // ---- the trace determines the chain ---------------------------------------------------------

  ghost predicate TraceAgrees(h: HashFn, id: Str, before: Peer, after: Peer, log: seq<Record>) {
    && after.rule == before.rule
    && after.chain == Replay(before.chain, log)
    && LogOk(h, id, RuleOf(before), before.chain, log)
  }

  /** The slots a peer's rule must fire at while the clock goes from `a` to `b`. */
  ghost function Scheduled(rule: ProductionRule, a: Option<u64>, b: Option<u64>): seq<u64> {
    if a.Some? && b.Some? then FiringSlots(rule, a.value, b.value) else []
  }

  lemma StepTrace(h: HashFn, net: Net, step: Step, id: Str)
    requires StepFits(net, step) && id in net.peers
    ensures TraceAgrees(h, id, net.peers[id], PeerAfter(h, net, step, id), StepLog(h, net, step, id))
    ensures FiredSlots(StepLog(h, net, step, id))
         == Scheduled(RuleOf(net.peers[id]), net.clock, ClockAfter(net, step))
  {
    hide DecodeHex, RecordOk, FiredAll, EventsAll, ProduceAll, FiresAt;
    var peer := net.peers[id];
    if IsExtension(net, step, id) {
      var record := Extended(ExplicitEntry(step));
      assert [record][..0] == [];
      assert RecordOk(h, id, RuleOf(peer), peer.chain, record) by { ExplicitOk(h, net, step, id); }
      assert Replay(peer.chain, [record]) == peer.chain + Announced(record);
    } else if net.clock.Some? {
      ProductionReplays(h, id, peer, FiringSlots(RuleOf(peer), net.clock.value, ClockAfter(net, step).value));
    }
  }

  lemma ExplicitOk(h: HashFn, net: Net, step: Step, id: Str)
    requires id in net.peers && IsExtension(net, step, id)
    ensures RecordOk(h, id, RuleOf(net.peers[id]), net.peers[id].chain, Extended(ExplicitEntry(step)))
  {
    hide DecodeHex;
  }

  /** Over any run: the peer's chain is its starting chain followed by what the trace
      announces, every record is right where it stands, and the rule fired exactly once
      at each scheduled slot past the starting slot, in increasing order. */
  lemma {:induction false} TraceTheorem(h: HashFn, net: Net, steps: seq<Step>, id: Str)
    requires RunReady(h, net, steps) && id in net.peers
    ensures TraceAgrees(h, id, net.peers[id], RunNet(h, net, steps).peers[id], RunLog(h, net, steps, id))
    ensures FiredSlots(RunLog(h, net, steps, id))
         == Scheduled(RuleOf(net.peers[id]), net.clock, RunNet(h, net, steps).clock)
    decreases |steps|
  {
    hide PeerAfter, StepLog, LogOk, StepProblem, FiringSlots, ClockAfter;
    if steps == [] {
      NothingScheduled(h, id, net.peers[id], net.clock);
    } else {
      var next := StepNet(h, net, steps[0]);
      var first, rest := StepLog(h, net, steps[0], id), RunLog(h, next, steps[1..], id);
      StepTrace(h, net, steps[0], id);
      TraceTheorem(h, next, steps[1..], id);
      ReplayConcat(net.peers[id].chain, first, rest);
      LogOkConcat(h, id, RuleOf(net.peers[id]), net.peers[id].chain, first, rest);
      if net.clock.Some? {
        FiringSplit(RuleOf(net.peers[id]), net.clock.value, next.clock.value, RunNet(h, next, steps[1..]).clock.value);
      }
    }
  }

  lemma NothingScheduled(h: HashFn, id: Str, peer: Peer, clock: Option<u64>)
    ensures LogOk(h, id, RuleOf(peer), peer.chain, [])
    ensures Scheduled(RuleOf(peer), clock, clock) == []
  {
  }

  // ---- consequences for the chain ----------------------------------------------------------------

  /** A record that is right announces at most one block, past the tip. */
  lemma AnnouncedPastTip(h: HashFn, id: Str, rule: ProductionRule, chain: seq<ChainEntry>, r: Record)
    requires RecordOk(h, id, rule, chain, r)
    ensures |Announced(r)| <= 1
    ensures |Announced(r)| == 1 ==> !Covered(chain, Announced(r)[0].slot)
  {
    hide EventAt, SyntheticHeader;
    if r.Fired? {
      EventFields(h, id, Peer(chain, map[], Some(rule)), r.event.slot);
    }
  }

  lemma LogOkInit(h: HashFn, id: Str, rule: ProductionRule, chain: seq<ChainEntry>, log: seq<Record>)
    requires LogOk(h, id, rule, chain, log) && log != []
    ensures LogOk(h, id, rule, chain, log[..|log| - 1])
    ensures RecordOk(h, id, rule, Replay(chain, log[..|log| - 1]), log[|log| - 1])
  {
    hide RecordOk, Replay;
    assert forall i :: 0 <= i < |log| - 1 ==> log[..|log| - 1][..i] == log[..i];
  }

  lemma IncreasingAppend(chain: seq<ChainEntry>, e: ChainEntry)
    requires IncreasingSlots(chain) && !Covered(chain, e.slot)
    ensures IncreasingSlots(chain + [e])
  {
  }

  /** Old entries stay, and increasing slots stay increasing, whatever is interleaved. */
  lemma {:induction false} ReplayKeepsOrder(h: HashFn, id: Str, rule: ProductionRule, chain: seq<ChainEntry>, log: seq<Record>)
    requires LogOk(h, id, rule, chain, log)
    ensures chain <= Replay(chain, log)
    ensures IncreasingSlots(chain) ==> IncreasingSlots(Replay(chain, log))
  {
    hide RecordOk, LogOk, Announced, IncreasingSlots, Covered;
    if log != [] {
      var init, added := log[..|log| - 1], Announced(log[|log| - 1]);
      LogOkInit(h, id, rule, chain, log);
      ReplayKeepsOrder(h, id, rule, chain, init);
      AnnouncedPastTip(h, id, rule, Replay(chain, init), log[|log| - 1]);
      if added == [] {
        assert Replay(chain, init) + added == Replay(chain, init);
      } else {
        assert added == [added[0]];
        if IncreasingSlots(chain) { IncreasingAppend(Replay(chain, init), added[0]); }
      }
    }
  }

  lemma ChainInvariant(h: HashFn, net: Net, steps: seq<Step>, id: Str)
    requires RunReady(h, net, steps) && id in net.peers
    ensures net.peers[id].chain <= RunNet(h, net, steps).peers[id].chain
    ensures IncreasingSlots(net.peers[id].chain) ==> IncreasingSlots(RunNet(h, net, steps).peers[id].chain)
  {
    hide LogOk, IncreasingSlots, Replay, FiringSlots, RunNet, RunLog;
    TraceTheorem(h, net, steps, id);
    ReplayKeepsOrder(h, id, RuleOf(net.peers[id]), net.peers[id].chain, RunLog(h, net, steps, id));
  }

  /** A produced block is numbered one past its predecessor (0 on an empty chain), save
      that the successor of the largest 64-bit number is 0. */
  lemma ProducedNumber(h: HashFn, id: Str, rule: ProductionRule, chain: seq<ChainEntry>, e: ProductionEvent)
    requires RecordOk(h, id, rule, chain, Fired(e)) && !e.skipped
    ensures chain == [] ==> e.blockNumber == 0
    ensures chain != [] ==>
      (e.blockNumber == chain[|chain| - 1].blockNumber + 1 <==> chain[|chain| - 1].blockNumber < U64_MAX)
  {
    hide SyntheticHeader, BlockPreimage, EncodeHex, InputsOf, ContextOf, KindStr;
  }

  // ---- stored bodies -----------------------------------------------------------------------------

  ghost predicate BodyAt(peer: Peer, key: BlockKey, body: Bytes) {
    key in peer.store && peer.store[key] == body
  }

  /** A body stored at a slot the chain has reached. */
  ghost predicate Settled(peer: Peer, key: BlockKey, body: Bytes) {
    Covered(peer.chain, key.0) && BodyAt(peer, key, body)
  }

  lemma StepKeepsBody(h: HashFn, net: Net, step: Step, id: Str, key: BlockKey, body: Bytes)
    requires StepFits(net, step) && id in net.peers && Settled(net.peers[id], key, body)
    ensures Settled(PeerAfter(h, net, step, id), key, body)
  {
    hide DecodeHex, Produce;
    if !IsExtension(net, step, id) && net.clock.Some? {
      ProduceKeepsBody(h, id, net.peers[id], net.clock.value, ClockAfter(net, step).value, key, body);
    }
  }

  lemma {:induction false} ProduceKeepsBody(
      h: HashFn, id: Str, peer: Peer, start: int, upTo: int, key: BlockKey, body: Bytes)
    requires -1 <= start <= upTo <= U64_MAX && Settled(peer, key, body)
    ensures Settled(Produce(h, id, peer, start, upTo), key, body)
    decreases upTo
  {
    hide ProduceAt, Settled, FiresAt;
    if start < upTo {
      ProduceKeepsBody(h, id, peer, start, upTo - 1, key, body);
      ProduceStep(h, id, peer, start, upTo);
      BlockKeepsBody(h, id, Produce(h, id, peer, start, upTo - 1), upTo, key, body);
    }
  }

  lemma BlockKeepsBody(h: HashFn, id: Str, peer: Peer, slot: u64, key: BlockKey, body: Bytes)
    requires Settled(peer, key, body)
    ensures Settled(ProduceAt(h, id, peer, slot), key, body)
  {
    hide BlockPreimage, SyntheticHeader, ContextOf;
  }

  lemma {:induction false} RunKeepsBody(h: HashFn, net: Net, steps: seq<Step>, id: Str, key: BlockKey, body: Bytes)
    requires RunFits(h, net, steps) && id in net.peers && Settled(net.peers[id], key, body)
    ensures BodyAt(RunNet(h, net, steps).peers[id], key, body)
    decreases |steps|
  {
    hide PeerAfter, StepProblem, ClockAfter, BodyAt;
    if steps != [] {
      StepKeepsBody(h, net, steps[0], id, key, body);
      RunKeepsBody(h, StepNet(h, net, steps[0]), steps[1..], id, key, body);
    }
  }

  /** Right after a clock move every block it produced has its body stored. */
  lemma ProducedBodyStored(h: HashFn, id: Str, peer: Peer, start: int, upTo: int, j: nat)
    requires -1 <= start <= upTo <= U64_MAX
    requires |peer.chain| <= j < |Produce(h, id, peer, start, upTo).chain|
    ensures var after := Produce(h, id, peer, start, upTo); var e := after.chain[j];
      Settled(after, (e.slot, e.blockHash), [0xa0])
  {
    hide NewEntry, FiresAt, Produce;
    var after := Produce(h, id, peer, start, upTo);
    ProducedEntries(h, id, peer, start, upTo);
    assert IsProduced(h, id, after, j);
    ProducedIncreasing(h, id, peer, after, j, |after.chain| - 1);
  }

  lemma {:induction false} ProducedIncreasing(h: HashFn, id: Str, peer: Peer, after: Peer, i: nat, j: nat)
    requires Extends(h, id, peer, after)
    requires |peer.chain| <= i <= j < |after.chain|
    ensures after.chain[i].slot <= after.chain[j].slot
    ensures i < j ==> after.chain[i].slot < after.chain[j].slot
    decreases j
  {
    hide IsProduced, HashedBytes;
    if i < j {
      ProducedIncreasing(h, id, peer, after, i, j - 1);
      ProducedHash(h, id, after, j);
      assert after.chain[..j][j - 1] == after.chain[j - 1];
    }
  }

  /** The body of every block produced by one clock move is still there after any later run. */
  lemma BodiesKept(h: HashFn, net: Net, step: Step, later: seq<Step>, id: Str)
    requires id in net.peers && net.clock.Some? && step.MovesClock()
    requires StepFits(net, step) && RunFits(h, StepNet(h, net, step), later)
    ensures var mid := StepNet(h, net, step); var after := RunNet(h, mid, later).peers[id];
      forall j :: |net.peers[id].chain| <= j < |mid.peers[id].chain| ==>
        BodyAt(after, (mid.peers[id].chain[j].slot, mid.peers[id].chain[j].blockHash), [0xa0])
  {
    hide BodyAt, Produce;
    var mid := StepNet(h, net, step);
    forall j | |net.peers[id].chain| <= j < |mid.peers[id].chain|
      ensures BodyAt(RunNet(h, mid, later).peers[id], (mid.peers[id].chain[j].slot, mid.peers[id].chain[j].blockHash), [0xa0])
    {
      ProducedBodyStored(h, id, net.peers[id], net.clock.value, ClockAfter(net, step).value, j);
      RunKeepsBody(h, mid, later, id, (mid.peers[id].chain[j].slot, mid.peers[id].chain[j].blockHash), [0xa0]);
    }
  }

  /** The body given with an accepted extension is stored under its slot and hash, and is still
      there after any later run. */
  lemma GivenBodyKept(h: HashFn, net: Net, step: Step, later: seq<Step>)
    requires step.PeerExtendsChain? && StepProblem(net, step).None? && step.blockBody.Some?
    requires RunFits(h, StepNet(h, net, step), later)
    ensures DecodeHex(step.blockHash).Some? && DecodeHex(step.blockBody.value).Some?
    ensures BodyAt(RunNet(h, StepNet(h, net, step), later).peers[step.peerId],
                   (step.slot, DecodeHex(step.blockHash).value), DecodeHex(step.blockBody.value).value)
  {
    hide DecodeHex, RunNet;
    var body := DecodeHex(step.blockBody.value).value;
    ExtensionStep(h, net, step, ExplicitEntry(step), Some(body));
    RunKeepsBody(h, StepNet(h, net, step), later, step.peerId, (step.slot, DecodeHex(step.blockHash).value), body);
  }

  /** A validated rule is ready for every clock move that keeps one interval clear of the
      end of the 64-bit range. */
  lemma ValidatedRuleReady(rule: ProductionRule, startSlot: Option<u64>, oldSlot: u64, newSlot: u64)
    requires Declaration.RuleOk(rule, startSlot) && oldSlot < U64_MAX
    requires rule.Periodic() ==> newSlot + rule.interval <= U64_MAX
    ensures ReadyRule(Some(rule), oldSlot, newSlot)
  {
    hide RangeFits;
    if rule.Periodic() {
      BoundSuffices(rule.firstSlot, rule.interval, oldSlot + 1, newSlot);
    }
  }

  /** Validated rules and a run whose last slot keeps one interval clear of the end of the
      64-bit range: every clock move along the way computes its slots without overflow and
      ends. */
  lemma {:induction false} BoundedRunReady(h: HashFn, net: Net, steps: seq<Step>, startSlot: Option<u64>)
    requires RunFits(h, net, steps)
    requires forall id :: id in net.peers && net.peers[id].rule.Some? ==> Declaration.RuleOk(net.peers[id].rule.value, startSlot)
    requires net.clock.Some? ==>
      && RunNet(h, net, steps).clock.value < U64_MAX
      && forall id :: id in net.peers && RuleOf(net.peers[id]).Periodic() ==>
           RunNet(h, net, steps).clock.value + RuleOf(net.peers[id]).interval <= U64_MAX
    ensures RunReady(h, net, steps)
    decreases |steps|
  {
    hide Declaration.RuleOk, ReadyRule, StepProblem, ClockAfter, PeerAfter;
    if steps != [] {
      var next := StepNet(h, net, steps[0]);
      forall id | id in net.peers ensures next.peers[id].rule == net.peers[id].rule { RuleKept(h, net, steps[0], id); }
      if net.clock.Some? {
        forall id | id in net.peers ensures ReadyRule(net.peers[id].rule, net.clock.value, next.clock.value) {
          var rule := net.peers[id].rule;
          if rule.Some? {
            ValidatedRuleReady(rule.value, startSlot, net.clock.value, next.clock.value);
          } else {
            NoRuleReady(net.clock.value, next.clock.value);
          }
        }
      }
      NoClockNoMove(net, steps[0]);
      BoundedRunReady(h, next, steps[1..], startSlot);
    }
  }

  lemma RuleKept(h: HashFn, net: Net, step: Step, id: Str)
    requires StepFits(net, step) && id in net.peers
    ensures PeerAfter(h, net, step, id).rule == net.peers[id].rule
  {
    hide DecodeHex, Produce;
  }

  lemma NoRuleReady(oldSlot: u64, newSlot: u64)
    ensures ReadyRule(None, oldSlot, newSlot)
  {
  }

  lemma NoClockNoMove(net: Net, step: Step)
    ensures step.MovesClock() && net.clock.None? ==> StepProblem(net, step).Some?
  {
  }

  /** Without a start slot there is no clock: every advance and tick is rejected and nothing
      is ever produced. */
  lemma {:induction false} NoStartSlotNoTime(h: HashFn, net: Net, steps: seq<Step>)
    requires net.clock.None? && ClockOnly(steps)
    ensures RunReady(h, net, steps) && RunNet(h, net, steps) == net
    ensures forall id :: id in net.peers ==> RunLog(h, net, steps, id) == []
    decreases |steps|
  {
    hide StepProblem;
    if steps != [] {
      NoClockNoMove(net, steps[0]);
      Rejected(h, net, steps[0]);
      NoStartSlotNoTime(h, net, steps[1..]);
    }
  }

  // ---- clock-only runs ---------------------------------------------------------------------------

  predicate ClockOnly(steps: seq<Step>) {
    forall i :: 0 <= i < |steps| ==> steps[i].MovesClock()
  }

  /** However the way from one slot to another is cut into advances and ticks, each peer
      ends as if the clock had moved once, and its events are those of the one move. */
  lemma {:induction false} ClockRunsAgree(h: HashFn, net: Net, steps: seq<Step>, id: Str)
    requires RunReady(h, net, steps) && ClockOnly(steps) && net.clock.Some? && id in net.peers
    ensures var upTo := RunNet(h, net, steps).clock.value;
      && RunNet(h, net, steps).peers[id] == Produce(h, id, net.peers[id], net.clock.value, upTo)
      && RunLog(h, net, steps, id) == FiredAll(ProductionEvents(h, id, net.peers[id], net.clock.value, upTo))
    decreases |steps|
  {
    hide Produce, ProductionEvents, FiredAll, StepProblem, ClockAfter;
    if steps == [] {
      StandStill(h, id, net.peers[id], net.clock.value);
      assert FiredAll([]) == [];
    } else {
      var next := StepNet(h, net, steps[0]);
      var upTo := RunNet(h, next, steps[1..]).clock.value;
      assert !IsExtension(net, steps[0], id);
      ClockRunsAgree(h, next, steps[1..], id);
      SplitInvariance(h, id, net.peers[id], net.clock.value, next.clock.value, upTo);
      FiredAllConcat(ProductionEvents(h, id, net.peers[id], net.clock.value, next.clock.value),
                     ProductionEvents(h, id, next.peers[id], next.clock.value, upTo));
    }
  }

  lemma {:induction false} FiredAllConcat(a: seq<ProductionEvent>, b: seq<ProductionEvent>)
    ensures FiredAll(a + b) == FiredAll(a) + FiredAll(b)
  {
  }

  /** Two ways to the same slot are indistinguishable. */
  lemma TwoWaysToASlot(h: HashFn, net: Net, s: seq<Step>, t: seq<Step>)
    requires RunReady(h, net, s) && RunReady(h, net, t) && ClockOnly(s) && ClockOnly(t) && net.clock.Some?
    requires RunNet(h, net, s).clock == RunNet(h, net, t).clock
    ensures RunNet(h, net, s) == RunNet(h, net, t)
    ensures forall id :: id in net.peers ==> RunLog(h, net, s, id) == RunLog(h, net, t, id)
  {
    hide Produce, ProductionEvents, FiredAll, StepNet;
    forall id | id in net.peers
      ensures RunNet(h, net, s).peers[id] == RunNet(h, net, t).peers[id]
      ensures RunLog(h, net, s, id) == RunLog(h, net, t, id)
    {
      ClockRunsAgree(h, net, s, id);
      ClockRunsAgree(h, net, t, id);
    }
    assert RunNet(h, net, s).peers == RunNet(h, net, t).peers;
  }

  /** The forked-peers theorem after any sequence of advances and ticks. */
  lemma ForkAfterAnyRun(h: HashFn, net: Net, steps: seq<Step>, idA: Str, idB: Str)
    requires RunReady(h, net, steps) && ClockOnly(steps) && net.clock.Some? && idA in net.peers && idB in net.peers
    requires SameTimingFork(RuleOf(net.peers[idA]), RuleOf(net.peers[idB]))
    requires RuleOf(net.peers[idA]).forkMarker != RuleOf(net.peers[idB]).forkMarker
    requires net.peers[idA].chain == net.peers[idB].chain
    ensures var pa, pb := RunNet(h, net, steps).peers[idA], RunNet(h, net, steps).peers[idB];
      && Twins(pa.chain, pb.chain)
      && forall j :: |net.peers[idA].chain| <= j < |pa.chain| ==>
           ForkedAt(h, idA, pa, idB, pb, RuleOf(net.peers[idA]).forkSlot, j)
  {
    hide Produce, ForkedAt, RunNet, Twins;
    ClockRunsAgree(h, net, steps, idA);
    ClockRunsAgree(h, net, steps, idB);
    ForkTheorem(h, idA, net.peers[idA], idB, net.peers[idB], net.clock.value, RunNet(h, net, steps).clock.value);
  }

  // ---- short hashes ------------------------------------------------------------------------------

  /** An explicit first block whose hash is this text. */
  function FirstBlock(id: Str, hashText: Str): Step {
    Step.PeerExtendsChain(id, 0, 0, hashText, [], None, None)
  }

  lemma OneBlockOnTop(h: HashFn, id: Str, first: ChainEntry, slot: u64)
    requires first.slot == 0 < slot <= 261
    ensures Produce(h, id, Peer([first], map[], Some(AtSlots([slot]))), 0, 261).chain
         == [first, NewEntry(h, Honest, id, slot, [first])]
  {
    hide NewEntry, FiringSlots;
    var peer := Peer([first], map[], Some(AtSlots([slot])));
    FiringUnique(RuleOf(peer), 0, 261, [slot]);
    assert [slot][..0] == [];
    assert ProduceAll(h, id, peer, [slot]) == ProduceAt(h, id, peer, slot);
  }

  const ID_A: Str := []
  const ID_B: Str := [0]

  function TwoPeers(a: seq<ChainEntry>, b: seq<ChainEntry>): Net {
    Net(Some(0), map[ID_A := Peer(a, map[], Some(AtSlots([1]))), ID_B := Peer(b, map[], Some(AtSlots([261])))])
  }

  const FIRST_A: Step := FirstBlock(ID_A, [0x30, 0x35])
  const FIRST_B: Step := FirstBlock(ID_B, [])

  lemma FirstBlocks(h: HashFn)
    ensures DecodeHex([0x30, 0x35]) == Some([5]) && DecodeHex([]) == Some([])
    ensures StepNet(h, TwoPeers([], []), FIRST_A) == TwoPeers([ExplicitEntry(FIRST_A)], [])
    ensures StepNet(h, TwoPeers([ExplicitEntry(FIRST_A)], []), FIRST_B)
         == TwoPeers([ExplicitEntry(FIRST_A)], [ExplicitEntry(FIRST_B)])
  {
    hide StepNet;
    HexFive();
    var ea, eb := ExplicitEntry(FIRST_A), ExplicitEntry(FIRST_B);
    ExtensionStep(h, TwoPeers([], []), FIRST_A, ea, None);
    ExtensionStep(h, TwoPeers([ea], []), FIRST_B, eb, None);
    assert [] + [ea] == [ea] && [] + [eb] == [eb];
  }

  /** Equal lengths are needed: an explicit extension may carry a hash of any length, and two
      peers that start with short ones can produce different blocks from the same hash
      input, so with the same hash, whatever the hash function. */
  lemma ShortHashesCollide(h: HashFn)
    ensures var net := TwoPeers([], []);
      var steps := [FIRST_A, FIRST_B, Step.AdvanceToSlot(261)];
      && RunReady(h, net, steps)
      && var a, b := RunNet(h, net, steps).peers[ID_A].chain, RunNet(h, net, steps).peers[ID_B].chain;
        && |a| == 2 && |b| == 2
        && a[1].slot == 1 && b[1].slot == 261 && a[1].blockHash == b[1].blockHash
  {
    hide StepNet, NewEntry, RunNet, RunReady, StepReady, TwoPeers, DecodeHex;
    FirstBlocks(h);
    StepsReady(ExplicitEntry(FIRST_A), ExplicitEntry(FIRST_B));
    LastMove(h, ExplicitEntry(FIRST_A), ExplicitEntry(FIRST_B));
    RunThree(h, TwoPeers([], []), FIRST_A, FIRST_B, Step.AdvanceToSlot(261));
  }

  lemma StepsReady(ea: ChainEntry, eb: ChainEntry)
    ensures DecodeHex([0x30, 0x35]) == Some([5]) && DecodeHex([]) == Some([])
    ensures StepReady(TwoPeers([], []), FIRST_A) && StepReady(TwoPeers([ea], []), FIRST_B)
    ensures StepReady(TwoPeers([ea], [eb]), Step.AdvanceToSlot(261))
  {
    hide DecodeHex, StepProblem;
    HexFive();
  }

  lemma LastMove(h: HashFn, ea: ChainEntry, eb: ChainEntry)
    requires ea.slot == eb.slot == 0 && ea.blockHash == [5] && eb.blockHash == []
    ensures var after := StepNet(h, TwoPeers([ea], [eb]), Step.AdvanceToSlot(261)).peers;
      && ID_A in after && ID_B in after
      && |after[ID_A].chain| == 2 && |after[ID_B].chain| == 2
      && after[ID_A].chain[1].slot == 1 && after[ID_B].chain[1].slot == 261
      && after[ID_A].chain[1].blockHash == after[ID_B].chain[1].blockHash
  {
    hide StepNet, NewEntry, Preimage, Produce, StepLog, TwoPeers, MovedAll;
    var net := TwoPeers([ea], [eb]);
    TwoPeersFields([ea], [eb]);
    ClockStep(h, net, Step.AdvanceToSlot(261), 261);
    MovedEach(h, net.peers, 0, 261);
    OneBlockOnTop(h, ID_A, ea, 1);
    OneBlockOnTop(h, ID_B, eb, 261);
    PreimageAmbiguous();
    NewEntryHash(h, ID_A, 1, [ea]);
    NewEntryHash(h, ID_B, 261, [eb]);
  }

  lemma TwoPeersFields(a: seq<ChainEntry>, b: seq<ChainEntry>)
    ensures var net := TwoPeers(a, b);
      && net.clock == Some(0) && ID_A in net.peers && ID_B in net.peers
      && net.peers[ID_A] == Peer(a, map[], Some(AtSlots([1]))) && net.peers[ID_B] == Peer(b, map[], Some(AtSlots([261])))
  {
  }

  lemma MovedEach(h: HashFn, peers: map<Str, Peer>, oldSlot: u64, newSlot: u64)
    ensures MovedAll(h, peers, oldSlot, newSlot).Keys == peers.Keys
    ensures forall id :: id in peers ==> MovedAll(h, peers, oldSlot, newSlot)[id] == Produce(h, id, peers[id], oldSlot, newSlot)
  {
    hide Produce;
  }

  lemma HexFive()
    ensures DecodeHex([0x30, 0x35]) == Some([5]) && DecodeHex([]) == Some([])
  {
    var text: Str := [0x30, 0x35];
    assert PairValue(text[0], text[1]) == Some(5);
    assert text[2..] == [] && [5] + [] == [5];
  }

  lemma NewEntryHash(h: HashFn, id: Str, slot: u64, chain: seq<ChainEntry>)
    ensures NewEntry(h, Honest, id, slot, chain).blockHash == h(Preimage(id, slot, PrevHash(chain)))
    ensures NewEntry(h, Honest, id, slot, chain).slot == slot
  {
    hide SyntheticHeader;
  }

  lemma RunThree(h: HashFn, net: Net, s1: Step, s2: Step, s3: Step)
    requires StepReady(net, s1) && StepReady(StepNet(h, net, s1), s2)
    requires StepReady(StepNet(h, StepNet(h, net, s1), s2), s3)
    ensures RunReady(h, net, [s1, s2, s3])
    ensures RunNet(h, net, [s1, s2, s3]) == StepNet(h, StepNet(h, StepNet(h, net, s1), s2), s3)
  {
    hide StepNet, StepReady;
    assert [s1, s2, s3][1..] == [s2, s3] && [s2, s3][1..] == [s3] && [s3][1..] == [];
    var n1 := StepNet(h, net, s1);
    var n2 := StepNet(h, n1, s2);
    var n3 := StepNet(h, n2, s3);
    assert RunReady(h, n3, []) && RunNet(h, n3, []) == n3;
    assert RunReady(h, n2, [s3]) && RunNet(h, n2, [s3]) == n3;
    assert RunReady(h, n1, [s2, s3]) && RunNet(h, n1, [s2, s3]) == n3;
  }
}
