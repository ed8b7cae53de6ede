/** The imaginary network over time: a clock, named peers, and the three kinds of step
    that move them (`advance_to_slot`, `tick_slots`, `peer_extends_chain`).

    A run is a list of steps, each accepted or rejected. A rejected step changes nothing;
    the scenario runner would stop there, so its runs are among those considered here.
    Each step takes effect without yielding, so an interleaving of parallel branches is
    again such a list. */
module Timeline {
  import opened Text
  import opened Hex
  import opened Cbor
  import opened Schedule
  import opened Production
  import opened PeerStates

  datatype Net = Net(clock: Option<u64>, peers: map<Str, Peer>)

  datatype Step =
    | AdvanceToSlot(target: u64)
    | TickSlots(count: u64)
    | PeerExtendsChain(peerId: Str, slot: u64, blockNumber: u64, blockHash: Str,
                       headerCbor: Str, variant: Option<byte>, blockBody: Option<Str>)
  {
    predicate MovesClock() { !PeerExtendsChain? }
  }

  datatype StepError =
    | NoClock
    | NotForward(target: u64, current: u64)
    | BadHex
    | UnknownPeer
    | NotAfterTip(slot: u64, tip: u64)

  // ---- one step, as values --------------------------------------------------------------

  function StepProblem(net: Net, step: Step): Option<StepError> {
    match step
    case AdvanceToSlot(target) =>
      if net.clock.None? then Some(NoClock)
      else if target <= net.clock.value then Some(NotForward(target, net.clock.value))
      else None
    case TickSlots(_) => if net.clock.None? then Some(NoClock) else None
    case PeerExtendsChain(peerId, slot, _, blockHash, headerCbor, _, blockBody) =>
      if DecodeHex(blockHash).None? || DecodeHex(headerCbor).None?
         || (blockBody.Some? && DecodeHex(blockBody.value).None?) then Some(BadHex)
      else if peerId !in net.peers then Some(UnknownPeer)
      else if Covered(net.peers[peerId].chain, slot)
      then Some(NotAfterTip(slot, TipSlot(net.peers[peerId].chain).value))
      else None
  }

  /** A tick may not carry the 64-bit clock past its end. */
  predicate StepFits(net: Net, step: Step) {
    step.TickSlots? && net.clock.Some? ==> net.clock.value + step.count <= U64_MAX
  }

  function ClockAfter(net: Net, step: Step): (c: Option<u64>)
    requires StepFits(net, step)
    ensures net.clock.None? ==> c == net.clock
    ensures net.clock.Some? ==> c.Some? && net.clock.value <= c.value
  {
    if StepProblem(net, step).Some? then net.clock
    else match step
      case AdvanceToSlot(target) => Some(target)
      case TickSlots(count) => Some(net.clock.value + count)
      case PeerExtendsChain(_, _, _, _, _, _, _) => net.clock
  }

  function ExplicitEntry(step: Step): ChainEntry
    requires step.PeerExtendsChain? && DecodeHex(step.blockHash).Some? && DecodeHex(step.headerCbor).Some?
  {
    ChainEntry(step.slot, DecodeHex(step.blockHash).value, step.blockNumber, DecodeHex(step.headerCbor).value,
               if step.variant.Some? then step.variant.value else HEADER_VARIANT)
  }

  predicate IsExtension(net: Net, step: Step, id: Str) {
    step.PeerExtendsChain? && step.peerId == id && StepProblem(net, step).None?
  }

  function PeerAfter(h: HashFn, net: Net, step: Step, id: Str): Peer
    requires StepFits(net, step) && id in net.peers
  {
    if IsExtension(net, step, id) then
      ExtendPeer(net.peers[id], ExplicitEntry(step),
                 if step.blockBody.Some? then DecodeHex(step.blockBody.value) else None)
    else if net.clock.Some? then
      Produce(h, id, net.peers[id], net.clock.value, ClockAfter(net, step).value)
    else net.peers[id]
  }

  function StepNet(h: HashFn, net: Net, step: Step): Net
    requires StepFits(net, step)
  {
    Net(ClockAfter(net, step), map id | id in net.peers :: PeerAfter(h, net, step, id))
  }

  /** What the trace records about a peer: rule evaluations and explicit extensions. */
  datatype Record = Fired(event: ProductionEvent) | Extended(entry: ChainEntry)

  function FiredAll(events: seq<ProductionEvent>): (r: seq<Record>)
    ensures |r| == |events| && forall i :: 0 <= i < |r| ==> r[i] == Fired(events[i])
  {
    if events == [] then [] else FiredAll(events[..|events| - 1]) + [Fired(events[|events| - 1])]
  }

  function StepLog(h: HashFn, net: Net, step: Step, id: Str): seq<Record>
    requires StepFits(net, step) && id in net.peers
  {
    if IsExtension(net, step, id) then [Extended(ExplicitEntry(step))]
    else if net.clock.Some? then
      FiredAll(ProductionEvents(h, id, net.peers[id], net.clock.value, ClockAfter(net, step).value))
    else []
  }

  // ---- runs -----------------------------------------------------------------------------

  predicate RunFits(h: HashFn, net: Net, steps: seq<Step>)
    decreases |steps|
  {
    steps == [] || (StepFits(net, steps[0]) && RunFits(h, StepNet(h, net, steps[0]), steps[1..]))
  }

  /** What the code needs of a step: an accepted clock move must find every peer's rule fit for
      it, or the computation of its slots overflows or never ends. */
  ghost predicate StepReady(net: Net, step: Step): (r: bool)
    ensures r ==> StepFits(net, step)
  {
    && StepFits(net, step)
    && (step.MovesClock() && StepProblem(net, step).None? ==>
          forall id :: id in net.peers ==>
            ReadyRule(net.peers[id].rule, net.clock.value, ClockAfter(net, step).value))
  }

  ghost predicate RunReady(h: HashFn, net: Net, steps: seq<Step>): (r: bool)
    ensures r ==> RunFits(h, net, steps)
    decreases |steps|
  {
    steps == [] || (StepReady(net, steps[0]) && RunReady(h, StepNet(h, net, steps[0]), steps[1..]))
  }

  function RunNet(h: HashFn, net: Net, steps: seq<Step>): (r: Net)
    requires RunFits(h, net, steps)
    ensures r.peers.Keys == net.peers.Keys
    ensures net.clock.None? <==> r.clock.None?
    ensures net.clock.Some? ==> net.clock.value <= r.clock.value
    decreases |steps|
  {
    if steps == [] then net else RunNet(h, StepNet(h, net, steps[0]), steps[1..])
  }

  function RunLog(h: HashFn, net: Net, steps: seq<Step>, id: Str): seq<Record>
    requires RunFits(h, net, steps) && id in net.peers
    decreases |steps|
  {
    if steps == [] then []
    else StepLog(h, net, steps[0], id) + RunLog(h, StepNet(h, net, steps[0]), steps[1..], id)
  }

  lemma {:induction false} RunOneMore(h: HashFn, net: Net, steps: seq<Step>, step: Step)
    requires RunReady(h, net, steps + [step])
    ensures RunReady(h, net, steps) && StepReady(RunNet(h, net, steps), step)
    ensures RunNet(h, net, steps + [step]) == StepNet(h, RunNet(h, net, steps), step)
    ensures forall id :: id in net.peers ==>
      RunLog(h, net, steps + [step], id) == RunLog(h, net, steps, id) + StepLog(h, RunNet(h, net, steps), step, id)
    decreases |steps|
  {
    hide StepNet, StepReady, StepLog;
    var all := steps + [step];
    if steps == [] {
      assert all == [step] && [step][1..] == [];
      NoSteps(h, StepNet(h, net, step));
    } else {
      assert all[0] == steps[0] && all[1..] == steps[1..] + [step];
      StepKeepsPeers(h, net, steps[0]);
      RunOneMore(h, StepNet(h, net, steps[0]), steps[1..], step);
    }
  }

  lemma NoSteps(h: HashFn, net: Net)
    ensures RunReady(h, net, []) && RunNet(h, net, []) == net
    ensures forall id :: id in net.peers ==> RunLog(h, net, [], id) == []
  {
  }

  lemma StepKeepsPeers(h: HashFn, net: Net, step: Step)
    requires StepFits(net, step)
    ensures StepNet(h, net, step).peers.Keys == net.peers.Keys
  {
  }

  lemma {:induction false} ReadyPrefix(h: HashFn, net: Net, steps: seq<Step>, n: nat)
    requires RunReady(h, net, steps) && n <= |steps|
    ensures RunReady(h, net, steps[..n])
    decreases |steps|
  {
    hide StepNet, StepReady;
    if n > 0 {
      ReadyPrefix(h, StepNet(h, net, steps[0]), steps[1..], n - 1);
      assert steps[..n][0] == steps[0] && steps[..n][1..] == steps[1..][..n - 1];
    }
  }

  /** A trace record with the peer it is about. */
  datatype Traced = Traced(peerId: Str, record: Record)

  function RecordsOf(trace: seq<Traced>, id: Str): seq<Record> {
    if trace == [] then []
    else
      var last := trace[|trace| - 1];
      RecordsOf(trace[..|trace| - 1], id) + if last.peerId == id then [last.record] else []
  }

  lemma {:induction false} RecordsConcat(a: seq<Traced>, b: seq<Traced>, id: Str)
    ensures RecordsOf(a + b, id) == RecordsOf(a, id) + RecordsOf(b, id)
  {
    if b == [] {
      assert a + b == a;
    } else {
      RecordsConcat(a, b[..|b| - 1], id);
      assert (a + b)[..|a + b| - 1] == a + b[..|b| - 1];
    }
  }

  function TraceEvents(events: seq<ProductionEvent>): seq<Traced> {
    if events == [] then []
    else
      var last := events[|events| - 1];
      TraceEvents(events[..|events| - 1]) + [Traced(last.peerId, Fired(last))]
  }

  lemma {:induction false} EventRecords(events: seq<ProductionEvent>, id: Str)
    ensures RecordsOf(TraceEvents(events), id) == FiredAll(EventsOf(events, id))
  {
    if events != [] {
      var init, last := events[..|events| - 1], events[|events| - 1];
      EventRecords(init, id);
      var all := TraceEvents(events);
      assert all[..|all| - 1] == TraceEvents(init);
      if last.peerId == id {
        var mine := EventsOf(events, id);
        assert mine[..|mine| - 1] == EventsOf(init, id);
      }
    }
  }

  // ---- the runner's state, changed in place ------------------------------------------------

  class NetworkState {
    var currentSlot: Option<u64>
    var peers: Peers

    ghost predicate Valid()
      reads this
    {
      Separate(peers)
    }

    ghost function View(): Net
      reads this, peers.Values
    {
      Net(currentSlot, Views(peers))
    }

    constructor (startSlot: Option<u64>, peers: Peers)
      requires Separate(peers)
      ensures Valid() && this.peers == peers && currentSlot == startSlot
    {
      this.currentSlot, this.peers := startSlot, peers;
    }

    method AdvanceToSlot(h: HashFn, newSlot: u64) returns (r: Result<seq<ProductionEvent>, StepError>)
      requires Valid() && StepReady(View(), Step.AdvanceToSlot(newSlot))
      modifies this`currentSlot, peers.Values
      ensures Valid() && View() == StepNet(h, old(View()), Step.AdvanceToSlot(newSlot))
      ensures r.Ok? <==> old(currentSlot).Some? && newSlot > old(currentSlot).value
      ensures r.Err? ==> r.error == if old(currentSlot).None? then NoClock else NotForward(newSlot, old(currentSlot).value)
      ensures currentSlot == if r.Ok? then Some(newSlot) else old(currentSlot)
      ensures Views(peers) ==
        if r.Ok? then MovedAll(h, old(Views(peers)), old(currentSlot).value, newSlot) else old(Views(peers))
      ensures r.Ok? <==> StepProblem(old(View()), Step.AdvanceToSlot(newSlot)).None?
      ensures r.Err? ==> Some(r.error) == StepProblem(old(View()), Step.AdvanceToSlot(newSlot))
      ensures r.Ok? ==> forall id :: id in peers ==>
        FiredAll(EventsOf(r.value, id)) == StepLog(h, old(View()), Step.AdvanceToSlot(newSlot), id)
    {
      hide StepProblem, ClockAfter, FiredAll, EventsOf, StepReady, ReadyRule, MovedAll, ProductionEvents, StepNet, StepLog, Views;
      ghost var before := View();
      RulesSeen(peers);
      ClockProblems(before, newSlot);
      if currentSlot.None? {
        Rejected(h, before, Step.AdvanceToSlot(newSlot));
        return Err(NoClock);
      }
      var current := currentSlot.value;
      if newSlot <= current {
        Rejected(h, before, Step.AdvanceToSlot(newSlot));
        return Err(NotForward(newSlot, current));
      }
      PeersReady(before, Step.AdvanceToSlot(newSlot), newSlot);
      currentSlot := Some(newSlot);
      var events := ApplyProductionRules(h, peers, current, newSlot);
      ClockStep(h, before, Step.AdvanceToSlot(newSlot), newSlot);
      r := Ok(events);
    }

    method TickSlots(h: HashFn, count: u64) returns (r: Result<seq<ProductionEvent>, StepError>)
      requires Valid() && StepReady(View(), Step.TickSlots(count))
      modifies this`currentSlot, peers.Values
      ensures Valid() && View() == StepNet(h, old(View()), Step.TickSlots(count))
      ensures r.Ok? <==> old(currentSlot).Some?
      ensures r.Ok? ==> currentSlot == Some(old(currentSlot).value + count)
      ensures r.Err? ==> currentSlot == None && r.error == NoClock
      ensures Views(peers) ==
        if r.Ok? then MovedAll(h, old(Views(peers)), old(currentSlot).value, old(currentSlot).value + count)
        else old(Views(peers))
      ensures r.Ok? <==> StepProblem(old(View()), Step.TickSlots(count)).None?
      ensures r.Err? ==> Some(r.error) == StepProblem(old(View()), Step.TickSlots(count))
      ensures r.Ok? ==> forall id :: id in peers ==>
        FiredAll(EventsOf(r.value, id)) == StepLog(h, old(View()), Step.TickSlots(count), id)
    {
      hide StepProblem, ClockAfter, FiredAll, EventsOf, StepReady, ReadyRule, MovedAll, ProductionEvents, StepNet, StepLog, Views;
      ghost var before := View();
      RulesSeen(peers);
      ClockProblems(before, count);
      if currentSlot.None? {
        Rejected(h, before, Step.TickSlots(count));
        return Err(NoClock);
      }
      var oldSlot := currentSlot.value;
      PeersReady(before, Step.TickSlots(count), oldSlot + count);
      currentSlot := Some(oldSlot + count);
      var events := ApplyProductionRules(h, peers, oldSlot, oldSlot + count);
      ClockStep(h, before, Step.TickSlots(count), oldSlot + count);
      r := Ok(events);
    }

    method PeerExtendsChain(ghost h: HashFn, peerId: Str, slot: u64, blockNumber: u64, blockHash: Str,
                            headerCbor: Str, variant: Option<byte>, blockBody: Option<Str>)
      returns (r: Result<(), StepError>)
      requires Valid()
      modifies peers.Values
      ensures Valid()
      ensures View() == StepNet(h, old(View()),
        Step.PeerExtendsChain(peerId, slot, blockNumber, blockHash, headerCbor, variant, blockBody))
      ensures r == match StepProblem(old(View()),
          Step.PeerExtendsChain(peerId, slot, blockNumber, blockHash, headerCbor, variant, blockBody))
        case None => Ok(())
        case Some(e) => Err(e)
      // Acceptance and effect, field by field.
      ensures r.Ok? <==>
        && DecodeHex(blockHash).Some? && DecodeHex(headerCbor).Some?
        && (blockBody.Some? ==> DecodeHex(blockBody.value).Some?)
        && peerId in peers
        && var chain := old(peers[peerId].chainEntries); chain == [] || slot > chain[|chain| - 1].slot
      ensures r == Err(BadHex) <==>
        || DecodeHex(blockHash).None? || DecodeHex(headerCbor).None?
        || (blockBody.Some? && DecodeHex(blockBody.value).None?)
      ensures r.Err? && r.error != BadHex ==> (r == Err(UnknownPeer) <==> peerId !in peers)
      ensures r.Err? && r.error != BadHex && peerId in peers ==>
        var chain := old(peers[peerId].chainEntries); chain != [] && r.error == NotAfterTip(slot, chain[|chain| - 1].slot)
      ensures r.Ok? ==>
        && peers[peerId].productionRule == old(peers[peerId].productionRule)
        && peers[peerId].chainEntries == old(peers[peerId].chainEntries)
             + [ChainEntry(slot, DecodeHex(blockHash).value, blockNumber, DecodeHex(headerCbor).value,
                           if variant.Some? then variant.value else 6)]
        && peers[peerId].blockStore ==
             if blockBody.None? then old(peers[peerId].blockStore)
             else old(peers[peerId].blockStore)[(slot, DecodeHex(blockHash).value) := DecodeHex(blockBody.value).value]
      ensures forall id :: id in peers && (r.Err? || id != peerId) ==> peers[id].View() == old(peers[id].View())
    {
      hide DecodeHex, StepNet, Covered;
      ghost var step := Step.PeerExtendsChain(peerId, slot, blockNumber, blockHash, headerCbor, variant, blockBody);
      ghost var before := View();
      if StepProblem(before, step).Some? { Rejected(h, before, step); }
      var hash, header := DecodeHex(blockHash), DecodeHex(headerCbor);
      var body := if blockBody.Some? then DecodeHex(blockBody.value) else None;
      if hash.None? || header.None? || (blockBody.Some? && body.None?) {
        return Err(BadHex);
      }
      if peerId !in peers {
        return Err(UnknownPeer);
      }
      var ps := peers[peerId];
      var tip := ps.ChainTipSlot();
      if tip.Some? && slot <= tip.value {
        return Err(NotAfterTip(slot, tip.value));
      }
      var entry := ChainEntry(slot, hash.value, blockNumber, header.value,
                              if variant.Some? then variant.value else HEADER_VARIANT);
      ps.Append(entry, body);
      ExtensionStep(h, before, step, entry, body);
      assert Views(peers) == before.peers[peerId := ExtendPeer(before.peers[peerId], entry, body)];
      r := Ok(());
    }

    /** One step and what it leaves in the trace. */
    method Perform(h: HashFn, step: Step) returns (ok: bool, trace: seq<Traced>)
      requires Valid() && StepReady(View(), step)
      modifies this`currentSlot, peers.Values
      ensures Valid() && View() == StepNet(h, old(View()), step)
      ensures ok <==> StepProblem(old(View()), step).None?
      ensures forall id :: id in peers ==> RecordsOf(trace, id) == StepLog(h, old(View()), step, id)
    {
      hide StepNet, StepProblem, StepReady, TraceEvents, FiredAll;
      ghost var before := View();
      trace := [];
      NoRecords();
      RejectedSilent(h, before, step);
      match step {
        case AdvanceToSlot(target) =>
          var r := AdvanceToSlot(h, target);
          ok := r.Ok?;
          if ok { trace := TraceEvents(r.value); AllEventRecords(r.value); }
        case TickSlots(count) =>
          var r := TickSlots(h, count);
          ok := r.Ok?;
          if ok { trace := TraceEvents(r.value); AllEventRecords(r.value); }
        case PeerExtendsChain(peerId, slot, blockNumber, blockHash, headerCbor, variant, blockBody) =>
          var r := PeerExtendsChain(h, peerId, slot, blockNumber, blockHash, headerCbor, variant, blockBody);
          ok := r.Ok?;
          if ok {
            ExtensionAccepted(h, before, step);
            trace := [Traced(peerId, Extended(ExplicitEntry(step)))];
          }
      }
    }

    /** The runner's loop: steps in order up to the first that is rejected. */
    method Run(h: HashFn, steps: seq<Step>) returns (done: nat, trace: seq<Traced>)
      requires Valid() && RunReady(h, View(), steps)
      modifies this`currentSlot, peers.Values
      ensures Valid() && done <= |steps| && RunReady(h, old(View()), steps[..done])
      ensures done < |steps| ==> StepProblem(View(), steps[done]).Some?
      ensures View() == RunNet(h, old(View()), steps[..done])
      ensures forall id :: id in peers ==> RecordsOf(trace, id) == RunLog(h, old(View()), steps[..done], id)
    {
      hide StepNet, StepProblem, StepReady, StepLog, RecordsOf, RunReady, RunNet, RunLog;
      ghost var start := View();
      NoSteps(h, start);
      trace, done := [], 0;
      assert steps[..0] == [];
      NoRecords();
      while done < |steps|
        invariant Valid() && done <= |steps| && RunReady(h, start, steps[..done])
        invariant View() == RunNet(h, start, steps[..done])
        invariant forall id :: id in peers ==> RecordsOf(trace, id) == RunLog(h, start, steps[..done], id)
      {
        ReadyPrefix(h, start, steps, done + 1);
        assert steps[..done + 1] == steps[..done] + [steps[done]];
        RunOneMore(h, start, steps[..done], steps[done]);
        ghost var before := View();
        var ok, more := Perform(h, steps[done]);
        if !ok {
          Rejected(h, before, steps[done]);
          return;
        }
        forall id ensures RecordsOf(trace + more, id) == RecordsOf(trace, id) + RecordsOf(more, id) {
          RecordsConcat(trace, more, id);
        }
        trace := trace + more;
        done := done + 1;
      }
    }
  }

  /** When clock moves are rejected, and where the others lead. */
  lemma RulesSeen(peers: Peers)
    ensures Views(peers).Keys == peers.Keys
    ensures forall id :: id in peers ==> Views(peers)[id].rule == peers[id].productionRule
  {
  }

  lemma ClockProblems(net: Net, x: u64)
    ensures net.clock.None? ==>
      StepProblem(net, Step.AdvanceToSlot(x)) == Some(NoClock) == StepProblem(net, Step.TickSlots(x))
    ensures net.clock.Some? && x <= net.clock.value ==>
      StepProblem(net, Step.AdvanceToSlot(x)) == Some(NotForward(x, net.clock.value))
    ensures net.clock.Some? && x > net.clock.value ==>
      StepProblem(net, Step.AdvanceToSlot(x)).None? && ClockAfter(net, Step.AdvanceToSlot(x)) == Some(x)
    ensures net.clock.Some? ==> StepProblem(net, Step.TickSlots(x)).None?
    ensures net.clock.Some? && StepFits(net, Step.TickSlots(x)) ==>
      ClockAfter(net, Step.TickSlots(x)) == Some(net.clock.value + x)
  {
  }

  lemma PeersReady(net: Net, step: Step, newSlot: u64)
    requires StepReady(net, step) && step.MovesClock() && StepProblem(net, step).None?
    requires ClockAfter(net, step) == Some(newSlot)
    ensures forall id :: id in net.peers ==> ReadyRule(net.peers[id].rule, net.clock.value, newSlot)
  {
    hide ReadyRule;
  }

  lemma NoRecords()
    ensures forall id :: RecordsOf([], id) == []
  {
  }

  lemma AllEventRecords(events: seq<ProductionEvent>)
    ensures forall id :: RecordsOf(TraceEvents(events), id) == FiredAll(EventsOf(events, id))
  {
    forall id ensures RecordsOf(TraceEvents(events), id) == FiredAll(EventsOf(events, id)) { EventRecords(events, id); }
  }

  lemma RejectedSilent(h: HashFn, net: Net, step: Step)
    requires StepFits(net, step)
    ensures StepProblem(net, step).Some? ==>
      forall id :: id in net.peers ==> StepLog(h, net, step, id) == []
  {
    hide DecodeHex;
    if StepProblem(net, step).Some? { Unmoved(h, net, step); }
  }

  lemma ExtensionAccepted(h: HashFn, net: Net, step: Step)
    requires step.PeerExtendsChain? && StepProblem(net, step).None?
    ensures DecodeHex(step.blockHash).Some? && DecodeHex(step.headerCbor).Some?
    ensures forall id :: id in net.peers ==>
      RecordsOf([Traced(step.peerId, Extended(ExplicitEntry(step)))], id) == StepLog(h, net, step, id)
  {
    hide DecodeHex, Produce;
    Unmoved(h, net, step);
    var one := [Traced(step.peerId, Extended(ExplicitEntry(step)))];
    assert one[..0] == [] && forall id :: RecordsOf(one[..0], id) == [];
  }

  /** A rejected step changes nothing. */
  lemma Rejected(h: HashFn, net: Net, step: Step)
    requires StepFits(net, step) && StepProblem(net, step).Some?
    ensures StepNet(h, net, step) == net
  {
    hide DecodeHex, Produce;
    Unmoved(h, net, step);
  }

  lemma ClockStep(h: HashFn, net: Net, step: Step, newSlot: u64)
    requires StepFits(net, step) && step.MovesClock() && StepProblem(net, step).None?
    requires ClockAfter(net, step) == Some(newSlot)
    ensures StepNet(h, net, step) == Net(Some(newSlot), MovedAll(h, net.peers, net.clock.value, newSlot))
    ensures forall id :: id in net.peers ==>
      StepLog(h, net, step, id) == FiredAll(ProductionEvents(h, id, net.peers[id], net.clock.value, newSlot))
  {
    hide Produce, ProductionEvents, FiredAll;
  }

  lemma ExtensionStep(h: HashFn, net: Net, step: Step, entry: ChainEntry, body: Option<Bytes>)
    requires step.PeerExtendsChain? && StepProblem(net, step).None? && entry == ExplicitEntry(step)
    requires body == if step.blockBody.Some? then DecodeHex(step.blockBody.value) else None
    ensures StepNet(h, net, step)
         == net.(peers := net.peers[step.peerId := ExtendPeer(net.peers[step.peerId], entry, body)])
  {
    hide DecodeHex, Produce, ExtendPeer;
    Unmoved(h, net, step);
  }

  /** Where the clock stands still nothing is produced. */
  lemma StandStill(h: HashFn, id: Str, peer: Peer, at: u64)
    ensures Produce(h, id, peer, at, at) == peer && ProductionEvents(h, id, peer, at, at) == []
  {
  }

  lemma Unmoved(h: HashFn, net: Net, step: Step)
    requires StepFits(net, step) && ClockAfter(net, step) == net.clock
    ensures forall id :: id in net.peers && !IsExtension(net, step, id) ==>
      PeerAfter(h, net, step, id) == net.peers[id] && StepLog(h, net, step, id) == []
  {
    hide DecodeHex;
    forall id | id in net.peers && !IsExtension(net, step, id)
      ensures PeerAfter(h, net, step, id) == net.peers[id] && StepLog(h, net, step, id) == []
    {
      if net.clock.Some? { StandStill(h, id, net.peers[id], net.clock.value); }
    }
  }
}
