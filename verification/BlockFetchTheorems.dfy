/** What the scripted block-fetch server guarantees: truthful counters, exactly which
    responses keep the trace legal, and range answers that are those of the block store. */
module BlockFetchTheorems {
  import opened Text
  import opened Points
  import opened BlockFixture
  import opened ScriptRules
  import opened BlockFetchServer
  import opened Ordering

  // ---- consumption --------------------------------------------------------------------------

  function Owns(rs: seq<Request>): (r: seq<On>)
    ensures |r| == |rs| && forall i :: 0 <= i < |r| ==> r[i] == OnOf(rs[i])
  {
    if rs == [] then [] else [OnOf(rs[0])] + Owns(rs[1..])
  }

  lemma ServeSelection(rules: seq<ScriptRule>, fixture: Option<BlockFixtureChain>, s: Session, r: Request)
    requires s.ruleIdx <= |rules| && s.status == Running
    ensures var s' := Serve(rules, fixture, s, r); var sel := NextMatch(rules, s.ruleIdx, OnOf(r));
      && s'.received == s.received + 1
      && (s'.fired == s.fired || (sel.Some? && s'.fired == s.fired + [sel.value]))
      && (s'.status == Running ==>
            sel.Some? && s'.fired == s.fired + [sel.value] && s'.ruleIdx == IdxAfter(rules, s.ruleIdx, sel.value))
  {
    hide ExecuteSends;
    var sel := NextMatch(rules, s.ruleIdx, OnOf(r));
    if sel.Some? {
      var s2 := Received(s, r).(ruleIdx := IdxAfter(rules, s.ruleIdx, sel.value), fired := s.fired + [sel.value]);
      SendsKeep(SendsOf(rules[sel.value].send), r, fixture, s2);
    }
  }

  /** The rules a session fires are, in order, those the selection function picks. */
  lemma {:induction false} FiredAreSelections(rules: seq<ScriptRule>, fixture: Option<BlockFixtureChain>, s: Session, rs: seq<Request>)
    requires s.ruleIdx <= |rules| && s.status == Running
    ensures ServeAll(rules, fixture, s, rs).fired <= s.fired + Selections(rules, s.ruleIdx, Owns(rs))
    decreases |rs|
  {
    hide Serve, NextMatch, IdxAfter, OnOf;
    if rs != [] {
      var s' := Serve(rules, fixture, s, rs[0]);
      ServeSelection(rules, fixture, s, rs[0]);
      assert Owns(rs)[1..] == Owns(rs[1..]);
      if s'.status == Running {
        FiredAreSelections(rules, fixture, s', rs[1..]);
        var pos := NextMatch(rules, s.ruleIdx, OnOf(rs[0])).value;
        var rest := Selections(rules, s'.ruleIdx, Owns(rs[1..]));
        assert s.fired + ([pos] + rest) == s.fired + [pos] + rest;
      } else {
        FinishedStays(rules, fixture, s', rs[1..]);
      }
    }
  }

  /** A session on one-shot rules is over after at most one receive more than rules. */
  lemma {:induction false} OneShotSessionEnds(rules: seq<ScriptRule>, fixture: Option<BlockFixtureChain>, s: Session, rs: seq<Request>)
    requires s.ruleIdx <= |rules| && forall i :: 0 <= i < |rules| ==> !rules[i].repeatable
    requires s.received <= |rules| + 1 && (s.status == Running ==> s.received <= s.ruleIdx)
    ensures ServeAll(rules, fixture, s, rs).received <= |rules| + 1
    decreases |rs|
  {
    hide Serve;
    if rs != [] {
      if s.status == Running {
        ServeSelection(rules, fixture, s, rs[0]);
        OneShotSessionEnds(rules, fixture, Serve(rules, fixture, s, rs[0]), rs[1..]);
      } else {
        FinishedStays(rules, fixture, s, rs);
      }
    }
  }

  // ---- counters -----------------------------------------------------------------------------

  function CountBlocks(ms: seq<Message>): nat {
    if ms == [] then 0 else CountBlocks(ms[..|ms| - 1]) + if ms[|ms| - 1].BlockMsg? then 1 else 0
  }

  function CountNoBlocks(ms: seq<Message>): nat {
    if ms == [] then 0 else CountNoBlocks(ms[..|ms| - 1]) + if ms[|ms| - 1].NoBlocksMsg? then 1 else 0
  }

  function CountRanges(ws: seq<Wire>): nat {
    if ws == [] then 0
    else CountRanges(ws[..|ws| - 1])
         + if ws[|ws| - 1].event.Got? && ws[|ws| - 1].event.request.RequestRange? then 1 else 0
  }

  /** The messages the trace shows. */
  function Traced(ws: seq<Wire>): seq<Message> {
    if ws == [] then []
    else Traced(ws[..|ws| - 1])
         + if ws[|ws| - 1].event.Gave? then [ws[|ws| - 1].event.message] else []
  }

  function NotRaw(ms: seq<Message>): seq<Message> {
    if ms == [] then [] else NotRaw(ms[..|ms| - 1]) + if ms[|ms| - 1].RawMsg? then [] else [ms[|ms| - 1]]
  }

  /** The counters are the numbers of messages sent, and the trace shows every message
      sent, in order, raw bytes apart. */
  ghost predicate Truthful(s: Session) {
    && s.blocksServed == CountBlocks(s.sent)
    && s.noBlocksResponses == CountNoBlocks(s.sent)
    && s.rangeRequests == CountRanges(s.wire)
    && Traced(s.wire) == NotRaw(s.sent)
  }

  lemma SayCounts(s: Session, m: Message, before: State, after: State)
    requires !m.RawMsg?
    ensures var s' := Say(s, m, before, after);
      && CountBlocks(s'.sent) == CountBlocks(s.sent) + (if m.BlockMsg? then 1 else 0)
      && CountNoBlocks(s'.sent) == CountNoBlocks(s.sent) + (if m.NoBlocksMsg? then 1 else 0)
      && CountRanges(s'.wire) == CountRanges(s.wire)
      && Traced(s'.wire) == Traced(s.wire) + [m] && NotRaw(s'.sent) == NotRaw(s.sent) + [m]
  {
    var s' := Say(s, m, before, after);
    assert s'.sent[..|s.sent|] == s.sent && s'.wire[..|s.wire|] == s.wire;
  }

  lemma {:induction false} BlocksTruthful(s: Session, bodies: seq<Bytes>)
    requires Truthful(s)
    ensures Truthful(SayBlocks(s, bodies))
  {
    hide CountBlocks, CountNoBlocks, CountRanges, Traced, NotRaw;
    if bodies != [] {
      BlocksTruthful(s, bodies[..|bodies| - 1]);
      SayCounts(SayBlocks(s, bodies[..|bodies| - 1]), BlockMsg(bodies[|bodies| - 1]), Streaming, Streaming);
    }
  }

  lemma BatchTruthful(s: Session, bodies: seq<Bytes>)
    requires Truthful(s)
    ensures Truthful(SayBatch(s, bodies))
  {
    hide CountBlocks, CountNoBlocks, CountRanges, Traced, NotRaw;
    SayCounts(s, NoBlocksMsg, s.state, Idle);
    SayCounts(s, StartBatchMsg, s.state, Streaming);
    BlocksTruthful(SayStart(s), bodies);
    SayCounts(SayBlocks(SayStart(s), bodies), BatchDoneMsg, Streaming, Idle);
  }

  lemma SingleTruthful(send: ScriptSend, r: Request, fixture: Option<BlockFixtureChain>, s: Session)
    requires Truthful(s)
    ensures Truthful(ExecuteSingle(send, r, fixture, s))
  {
    hide CountBlocks, CountNoBlocks, CountRanges, Traced, NotRaw, SayBatch, BatchBodies, SourceBytes;
    match send
    case NoBlocks => SayCounts(s, NoBlocksMsg, s.state, Idle);
    case StartBatch => SayCounts(s, StartBatchMsg, s.state, Streaming);
    case Block(source) => SayCounts(s, BlockMsg(SourceBytes(source)), Streaming, Streaming);
    case BatchDone => SayCounts(s, BatchDoneMsg, Streaming, Idle);
    case StreamBatch(batch) => BatchTruthful(s, BatchBodies(batch, r, fixture));
    case RawBytes(bytes) => RawCounts(s.sent, bytes);
    case _ =>
  }

  lemma RawCounts(ms: seq<Message>, bytes: Bytes)
    ensures CountBlocks(ms + [RawMsg(bytes)]) == CountBlocks(ms)
    ensures CountNoBlocks(ms + [RawMsg(bytes)]) == CountNoBlocks(ms)
    ensures NotRaw(ms + [RawMsg(bytes)]) == NotRaw(ms)
  {
    assert (ms + [RawMsg(bytes)])[..|ms|] == ms;
  }

  lemma {:induction false} SendsTruthful(sends: seq<ScriptSend>, r: Request, fixture: Option<BlockFixtureChain>, s: Session)
    requires Truthful(s)
    ensures Truthful(ExecuteSends(sends, r, fixture, s))
    decreases |sends|
  {
    hide Truthful, ExecuteSingle;
    if sends != [] && s.status == Running {
      SingleTruthful(sends[0], r, fixture, s);
      SendsTruthful(sends[1..], r, fixture, ExecuteSingle(sends[0], r, fixture, s));
    }
  }

  lemma ReceiveTruthful(s: Session, r: Request)
    requires Truthful(s)
    ensures Truthful(Received(s, r))
  {
    assert Received(s, r).wire[..|s.wire|] == s.wire;
  }

  /** In every session, whatever the script. */
  lemma {:induction false} CountersTruthful(rules: seq<ScriptRule>, fixture: Option<BlockFixtureChain>, s: Session, rs: seq<Request>)
    requires s.ruleIdx <= |rules| && Truthful(s)
    ensures Truthful(ServeAll(rules, fixture, s, rs))
    decreases |rs|
  {
    hide ExecuteSends, Received;
    if rs != [] {
      var r, s1 := rs[0], Received(s, rs[0]);
      ReceiveTruthful(s, r);
      var sel := NextMatch(rules, s.ruleIdx, OnOf(r));
      if s.status == Running && r.RequestRange? && sel.Some? {
        var s2 := s1.(ruleIdx := IdxAfter(rules, s.ruleIdx, sel.value), fired := s.fired + [sel.value]);
        SendsTruthful(SendsOf(rules[sel.value].send), r, fixture, s2);
      }
      CountersTruthful(rules, fixture, Serve(rules, fixture, s, r), rs[1..]);
    }
  }

  // ---- legal traces ---------------------------------------------------------------------------

  /** The block-fetch state machine. */
  predicate LegalStep(w: Wire) {
    match w.event
    case Got(RequestRange(_, _)) => w.before == Idle && w.after == Busy
    case Got(ClientDone) => w.before == Idle && w.after == Done
    case Gave(NoBlocksMsg) => w.before == Busy && w.after == Idle
    case Gave(StartBatchMsg) => w.before == Busy && w.after == Streaming
    case Gave(BlockMsg(_)) => w.before == Streaming && w.after == Streaming
    case Gave(BatchDoneMsg) => w.before == Streaming && w.after == Idle
    case Gave(RawMsg(_)) => false
  }

  function LastState(ws: seq<Wire>): State {
    if ws == [] then Idle else ws[|ws| - 1].after
  }

  /** Every event starts where the one before it ended, from idle on, and is a step of
      the machine. */
  ghost predicate Legal(ws: seq<Wire>) {
    forall i :: 0 <= i < |ws| ==> LegalStep(ws[i]) && ws[i].before == LastState(ws[..i])
  }

  /** Where a send leads in the machine; none if it has no place there. Sends that end the
      session or say nothing on the trace lead nowhere else. */
  function Leads(send: ScriptSend, from: State): Option<State> {
    match send
    case NoBlocks => if from == Busy then Some(Idle) else None
    case StartBatch => if from == Busy then Some(Streaming) else None
    case Block(_) => if from == Streaming then Some(Streaming) else None
    case BatchDone => if from == Streaming then Some(Idle) else None
    case StreamBatch(_) => if from == Busy then Some(Idle) else None
    case _ => Some(from)
  }

  predicate Stops(send: ScriptSend) {
    match send
    case NoBlocks | StartBatch | Block(_) | BatchDone | StreamBatch(_) | Wait(_) | RawBytes(_) => false
    case _ => true
  }

  function LeadsAll(sends: seq<ScriptSend>, from: State): Option<State> {
    if sends == [] then Some(from)
    else match Leads(sends[0], from)
      case None => None
      case Some(to) => if Stops(sends[0]) then Some(to) else LeadsAll(sends[1..], to)
  }

  lemma LegalAppend(ws: seq<Wire>, w: Wire)
    ensures Legal(ws + [w]) <==> Legal(ws) && LegalStep(w) && w.before == LastState(ws)
  {
    hide LegalStep;
    var all := ws + [w];
    assert all[..|ws|] == ws;
    assert forall i :: 0 <= i < |ws| ==> all[..i] == ws[..i] && all[i] == ws[i];
    assert all[|ws|] == w;
  }

  /** The trace so far is legal and the tracked state is the one it ends in. */
  ghost predicate OnTrack(s: Session) {
    Legal(s.wire) && s.state == LastState(s.wire)
  }

  lemma SayLegal(s: Session, m: Message, before: State, after: State)
    ensures var s' := Say(s, m, before, after);
      (Legal(s'.wire) <==> Legal(s.wire) && before == LastState(s.wire) && LegalStep(Wire(Gave(m), before, after)))
      && LastState(s'.wire) == after
  {
    LegalAppend(s.wire, Wire(Gave(m), before, after));
  }

  lemma {:induction false} BlocksLegal(s: Session, bodies: seq<Bytes>)
    requires OnTrack(s) && s.state == Streaming
    ensures OnTrack(SayBlocks(s, bodies)) && SayBlocks(s, bodies).state == Streaming
  {
    hide Legal, LastState;
    if bodies != [] {
      BlocksLegal(s, bodies[..|bodies| - 1]);
      SayLegal(SayBlocks(s, bodies[..|bodies| - 1]), BlockMsg(bodies[|bodies| - 1]), Streaming, Streaming);
    }
  }

  lemma {:induction false} BlocksIllegal(s: Session, bodies: seq<Bytes>)
    requires !Legal(s.wire)
    ensures !Legal(SayBlocks(s, bodies).wire)
  {
    hide Legal, LastState;
    if bodies != [] {
      BlocksIllegal(s, bodies[..|bodies| - 1]);
      SayLegal(SayBlocks(s, bodies[..|bodies| - 1]), BlockMsg(bodies[|bodies| - 1]), Streaming, Streaming);
    }
  }

  /** What one send does to a trace that is on track (or is off it already). */
  lemma SingleLegal(send: ScriptSend, r: Request, fixture: Option<BlockFixtureChain>, s: Session)
    requires s.status == Running
    ensures var s' := ExecuteSingle(send, r, fixture, s);
      && (!Legal(s.wire) ==> !Legal(s'.wire))
      && (OnTrack(s) && Leads(send, s.state).None? ==> !Legal(s'.wire))
      && (OnTrack(s) && Leads(send, s.state).Some? ==> OnTrack(s') && s'.state == Leads(send, s.state).value)
      && (s'.status == Running <==> !Stops(send))
  {
    hide Legal, LastState, BatchBodies, SourceBytes;
    match send
    case NoBlocks => SayLegal(s, NoBlocksMsg, s.state, Idle);
    case StartBatch => SayLegal(s, StartBatchMsg, s.state, Streaming);
    case Block(source) => SayLegal(s, BlockMsg(SourceBytes(source)), Streaming, Streaming);
    case BatchDone => SayLegal(s, BatchDoneMsg, Streaming, Idle);
    case StreamBatch(batch) => BatchLegal(s, BatchBodies(batch, r, fixture));
    case _ =>
  }

  lemma BatchLegal(s: Session, bodies: seq<Bytes>)
    ensures var s' := SayBatch(s, bodies);
      && s'.status == s.status
      && (!Legal(s.wire) ==> !Legal(s'.wire))
      && (OnTrack(s) && s.state != Busy ==> !Legal(s'.wire))
      && (OnTrack(s) && s.state == Busy ==> OnTrack(s') && s'.state == Idle)
  {
    hide Legal, LastState;
    SayLegal(s, NoBlocksMsg, s.state, Idle);
    SayLegal(s, StartBatchMsg, s.state, Streaming);
    var started := SayStart(s);
    SayBlocksKeeps(started, bodies);
    SayLegal(SayBlocks(started, bodies), BatchDoneMsg, Streaming, Idle);
    if Legal(started.wire) {
      BlocksLegal(started, bodies);
    } else {
      BlocksIllegal(started, bodies);
    }
  }

  /** A response keeps the trace legal exactly when its sends form a path of the machine. */
  lemma {:induction false} ResponseLegal(sends: seq<ScriptSend>, r: Request, fixture: Option<BlockFixtureChain>, s: Session)
    requires s.status == Running
    ensures var s' := ExecuteSends(sends, r, fixture, s);
      && (!Legal(s.wire) ==> !Legal(s'.wire))
      && (OnTrack(s) ==> (Legal(s'.wire) <==> LeadsAll(sends, s.state).Some?))
      && (OnTrack(s) && LeadsAll(sends, s.state).Some? ==> OnTrack(s') && s'.state == LeadsAll(sends, s.state).value)
    decreases |sends|
  {
    hide Legal, LastState, ExecuteSingle, Leads, Stops;
    if sends != [] {
      SingleLegal(sends[0], r, fixture, s);
      var s1 := ExecuteSingle(sends[0], r, fixture, s);
      if s1.status == Running {
        ResponseLegal(sends[1..], r, fixture, s1);
      } else {
        assert ExecuteSends(sends[1..], r, fixture, s1) == s1;
      }
    }
  }

  /** Where a rule's response leads from the busy state. */
  function Outcome(rules: seq<ScriptRule>, pos: nat): Option<State> {
    if pos < |rules| then LeadsAll(SendsOf(rules[pos].send), Busy) else None
  }

  /** Every response so far was a path of the machine, and every one that was followed by
      another message from the client had returned to idle. */
  ghost predicate GoodResponses(rules: seq<ScriptRule>, fired: seq<nat>, received: nat) {
    forall i :: 0 <= i < |fired| ==>
      Outcome(rules, fired[i]).Some? && (i + 1 < received ==> Outcome(rules, fired[i]) == Some(Idle))
  }

  ghost predicate Consistent(rules: seq<ScriptRule>, s: Session) {
    && s.ruleIdx <= |rules| && |s.fired| <= s.received
    && (Legal(s.wire) <==> GoodResponses(rules, s.fired, s.received))
    && (s.status == Running ==> |s.fired| == s.received)
    && (s.status == Running && Legal(s.wire) ==>
          OnTrack(s) && Some(s.state) == if s.fired == [] then Some(Idle) else Outcome(rules, s.fired[|s.fired| - 1]))
  }

  lemma GoodResponsesStep(rules: seq<ScriptRule>, fired: seq<nat>, pos: nat)
    ensures GoodResponses(rules, fired, |fired| + 1) <==>
      GoodResponses(rules, fired, |fired|)
      && (fired == [] || Outcome(rules, fired[|fired| - 1]) == Some(Idle))
    ensures GoodResponses(rules, fired + [pos], |fired| + 1) <==>
      GoodResponses(rules, fired, |fired| + 1) && Outcome(rules, pos).Some?
  {
    hide Outcome;
    var all := fired + [pos];
    assert all[|fired|] == pos;
    assert forall i :: 0 <= i < |fired| ==> all[i] == fired[i];
  }

  lemma ReceiveLegal(s: Session, r: Request)
    ensures Legal(Received(s, r).wire) <==> Legal(s.wire) && s.state == LastState(s.wire) && s.state == Idle
    ensures LastState(Received(s, r).wire) == Received(s, r).state
  {
    LegalAppend(s.wire, Wire(Got(r), s.state, if r.RequestRange? then Busy else Done));
  }

  lemma StepConsistent(rules: seq<ScriptRule>, fixture: Option<BlockFixtureChain>, s: Session, r: Request)
    requires Consistent(rules, s)
    ensures Consistent(rules, Serve(rules, fixture, s, r))
  {
    hide Legal, LastState, ExecuteSends, GoodResponses, LeadsAll;
    if s.status == Running {
      var s1, sel := Received(s, r), NextMatch(rules, s.ruleIdx, OnOf(r));
      ReceiveLegal(s, r);
      GoodResponsesStep(rules, s.fired, if sel.Some? then sel.value else 0);
      if r.RequestRange? && sel.Some? {
        var s2 := s1.(ruleIdx := IdxAfter(rules, s.ruleIdx, sel.value), fired := s.fired + [sel.value]);
        SendsKeep(SendsOf(rules[sel.value].send), r, fixture, s2);
        ResponseLegal(SendsOf(rules[sel.value].send), r, fixture, s2);
      }
    }
  }

  lemma {:induction false} RunConsistent(rules: seq<ScriptRule>, fixture: Option<BlockFixtureChain>, s: Session, rs: seq<Request>)
    requires Consistent(rules, s)
    ensures Consistent(rules, ServeAll(rules, fixture, s, rs))
    decreases |rs|
  {
    hide Consistent, Serve;
    if rs != [] {
      assert s.ruleIdx <= |rules| by { ConsistentIdx(rules, s); }
      StepConsistent(rules, fixture, s, rs[0]);
      RunConsistent(rules, fixture, Serve(rules, fixture, s, rs[0]), rs[1..]);
    }
  }

  lemma ConsistentIdx(rules: seq<ScriptRule>, s: Session)
    requires Consistent(rules, s)
    ensures s.ruleIdx <= |rules|
  {
  }

  /** Exactly when a session's trace is legal, for every script, fixture and client. */
  lemma TraceLegalIff(rules: seq<ScriptRule>, fixture: Option<BlockFixtureChain>, rs: seq<Request>)
    ensures var s := ServeAll(rules, fixture, START, rs);
      Legal(s.wire) <==> GoodResponses(rules, s.fired, s.received)
  {
    hide Outcome;
    RunConsistent(rules, fixture, START, rs);
  }

  /** The three well-formed responses: a refusal, a streamed batch, and a hand-written
      sequence of a start, any blocks, and an end. */
  ghost predicate WellFormed(send: ScriptSend) {
    send.NoBlocks? || send.StreamBatch? || (send.SendSequence? && BatchSequence(send.sends))
  }

  ghost predicate BatchSequence(sends: seq<ScriptSend>) {
    && |sends| >= 2 && sends[0] == StartBatch && sends[|sends| - 1] == BatchDone
    && forall i :: 0 < i < |sends| - 1 ==> sends[i].Block?
  }

  lemma {:induction false} BlocksThenDone(sends: seq<ScriptSend>)
    requires sends != [] && sends[|sends| - 1] == BatchDone
    requires forall i :: 0 <= i < |sends| - 1 ==> sends[i].Block?
    ensures LeadsAll(sends, Streaming) == Some(Idle)
    decreases |sends|
  {
    if |sends| > 1 {
      BlocksThenDone(sends[1..]);
    }
  }

  /** A script of well-formed responses, possibly with hang-ups, leaves a legal trace
      whatever the client does. */
  lemma WellFormedScriptsLegal(rules: seq<ScriptRule>, fixture: Option<BlockFixtureChain>, s: Session, rs: seq<Request>)
    requires forall i :: 0 <= i < |rules| ==> WellFormed(rules[i].send) || rules[i].send.Disconnect?
    requires s.ruleIdx <= |rules| && OnTrack(s) && (s.status == Running ==> s.state == Idle)
    ensures Legal(ServeAll(rules, fixture, s, rs).wire)
    decreases |rs|
  {
    hide Legal, LastState, ExecuteSends, WellFormed;
    if rs != [] {
      var r, s1, sel := rs[0], Received(s, rs[0]), NextMatch(rules, s.ruleIdx, OnOf(rs[0]));
      ReceiveLegal(s, r);
      if s.status == Running && r.RequestRange? && sel.Some? {
        var s2 := s1.(ruleIdx := IdxAfter(rules, s.ruleIdx, sel.value), fired := s.fired + [sel.value]);
        WellFormedResponse(rules[sel.value].send, r, fixture, s2);
      }
      WellFormedScriptsLegal(rules, fixture, Serve(rules, fixture, s, r), rs[1..]);
    }
  }

  lemma WellFormedResponse(send: ScriptSend, r: Request, fixture: Option<BlockFixtureChain>, s: Session)
    requires WellFormed(send) || send.Disconnect?
    requires s.status == Running && OnTrack(s) && s.state == Busy
    ensures var s' := ExecuteSends(SendsOf(send), r, fixture, s);
      OnTrack(s') && (s'.status == Running ==> s'.state == Idle)
  {
    hide Legal, LastState, ExecuteSingle;
    ResponseLegal(SendsOf(send), r, fixture, s);
    if send.SendSequence? {
      BlocksThenDone(send.sends[1..]);
    } else {
      SingleLegal(send, r, fixture, s);
    }
  }

  // ---- scripts that are legal for every client ------------------------------------------------------

  predicate HangsUp(sends: seq<ScriptSend>) {
    exists i :: 0 <= i < |sends| && Stops(sends[i])
  }

  /** The rules that can fire, walked in order: those that answer a range request, one-shot
      rules one after the other, up to a repeatable one. Each response must be a path of the
      machine, and one that does not end the session must return to idle. */
  predicate LegalScript(rules: seq<ScriptRule>, idx: nat)
    requires idx <= |rules|
    decreases |rules| - idx
  {
    match NextMatch(rules, idx, OnRequestRange)
    case None => true
    case Some(pos) =>
      var sends := SendsOf(rules[pos].send);
      && LeadsAll(sends, Busy).Some?
      && (HangsUp(sends)
          || (LeadsAll(sends, Busy) == Some(Idle) && (rules[pos].repeatable || LegalScript(rules, pos + 1))))
  }

  lemma {:induction false} EndsIffHangsUp(sends: seq<ScriptSend>, r: Request, fixture: Option<BlockFixtureChain>, s: Session)
    requires s.status == Running
    ensures ExecuteSends(sends, r, fixture, s).status == Running <==> !HangsUp(sends)
    decreases |sends|
  {
    hide ExecuteSingle, Stops, Legal;
    if sends != [] {
      SingleLegal(sends[0], r, fixture, s);
      var s1 := ExecuteSingle(sends[0], r, fixture, s);
      if s1.status == Running {
        EndsIffHangsUp(sends[1..], r, fixture, s1);
        assert forall i :: 0 < i < |sends| ==> sends[i] == sends[1..][i - 1];
        assert forall i :: 0 <= i < |sends[1..]| ==> sends[1..][i] == sends[i + 1];
      } else {
        assert ExecuteSends(sends[1..], r, fixture, s1) == s1;
      }
    }
  }

  /** One served range request, from idle on a legal trace. */
  lemma ServeRange(rules: seq<ScriptRule>, fixture: Option<BlockFixtureChain>, s: Session, r: Request)
    requires s.ruleIdx <= |rules| && s.status == Running && OnTrack(s) && s.state == Idle && r.RequestRange?
    ensures var s' := Serve(rules, fixture, s, r); var sel := NextMatch(rules, s.ruleIdx, OnRequestRange);
      && (sel.None? ==> s'.status != Running && Legal(s'.wire))
      && (sel.Some? ==>
            var sends := SendsOf(rules[sel.value].send);
            && s'.ruleIdx == IdxAfter(rules, s.ruleIdx, sel.value)
            && (s'.status == Running <==> !HangsUp(sends))
            && (Legal(s'.wire) <==> LeadsAll(sends, Busy).Some?)
            && (LeadsAll(sends, Busy).Some? ==> OnTrack(s') && s'.state == LeadsAll(sends, Busy).value))
  {
    hide Legal, LastState, ExecuteSends, LeadsAll, HangsUp;
    ReceiveLegal(s, r);
    var sel := NextMatch(rules, s.ruleIdx, OnRequestRange);
    if sel.Some? {
      var sends := SendsOf(rules[sel.value].send);
      var s2 := Received(s, r).(ruleIdx := IdxAfter(rules, s.ruleIdx, sel.value), fired := s.fired + [sel.value]);
      SendsKeep(sends, r, fixture, s2);
      ResponseLegal(sends, r, fixture, s2);
      EndsIffHangsUp(sends, r, fixture, s2);
    }
  }

  lemma {:induction false} LegalScriptSuffices(rules: seq<ScriptRule>, fixture: Option<BlockFixtureChain>, s: Session, rs: seq<Request>)
    requires s.ruleIdx <= |rules| && s.status == Running && OnTrack(s) && s.state == Idle && LegalScript(rules, s.ruleIdx)
    ensures Legal(ServeAll(rules, fixture, s, rs).wire)
    decreases |rs|
  {
    hide Legal, LastState, ExecuteSends, LeadsAll, HangsUp;
    if rs != [] {
      var s' := Serve(rules, fixture, s, rs[0]);
      if rs[0].RequestRange? {
        ServeRange(rules, fixture, s, rs[0]);
      } else {
        ReceiveLegal(s, rs[0]);
      }
      if s'.status == Running {
        LegalScriptSuffices(rules, fixture, s', rs[1..]);
      } else {
        FinishedStays(rules, fixture, s', rs[1..]);
      }
    }
  }

  /** A client that spoils the trace: range requests up to the bad response, and one more
      message if that response leaves the session open and not idle. */
  lemma {:induction false} SpoilingClient(rules: seq<ScriptRule>, fixture: Option<BlockFixtureChain>, s: Session) returns (rs: seq<Request>)
    requires s.ruleIdx <= |rules| && s.status == Running && OnTrack(s) && s.state == Idle && !LegalScript(rules, s.ruleIdx)
    ensures !Legal(ServeAll(rules, fixture, s, rs).wire)
    decreases |rules| - s.ruleIdx
  {
    hide Legal, LastState, ExecuteSends, LeadsAll, HangsUp;
    var r := RequestRange(Origin, Origin);
    var s' := Serve(rules, fixture, s, r);
    ServeRange(rules, fixture, s, r);
    var pos := NextMatch(rules, s.ruleIdx, OnRequestRange).value;
    var out := LeadsAll(SendsOf(rules[pos].send), Busy);
    var more: seq<Request>;
    if out.None? {
      more := [];
    } else if out != Some(Idle) {
      more := [ClientDone];
      ReceiveLegal(s', ClientDone);
      assert [ClientDone][1..] == [];
    } else {
      more := SpoilingClient(rules, fixture, s');
    }
    rs := [r] + more;
    assert rs[1..] == more;
  }

  /** The scripts whose trace is legal whatever the client does and whatever is served, told
      from the rules alone. */
  lemma LegalForEveryClientIff(rules: seq<ScriptRule>, fixture: Option<BlockFixtureChain>)
    ensures (forall rs :: Legal(ServeAll(rules, fixture, START, rs).wire)) <==> LegalScript(rules, 0)
  {
    hide ServeAll, LegalScript, Legal;
    assert OnTrack(START) by { StartLegal(); }
    if LegalScript(rules, 0) {
      forall rs ensures Legal(ServeAll(rules, fixture, START, rs).wire) { LegalScriptSuffices(rules, fixture, START, rs); }
    } else {
      var rs := SpoilingClient(rules, fixture, START);
      assert !Legal(ServeAll(rules, fixture, START, rs).wire);
    }
  }

  lemma StartLegal()
    ensures OnTrack(START)
  {
  }
}
