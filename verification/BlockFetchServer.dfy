/** The scripted block-fetch server: one receive-match-send loop over a session, seen as
    the list of requests the client sends before the connection drops. */
module BlockFetchServer {
  import opened Text
  import opened Points
  import opened BlockFixture
  import opened ScriptRules

  datatype Request = RequestRange(from: Point, to: Point) | ClientDone

  function OnOf(r: Request): On {
    if r.RequestRange? then OnRequestRange else OnDone
  }

  datatype State = Idle | Busy | Streaming | Done

  datatype Message = NoBlocksMsg | StartBatchMsg | BlockMsg(body: Bytes) | BatchDoneMsg | RawMsg(bytes: Bytes)

  datatype Event = Got(request: Request) | Gave(message: Message)

  /** A traced wire event with its state annotation. Raw bytes leave none. */
  datatype Wire = Wire(event: Event, before: State, after: State)

  datatype Failure = NoMatchingRule | SequenceInSequence | WrongProtocol

  datatype Status = Running | Ended | Failed(why: Failure)

  datatype Session = Session(
    state: State, ruleIdx: nat, status: Status,
    sent: seq<Message>, wire: seq<Wire>, received: nat, fired: seq<nat>,
    rangeRequests: nat, blocksServed: nat, noBlocksResponses: nat)

  const START: Session := Session(Idle, 0, Running, [], [], 0, [], 0, 0, 0)

  // ---- sends, as values ---------------------------------------------------------------------

  function SourceBytes(b: BlockSource): Bytes {
    match b
    case BlockFromFixture(e) => BodyBytes(e)
    case BlockLiteral(bytes) => bytes
  }

  function Bodies(entries: seq<BlockFixtureEntry>): (r: seq<Bytes>)
    ensures |r| == |entries| && forall i :: 0 <= i < |r| ==> r[i] == BodyBytes(entries[i])
  {
    if entries == [] then [] else [BodyBytes(entries[0])] + Bodies(entries[1..])
  }

  function SourceBodies(sources: seq<BlockSource>): (r: seq<Bytes>)
    ensures |r| == |sources| && forall i :: 0 <= i < |r| ==> r[i] == SourceBytes(sources[i])
  {
    if sources == [] then [] else [SourceBytes(sources[0])] + SourceBodies(sources[1..])
  }

  /** The bodies of one batch; an unsatisfiable range and an empty list are the same. */
  function BatchBodies(batch: StreamBatchSources, r: Request, fixture: Option<BlockFixtureChain>): seq<Bytes> {
    match batch
    case Explicit(sources) => SourceBodies(sources)
    case FromRequest =>
      if r.ClientDone? || fixture.None? then []
      else match FindRange(fixture.value, r.from, r.to)
        case Some(entries) => Bodies(entries)
        case None => []
  }

  /** One message and the states its trace event names. */
  function Say(s: Session, m: Message, before: State, after: State): Session {
    s.(sent := s.sent + [m], wire := s.wire + [Wire(Gave(m), before, after)])
  }

  function SayNoBlocks(s: Session): Session {
    Say(s, NoBlocksMsg, s.state, Idle).(state := Idle, noBlocksResponses := s.noBlocksResponses + 1)
  }

  function SayStart(s: Session): Session {
    Say(s, StartBatchMsg, s.state, Streaming).(state := Streaming)
  }

  /** A block and the end of a batch are traced as streaming whatever the state is. */
  function SayBlock(s: Session, body: Bytes): Session {
    Say(s, BlockMsg(body), Streaming, Streaming).(blocksServed := s.blocksServed + 1)
  }

  function SayDone(s: Session): Session {
    Say(s, BatchDoneMsg, Streaming, Idle).(state := Idle)
  }

  function SayBlocks(s: Session, bodies: seq<Bytes>): Session {
    if bodies == [] then s else SayBlock(SayBlocks(s, bodies[..|bodies| - 1]), bodies[|bodies| - 1])
  }

  function SayBatch(s: Session, bodies: seq<Bytes>): Session {
    if bodies == [] then SayNoBlocks(s) else SayDone(SayBlocks(SayStart(s), bodies))
  }

  function ExecuteSingle(send: ScriptSend, r: Request, fixture: Option<BlockFixtureChain>, s: Session): Session {
    match send
    case NoBlocks => SayNoBlocks(s)
    case StartBatch => SayStart(s)
    case Block(source) => SayBlock(s, SourceBytes(source))
    case BatchDone => SayDone(s)
    case StreamBatch(batch) => SayBatch(s, BatchBodies(batch, r, fixture))
    case Wait(_) => s
    case Disconnect => s.(status := Ended)
    case RawBytes(bytes) => s.(sent := s.sent + [RawMsg(bytes)])
    case SendSequence(_) => s.(status := Failed(SequenceInSequence))
    case _ => s.(status := Failed(WrongProtocol))
  }

  function SendsOf(send: ScriptSend): seq<ScriptSend> {
    if send.SendSequence? then send.sends else [send]
  }

  /** Sends in order until one ends the session. */
  function ExecuteSends(sends: seq<ScriptSend>, r: Request, fixture: Option<BlockFixtureChain>, s: Session): Session
    decreases |sends|
  {
    if sends == [] || s.status != Running then s
    else ExecuteSends(sends[1..], r, fixture, ExecuteSingle(sends[0], r, fixture, s))
  }

  function Received(s: Session, r: Request): Session {
    var after := if r.RequestRange? then Busy else Done;
    s.(state := after, received := s.received + 1,
       wire := s.wire + [Wire(Got(r), s.state, after)],
       rangeRequests := s.rangeRequests + if r.RequestRange? then 1 else 0)
  }

  lemma {:induction false} SayBlocksKeeps(s: Session, bodies: seq<Bytes>)
    ensures var s' := SayBlocks(s, bodies);
      (s'.ruleIdx, s'.fired, s'.received, s'.rangeRequests, s'.state, s'.status)
        == (s.ruleIdx, s.fired, s.received, s.rangeRequests, s.state, s.status)
  {
    if bodies != [] { SayBlocksKeeps(s, bodies[..|bodies| - 1]); }
  }

  lemma SingleKeeps(send: ScriptSend, r: Request, fixture: Option<BlockFixtureChain>, s: Session)
    ensures var s' := ExecuteSingle(send, r, fixture, s);
      (s'.ruleIdx, s'.fired, s'.received, s'.rangeRequests) == (s.ruleIdx, s.fired, s.received, s.rangeRequests)
  {
    hide BatchBodies, SourceBytes;
    if send.StreamBatch? { SayBlocksKeeps(SayStart(s), BatchBodies(send.batch, r, fixture)); }
  }

  lemma {:induction false} SendsKeep(sends: seq<ScriptSend>, r: Request, fixture: Option<BlockFixtureChain>, s: Session)
    ensures var s' := ExecuteSends(sends, r, fixture, s);
      (s'.ruleIdx, s'.fired, s'.received, s'.rangeRequests) == (s.ruleIdx, s.fired, s.received, s.rangeRequests)
    decreases |sends|
  {
    hide ExecuteSingle;
    if sends != [] && s.status == Running {
      SingleKeeps(sends[0], r, fixture, s);
      SendsKeep(sends[1..], r, fixture, ExecuteSingle(sends[0], r, fixture, s));
    }
  }

  // ---- the loop, as a value -------------------------------------------------------------------

  /** One round of the loop. */
  function Serve(rules: seq<ScriptRule>, fixture: Option<BlockFixtureChain>, s: Session, r: Request): (s': Session)
    requires s.ruleIdx <= |rules|
    ensures s'.ruleIdx <= |rules|
  {
    hide ExecuteSends;
    if s.status != Running then s
    else
      var s1 := Received(s, r);
      if r.ClientDone? then s1.(status := Ended)
      else match NextMatch(rules, s.ruleIdx, OnOf(r))
        case None => s1.(status := Failed(NoMatchingRule))
        case Some(pos) =>
          var s2 := s1.(ruleIdx := IdxAfter(rules, s.ruleIdx, pos), fired := s.fired + [pos]);
          SendsKeep(SendsOf(rules[pos].send), r, fixture, s2);
          ExecuteSends(SendsOf(rules[pos].send), r, fixture, s2)
  }

  function ServeAll(rules: seq<ScriptRule>, fixture: Option<BlockFixtureChain>, s: Session, rs: seq<Request>): (s': Session)
    requires s.ruleIdx <= |rules|
    ensures s'.ruleIdx <= |rules|
    decreases |rs|
  {
    if rs == [] then s else ServeAll(rules, fixture, Serve(rules, fixture, s, rs[0]), rs[1..])
  }

  /** A finished session reads nothing more. */
  lemma {:induction false} FinishedStays(rules: seq<ScriptRule>, fixture: Option<BlockFixtureChain>, s: Session, rs: seq<Request>)
    requires s.ruleIdx <= |rules| && s.status != Running
    ensures ServeAll(rules, fixture, s, rs) == s
    decreases |rs|
  {
    if rs != [] { FinishedStays(rules, fixture, s, rs[1..]); }
  }

  // ---- the loop itself --------------------------------------------------------------------------

  /** The loop's variables, with the outgoing channel and the trace. */
  class Loop {
    var state: State
    var ruleIdx: nat
    var status: Status
    var sent: seq<Message>
    var wire: seq<Wire>
    var received: nat
    var fired: seq<nat>
    var rangeRequests: nat
    var blocksServed: nat
    var noBlocksResponses: nat

    ghost function View(): Session
      reads this
    {
      Session(state, ruleIdx, status, sent, wire, received, fired, rangeRequests, blocksServed, noBlocksResponses)
    }

    constructor ()
      ensures View() == START
    {
      state, ruleIdx, status, sent, wire := Idle, 0, Running, [], [];
      received, fired, rangeRequests, blocksServed, noBlocksResponses := 0, [], 0, 0, 0;
    }

    method SendMessage(m: Message, before: State, after: State)
      modifies this`sent, this`wire
      ensures View() == Say(old(View()), m, before, after)
    {
      sent := sent + [m];
      wire := wire + [Wire(Gave(m), before, after)];
    }

    method DeclineRange()
      modifies this
      ensures View() == SayNoBlocks(old(View()))
    {
      SendMessage(NoBlocksMsg, state, Idle);
      state := Idle;
      noBlocksResponses := noBlocksResponses + 1;
    }

    method BeginBatch()
      modifies this
      ensures View() == SayStart(old(View()))
    {
      SendMessage(StartBatchMsg, state, Streaming);
      state := Streaming;
    }

    method SendBlock(body: Bytes)
      modifies this
      ensures View() == SayBlock(old(View()), body)
    {
      SendMessage(BlockMsg(body), Streaming, Streaming);
      blocksServed := blocksServed + 1;
    }

    method EndBatch()
      modifies this
      ensures View() == SayDone(old(View()))
    {
      SendMessage(BatchDoneMsg, Streaming, Idle);
      state := Idle;
    }

    method StreamBatch(bodies: seq<Bytes>)
      modifies this
      ensures View() == SayBatch(old(View()), bodies)
    {
      hide SayNoBlocks, SayStart, SayBlock, SayDone;
      if bodies == [] {
        DeclineRange();
        return;
      }
      BeginBatch();
      ghost var started := View();
      for i := 0 to |bodies|
        invariant View() == SayBlocks(started, bodies[..i])
      {
        assert bodies[..i + 1][..i] == bodies[..i];
        SendBlock(bodies[i]);
      }
      assert bodies[..|bodies|] == bodies;
      EndBatch();
    }

    method ExecuteSingleSend(send: ScriptSend, r: Request, fixture: Option<BlockFixtureChain>)
      requires status == Running
      modifies this
      ensures View() == ExecuteSingle(send, r, fixture, old(View()))
    {
      hide BatchBodies, SayBatch, SayNoBlocks, SayStart, SayBlock, SayDone, SourceBytes;
      match send {
        case NoBlocks => DeclineRange();
        case StartBatch => BeginBatch();
        case Block(source) => SendBlock(SourceBytes(source));
        case BatchDone => EndBatch();
        case StreamBatch(batch) => StreamBatch(BatchBodies(batch, r, fixture));
        case Wait(_) =>
        case Disconnect => status := Ended;
        case RawBytes(bytes) => sent := sent + [RawMsg(bytes)];
        case SendSequence(_) => status := Failed(SequenceInSequence);
        case _ => status := Failed(WrongProtocol);
      }
    }

    method ExecuteSend(send: ScriptSend, r: Request, fixture: Option<BlockFixtureChain>)
      requires status == Running
      modifies this
      ensures View() == ExecuteSends(SendsOf(send), r, fixture, old(View()))
    {
      hide ExecuteSingle;
      if !send.SendSequence? {
        ExecuteSingleSend(send, r, fixture);
        return;
      }
      var i := 0;
      while i < |send.sends| && status == Running
        invariant i <= |send.sends|
        invariant ExecuteSends(send.sends[i..], r, fixture, View())
               == ExecuteSends(send.sends, r, fixture, old(View()))
      {
        assert send.sends[i..][0] == send.sends[i] && send.sends[i..][1..] == send.sends[i + 1..];
        ExecuteSingleSend(send.sends[i], r, fixture);
        i := i + 1;
      }
    }

    /** The loop body: one received request and its answer. */
    method ServeRequest(rules: seq<ScriptRule>, fixture: Option<BlockFixtureChain>, r: Request)
      requires ruleIdx <= |rules| && status == Running
      modifies this
      ensures View() == Serve(rules, fixture, old(View()), r)
    {
      hide ExecuteSends;
      var after := if r.RequestRange? then Busy else Done;
      wire := wire + [Wire(Got(r), state, after)];
      state, received := after, received + 1;
      if r.ClientDone? {
        status := Ended;
        return;
      }
      rangeRequests := rangeRequests + 1;
      var i := ruleIdx;
      while i < |rules| && !MatchesOn(OnOf(r), rules[i].on)
        invariant ruleIdx <= i <= |rules|
        invariant NextMatch(rules, ruleIdx, OnOf(r)) == NextMatch(rules, i, OnOf(r))
      {
        i := i + 1;
      }
      if i == |rules| {
        status := Failed(NoMatchingRule);
        return;
      }
      if !rules[i].repeatable { ruleIdx := i + 1; }
      fired := fired + [i];
      ExecuteSend(rules[i].send, r, fixture);
    }

    method Execute(requests: seq<Request>, rules: seq<ScriptRule>, fixture: Option<BlockFixtureChain>)
      requires View() == START
      modifies this
      ensures View() == ServeAll(rules, fixture, START, requests)
    {
      hide Serve;
      var n := 0;
      while n < |requests| && status == Running
        invariant n <= |requests| && ruleIdx <= |rules|
        invariant ServeAll(rules, fixture, View(), requests[n..]) == ServeAll(rules, fixture, START, requests)
      {
        assert requests[n..][0] == requests[n] && requests[n..][1..] == requests[n + 1..];
        ServeRequest(rules, fixture, requests[n]);
        n := n + 1;
      }
      if status != Running {
        FinishedStays(rules, fixture, View(), requests[n..]);
      }
    }
  }
}
