/** The scripted chain-sync server: one receive-match-send loop over a session, seen as
    the list of requests the client sends before the connection drops. */
module ChainSyncServer {
  import opened Text
  import opened Hex
  import opened Points
  import opened Fixture
  import opened ScriptRules

  datatype Request = FindIntersect(points: seq<Point>) | RequestNext | Done

  function OnOf(r: Request): On {
    match r
    case FindIntersect(_) => OnFindIntersect
    case RequestNext => OnRequestNext
    case Done => OnDone
  }

  datatype State = Idle | Intersect | CanAwait | MustReply | Closed

  datatype Header = Header(variant: byte, cbor: Bytes)

  datatype Message =
    | RollForwardMsg(header: Header, tip: Tip)
    | RollBackwardMsg(point: Point, tip: Tip)
    | IntersectFoundMsg(point: Point, tip: Tip)
    | IntersectNotFoundMsg(tip: Tip)
    | AwaitReplyMsg
    | RawMsg(bytes: Bytes)

  /** The state annotation of one traced wire event. */
  datatype Label = Label(before: State, after: State)

  datatype Failure = NoMatchingRule | NoFixture | BadPoint | WrongProtocol

  datatype Status = Running | Ended | Failed(why: Failure)

  /** Everything the loop carries: tracked state, cursor, script index, counters, and
      what has gone out. */
  datatype Session = Session(
    state: State, pos: int, ruleIdx: nat, status: Status,
    sent: seq<Message>, labels: seq<Label>, received: nat, fired: seq<nat>,
    headersServed: nat, intersectsHandled: nat, awaitTriggered: bool)

  const START: Session := Session(Idle, -1, 0, Running, [], [], 0, [], 0, 0, false)

  function AfterReceive(r: Request): State {
    match r
    case FindIntersect(_) => Intersect
    case RequestNext => CanAwait
    case Done => Closed
  }

  function AfterSend(s: State, send: ScriptSend): State {
    match send
    case IntersectFound(_, _) => Idle
    case IntersectNotFound(_) => Idle
    case RollForward(_, _) => Idle
    case RollBackward(_, _) => Idle
    case CursorFindIntersect => Idle
    case CursorAdvance => Idle
    case AwaitReply(_) => MustReply
    case Disconnect => Closed
    case _ => s
  }

  function HeaderOf(e: FixtureEntry): Header {
    Header(e.variant, DecodeHexLossy(e.cborHex))
  }

  function HeaderOfSource(s: HeaderSource): Header {
    match s
    case HeaderFromFixture(e) => HeaderOf(e)
    case HeaderLiteral(cbor, variant) => Header(variant, cbor)
  }

  /** An explicit tip wins (unreadable points become the origin), then the fixture's tip,
      then the zero tip. */
  function WireTip(spec: Option<TipSpec>, fixture: Option<FixtureChain>): Tip {
    match spec
    case Some(t) => Tip(if ParsePoint(t.point).Some? then ParsePoint(t.point).value else Origin, t.blockNumber)
    case None => if fixture.Some? then TipOf(fixture.value) else Tip(Origin, 0)
  }

  /** One message with its trace label. */
  function Sending(s: Session, m: Message, after: State): Session {
    s.(sent := s.sent + [m], labels := s.labels + [Label(s.state, after)])
  }

  /** The cursor search: it counts as handled whether or not it finds anything. */
  function ExecuteFind(chain: FixtureChain, points: seq<Point>, s: Session): (s': Session)
    requires -1 <= s.pos <= |chain.entries|
    ensures -1 <= s'.pos <= |chain.entries|
    ensures (s'.ruleIdx, s'.fired, s'.received, s'.state) == (s.ruleIdx, s.fired, s.received, s.state)
  {
    hide TipOf, PointAt;
    IntersectInRange(chain, points);
    var s1 := s.(intersectsHandled := s.intersectsHandled + 1);
    match Fixture.FindIntersect(chain, points)
    case Some(k) => Sending(s1.(pos := k), IntersectFoundMsg(PointAt(chain, k), TipOf(chain)), Idle)
    case None => Sending(s1, IntersectNotFoundMsg(TipOf(chain)), Idle)
  }

  function ExecuteAdvance(chain: FixtureChain, s: Session): (s': Session)
    requires -1 <= s.pos <= |chain.entries|
    ensures -1 <= s'.pos <= |chain.entries|
    ensures (s'.ruleIdx, s'.fired, s'.received, s'.state) == (s.ruleIdx, s.fired, s.received, s.state)
  {
    hide TipOf, HeaderOf;
    var s1 := s.(pos := AdvancedPos(chain, s.pos));
    match ServedFrom(chain, s.pos)
    case Some(e) =>
      Sending(s1, RollForwardMsg(HeaderOf(e), TipOf(chain)), Idle).(headersServed := s.headersServed + 1)
    case None => Sending(s1, AwaitReplyMsg, MustReply).(awaitTriggered := true)
  }

  /** What executing a send does, before the tracked state moves on. */
  function Execute(send: ScriptSend, r: Request, fixture: Option<FixtureChain>, s: Session): (s': Session)
    requires -1 <= s.pos && (fixture.Some? ==> s.pos <= |fixture.value.entries|)
    ensures -1 <= s'.pos && (fixture.Some? ==> s'.pos <= |fixture.value.entries|)
    ensures (s'.ruleIdx, s'.fired, s'.received, s'.state) == (s.ruleIdx, s.fired, s.received, s.state)
  {
    hide WireTip, TipOf, HeaderOf, HeaderOfSource, ParsePoint, PointToPos, PointAt;
    match send
    case CursorFindIntersect =>
      if fixture.None? then s.(status := Failed(NoFixture))
      else ExecuteFind(fixture.value, if r.FindIntersect? then r.points else [], s)
    case CursorAdvance =>
      if fixture.None? then s.(status := Failed(NoFixture)) else ExecuteAdvance(fixture.value, s)
    case RollForward(source, tip) =>
      Sending(s, RollForwardMsg(HeaderOfSource(source), WireTip(tip, fixture)), Idle)
        .(headersServed := s.headersServed + 1)
    case RollBackward(point, tip) =>
      if ParsePoint(point).None? then s.(status := Failed(BadPoint))
      else Sending(s, RollBackwardMsg(ParsePoint(point).value, WireTip(tip, fixture)), Idle)
    case IntersectFound(point, tip) =>
      if ParsePoint(point).None? then s.(status := Failed(BadPoint))
      else Sending(s, IntersectFoundMsg(ParsePoint(point).value, WireTip(tip, fixture)), Idle)
             .(intersectsHandled := s.intersectsHandled + 1)
    case IntersectNotFound(tip) => Sending(s, IntersectNotFoundMsg(WireTip(tip, fixture)), Idle)
    case AwaitReply(_) => Sending(s, AwaitReplyMsg, MustReply).(awaitTriggered := true)
    case Wait(_) => s
    case Disconnect => s.(status := Ended)
    case RawBytes(bytes) => s.(sent := s.sent + [RawMsg(bytes)])
    case _ => s.(status := Failed(WrongProtocol))
  }

  ghost predicate SessionOk(rules: seq<ScriptRule>, fixture: Option<FixtureChain>, s: Session) {
    && s.ruleIdx <= |rules|
    && -1 <= s.pos && (fixture.Some? ==> s.pos <= |fixture.value.entries|)
  }

  function Received(s: Session, r: Request): Session {
    s.(state := AfterReceive(r), received := s.received + 1, labels := s.labels + [Label(s.state, AfterReceive(r))])
  }

  /** One round of the loop. */
  function Serve(rules: seq<ScriptRule>, fixture: Option<FixtureChain>, s: Session, r: Request): (s': Session)
    requires SessionOk(rules, fixture, s)
    ensures SessionOk(rules, fixture, s')
  {
    hide Execute;
    if s.status != Running then s
    else
      var s1 := Received(s, r);
      if r.Done? then s1.(status := Ended)
      else match NextMatch(rules, s.ruleIdx, OnOf(r))
        case None => s1.(status := Failed(NoMatchingRule))
        case Some(pos) =>
          var s2 := s1.(ruleIdx := IdxAfter(rules, s.ruleIdx, pos), fired := s.fired + [pos]);
          var s3 := Execute(rules[pos].send, r, fixture, s2);
          if s3.status.Failed? then s3 else s3.(state := AfterSend(s3.state, rules[pos].send))
  }

  lemma IntersectInRangeOf(fixture: Option<FixtureChain>, r: Request)
    ensures fixture.Some? ==>
      var k := Fixture.FindIntersect(fixture.value, if r.FindIntersect? then r.points else []);
      k.Some? ==> k.value <= |fixture.value.entries|
  {
    if fixture.Some? { IntersectInRange(fixture.value, if r.FindIntersect? then r.points else []); }
  }

  function ServeAll(rules: seq<ScriptRule>, fixture: Option<FixtureChain>, s: Session, rs: seq<Request>): (s': Session)
    requires SessionOk(rules, fixture, s)
    ensures SessionOk(rules, fixture, s')
    decreases |rs|
  {
    if rs == [] then s else ServeAll(rules, fixture, Serve(rules, fixture, s, rs[0]), rs[1..])
  }

  /** A finished session reads nothing more. */
  lemma {:induction false} FinishedStays(rules: seq<ScriptRule>, fixture: Option<FixtureChain>, s: Session, rs: seq<Request>)
    requires SessionOk(rules, fixture, s) && s.status != Running
    ensures ServeAll(rules, fixture, s, rs) == s
    decreases |rs|
  {
    hide Execute;
    if rs != [] { FinishedStays(rules, fixture, s, rs[1..]); }
  }

  // ---- the loop itself --------------------------------------------------------------------

  method FindRule(rules: seq<ScriptRule>, idx: nat, own: On) returns (r: Option<nat>)
    requires idx <= |rules|
    ensures r == NextMatch(rules, idx, own)
  {
    var i := idx;
    while i < |rules|
      invariant idx <= i <= |rules|
      invariant NextMatch(rules, idx, own) == NextMatch(rules, i, own)
    {
      if MatchesOn(own, rules[i].on) { return Some(i); }
      i := i + 1;
    }
    r := None;
  }

  predicate IsAnswer(send: ScriptSend) {
    send.RollForward? || send.RollBackward? || send.IntersectFound? || send.IntersectNotFound?
  }

  lemma CursorSends(r: Request, fixture: Option<FixtureChain>, s: Session)
    requires -1 <= s.pos && (fixture.Some? ==> s.pos <= |fixture.value.entries|)
    ensures Execute(CursorFindIntersect, r, fixture, s) ==
      if fixture.None? then s.(status := Failed(NoFixture))
      else ExecuteFind(fixture.value, if r.FindIntersect? then r.points else [], s)
    ensures Execute(CursorAdvance, r, fixture, s) ==
      if fixture.None? then s.(status := Failed(NoFixture)) else ExecuteAdvance(fixture.value, s)
  {
  }

  /** The loop's variables, with the cursor, the outgoing channel and the trace labels. */
  class Loop {
    const fixture: Option<FixtureChain>
    const cursor: Option<Cursor>
    var state: State
    var ruleIdx: nat
    var status: Status
    var sent: seq<Message>
    var labels: seq<Label>
    var received: nat
    var fired: seq<nat>
    var headersServed: nat
    var intersectsHandled: nat
    var awaitTriggered: bool
    ghost var pos: int  // where the cursor stands, -1 without one

    ghost function CursorObject(): set<object> {
      if cursor.Some? then {cursor.value} else {}
    }

    ghost predicate Valid()
      reads `pos, CursorObject()
    {
      && (fixture.Some? <==> cursor.Some?)
      && (cursor.Some? ==> cursor.value.chain == fixture.value && cursor.value.Valid() && cursor.value.pos == pos)
      && (cursor.None? ==> pos == -1)
    }

    ghost function View(): Session
      reads this
    {
      Session(state, pos, ruleIdx, status, sent, labels, received, fired, headersServed, intersectsHandled, awaitTriggered)
    }

    constructor (fixture: Option<FixtureChain>)
      ensures Valid() && View() == START && this.fixture == fixture
      ensures cursor.Some? ==> fresh(cursor.value)
    {
      this.fixture := fixture;
      if fixture.Some? {
        var c := new Cursor(fixture.value);
        cursor := Some(c);
      } else {
        cursor := None;
      }
      state, ruleIdx, status, sent, labels := Idle, 0, Running, [], [];
      received, fired, headersServed, intersectsHandled, awaitTriggered, pos := 0, [], 0, 0, false, -1;
    }

    method SendMessage(m: Message, after: State)
      modifies this`sent, this`labels
      ensures View() == Sending(old(View()), m, after)
    {
      sent := sent + [m];
      labels := labels + [Label(state, after)];
    }

    method FindIntersect(points: seq<Point>)
      requires Valid() && cursor.Some?
      modifies this, CursorObject()
      ensures Valid()
      ensures View() == ExecuteFind(fixture.value, points, old(View()))
    {
      hide TipOf, PointToPos, PointAt;
      var c := cursor.value;
      IntersectInRange(c.chain, points);
      intersectsHandled := intersectsHandled + 1;
      var tip := TipOf(c.chain);
      var found := Fixture.FindIntersect(c.chain, points);
      if found.Some? {
        c.SetPos(found.value);
        pos := c.pos;
        var point := c.CurrentPoint();
        SendMessage(IntersectFoundMsg(point, tip), Idle);
      } else {
        SendMessage(IntersectNotFoundMsg(tip), Idle);
      }
    }

    method AdvanceCursor()
      requires Valid() && cursor.Some?
      modifies this, CursorObject()
      ensures Valid()
      ensures View() == ExecuteAdvance(fixture.value, old(View()))
    {
      hide TipOf, HeaderOf;
      var c := cursor.value;
      var tip := TipOf(c.chain);
      var entry := c.Advance();
      pos := c.pos;
      if entry.Some? {
        SendMessage(RollForwardMsg(HeaderOf(entry.value), tip), Idle);
        headersServed := headersServed + 1;
      } else {
        awaitTriggered := true;
        SendMessage(AwaitReplyMsg, MustReply);
      }
    }

    /** The four answers a script can spell out. */
    method ExecuteAnswer(send: ScriptSend, ghost r: Request)
      requires Valid() && IsAnswer(send)
      modifies `status, `sent, `labels, `headersServed, `intersectsHandled
      ensures View() == Execute(send, r, fixture, old(View()))
    {
      hide WireTip, TipOf, HeaderOf, HeaderOfSource, ParsePoint, ExecuteFind, ExecuteAdvance;
      match send {
        case RollForward(source, tip) =>
          SendMessage(RollForwardMsg(HeaderOfSource(source), WireTip(tip, fixture)), Idle);
          headersServed := headersServed + 1;
        case RollBackward(point, tip) =>
          var p := ParsePoint(point);
          if p.None? {
            status := Failed(BadPoint);
          } else {
            SendMessage(RollBackwardMsg(p.value, WireTip(tip, fixture)), Idle);
          }
        case IntersectFound(point, tip) =>
          var p := ParsePoint(point);
          if p.None? {
            status := Failed(BadPoint);
          } else {
            SendMessage(IntersectFoundMsg(p.value, WireTip(tip, fixture)), Idle);
            intersectsHandled := intersectsHandled + 1;
          }
        case IntersectNotFound(tip) =>
          SendMessage(IntersectNotFoundMsg(WireTip(tip, fixture)), Idle);
      }
    }

    /** Sends that are no answers: waiting, hanging up, raw bytes, and the other protocol's. */
    method ExecutePlain(send: ScriptSend, ghost r: Request)
      requires Valid() && !IsAnswer(send) && !send.CursorFindIntersect? && !send.CursorAdvance?
      modifies `status, `sent, `labels, `awaitTriggered
      ensures View() == Execute(send, r, fixture, old(View()))
    {
      hide ExecuteFind, ExecuteAdvance;
      match send {
        case AwaitReply(_) =>
          awaitTriggered := true;
          SendMessage(AwaitReplyMsg, MustReply);
        case Wait(_) =>
        case Disconnect => status := Ended;
        case RawBytes(bytes) => sent := sent + [RawMsg(bytes)];
        case StartBatch | Block(_) | BatchDone | NoBlocks | StreamBatch(_) | CursorRange | SendSequence(_) =>
          status := Failed(WrongProtocol);
      }
    }

    method ExecuteSend(send: ScriptSend, r: Request)
      requires Valid() && status == Running
      modifies this, CursorObject()
      ensures Valid()
      ensures View() == Execute(send, r, fixture, old(View()))
    {
      hide Execute, ExecuteFind, ExecuteAdvance;
      CursorSends(r, fixture, View());
      if send.CursorFindIntersect? {
        if cursor.None? {
          status := Failed(NoFixture);
        } else {
          FindIntersect(if r.FindIntersect? then r.points else []);
        }
      } else if send.CursorAdvance? {
        if cursor.None? {
          status := Failed(NoFixture);
        } else {
          AdvanceCursor();
        }
      } else if IsAnswer(send) {
        ExecuteAnswer(send, r);
      } else {
        ExecutePlain(send, r);
      }
    }

    /** The loop body: one received request and its answer. */
    method ServeRequest(rules: seq<ScriptRule>, r: Request)
      requires Valid() && ruleIdx <= |rules| && status == Running
      modifies this, CursorObject()
      ensures Valid() && ruleIdx <= |rules|
      ensures View() == Serve(rules, fixture, old(View()), r)
    {
      hide Execute, AfterSend, AfterReceive, NextMatch, OnOf;
      labels := labels + [Label(state, AfterReceive(r))];
      state, received := AfterReceive(r), received + 1;
      if r.Done? {
        status := Ended;
        return;
      }
      var pos := FindRule(rules, ruleIdx, OnOf(r));
      if pos.None? {
        status := Failed(NoMatchingRule);
        return;
      }
      var rule := rules[pos.value];
      if !rule.repeatable { ruleIdx := pos.value + 1; }
      fired := fired + [pos.value];
      ExecuteSend(rule.send, r);
      if !status.Failed? { state := AfterSend(state, rule.send); }
    }

    /** The serve loop over a whole session. */
    method ExecuteResponseScript(requests: seq<Request>, rules: seq<ScriptRule>)
      requires Valid() && View() == START
      modifies this, CursorObject()
      ensures Valid() && View() == ServeAll(rules, fixture, START, requests)
    {
      hide Serve;
      var n := 0;
      while n < |requests| && status == Running
        invariant n <= |requests| && Valid() && ruleIdx <= |rules|
        invariant ServeAll(rules, fixture, View(), requests[n..]) == ServeAll(rules, fixture, START, requests)
      {
        assert requests[n..][0] == requests[n] && requests[n..][1..] == requests[n + 1..];
        ServeRequest(rules, requests[n]);
        n := n + 1;
      }
      if status != Running {
        FinishedStays(rules, fixture, View(), requests[n..]);
      }
    }
  }
}
