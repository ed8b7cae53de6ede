/** What a chain-sync server sends, said of the messages themselves: which header, point and
    tip go out for each send, in which trace states, and where the cursor ends up. */
module ChainSyncContents {
  import opened Text
  import opened Hex
  import opened Points
  import opened Fixture
  import opened ScriptRules
  import opened ChainSyncServer

  /** The header a source stands for: literal bytes and variant, or the entry's variant and the
      bytes its hex text was written from. */
  ghost predicate HeaderIs(header: Header, source: HeaderSource) {
    match source
    case HeaderLiteral(cbor, variant) => header.cbor == cbor && header.variant == variant
    case HeaderFromFixture(e) =>
      header.variant == e.variant && forall cbor: Bytes :: e.cborHex == EncodeHex(cbor) ==> header.cbor == cbor
  }

  /** The point and number of the last entry, or the anchor at number 0. */
  ghost predicate ChainTip(tip: Tip, chain: FixtureChain) {
    if chain.entries == [] then tip.point == chain.anchor && tip.blockNumber == 0
    else
      var last := chain.entries[|chain.entries| - 1];
      && tip.point.Specific? && tip.point.slot == last.slot && tip.blockNumber == last.blockNumber
      && forall hash: Bytes :: last.blockHash == EncodeHex(hash) ==> tip.point.hash == hash
  }

  /** The tip that goes with an answer: as written, an unreadable point becoming the origin;
      else the fixture's; else the origin at number 0. */
  ghost predicate TipIs(tip: Tip, spec: Option<TipSpec>, fixture: Option<FixtureChain>) {
    match spec
    case Some(t) =>
      && tip.blockNumber == t.blockNumber
      && (forall p :: t.point == PointToStr(p) ==> tip.point == p)
      && (ParsePoint(t.point).None? ==> tip.point == Origin)
    case None =>
      if fixture.Some? then ChainTip(tip, fixture.value) else tip.point == Origin && tip.blockNumber == 0
  }

  /** One message more, with its trace states, and the session still running. */
  ghost predicate One(s: Session, s': Session, after: State) {
    && |s'.sent| == |s.sent| + 1 && s'.sent[..|s.sent|] == s.sent
    && s'.labels == s.labels + [Label(s.state, after)]
    && s'.status == s.status
  }

  /** Nothing sent and nothing traced. */
  ghost predicate Silent(s: Session, s': Session) {
    s'.sent == s.sent && s'.labels == s.labels && s'.pos == s.pos
  }

  ghost predicate SomeOnChain(chain: FixtureChain, points: seq<Point>) {
    exists i :: 0 <= i < |points| && OnChain(chain, points[i])
  }

  ghost predicate FirstOnChain(chain: FixtureChain, points: seq<Point>, p: Point) {
    exists j :: 0 <= j < |points| && points[j] == p && OnChain(chain, p) && forall i :: 0 <= i < j ==> !OnChain(chain, points[i])
  }

  ghost predicate AnswerSent(send: ScriptSend, fixture: Option<FixtureChain>, s: Session, s': Session) {
    match send
    case RollForward(source, tip) =>
      && One(s, s', Idle) && s'.pos == s.pos
      && var m := s'.sent[|s.sent|];
        m.RollForwardMsg? && HeaderIs(m.header, source) && TipIs(m.tip, tip, fixture)
    case RollBackward(text, tip) =>
      if ParsePoint(text).None? then Silent(s, s') && s'.status == Failed(BadPoint)
      else
        && One(s, s', Idle) && s'.pos == s.pos
        && var m := s'.sent[|s.sent|];
          m.RollBackwardMsg? && TipIs(m.tip, tip, fixture) && forall p :: text == PointToStr(p) ==> m.point == p
    case IntersectFound(text, tip) =>
      if ParsePoint(text).None? then Silent(s, s') && s'.status == Failed(BadPoint)
      else
        && One(s, s', Idle) && s'.pos == s.pos
        && var m := s'.sent[|s.sent|];
          m.IntersectFoundMsg? && TipIs(m.tip, tip, fixture) && forall p :: text == PointToStr(p) ==> m.point == p
    case IntersectNotFound(tip) =>
      && One(s, s', Idle) && s'.pos == s.pos
      && var m := s'.sent[|s.sent|];
        m.IntersectNotFoundMsg? && TipIs(m.tip, tip, fixture)
    case _ => true
  }

  ghost predicate PlainSent(send: ScriptSend, s: Session, s': Session) {
    match send
    case AwaitReply(_) => One(s, s', MustReply) && s'.sent[|s.sent|] == AwaitReplyMsg && s'.pos == s.pos
    case Wait(_) => Silent(s, s') && s'.status == s.status
    case Disconnect => Silent(s, s') && s'.status == Ended
    case RawBytes(bytes) =>
      s'.sent == s.sent + [RawMsg(bytes)] && s'.labels == s.labels && s'.pos == s.pos && s'.status == s.status
    case StartBatch | Block(_) | BatchDone | NoBlocks | StreamBatch(_) | CursorRange | SendSequence(_) =>
      Silent(s, s') && s'.status == Failed(WrongProtocol)
    case _ => true
  }

  ghost predicate CursorSent(send: ScriptSend, r: Request, fixture: Option<FixtureChain>, s: Session, s': Session) {
    match send
    case CursorFindIntersect =>
      if fixture.None? then Silent(s, s') && s'.status == Failed(NoFixture)
      else
        var chain, points := fixture.value, if r.FindIntersect? then r.points else [];
        && One(s, s', Idle)
        && var m := s'.sent[|s.sent|];
          if SomeOnChain(chain, points) then
            && m.IntersectFoundMsg? && FirstOnChain(chain, points, m.point) && ChainTip(m.tip, chain)
            && 0 <= s'.pos <= |chain.entries| && PointAt(chain, s'.pos) == m.point
          else m.IntersectNotFoundMsg? && ChainTip(m.tip, chain) && s'.pos == s.pos
    case CursorAdvance =>
      if fixture.None? then Silent(s, s') && s'.status == Failed(NoFixture)
      else
        var entries := fixture.value.entries;
        if 0 <= s.pos < |entries| then
          && One(s, s', Idle) && s'.pos == s.pos + 1
          && var m := s'.sent[|s.sent|];
            m.RollForwardMsg? && HeaderIs(m.header, HeaderFromFixture(entries[s.pos])) && ChainTip(m.tip, fixture.value)
        else
          && One(s, s', MustReply) && s'.sent[|s.sent|] == AwaitReplyMsg
          && s'.pos == if s.pos < 0 then 0 else s.pos
    case _ => true
  }

  /** What each kind of send does. */
  ghost predicate Performed(send: ScriptSend, r: Request, fixture: Option<FixtureChain>, s: Session, s': Session) {
    AnswerSent(send, fixture, s, s') && PlainSent(send, s, s') && CursorSent(send, r, fixture, s, s')
  }

  // ---- the parts -------------------------------------------------------------------------------

  lemma HeaderOfIs(source: HeaderSource)
    ensures HeaderIs(HeaderOfSource(source), source)
  {
    if source.HeaderFromFixture? {
      forall cbor: Bytes | source.entry.cborHex == EncodeHex(cbor) ensures HeaderOfSource(source).cbor == cbor {
        DecodeOfEncode(cbor);
      }
    }
  }

  lemma TipOfIs(chain: FixtureChain)
    ensures ChainTip(TipOf(chain), chain)
  {
    if chain.entries != [] {
      var last := chain.entries[|chain.entries| - 1];
      forall hash: Bytes | last.blockHash == EncodeHex(hash) ensures TipOf(chain).point.hash == hash {
        DecodeOfEncode(hash);
      }
    }
  }

  lemma WireTipIs(spec: Option<TipSpec>, fixture: Option<FixtureChain>)
    ensures TipIs(WireTip(spec, fixture), spec, fixture)
  {
    hide TipOf, ChainTip, ParsePoint;
    if fixture.Some? { TipOfIs(fixture.value); }
    if spec.Some? {
      forall p | spec.value.point == PointToStr(p) ensures WireTip(spec, fixture).point == p { PointRoundTrip(p); }
    }
  }

  lemma ReadsPoint(text: Str)
    ensures forall p :: text == PointToStr(p) ==> ParsePoint(text) == Some(p)
  {
    hide ParsePoint, PointToStr;
    forall p | text == PointToStr(p) ensures ParsePoint(text) == Some(p) { PointRoundTrip(p); }
  }

  // ---- the sends ---------------------------------------------------------------------------------

  lemma AnswersPinned(send: ScriptSend, r: Request, fixture: Option<FixtureChain>, s: Session)
    requires -1 <= s.pos && (fixture.Some? ==> s.pos <= |fixture.value.entries|) && IsAnswer(send)
    ensures AnswerSent(send, fixture, s, Execute(send, r, fixture, s))
  {
    hide HeaderIs, HeaderOfSource, TipIs, WireTip, ParsePoint, PointToStr;
    WireTipIs(send.tip, fixture);
    if send.RollForward? { HeaderOfIs(send.header); }
    if send.RollBackward? || send.IntersectFound? { ReadsPoint(send.point); }
  }

  lemma PlainPinned(send: ScriptSend, r: Request, fixture: Option<FixtureChain>, s: Session)
    requires -1 <= s.pos && (fixture.Some? ==> s.pos <= |fixture.value.entries|)
    ensures PlainSent(send, s, Execute(send, r, fixture, s))
  {
    hide WireTip, TipOf, HeaderOf, HeaderOfSource, ParsePoint, ExecuteFind, ExecuteAdvance;
  }

  lemma FindPinned(r: Request, chain: FixtureChain, s: Session)
    requires -1 <= s.pos <= |chain.entries|
    ensures CursorSent(CursorFindIntersect, r, Some(chain), s, Execute(CursorFindIntersect, r, Some(chain), s))
  {
    hide TipOf, ChainTip, OnChain, PointAt, Fixture.FindIntersect, PointToPos;
    var points := if r.FindIntersect? then r.points else [];
    CursorSends(r, Some(chain), s);
    NoCandidate(chain, points);
    TipOfIs(chain);
    if SomeOnChain(chain, points) {
      var j := LeastOnChain(chain, points);
      FirstCandidateWins(chain, points, j);
      var k := Fixture.FindIntersect(chain, points).value;
      var s' := Execute(CursorFindIntersect, r, Some(chain), s);
      assert s'.sent == s.sent + [IntersectFoundMsg(PointAt(chain, k), TipOf(chain))] && s'.pos == k;
      assert FirstOnChain(chain, points, points[j]);
      assert s'.sent[|s.sent|].point == points[j];
    }
  }

  lemma LeastOnChain(chain: FixtureChain, points: seq<Point>) returns (j: nat)
    requires SomeOnChain(chain, points)
    ensures j < |points| && OnChain(chain, points[j]) && forall i :: 0 <= i < j ==> !OnChain(chain, points[i])
  {
    hide OnChain;
    j := 0;
    while !OnChain(chain, points[j])
      invariant j < |points|
      invariant forall i :: 0 <= i < j ==> !OnChain(chain, points[i])
      decreases |points| - j
    {
      j := j + 1;
    }
  }

  lemma AdvancePinned(r: Request, chain: FixtureChain, s: Session)
    requires -1 <= s.pos <= |chain.entries|
    ensures CursorSent(CursorAdvance, r, Some(chain), s, Execute(CursorAdvance, r, Some(chain), s))
  {
    hide TipOf, ChainTip, HeaderIs, HeaderOf;
    CursorSends(r, Some(chain), s);
    TipOfIs(chain);
    if 0 <= s.pos < |chain.entries| { HeaderOfIs(HeaderFromFixture(chain.entries[s.pos])); }
  }

  /** Every send of every script, on every session. */
  lemma ExecutePinned(send: ScriptSend, r: Request, fixture: Option<FixtureChain>, s: Session)
    requires -1 <= s.pos && (fixture.Some? ==> s.pos <= |fixture.value.entries|)
    ensures Performed(send, r, fixture, s, Execute(send, r, fixture, s))
  {
    hide Execute, One, Silent, HeaderIs, TipIs, ChainTip, PlainSent, FirstOnChain, PointAt, OnChain;
    PlainPinned(send, r, fixture, s);
    if IsAnswer(send) { AnswersPinned(send, r, fixture, s); }
    if send.CursorFindIntersect? || send.CursorAdvance? {
      if fixture.Some? {
        FindPinned(r, fixture.value, s);
        AdvancePinned(r, fixture.value, s);
      } else {
        CursorWithoutFixture(send, r, s);
      }
    }
  }

  lemma CursorWithoutFixture(send: ScriptSend, r: Request, s: Session)
    requires -1 <= s.pos && (send.CursorFindIntersect? || send.CursorAdvance?)
    ensures CursorSent(send, r, None, s, Execute(send, r, None, s))
  {
    CursorSends(r, None, s);
  }

  // ---- one request ---------------------------------------------------------------------------------

  /** The tracked state after a send, by its kind. */
  predicate StateAfter(send: ScriptSend, before: State, after: State) {
    if IsAnswer(send) || send.CursorFindIntersect? || send.CursorAdvance? then after == Idle
    else if send.AwaitReply? then after == MustReply
    else if send.Disconnect? then after == Closed
    else after == before
  }

  /** One received request: its trace label, the end of the session on `done`, the error when no
      rule answers, and otherwise the first answering rule's send performed. */
  lemma ServePinned(rules: seq<ScriptRule>, fixture: Option<FixtureChain>, s: Session, r: Request)
    requires SessionOk(rules, fixture, s) && s.status == Running
    ensures var s' := Serve(rules, fixture, s, r);
      var got := if r.FindIntersect? then Intersect else if r.RequestNext? then CanAwait else Closed;
      var sel := NextMatch(rules, s.ruleIdx, OnOf(r));
      var s1 := s.(state := got, received := s.received + 1, labels := s.labels + [Label(s.state, got)]);
      && (r.Done? ==> s' == s1.(status := Ended))
      && (!r.Done? && sel.None? ==> s' == s1.(status := Failed(NoMatchingRule)))
      && (!r.Done? && sel.Some? ==>
            && Performed(rules[sel.value].send, r, fixture, s1, s'.(state := got))
            && (if s'.status.Failed? then s'.state == got else StateAfter(rules[sel.value].send, got, s'.state)))
  {
    hide Execute, Performed;
    var sel := NextMatch(rules, s.ruleIdx, OnOf(r));
    if !r.Done? && sel.Some? {
      var send := rules[sel.value].send;
      var s2 := Received(s, r).(ruleIdx := IdxAfter(rules, s.ruleIdx, sel.value), fired := s.fired + [sel.value]);
      ExecutePinned(send, r, fixture, s2);
      IgnoresIndex(send, r, fixture, Received(s, r), s2, Execute(send, r, fixture, s2));
      var s' := Serve(rules, fixture, s, r);
      assert s'.(state := s2.state) == Execute(send, r, fixture, s2);
    }
  }

  /** The script index plays no part in what is sent. */
  lemma IgnoresIndex(send: ScriptSend, r: Request, fixture: Option<FixtureChain>, a: Session, b: Session, s': Session)
    requires b == a.(ruleIdx := b.ruleIdx, fired := b.fired)
    ensures Performed(send, r, fixture, a, s') <==> Performed(send, r, fixture, b, s')
  {
    hide HeaderIs, TipIs, ChainTip, FirstOnChain, SomeOnChain, ParsePoint, PointToStr, OnChain, PointAt;
    assert forall after :: One(a, s', after) <==> One(b, s', after);
    assert Silent(a, s') <==> Silent(b, s');
    hide One, Silent;
    assert AnswerSent(send, fixture, a, s') <==> AnswerSent(send, fixture, b, s');
    assert PlainSent(send, a, s') <==> PlainSent(send, b, s');
    assert CursorSent(send, r, fixture, a, s') <==> CursorSent(send, r, fixture, b, s');
  }
}
