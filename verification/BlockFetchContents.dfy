/** What a block-fetch server sends, said of the messages themselves: whose body goes out for
    each send, and in which trace states. */
module BlockFetchContents {
  import opened Text
  import opened Hex
  import opened Ordering
  import opened BlockFixture
  import opened ScriptRules
  import opened BlockFetchServer
  import BlockFetchRanges

  /** The body a source stands for: literal bytes, or those the entry's hex text was written
      from. */
  ghost predicate BodyIs(body: Bytes, source: BlockSource) {
    match source
    case BlockLiteral(bytes) => body == bytes
    case BlockFromFixture(e) => forall b: Bytes :: e.blockCborHex == EncodeHex(b) ==> body == b
  }

  /** One message more, with its trace states. */
  ghost predicate One(s: Session, s': Session, m: Message, before: State, after: State) {
    s'.sent == s.sent + [m] && s'.wire == s.wire + [Wire(Gave(m), before, after)] && s'.status == s.status
  }

  ghost predicate Refused(s: Session, s': Session) {
    One(s, s', NoBlocksMsg, s.state, Idle) && s'.state == Idle
  }

  /** A start, one block for each source in order, and an end; a refusal when there is none. */
  ghost predicate Batched(s: Session, s': Session, sources: seq<BlockSource>) {
    if sources == [] then Refused(s, s')
    else
      var n := |s.sent|;
      && |s'.sent| == n + |sources| + 2 && s'.sent[..n] == s.sent
      && s'.sent[n] == StartBatchMsg && s'.sent[n + |sources| + 1] == BatchDoneMsg
      && (forall i :: 0 <= i < |sources| ==> s'.sent[n + 1 + i].BlockMsg? && BodyIs(s'.sent[n + 1 + i].body, sources[i]))
      && s'.state == Idle && s'.status == s.status
  }

  function FixtureSources(entries: seq<BlockFixtureEntry>): (r: seq<BlockSource>)
    ensures |r| == |entries| && forall i :: 0 <= i < |r| ==> r[i] == BlockFromFixture(entries[i])
  {
    if entries == [] then [] else [BlockFromFixture(entries[0])] + FixtureSources(entries[1..])
  }

  /** What a request asks the fixture for. */
  function Requested(r: Request, fixture: Option<BlockFixtureChain>): seq<BlockSource> {
    if r.ClientDone? || fixture.None? then []
    else match FindRange(fixture.value, r.from, r.to)
      case Some(entries) => FixtureSources(entries)
      case None => []
  }

  /** What each kind of send does. */
  ghost predicate Performed(send: ScriptSend, r: Request, fixture: Option<BlockFixtureChain>, s: Session, s': Session) {
    match send
    case NoBlocks => Refused(s, s')
    case StartBatch => One(s, s', StartBatchMsg, s.state, Streaming) && s'.state == Streaming
    case Block(source) =>
      && |s'.sent| == |s.sent| + 1 && s'.sent[|s.sent|].BlockMsg? && BodyIs(s'.sent[|s.sent|].body, source)
      && One(s, s', s'.sent[|s.sent|], Streaming, Streaming) && s'.state == s.state
    case BatchDone => One(s, s', BatchDoneMsg, Streaming, Idle) && s'.state == Idle
    case StreamBatch(Explicit(sources)) => Batched(s, s', sources)
    case StreamBatch(FromRequest) => Batched(s, s', Requested(r, fixture))
    case Wait(_) => s' == s
    case Disconnect => s' == s.(status := Ended)
    case RawBytes(bytes) => s' == s.(sent := s.sent + [RawMsg(bytes)])
    case SendSequence(_) => s' == s.(status := Failed(SequenceInSequence))
    case RollForward(_, _) | RollBackward(_, _) | IntersectFound(_, _) | IntersectNotFound(_) | AwaitReply(_)
       | CursorFindIntersect | CursorAdvance | CursorRange => s' == s.(status := Failed(WrongProtocol))
  }

  lemma SourceBytesAre(source: BlockSource)
    ensures BodyIs(SourceBytes(source), source)
  {
    if source.BlockFromFixture? {
      forall b: Bytes | source.entry.blockCborHex == EncodeHex(b) ensures SourceBytes(source) == b { DecodeOfEncode(b); }
    }
  }

  lemma AnswerAt(sent: seq<Message>, bodies: seq<Bytes>)
    requires bodies != []
    ensures var all, n := sent + BlockFetchRanges.Answer(bodies), |sent|;
      && |all| == n + |bodies| + 2 && all[..n] == sent
      && all[n] == StartBatchMsg && all[n + |bodies| + 1] == BatchDoneMsg
      && forall i :: 0 <= i < |bodies| ==> all[n + 1 + i] == BlockMsg(bodies[i])
  {
    hide BlockFetchRanges.BlockMsgs;
    var answer, all := BlockFetchRanges.Answer(bodies), sent + BlockFetchRanges.Answer(bodies);
    assert forall i :: 0 <= i < |answer| ==> all[|sent| + i] == answer[i];
    forall i | 0 <= i < |bodies| ensures all[|sent| + 1 + i] == BlockMsg(bodies[i]) {
      assert answer[1 + i] == BlockMsg(bodies[i]);
    }
  }

  lemma BatchIs(s: Session, sources: seq<BlockSource>, bodies: seq<Bytes>)
    requires |bodies| == |sources| && forall i :: 0 <= i < |bodies| ==> BodyIs(bodies[i], sources[i])
    ensures Batched(s, SayBatch(s, bodies), sources)
  {
    if bodies != [] {
      assert SayBatch(s, bodies).state == Idle;
      hide BodyIs, SayBatch, BlockFetchRanges.Answer;
      BlockFetchRanges.BatchSent(s, bodies);
      AnswerAt(s.sent, bodies);
    }
  }

  lemma RequestedBodies(r: Request, fixture: Option<BlockFixtureChain>)
    ensures var bodies, sources := BatchBodies(FromRequest, r, fixture), Requested(r, fixture);
      |bodies| == |sources| && forall i :: 0 <= i < |bodies| ==> BodyIs(bodies[i], sources[i])
  {
    hide FindRange, BodyIs;
    var bodies, sources := BatchBodies(FromRequest, r, fixture), Requested(r, fixture);
    forall i | 0 <= i < |bodies| ensures BodyIs(bodies[i], sources[i]) { SourceBytesAre(sources[i]); }
  }

  /** Every send of every script, on every session. */
  lemma SinglePinned(send: ScriptSend, r: Request, fixture: Option<BlockFixtureChain>, s: Session)
    ensures Performed(send, r, fixture, s, ExecuteSingle(send, r, fixture, s))
  {
    hide BodyIs, Batched, SayBatch, BatchBodies, Requested, SourceBytes;
    match send
    case Block(source) => SourceBytesAre(source);
    case StreamBatch(batch) =>
      if batch.Explicit? {
        ExplicitBodies(batch.sources, r, fixture);
        BatchIs(s, batch.sources, BatchBodies(batch, r, fixture));
      } else {
        RequestedBodies(r, fixture);
        BatchIs(s, Requested(r, fixture), BatchBodies(batch, r, fixture));
      }
    case _ =>
  }

  lemma ExplicitBodies(sources: seq<BlockSource>, r: Request, fixture: Option<BlockFixtureChain>)
    ensures var bodies := BatchBodies(Explicit(sources), r, fixture);
      |bodies| == |sources| && forall i :: 0 <= i < |bodies| ==> BodyIs(bodies[i], sources[i])
  {
    hide BodyIs, SourceBytes;
    forall i | 0 <= i < |sources| ensures BodyIs(SourceBytes(sources[i]), sources[i]) { SourceBytesAre(sources[i]); }
  }

  /** A batch of stored entries, listed in any order, sends exactly their bodies. */
  lemma StoredBatch(keys: seq<Key>, store: Store, r: Request, fixture: Option<BlockFixtureChain>, s: Session)
    requires keys != [] && forall k :: k in keys ==> k in store
    ensures var s' := ExecuteSingle(StreamBatch(Explicit(FixtureSources(ListEntries(keys, store)))), r, fixture, s);
      && |s'.sent| == |s.sent| + |keys| + 2 && s'.sent[..|s.sent|] == s.sent
      && s'.sent[|s.sent|] == StartBatchMsg && s'.sent[|s.sent| + |keys| + 1] == BatchDoneMsg
      && forall i :: 0 <= i < |keys| ==> s'.sent[|s.sent| + 1 + i] == BlockMsg(store[keys[i]])
  {
    hide ExecuteSingle, BodyIs, Refused, StoredEntry;
    var sources := FixtureSources(ListEntries(keys, store));
    ExplicitBatch(sources, r, fixture, s);
    hide FixtureSources, ListEntries;
    var s' := ExecuteSingle(StreamBatch(Explicit(sources)), r, fixture, s);
    forall i | 0 <= i < |keys| ensures s'.sent[|s.sent| + 1 + i] == BlockMsg(store[keys[i]]) {
      StoredBody(keys[i], store[keys[i]], s'.sent[|s.sent| + 1 + i].body);
    }
  }

  lemma ExplicitBatch(sources: seq<BlockSource>, r: Request, fixture: Option<BlockFixtureChain>, s: Session)
    ensures Batched(s, ExecuteSingle(StreamBatch(Explicit(sources)), r, fixture, s), sources)
  {
    hide ExecuteSingle, Batched;
    SinglePinned(StreamBatch(Explicit(sources)), r, fixture, s);
  }

  lemma StoredBody(k: Key, stored: Bytes, body: Bytes)
    requires BodyIs(body, BlockFromFixture(StoredEntry(k, stored)))
    ensures body == stored
  {
    assert StoredEntry(k, stored).blockCborHex == EncodeHex(stored);
  }

  // ---- one request ---------------------------------------------------------------------------------

  /** One received request: its trace event, the end of the session on `done`, the error when no
      rule answers, and otherwise the first answering rule's sends one after the other. */
  lemma ServePinned(rules: seq<ScriptRule>, fixture: Option<BlockFixtureChain>, s: Session, r: Request)
    requires s.ruleIdx <= |rules| && s.status == Running
    ensures var s' := Serve(rules, fixture, s, r); var sel := NextMatch(rules, s.ruleIdx, OnOf(r));
      var after := if r.RequestRange? then Busy else Done;
      var s1 := s.(state := after, received := s.received + 1, wire := s.wire + [Wire(Got(r), s.state, after)],
                   rangeRequests := s.rangeRequests + if r.RequestRange? then 1 else 0);
      && (r.ClientDone? ==> s' == s1.(status := Ended))
      && (r.RequestRange? && sel.None? ==> s' == s1.(status := Failed(NoMatchingRule)))
      && (r.RequestRange? && sel.Some? ==>
            var rule := rules[sel.value];
            var s2 := s1.(ruleIdx := if rule.repeatable then s.ruleIdx else sel.value + 1, fired := s.fired + [sel.value]);
            s' == ExecuteSends(if rule.send.SendSequence? then rule.send.sends else [rule.send], r, fixture, s2))
  {
    hide ExecuteSends;
  }

  /** Sends one after the other, until one ends the session. */
  lemma {:induction false} SendsInOrder(a: seq<ScriptSend>, b: seq<ScriptSend>, r: Request, fixture: Option<BlockFixtureChain>, s: Session)
    ensures ExecuteSends(a + b, r, fixture, s) == ExecuteSends(b, r, fixture, ExecuteSends(a, r, fixture, s))
    ensures |a| == 1 && s.status == Running ==> ExecuteSends(a, r, fixture, s) == ExecuteSingle(a[0], r, fixture, s)
    ensures s.status != Running ==> ExecuteSends(a, r, fixture, s) == s
    decreases |a|
  {
    hide ExecuteSingle;
    if a == [] {
      assert a + b == b;
    } else {
      assert (a + b)[0] == a[0] && (a + b)[1..] == a[1..] + b;
      if s.status == Running { SendsInOrder(a[1..], b, r, fixture, ExecuteSingle(a[0], r, fixture, s)); }
    }
  }
}
