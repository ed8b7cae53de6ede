/** What the scripted chain-sync server guarantees, first for any script and then for the
    script generated from a fixture: it serves the suffix after the intersection. */
module HonestChainSync {
  import opened Text
  import opened Points
  import opened Production
  import opened Fixture
  import opened ScriptRules
  import opened ChainSyncServer
  import opened PeerStates
  import Hex

  // ---- any script: consumption ----------------------------------------------------------

  function Owns(rs: seq<Request>): (r: seq<On>)
    ensures |r| == |rs| && forall i :: 0 <= i < |rs| ==> r[i] == OnOf(rs[i])
  {
    if rs == [] then [] else [OnOf(rs[0])] + Owns(rs[1..])
  }

  lemma ServeSelection(rules: seq<ScriptRule>, fixture: Option<FixtureChain>, s: Session, r: Request)
    requires SessionOk(rules, fixture, s) && s.status == Running
    ensures var s' := Serve(rules, fixture, s, r); var sel := NextMatch(rules, s.ruleIdx, OnOf(r));
      && (s'.fired == s.fired || (sel.Some? && s'.fired == s.fired + [sel.value]))
      && (s'.status == Running ==>
            sel.Some? && s'.fired == s.fired + [sel.value] && s'.ruleIdx == IdxAfter(rules, s.ruleIdx, sel.value))
      && s'.received == s.received + 1
  {
    hide Execute, AfterSend, AfterReceive;
  }

  /** The rules a session fires are, in order, those the selection function picks. */
  lemma {:induction false} FiredAreSelections(rules: seq<ScriptRule>, fixture: Option<FixtureChain>, s: Session, rs: seq<Request>)
    requires SessionOk(rules, fixture, s) && s.status == Running
    ensures ServeAll(rules, fixture, s, rs).fired <= s.fired + Selections(rules, s.ruleIdx, Owns(rs))
    decreases |rs|
  {
    hide Serve, NextMatch, IdxAfter, OnOf;
    if rs != [] {
      var s' := Serve(rules, fixture, s, rs[0]);
      ServeSelection(rules, fixture, s, rs[0]);
      assert Owns(rs)[1..] == Owns(rs[1..]);
      if s'.status == Running {
        FiredAreSelections(rules, fixture, s', rs[1..]);
        var pos := NextMatch(rules, s.ruleIdx, OnOf(rs[0])).value;
        var rest := Selections(rules, s'.ruleIdx, Owns(rs[1..]));
        assert s.fired + ([pos] + rest) == s.fired + [pos] + rest;
      } else {
        FinishedStays(rules, fixture, s', rs[1..]);
      }
    }
  }

  /** A session on one-shot rules is over after at most one receive more than rules. */
  lemma {:induction false} OneShotSessionEnds(rules: seq<ScriptRule>, fixture: Option<FixtureChain>, s: Session, rs: seq<Request>)
    requires SessionOk(rules, fixture, s) && forall i :: 0 <= i < |rules| ==> !rules[i].repeatable
    requires s.received <= |rules| + 1 && (s.status == Running ==> s.received <= s.ruleIdx)
    ensures ServeAll(rules, fixture, s, rs).received <= |rules| + 1
    decreases |rs|
  {
    hide Serve;
    if rs != [] {
      if s.status == Running {
        ServeSelection(rules, fixture, s, rs[0]);
        OneShotSessionEnds(rules, fixture, Serve(rules, fixture, s, rs[0]), rs[1..]);
      } else {
        FinishedStays(rules, fixture, s, rs);
      }
    }
  }

  // ---- any script: counters ------------------------------------------------------------------

  function CountHeaders(ms: seq<Message>): nat {
    if ms == [] then 0 else CountHeaders(ms[..|ms| - 1]) + if ms[|ms| - 1].RollForwardMsg? then 1 else 0
  }

  function CountFound(ms: seq<Message>): nat {
    if ms == [] then 0 else CountFound(ms[..|ms| - 1]) + if ms[|ms| - 1].IntersectFoundMsg? then 1 else 0
  }

  function CountNotFound(ms: seq<Message>): nat {
    if ms == [] then 0 else CountNotFound(ms[..|ms| - 1]) + if ms[|ms| - 1].IntersectNotFoundMsg? then 1 else 0
  }

  function CountTraced(ms: seq<Message>): nat {
    if ms == [] then 0 else CountTraced(ms[..|ms| - 1]) + if ms[|ms| - 1].RawMsg? then 0 else 1
  }

  /** Headers served are the roll-forwards sent; the await flag says whether an await reply
      went out; every receive and every message but raw bytes left one trace label; and
      intersects handled count every positive answer and no more than all answers (an
      explicit not-found answer is not counted, one found by the cursor is). */
  ghost predicate Truthful(s: Session) {
    && s.headersServed == CountHeaders(s.sent)
    && (s.awaitTriggered <==> AwaitReplyMsg in s.sent)
    && |s.labels| == s.received + CountTraced(s.sent)
    && CountFound(s.sent) <= s.intersectsHandled <= CountFound(s.sent) + CountNotFound(s.sent)
  }

  lemma CountsAppend(ms: seq<Message>, m: Message)
    ensures CountHeaders(ms + [m]) == CountHeaders(ms) + if m.RollForwardMsg? then 1 else 0
    ensures CountFound(ms + [m]) == CountFound(ms) + if m.IntersectFoundMsg? then 1 else 0
    ensures CountNotFound(ms + [m]) == CountNotFound(ms) + if m.IntersectNotFoundMsg? then 1 else 0
    ensures CountTraced(ms + [m]) == CountTraced(ms) + if m.RawMsg? then 0 else 1
  {
    assert (ms + [m])[..|ms|] == ms;
  }

  lemma ExecuteTruthful(send: ScriptSend, r: Request, fixture: Option<FixtureChain>, s: Session)
    requires -1 <= s.pos && (fixture.Some? ==> s.pos <= |fixture.value.entries|)
    requires Truthful(s)
    ensures Truthful(Execute(send, r, fixture, s))
  {
    hide CountHeaders, CountFound, CountNotFound, CountTraced;
    hide WireTip, TipOf, HeaderOf, HeaderOfSource, ParsePoint, PointAt, Fixture.FindIntersect;
    IntersectInRangeOf(fixture, r);
    var s' := Execute(send, r, fixture, s);
    if s'.sent != s.sent {
      CountsAppend(s.sent, s'.sent[|s.sent|]);
      assert s'.sent == s.sent + [s'.sent[|s.sent|]];
    }
  }

  /** In every session, whatever the script. */
  lemma {:induction false} CountersTruthful(rules: seq<ScriptRule>, fixture: Option<FixtureChain>, s: Session, rs: seq<Request>)
    requires SessionOk(rules, fixture, s) && Truthful(s)
    ensures Truthful(ServeAll(rules, fixture, s, rs))
    decreases |rs|
  {
    hide Execute, CountHeaders, CountFound, CountNotFound, CountTraced, AfterSend, AfterReceive, NextMatch;
    if rs != [] {
      var sel := NextMatch(rules, s.ruleIdx, OnOf(rs[0]));
      if s.status == Running && !rs[0].Done? && sel.Some? {
        var s2 := Received(s, rs[0]).(ruleIdx := IdxAfter(rules, s.ruleIdx, sel.value), fired := s.fired + [sel.value]);
        ExecuteTruthful(rules[sel.value].send, rs[0], fixture, s2);
      }
      CountersTruthful(rules, fixture, Serve(rules, fixture, s, rs[0]), rs[1..]);
    }
  }

  // ---- any script: trace labels ------------------------------------------------------------

  /** The label the trace left last agrees with the state the loop tracks. */
  predicate InStep(s: Session) {
    s.state == if s.labels == [] then Idle else s.labels[|s.labels| - 1].after
  }

  /** Labels stay in step with the tracked state for every send but one: a cursor step
      that finds no entry is logged as must-reply and tracked as idle. */
  lemma LabelDrift(rules: seq<ScriptRule>, fixture: Option<FixtureChain>, s: Session, r: Request)
    requires SessionOk(rules, fixture, s) && s.status == Running && InStep(s)
    requires Serve(rules, fixture, s, r).status == Running
    ensures InStep(Serve(rules, fixture, s, r)) <==>
      !(rules[NextMatch(rules, s.ruleIdx, OnOf(r)).value].send.CursorAdvance?
        && ServedFrom(fixture.value, s.pos).None?)
  {
    hide Execute, AfterSend, AfterReceive;
    var pos := NextMatch(rules, s.ruleIdx, OnOf(r)).value;
    var s1 := Received(s, r).(ruleIdx := IdxAfter(rules, s.ruleIdx, pos), fired := s.fired + [pos]);
    ExecuteLabels(rules[pos].send, r, fixture, s1);
  }

  lemma ExecuteLabels(send: ScriptSend, r: Request, fixture: Option<FixtureChain>, s: Session)
    requires -1 <= s.pos && (fixture.Some? ==> s.pos <= |fixture.value.entries|)
    requires s.status == Running && InStep(s) && s.labels != []
    ensures var s' := Execute(send, r, fixture, s);
      s'.status == Running ==>
        (InStep(s'.(state := AfterSend(s'.state, send))) <==>
          !(send.CursorAdvance? && ServedFrom(fixture.value, s.pos).None?))
  {
    hide WireTip, TipOf, HeaderOf, HeaderOfSource, ParsePoint, PointAt, Fixture.FindIntersect;
    IntersectInRangeOf(fixture, r);
  }

  // ---- the generated script --------------------------------------------------------------------

  /** The simple server: hand out the suffix entry by entry, then hold the client with a
      number of await replies, then hang up. Anything but a request for the next entry
      ends the session. */
  function ServeSuffix(suffix: seq<FixtureEntry>, awaits: nat, tip: Tip, rs: seq<Request>): (seq<Message>, Status)
    decreases |rs|
  {
    if rs == [] then ([], Running)
    else if !rs[0].RequestNext? then ([], Ended)
    else if suffix != [] then
      var rest := ServeSuffix(suffix[1..], awaits, tip, rs[1..]);
      ([RollForwardMsg(HeaderOf(suffix[0]), tip)] + rest.0, rest.1)
    else if awaits > 0 then
      var rest := ServeSuffix([], awaits - 1, tip, rs[1..]);
      ([AwaitReplyMsg] + rest.0, rest.1)
    else ([], Ended)
  }

  lemma HonestNext(rules: seq<ScriptRule>, n: nat, secs: u64, idx: nat, own: On)
    requires HonestScript(rules, n, secs) && 1 <= idx <= n + 2 && own != OnAny
    ensures NextMatch(rules, idx, own) == Some(if own == OnRequestNext then idx else n + 2)
  {
    var r := NextMatch(rules, idx, own);
    assert rules[n + 2] == HonestRule(n, secs, n + 2);
    assert rules[idx] == HonestRule(n, secs, idx);
    if r.Some? { assert rules[r.value] == HonestRule(n, secs, r.value); }
  }

  function Min(a: int, b: int): int { if a < b then a else b }

  /** Entries still to be handed out once `used` answers of the script are spent. */
  function Left(n: nat, pos: nat, used: nat): int {
    if used <= pos then n - pos else n - used
  }

  /** From any point of the session on: with the cursor at `pos` and `used` answers spent,
      the generated script is the simple server on what is left of the suffix. */
  lemma {:induction false} RefinesSuffix(
      rules: seq<ScriptRule>, chain: FixtureChain, secs: u64, s: Session, rs: seq<Request>, used: nat)
    requires HonestScript(rules, |chain.entries|, secs)
    requires s.status == Running && 0 <= s.pos <= |chain.entries|
    requires used <= |chain.entries| + 1 && s.ruleIdx == used + 1
    ensures var n := |chain.entries|;
      var left := if Left(n, s.pos, used) < 0 then 0 else Left(n, s.pos, used);
      var reply := ServeSuffix(chain.entries[s.pos..s.pos + left], n + 1 - used - left, TipOf(chain), rs);
      var s' := ServeAll(rules, Some(chain), s, rs);
      s'.sent == s.sent + reply.0 && s'.status == reply.1
    decreases |rs|
  {
    hide HeaderOf, TipOf, Fixture.FindIntersect, PointAt, WireTip, ParsePoint, HeaderOfSource, Serve;
    var n := |chain.entries|;
    if rs != [] {
      var s' := Serve(rules, Some(chain), s, rs[0]);
      HonestStep(rules, chain, secs, s, rs[0], used);
      if s'.status == Running {
        RefinesSuffix(rules, chain, secs, s', rs[1..], used + 1);
        var left := if Left(n, s.pos, used) < 0 then 0 else Left(n, s.pos, used);
        if left > 0 {
          assert chain.entries[s.pos..s.pos + left][1..] == chain.entries[s'.pos..s'.pos + left - 1];
        }
      } else {
        FinishedStays(rules, Some(chain), s', rs[1..]);
      }
    }
  }

  /** One request against the generated script. */
  lemma HonestStep(rules: seq<ScriptRule>, chain: FixtureChain, secs: u64, s: Session, r: Request, used: nat)
    requires HonestScript(rules, |chain.entries|, secs)
    requires s.status == Running && 0 <= s.pos <= |chain.entries|
    requires used <= |chain.entries| + 1 && s.ruleIdx == used + 1
    ensures var n := |chain.entries|; var s' := Serve(rules, Some(chain), s, r);
      if !r.RequestNext? || used == n + 1 then s'.status == Ended && s'.sent == s.sent
      else
        && s'.status == Running && s'.ruleIdx == used + 2
        && s'.pos == (if used < n && s.pos < n then s.pos + 1 else s.pos)
        && s'.sent == s.sent + [if used < n && s.pos < n
                                then RollForwardMsg(HeaderOf(chain.entries[s.pos]), TipOf(chain))
                                else AwaitReplyMsg]
  {
    hide HeaderOf, TipOf, Fixture.FindIntersect, PointAt, WireTip, ParsePoint, HeaderOfSource;
    var n := |chain.entries|;
    if !r.Done? {
      HonestNext(rules, n, secs, s.ruleIdx, OnOf(r));
      var pos := NextMatch(rules, s.ruleIdx, OnOf(r)).value;
      assert rules[pos] == HonestRule(n, secs, pos);
    }
  }

  lemma FirstIntersect(rules: seq<ScriptRule>, chain: FixtureChain, secs: u64, points: seq<Point>)
    requires HonestScript(rules, |chain.entries|, secs)
    ensures var found := Fixture.FindIntersect(chain, points);
      var s := Serve(rules, Some(chain), START, Request.FindIntersect(points));
      && s.status == Running && s.ruleIdx == 1
      && (found.Some? ==> found.value <= |chain.entries| && s.pos == found.value)
      && (found.Some? ==> s.sent == [IntersectFoundMsg(PointAt(chain, found.value), TipOf(chain))])
      && (found.None? ==> s.pos == -1 && s.sent == [IntersectNotFoundMsg(TipOf(chain))])
  {
    hide TipOf, Fixture.FindIntersect, PointAt, HonestRule;
    IntersectInRangeOf(Some(chain), Request.FindIntersect(points));
    assert rules[0] == HonestRule(|chain.entries|, secs, 0);
    assert HonestRule(|chain.entries|, secs, 0) == ScriptRule(OnFindIntersect, CursorFindIntersect, false) by {
      HonestRuleZero(|chain.entries|, secs);
    }
  }

  lemma HonestRuleZero(n: nat, secs: u64)
    ensures HonestRule(n, secs, 0) == ScriptRule(OnFindIntersect, CursorFindIntersect, false)
  {
  }

  /** The drift is reached by the generated script itself: a client that intersects at the tip
      and asks for the next entry leaves a must-reply label on an idle session. */
  lemma DriftAtTip(rules: seq<ScriptRule>, chain: FixtureChain, secs: u64, points: seq<Point>)
    requires HonestScript(rules, |chain.entries|, secs) && chain.entries != []
    requires Fixture.FindIntersect(chain, points) == Some(|chain.entries|)
    ensures var s := ServeAll(rules, Some(chain), START, [Request.FindIntersect(points), RequestNext]);
      s.status == Running && s.state == Idle && s.labels != [] && s.labels[|s.labels| - 1].after == MustReply
  {
    hide TipOf, PointAt, HeaderOf, Fixture.FindIntersect, Execute;
    FirstIntersect(rules, chain, secs, points);
    var s1 := Serve(rules, Some(chain), START, Request.FindIntersect(points));
    HonestNext(rules, |chain.entries|, secs, 1, OnRequestNext);
    assert rules[1] == HonestRule(|chain.entries|, secs, 1);
    var asked := Received(s1, RequestNext).(ruleIdx := 2, fired := s1.fired + [1]);
    CursorSends(RequestNext, Some(chain), asked);
    assert Serve(rules, Some(chain), s1, RequestNext) == ExecuteAdvance(chain, asked).(state := Idle);
    ServeBoth(rules, Some(chain), START, Request.FindIntersect(points), RequestNext);
  }

  lemma ServeBoth(rules: seq<ScriptRule>, fixture: Option<FixtureChain>, s: Session, first: Request, second: Request)
    requires SessionOk(rules, fixture, s)
    ensures ServeAll(rules, fixture, s, [first, second]) == Serve(rules, fixture, Serve(rules, fixture, s, first), second)
  {
    hide Serve;
    assert [first, second][1..] == [second] && [second][1..] == [];
    var s2 := Serve(rules, fixture, Serve(rules, fixture, s, first), second);
    assert ServeAll(rules, fixture, s2, []) == s2;
    assert ServeAll(rules, fixture, Serve(rules, fixture, s, first), [second]) == s2;
  }

  /** If the client's first on-chain candidate sits at position k, the reply names that
      very point, and whatever the client then asks is answered as by the simple server:
      entries k.. in order, k + 1 await replies, and the end. */
  lemma HonestServesSuffix(
      rules: seq<ScriptRule>, chain: FixtureChain, secs: u64, points: seq<Point>, j: nat, rs: seq<Request>)
    requires HonestScript(rules, |chain.entries|, secs)
    requires j < |points| && OnChain(chain, points[j]) && forall i :: 0 <= i < j ==> !OnChain(chain, points[i])
    ensures var k := PointToPos(chain, points[j]).value;
      var reply := ServeSuffix(chain.entries[k..], k + 1, TipOf(chain), rs);
      var s := ServeAll(rules, Some(chain), START, [Request.FindIntersect(points)] + rs);
      && s.sent == [IntersectFoundMsg(points[j], TipOf(chain))] + reply.0
      && s.status == reply.1
  {
    hide OnChain, TipOf, PointAt, HonestScript, Serve, ServeSuffix, HeaderOf, Fixture.FindIntersect;
    FirstCandidateWins(chain, points, j);
    FirstIntersect(rules, chain, secs, points);
    var first := [Request.FindIntersect(points)];
    assert (first + rs)[1..] == rs;
    var s := Serve(rules, Some(chain), START, Request.FindIntersect(points));
    RefinesSuffix(rules, chain, secs, s, rs, 0);
    assert chain.entries[s.pos..s.pos + (|chain.entries| - s.pos)] == chain.entries[s.pos..];
  }

  /** When nothing intersects the session is not at the start of the chain but before it:
      the first step is spent on the anchor, so on a non-empty chain the client is first
      told to wait, then gets every entry but the last. */
  lemma NoIntersectLosesLast(rules: seq<ScriptRule>, chain: FixtureChain, secs: u64, points: seq<Point>, rs: seq<Request>)
    requires HonestScript(rules, |chain.entries|, secs) && chain.entries != []
    requires forall i :: 0 <= i < |points| ==> !OnChain(chain, points[i])
    ensures var n := |chain.entries|;
      var reply := ServeSuffix(chain.entries[..n - 1], 1, TipOf(chain), rs);
      var s := ServeAll(rules, Some(chain), START, [Request.FindIntersect(points), RequestNext] + rs);
      && s.sent == [IntersectNotFoundMsg(TipOf(chain)), AwaitReplyMsg] + reply.0
      && s.status == reply.1
  {
    hide OnChain, TipOf, PointAt, Serve, ServeSuffix, HeaderOf, Fixture.FindIntersect;
    NoCandidate(chain, points);
    FirstIntersect(rules, chain, secs, points);
    var s1 := Serve(rules, Some(chain), START, Request.FindIntersect(points));
    var s2 := Serve(rules, Some(chain), s1, RequestNext);
    BeforeAnchor(rules, chain, secs, s1);
    var all := [Request.FindIntersect(points), RequestNext] + rs;
    assert all[1..] == [RequestNext] + rs && all[1..][1..] == rs;
    RefinesSuffix(rules, chain, secs, s2, rs, 1);
    assert chain.entries[0..|chain.entries| - 1] == chain.entries[..|chain.entries| - 1];
  }

  lemma BeforeAnchor(rules: seq<ScriptRule>, chain: FixtureChain, secs: u64, s: Session)
    requires HonestScript(rules, |chain.entries|, secs) && chain.entries != []
    requires s.status == Running && s.pos == -1 && s.ruleIdx == 1
    ensures var s' := Serve(rules, Some(chain), s, RequestNext);
      s'.status == Running && s'.pos == 0 && s'.ruleIdx == 2 && s'.sent == s.sent + [AwaitReplyMsg]
  {
    hide TipOf, HeaderOf;
    HonestNext(rules, |chain.entries|, secs, 1, OnRequestNext);
    assert rules[1] == HonestRule(|chain.entries|, secs, 1);
  }

  // ---- a closed form -------------------------------------------------------------------------------

  function RollForwards(entries: seq<FixtureEntry>, tip: Tip): (r: seq<Message>)
    ensures |r| == |entries|
    ensures forall i :: 0 <= i < |entries| ==> r[i] == RollForwardMsg(HeaderOf(entries[i]), tip)
  {
    if entries == [] then [] else [RollForwardMsg(HeaderOf(entries[0]), tip)] + RollForwards(entries[1..], tip)
  }

  predicate AllNext(rs: seq<Request>) {
    forall i :: 0 <= i < |rs| ==> rs[i].RequestNext?
  }

  /** A client that only ever asks for the next entry: the i-th answer is the i-th entry
      of the suffix while there is one, an await reply after that, and the session ends
      with the first request past both. */
  lemma {:induction false} NextByNext(suffix: seq<FixtureEntry>, awaits: nat, tip: Tip, rs: seq<Request>)
    requires AllNext(rs)
    ensures var reply := ServeSuffix(suffix, awaits, tip, rs);
      && |reply.0| == Min(|rs|, |suffix| + awaits)
      && (reply.1 == Ended <==> |rs| > |suffix| + awaits)
      && forall i :: 0 <= i < |reply.0| ==>
           reply.0[i] == if i < |suffix| then RollForwardMsg(HeaderOf(suffix[i]), tip) else AwaitReplyMsg
    decreases |rs|
  {
    hide HeaderOf;
    if rs != [] {
      assert rs[0].RequestNext?;
      assert forall i :: 0 <= i < |rs| - 1 ==> rs[1..][i] == rs[i + 1];
      if suffix != [] {
        NextByNext(suffix[1..], awaits, tip, rs[1..]);
      } else if awaits > 0 {
        NextByNext([], awaits - 1, tip, rs[1..]);
      }
    }
  }

  // ---- serving a peer of the imaginary network -------------------------------------------------------

  datatype ServeError = NothingToServe

  /** What `serve_chain_sync as_peer` without written responses sets up: an empty chain gives
      no fixture, and without a fixture there is no script. */
  method PrepareAsPeer(chain: seq<ChainEntry>, clock: Option<u64>, awaitSecs: u64)
    returns (r: Result<(FixtureChain, seq<ScriptRule>), ServeError>)
    ensures r.Ok? <==> chain != []
    ensures r.Ok? ==> r.value.0 == FilteredFixtureChain(chain, clock) && HonestScript(r.value.1, |Visible(chain, clock)|, awaitSecs)
  {
    hide HonestScript;
    if chain == [] {
      return Err(NothingToServe);
    }
    var fixture := FilteredFixtureChain(chain, clock);
    var rules := GenerateFromFixture(fixture, awaitSecs);
    r := Ok((fixture, rules));
  }

  /** Serving `as_peer` a client that starts from the origin: answer i + 1 is the header
      of the i-th chain entry visible at the current slot, byte for byte, under the tip
      of the visible chain. */
  lemma PeerServedFromOrigin(
      rules: seq<ScriptRule>, chain: seq<ChainEntry>, clock: Option<u64>, secs: u64, rs: seq<Request>, i: nat)
    requires HonestScript(rules, |Visible(chain, clock)|, secs) && AllNext(rs)
    requires i < |rs| && i < |Visible(chain, clock)|
    ensures var seen := Visible(chain, clock); var last := seen[|seen| - 1];
      var fixture := FilteredFixtureChain(chain, clock);
      var s := ServeAll(rules, Some(fixture), START, [Request.FindIntersect([Origin])] + rs);
      && |s.sent| > i + 1
      && s.sent[0] == IntersectFoundMsg(Origin, TipOf(fixture))
      && s.sent[i + 1] == RollForwardMsg(Header(seen[i].variant, seen[i].headerCbor),
                                         Tip(Specific(last.slot, last.blockHash), last.blockNumber))
  {
    hide HonestScript, ServeAll, ServeSuffix, Visible, ToFixtureEntry, HeaderOf, TipOf;
    var seen, fixture := Visible(chain, clock), FilteredFixtureChain(chain, clock);
    HonestServesSuffix(rules, fixture, secs, [Origin], 0, rs);
    assert fixture.entries[0..] == fixture.entries;
    NextByNext(fixture.entries, 1, TipOf(fixture), rs);
    HeaderReadsBack(seen[i]);
    TipReadsBack(chain, clock);
  }

  lemma HeaderReadsBack(e: ChainEntry)
    ensures HeaderOf(ToFixtureEntry(e)) == Header(e.variant, e.headerCbor)
  {
    Hex.DecodeOfEncode(e.headerCbor);
  }

  lemma TipReadsBack(chain: seq<ChainEntry>, clock: Option<u64>)
    requires Visible(chain, clock) != []
    ensures var last := Visible(chain, clock)[|Visible(chain, clock)| - 1];
      TipOf(FilteredFixtureChain(chain, clock)) == Tip(Specific(last.slot, last.blockHash), last.blockNumber)
  {
    hide Visible, Hex.EncodeHex;
    FixtureEntryRoundTrip(Visible(chain, clock)[|Visible(chain, clock)| - 1]);
  }
}
