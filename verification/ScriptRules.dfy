/** Response scripts: how the scenario writes them, how the runner holds them, and how
    the next rule for a request is chosen. Both serving protocols share them. */
module ScriptRules {
  import opened Text
  import opened Hex
  import opened Fixture
  import opened BlockFixture

  datatype On = OnRequestNext | OnFindIntersect | OnRequestRange | OnDone | OnAny

  datatype TipSpec = TipSpec(point: Str, blockNumber: u64)

  const DEFAULT_VARIANT: byte := 6

  // ---- as written in a scenario -----------------------------------------------------------

  datatype SendDef =
    | RollForwardDef(headerFromFixture: Option<nat>, headerCbor: Option<Str>,
                     variant: Option<byte>, tip: Option<TipSpec>)
    | RollBackwardDef(point: Str, tip: Option<TipSpec>)
    | IntersectFoundDef(point: Str, tip: Option<TipSpec>)
    | IntersectNotFoundDef(tip: Option<TipSpec>)
    | AwaitReplyDef(holdSecs: u64)
    | StartBatchDef
    | BlockDef(blockFromFixture: Option<nat>, blockCbor: Option<Str>)
    | BatchDoneDef
    | NoBlocksDef
    | StreamBatchDef(blockIndices: Option<seq<nat>>, blockCountFromRequest: Option<bool>)
    | WaitDef(durationSecs: u64)
    | DisconnectDef
    | RawBytesDef(hex: Str)
    | SendSequenceDef(sends: seq<SendDef>)

  datatype ResponseRuleDef = ResponseRuleDef(on: On, send: SendDef)

  // ---- as executed ---------------------------------------------------------------------------

  datatype HeaderSource = HeaderFromFixture(entry: FixtureEntry) | HeaderLiteral(cbor: Bytes, variant: byte)

  datatype BlockSource = BlockFromFixture(entry: BlockFixtureEntry) | BlockLiteral(bytes: Bytes)

  datatype StreamBatchSources = Explicit(sources: seq<BlockSource>) | FromRequest

  datatype ScriptSend =
    | RollForward(header: HeaderSource, tip: Option<TipSpec>)
    | RollBackward(point: Str, tip: Option<TipSpec>)
    | IntersectFound(point: Str, tip: Option<TipSpec>)
    | IntersectNotFound(tip: Option<TipSpec>)
    | AwaitReply(holdSecs: u64)
    | StartBatch
    | Block(block: BlockSource)
    | BatchDone
    | NoBlocks
    | StreamBatch(batch: StreamBatchSources)
    | Wait(durationSecs: u64)
    | Disconnect
    | RawBytes(bytes: Bytes)
    | SendSequence(sends: seq<ScriptSend>)
    | CursorFindIntersect
    | CursorAdvance
    | CursorRange

  datatype ScriptRule = ScriptRule(on: On, send: ScriptSend, repeatable: bool)

  datatype ConvertError =
    | NoChainFixture | NoBlockFixture | IndexOutOfRange(index: nat) | InvalidHex
    | MutuallyExclusive | MissingSource | NestedSequence(index: nat)

  // ---- conversion ------------------------------------------------------------------------------

  function BlockFromIndex(bf: Option<BlockFixtureChain>, index: nat): Result<BlockSource, ConvertError> {
    if bf.None? then Err(NoBlockFixture)
    else if index >= |bf.value.entries| then Err(IndexOutOfRange(index))
    else Ok(BlockFromFixture(bf.value.entries[index]))
  }

  function BlocksFromIndices(chain: BlockFixtureChain, indices: seq<nat>): (r: Result<seq<BlockSource>, ConvertError>)
    ensures r.Ok? <==> forall i :: 0 <= i < |indices| ==> indices[i] < |chain.entries|
    ensures r.Ok? ==> |r.value| == |indices|
    ensures r.Ok? ==> forall i :: 0 <= i < |indices| ==> r.value[i] == BlockFromFixture(chain.entries[indices[i]])
  {
    if indices == [] then Ok([])
    else match (BlockFromIndex(Some(chain), indices[0]), BlocksFromIndices(chain, indices[1..]))
      case (Err(e), _) => Err(e)
      case (_, Err(e)) => Err(e)
      case (Ok(b), Ok(rest)) => Ok([b] + rest)
  }

  /** One send other than a sequence. */
  function ConvertSendDef(def: SendDef, cs: Option<FixtureChain>, bf: Option<BlockFixtureChain>)
    : Result<ScriptSend, ConvertError>
    requires !def.SendSequenceDef?
  {
    match def
    case RollForwardDef(index, hex, variant, tip) => (
      match (index, hex)
      case (Some(i), None) =>
        if cs.None? then Err(NoChainFixture)
        else if i >= |cs.value.entries| then Err(IndexOutOfRange(i))
        else Ok(RollForward(HeaderFromFixture(cs.value.entries[i]), tip))
      case (None, Some(text)) =>
        if DecodeHex(text).None? then Err(InvalidHex)
        else Ok(RollForward(HeaderLiteral(DecodeHex(text).value,
                                          if variant.Some? then variant.value else DEFAULT_VARIANT), tip))
      case (Some(_), Some(_)) => Err(MutuallyExclusive)
      case (None, None) => Err(MissingSource))
    case RollBackwardDef(point, tip) => Ok(RollBackward(point, tip))
    case IntersectFoundDef(point, tip) => Ok(IntersectFound(point, tip))
    case IntersectNotFoundDef(tip) => Ok(IntersectNotFound(tip))
    case AwaitReplyDef(secs) => Ok(AwaitReply(secs))
    case StartBatchDef => Ok(StartBatch)
    case BatchDoneDef => Ok(BatchDone)
    case NoBlocksDef => Ok(NoBlocks)
    case BlockDef(index, hex) => (
      match (index, hex)
      case (Some(i), None) => (
        match BlockFromIndex(bf, i)
        case Ok(b) => Ok(Block(b))
        case Err(e) => Err(e))
      case (None, Some(text)) =>
        if DecodeHex(text).None? then Err(InvalidHex) else Ok(Block(BlockLiteral(DecodeHex(text).value)))
      case (Some(_), Some(_)) => Err(MutuallyExclusive)
      case (None, None) => Err(MissingSource))
    case StreamBatchDef(indices, fromRequest) => (
      match (indices, fromRequest)
      case (Some(list), _) =>
        if bf.None? then Err(NoBlockFixture)
        else (match BlocksFromIndices(bf.value, list)
              case Ok(blocks) => Ok(StreamBatch(Explicit(blocks)))
              case Err(e) => Err(e))
      case (None, Some(true)) => Ok(StreamBatch(FromRequest))
      case (None, _) => Err(MissingSource))
    case WaitDef(secs) => Ok(Wait(secs))
    case DisconnectDef => Ok(Disconnect)
    case RawBytesDef(text) =>
      if DecodeHex(text).None? then Err(InvalidHex) else Ok(RawBytes(DecodeHex(text).value))
  }

  /** Sends a scenario cannot write: the three cursor sends are generated only. */
  predicate Generated(send: ScriptSend) {
    send.CursorFindIntersect? || send.CursorAdvance? || send.CursorRange?
  }

  /** No generated send, and no sequence inside a sequence. */
  predicate WrittenSend(send: ScriptSend) {
    && !Generated(send)
    && (send.SendSequence? ==>
          forall i :: 0 <= i < |send.sends| ==> !Generated(send.sends[i]) && !send.sends[i].SendSequence?)
  }

  predicate Convertible(def: SendDef, cs: Option<FixtureChain>, bf: Option<BlockFixtureChain>) {
    !def.SendSequenceDef? && ConvertSendDef(def, cs, bf).Ok?
  }

  /** The names scenarios and traces use for the kinds of send. */
  function DefKind(def: SendDef): string {
    match def
    case RollForwardDef(_, _, _, _) => "roll_forward"
    case RollBackwardDef(_, _) => "roll_backward"
    case IntersectFoundDef(_, _) => "intersect_found"
    case IntersectNotFoundDef(_) => "intersect_not_found"
    case AwaitReplyDef(_) => "await_reply"
    case StartBatchDef => "start_batch"
    case BlockDef(_, _) => "block"
    case BatchDoneDef => "batch_done"
    case NoBlocksDef => "no_blocks"
    case StreamBatchDef(_, _) => "stream_batch"
    case WaitDef(_) => "wait"
    case DisconnectDef => "disconnect"
    case RawBytesDef(_) => "raw_bytes"
    case SendSequenceDef(_) => "send_sequence"
  }

  function SendKind(send: ScriptSend): string {
    match send
    case RollForward(_, _) => "roll_forward"
    case RollBackward(_, _) => "roll_backward"
    case IntersectFound(_, _) => "intersect_found"
    case IntersectNotFound(_) => "intersect_not_found"
    case AwaitReply(_) => "await_reply"
    case StartBatch => "start_batch"
    case Block(_) => "block"
    case BatchDone => "batch_done"
    case NoBlocks => "no_blocks"
    case StreamBatch(_) => "stream_batch"
    case Wait(_) => "wait"
    case Disconnect => "disconnect"
    case RawBytes(_) => "raw_bytes"
    case SendSequence(_) => "send_sequence"
    case CursorFindIntersect => "cursor_find_intersect"
    case CursorAdvance => "cursor_advance"
    case CursorRange => "cursor_range"
  }

  /** The hex text a definition spells out, if any, and the bytes a send carries literally. */
  function LiteralText(def: SendDef): Option<Str> {
    match def
    case RollForwardDef(_, hex, _, _) => hex
    case BlockDef(_, hex) => hex
    case RawBytesDef(hex) => Some(hex)
    case _ => None
  }

  function LiteralBytes(send: ScriptSend): Option<Bytes> {
    match send
    case RollForward(HeaderLiteral(cbor, _), _) => Some(cbor)
    case Block(BlockLiteral(bytes)) => Some(bytes)
    case RawBytes(bytes) => Some(bytes)
    case _ => None
  }

  /** The fixture positions a definition refers to, and how many there are. */
  function HeaderIndex(def: SendDef): Option<nat> {
    if def.RollForwardDef? then def.headerFromFixture else None
  }

  function BlockIndices(def: SendDef): Option<seq<nat>> {
    match def
    case BlockDef(Some(i), _) => Some([i])
    case StreamBatchDef(indices, _) => indices
    case _ => None
  }

  /** Everything a definition refers to is there: one source where one is needed, readable
      hex, a fixture behind every position, and positions within it. */
  ghost predicate Resolvable(def: SendDef, cs: Option<FixtureChain>, bf: Option<BlockFixtureChain>) {
    && (def.RollForwardDef? ==> (def.headerFromFixture.Some? <==> def.headerCbor.None?))
    && (def.BlockDef? ==> (def.blockFromFixture.Some? <==> def.blockCbor.None?))
    && (def.StreamBatchDef? ==> def.blockIndices.Some? || def.blockCountFromRequest == Some(true))
    && (LiteralText(def).Some? ==> DecodeHex(LiteralText(def).value).Some?)
    && (HeaderIndex(def).Some? ==> cs.Some? && HeaderIndex(def).value < |cs.value.entries|)
    && (BlockIndices(def).Some? ==>
          bf.Some? && forall i :: 0 <= i < |BlockIndices(def).value| ==> BlockIndices(def).value[i] < |bf.value.entries|)
  }

  /** A definition converts exactly when everything it refers to is there. */
  lemma ConvertIff(def: SendDef, cs: Option<FixtureChain>, bf: Option<BlockFixtureChain>)
    requires !def.SendSequenceDef?
    ensures ConvertSendDef(def, cs, bf).Ok? <==> Resolvable(def, cs, bf)
  {
    hide DecodeHex;
    if def.BlockDef? && def.blockFromFixture.Some? {
      assert BlockIndices(def).value[0] == def.blockFromFixture.value;
    }
  }

  lemma ConvertKeepsKind(def: SendDef, cs: Option<FixtureChain>, bf: Option<BlockFixtureChain>)
    requires !def.SendSequenceDef? && ConvertSendDef(def, cs, bf).Ok?
    ensures SendKind(ConvertSendDef(def, cs, bf).value) == DefKind(def)
  {
    hide DecodeHex, BlocksFromIndices, BlockFromIndex;
  }

  /** The bytes a send carries print as the text they were written with, up to letter case. */
  lemma ConvertKeepsBytes(def: SendDef, cs: Option<FixtureChain>, bf: Option<BlockFixtureChain>)
    requires !def.SendSequenceDef? && ConvertSendDef(def, cs, bf).Ok? && LiteralText(def).Some?
    ensures var send := ConvertSendDef(def, cs, bf).value;
      && LiteralBytes(send).Some?
      && (EncodeHex(LiteralBytes(send).value) == LiteralText(def).value <==> LowerHex(LiteralText(def).value))
  {
    hide DecodeHex, EncodeHex, LowerHex, BlocksFromIndices, BlockFromIndex;
    if DecodeHex(LiteralText(def).value).Some? {
      EncodeOfDecode(LiteralText(def).value);
    }
  }

  /** What a converted send carries: the fixture entries at the written positions, and the
      written points, tips, variants (6 by default) and durations. */
  lemma ConvertContents(def: SendDef, cs: Option<FixtureChain>, bf: Option<BlockFixtureChain>)
    requires !def.SendSequenceDef? && Resolvable(def, cs, bf)
    ensures ConvertSendDef(def, cs, bf).Ok?
    ensures var send := ConvertSendDef(def, cs, bf).value; match def
      case RollForwardDef(index, hex, variant, tip) =>
        && send.RollForward? && send.tip == tip
        && (index.Some? ==> send.header == HeaderFromFixture(cs.value.entries[index.value]))
        && (hex.Some? ==>
              send.header.HeaderLiteral? && send.header.variant == if variant.Some? then variant.value else 6)
      case RollBackwardDef(point, tip) => send == RollBackward(point, tip)
      case IntersectFoundDef(point, tip) => send == IntersectFound(point, tip)
      case IntersectNotFoundDef(tip) => send == IntersectNotFound(tip)
      case AwaitReplyDef(secs) => send == AwaitReply(secs)
      case WaitDef(secs) => send == Wait(secs)
      case BlockDef(index, hex) =>
        && send.Block?
        && (index.Some? ==>
              index.value < |bf.value.entries| && send.block == BlockFromFixture(bf.value.entries[index.value]))
        && (hex.Some? ==> send.block.BlockLiteral?)
      case StreamBatchDef(indices, _) =>
        && send.StreamBatch?
        && (indices.None? ==> send.batch == FromRequest)
        && (indices.Some? ==> send.batch.Explicit? && |send.batch.sources| == |indices.value|)
        && (indices.Some? ==> forall i :: 0 <= i < |indices.value| ==> indices.value[i] < |bf.value.entries|)
        && (indices.Some? ==> forall i :: 0 <= i < |indices.value| ==>
              send.batch.sources[i] == BlockFromFixture(bf.value.entries[indices.value[i]]))
      case StartBatchDef => send == StartBatch
      case BatchDoneDef => send == BatchDone
      case NoBlocksDef => send == NoBlocks
      case DisconnectDef => send == Disconnect
      case RawBytesDef(_) => send.RawBytes?
      case SendSequenceDef(_) => true
  {
    hide DecodeHex;
    ConvertIff(def, cs, bf);
    if def.BlockDef? && def.blockFromFixture.Some? {
      assert BlockIndices(def).value[0] == def.blockFromFixture.value;
    }
  }

  /** The first written position the fixture does not have. */
  ghost predicate FirstOutOfRange(indices: seq<nat>, n: nat, index: nat) {
    exists k :: 0 <= k < |indices| && indices[k] == index >= n && forall j :: 0 <= j < k ==> indices[j] < n
  }

  lemma {:induction false} FirstBadIndex(chain: BlockFixtureChain, indices: seq<nat>)
    requires BlocksFromIndices(chain, indices).Err?
    ensures var e := BlocksFromIndices(chain, indices).error;
      e.IndexOutOfRange? && FirstOutOfRange(indices, |chain.entries|, e.index)
  {
    if indices != [] && indices[0] < |chain.entries| {
      FirstBadIndex(chain, indices[1..]);
      var e := BlocksFromIndices(chain, indices[1..]).error;
      var k :| 0 <= k < |indices[1..]| && indices[1..][k] == e.index >= |chain.entries|
        && forall j :: 0 <= j < k ==> indices[1..][j] < |chain.entries|;
      assert indices[k + 1] == e.index;
      forall j | 0 <= j < k + 1 ensures indices[j] < |chain.entries| {
        if j > 0 { assert indices[j] == indices[1..][j - 1]; }
      }
    }
  }

  /** Why a definition is rejected. */
  lemma ConvertErrors(def: SendDef, cs: Option<FixtureChain>, bf: Option<BlockFixtureChain>)
    requires !def.SendSequenceDef? && ConvertSendDef(def, cs, bf).Err?
    ensures var e := ConvertSendDef(def, cs, bf).error; match def
      case RollForwardDef(Some(i), None, _, _) => e == if cs.None? then NoChainFixture else IndexOutOfRange(i)
      case BlockDef(Some(i), None) => e == if bf.None? then NoBlockFixture else IndexOutOfRange(i)
      case RollForwardDef(None, Some(_), _, _) => e == InvalidHex
      case BlockDef(None, Some(_)) => e == InvalidHex
      case RollForwardDef(Some(_), Some(_), _, _) => e == MutuallyExclusive
      case BlockDef(Some(_), Some(_)) => e == MutuallyExclusive
      case RollForwardDef(None, None, _, _) => e == MissingSource
      case BlockDef(None, None) => e == MissingSource
      case StreamBatchDef(None, _) => e == MissingSource
      case StreamBatchDef(Some(indices), _) =>
        if bf.None? then e == NoBlockFixture
        else e.IndexOutOfRange? && FirstOutOfRange(indices, |bf.value.entries|, e.index)
      case RawBytesDef(_) => e == InvalidHex
      case _ => false
  {
    hide DecodeHex, BlocksFromIndices, FirstOutOfRange;
    if def.StreamBatchDef? && def.blockIndices.Some? && bf.Some? { FirstBadIndex(bf.value, def.blockIndices.value); }
  }

  /** Send `i` is the first of a sequence that does not convert, for this reason. */
  ghost predicate Stops(sends: seq<SendDef>, i: nat, cs: Option<FixtureChain>, bf: Option<BlockFixtureChain>, e: ConvertError)
    requires i < |sends|
  {
    && (forall j :: 0 <= j < i ==> Convertible(sends[j], cs, bf))
    && (if sends[i].SendSequenceDef? then e == NestedSequence(i) else ConvertSendDef(sends[i], cs, bf) == Err(e))
  }

  /** A written rule becomes one runtime rule that fires once; its send is flat, so the
      execution loops never meet a nested sequence. */
  method RuleDefToScript(def: ResponseRuleDef, cs: Option<FixtureChain>, bf: Option<BlockFixtureChain>)
    returns (r: Result<ScriptRule, ConvertError>)
    ensures r.Ok? <==>
      if def.send.SendSequenceDef?
      then forall i :: 0 <= i < |def.send.sends| ==> Convertible(def.send.sends[i], cs, bf)
      else Convertible(def.send, cs, bf)
    ensures r.Ok? ==> r.value.on == def.on && !r.value.repeatable && WrittenSend(r.value.send)
    ensures r.Ok? && def.send.SendSequenceDef? ==>
      && r.value.send.SendSequence? && |r.value.send.sends| == |def.send.sends|
      && forall i :: 0 <= i < |def.send.sends| ==>
           Convertible(def.send.sends[i], cs, bf)
           && ConvertSendDef(def.send.sends[i], cs, bf) == Ok(r.value.send.sends[i])
    ensures r.Ok? && !def.send.SendSequenceDef? ==> ConvertSendDef(def.send, cs, bf) == Ok(r.value.send)
    ensures r.Err? && !def.send.SendSequenceDef? ==> ConvertSendDef(def.send, cs, bf) == Err(r.error)
    ensures r.Err? && def.send.SendSequenceDef? ==> exists i :: 0 <= i < |def.send.sends| && Stops(def.send.sends, i, cs, bf, r.error)
  {
    if !def.send.SendSequenceDef? {
      var one := ConvertSendDef(def.send, cs, bf);
      match one {
        case Ok(send) => return Ok(ScriptRule(def.on, send, false));
        case Err(e) => return Err(e);
      }
    }
    var sends := def.send.sends;
    var converted: seq<ScriptSend> := [];
    for i := 0 to |sends|
      invariant |converted| == i
      invariant forall j :: 0 <= j < i ==>
        Convertible(sends[j], cs, bf) && ConvertSendDef(sends[j], cs, bf) == Ok(converted[j])
      invariant forall j :: 0 <= j < i ==> !Generated(converted[j]) && !converted[j].SendSequence?
    {
      if sends[i].SendSequenceDef? {
        assert Stops(sends, i, cs, bf, NestedSequence(i));
        return Err(NestedSequence(i));
      }
      var one := ConvertSendDef(sends[i], cs, bf);
      if one.Err? {
        assert Stops(sends, i, cs, bf, one.error);
        return Err(one.error);
      }
      converted := converted + [one.value];
    }
    r := Ok(ScriptRule(def.on, SendSequence(converted), false));
  }

  // ---- generated scripts ---------------------------------------------------------------------------

  /** One intersect rule, one cursor step per entry, one await, and a catch-all. */
  function HonestRule(n: nat, awaitSecs: u64, i: nat): ScriptRule
    requires i < n + 3
  {
    if i == 0 then ScriptRule(OnFindIntersect, CursorFindIntersect, false)
    else if i <= n then ScriptRule(OnRequestNext, CursorAdvance, false)
    else if i == n + 1 then ScriptRule(OnRequestNext, AwaitReply(awaitSecs), false)
    else ScriptRule(OnAny, Disconnect, false)
  }

  ghost predicate HonestScript(rules: seq<ScriptRule>, n: nat, awaitSecs: u64) {
    |rules| == n + 3 && forall i :: 0 <= i < n + 3 ==> rules[i] == HonestRule(n, awaitSecs, i)
  }

  method GenerateFromFixture(chain: FixtureChain, awaitSecs: u64) returns (rules: seq<ScriptRule>)
    ensures HonestScript(rules, |chain.entries|, awaitSecs)
    ensures |rules| == |chain.entries| + 3
    ensures rules[0] == ScriptRule(OnFindIntersect, CursorFindIntersect, false)
    ensures forall i :: 1 <= i <= |chain.entries| ==> rules[i] == ScriptRule(OnRequestNext, CursorAdvance, false)
    ensures rules[|chain.entries| + 1] == ScriptRule(OnRequestNext, AwaitReply(awaitSecs), false)
    ensures rules[|chain.entries| + 2] == ScriptRule(OnAny, Disconnect, false)
  {
    rules := [ScriptRule(OnFindIntersect, CursorFindIntersect, false)];
    for i := 0 to |chain.entries|
      invariant |rules| == i + 1
      invariant forall j :: 0 <= j <= i ==> rules[j] == HonestRule(|chain.entries|, awaitSecs, j)
    {
      rules := rules + [ScriptRule(OnRequestNext, CursorAdvance, false)];
    }
    rules := rules + [ScriptRule(OnRequestNext, AwaitReply(awaitSecs), false)];
    rules := rules + [ScriptRule(OnAny, Disconnect, false)];
  }

  function GenerateForBlockFetch(noBlocksDefault: bool): seq<ScriptRule> {
    [ScriptRule(OnRequestRange, if noBlocksDefault then NoBlocks else CursorRange, true),
     ScriptRule(OnAny, Disconnect, false)]
  }

  // ---- rule selection -------------------------------------------------------------------------------

  predicate MatchesOn(own: On, on: On) {
    on == OnAny || on == own
  }

  /** The first rule at or after `idx` that answers this kind of request. */
  function NextMatch(rules: seq<ScriptRule>, idx: nat, own: On): (r: Option<nat>)
    requires idx <= |rules|
    ensures r.Some? ==> idx <= r.value < |rules| && MatchesOn(own, rules[r.value].on)
    ensures r.Some? ==> forall i :: idx <= i < r.value ==> !MatchesOn(own, rules[i].on)
    ensures r.None? ==> forall i :: idx <= i < |rules| ==> !MatchesOn(own, rules[i].on)
    decreases |rules| - idx
  {
    if idx == |rules| then None
    else if MatchesOn(own, rules[idx].on) then Some(idx)
    else NextMatch(rules, idx + 1, own)
  }

  function IdxAfter(rules: seq<ScriptRule>, idx: nat, pos: nat): (r: nat)
    requires idx <= pos < |rules|
    ensures idx <= r <= |rules|
  {
    if rules[pos].repeatable then idx else pos + 1
  }

  /** The script positions a list of requests selects, in turn, until one finds no rule. */
  function Selections(rules: seq<ScriptRule>, idx: nat, owns: seq<On>): (r: seq<nat>)
    requires idx <= |rules|
    ensures |r| <= |owns|
    decreases |owns|
  {
    if owns == [] then []
    else match NextMatch(rules, idx, owns[0])
      case None => []
      case Some(pos) => [pos] + Selections(rules, IdxAfter(rules, idx, pos), owns[1..])
  }

  /** Position `q` is used up once a one-shot selection reached or passed it. */
  ghost predicate UsedUp(rules: seq<ScriptRule>, sel: seq<nat>, q: nat) {
    exists i :: 0 <= i < |sel| && sel[i] < |rules| && !rules[sel[i]].repeatable && q <= sel[i]
  }

  /** Every selection lies past all one-shot selections before it, answers its request,
      and passes over no rule that could have answered and is not used up. */
  lemma {:induction false} SelectionsAdvance(rules: seq<ScriptRule>, idx: nat, owns: seq<On>, j: nat)
    requires idx <= |rules| && j < |Selections(rules, idx, owns)|
    ensures var sel := Selections(rules, idx, owns);
      && idx <= sel[j] < |rules| && MatchesOn(owns[j], rules[sel[j]].on)
      && !UsedUp(rules, sel[..j], sel[j])
      && forall q :: idx <= q < sel[j] && MatchesOn(owns[j], rules[q].on) ==> UsedUp(rules, sel[..j], q)
    decreases |owns|
  {
    hide MatchesOn;
    var pos := NextMatch(rules, idx, owns[0]).value;
    var next := IdxAfter(rules, idx, pos);
    var sel, rest := Selections(rules, idx, owns), Selections(rules, next, owns[1..]);
    assert sel == [pos] + rest;
    if j > 0 {
      SelectionsAdvance(rules, next, owns[1..], j - 1);
      assert sel[..j] == [pos] + rest[..j - 1];
      forall q ensures UsedUp(rules, sel[..j], q) <==>
          (!rules[pos].repeatable && q <= pos) || UsedUp(rules, rest[..j - 1], q) {
        UsedUpCons(rules, pos, rest[..j - 1], q);
      }
    }
  }

  lemma UsedUpCons(rules: seq<ScriptRule>, pos: nat, rest: seq<nat>, q: nat)
    requires pos < |rules|
    ensures UsedUp(rules, [pos] + rest, q) <==> (!rules[pos].repeatable && q <= pos) || UsedUp(rules, rest, q)
  {
    var sel := [pos] + rest;
    assert sel[0] == pos;
    assert forall i :: 0 <= i < |rest| ==> rest[i] == sel[i + 1];
  }

  /** A script of one-shot rules answers at most as many requests as it has rules. */
  lemma {:induction false} OneShotScriptsEnd(rules: seq<ScriptRule>, idx: nat, owns: seq<On>)
    requires idx <= |rules| && forall i :: 0 <= i < |rules| ==> !rules[i].repeatable
    ensures |Selections(rules, idx, owns)| <= |rules| - idx
    decreases |owns|
  {
    if owns != [] && NextMatch(rules, idx, owns[0]).Some? {
      OneShotScriptsEnd(rules, NextMatch(rules, idx, owns[0]).value + 1, owns[1..]);
    }
  }
}
