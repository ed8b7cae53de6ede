# Verification of the conformance harness's chain engine and scripted servers

A Dafny model of the logic behind a Cardano conformance harness: the imaginary network whose
peers grow chains as a scenario clock moves, the scripted Chain-Sync and Block-Fetch servers that
hand those chains out, the scenario runner's named connections and parallel branches, and the
codecs and variable substitution they rest on. `dafny verify dfyconfig.toml` checks everything.

Code that changes things in place is imperative here too: peers, the network clock, the fixture
cursor, the two serve loops, the runner's tables and the connection guards are classes, loops are
loops, and each such method is tied by its `ensures` to a function on values. The theorems are
about those functions.

## How the pieces fit

| module | what it holds |
|---|---|
| Text, Hex, Points, Cbor, Notation | decimal and big-endian numbers, hex text, `slot:hash` points, CBOR unsigned integers and synthetic headers; which characters stand for which bytes |
| Ordering | strictly sorted sequences and the `(slot, hash)` key order |
| Schedule, Declaration | production schedules: ceiling division, saturating loop; static checks on rules and peers |
| Production, ProductionTheorems | one peer's chain under a production rule: splitting time, forks, broken links, events |
| PeerStates | peers as mutable objects; the two-phase production loop over all of them; what a served peer shows |
| Timeline, TimelineTheorems | the network over time: clock steps and explicit extensions, and what every run keeps |
| Fixture, BlockFixture | the cursor over headers; the range index over bodies |
| ScriptRules | scripts as written, as executed, as generated; selection of the next rule |
| ChainSyncServer, ChainSyncContents, HonestChainSync | the chain-sync serve loop; what each send puts on the wire; the generated script serves the suffix after the intersection |
| BlockFetchServer, BlockFetchContents, BlockFetchTheorems, BlockFetchRanges | the block-fetch serve loop; what each send puts on the wire; counters, legal traces, answers from the store |
| Connections, ConnectionTheorems | the connection-name validator, the runner's tables, and what the one says about the other |
| Checkout | the guard that takes a connection out of a table, under all interleavings |
| Parallel, ParallelProgress | parallel branches, the fail-fast join and the aborted events; which steps got done, which ends can be reached |
| Vars, VarsTheorems | references, templates, substitution, points through variables |

## Modelling decisions

- A Rust `String` is its UTF-8 bytes. 64-bit arithmetic is written out: `saturating_add`, the
  ceiling division's intermediate value, and `block_number + 1`, which wraps as in a release build.
- The block hash is any function from byte strings to 32-byte strings. It is never assumed to be
  injective, since no such function is: a theorem that two hashes differ says "they differ, or the
  hash function collides on these two different byte strings", and the difference of the byte
  strings is what is proved.
- The hexadecimal decoders follow `from_str_radix`, which accepts both letter cases and a leading
  plus sign. The decoder that drops bad pairs is modelled on text of even length.
- `Timeline.RunReady` is what the code needs of a run to compute it at all: every accepted clock move
  finds each rule's slots free of 64-bit overflow and its loop able to end. The theorems
  about where a run leads are stated under it, those about what stays stored need less.
  `TimelineTheorems.BoundedRunReady` derives it from validation and a bound.
- A run of the network is a list of steps. A rejected step changes nothing and the list goes on;
  the runner stops there, so its runs are among those considered. Steps do not yield while they
  change peers, so an interleaving of parallel branches is such a list too.
- A serving session is the list of requests the client sends before the connection drops. Every
  open connection is a fresh handle; the outcome of network and trace operations is a parameter.

## Where the code differs from its own documentation

- The block-fetch script generated from a fixture is documented to serve whatever range is asked
  for (src/scenario/response_rules.rs:360-365). Its cursor send is rejected by the block-fetch loop
  (src/miniprotocols/blockfetch_server.rs:421): `BlockFetchRanges.GeneratedScriptFails`.
- A cursor step at the tip is logged as must-reply (src/miniprotocols/chainsync_server.rs:374) and
  tracked as idle (src/miniprotocols/chainsync_server.rs:59): `HonestChainSync.LabelDrift` shows it is the
  only send of that kind, and `HonestChainSync.DriftAtTip` reaches it.
- When no candidate intersects, the generated chain-sync script first makes the client wait and
  never hands out the last entry: `HonestChainSync.NoIntersectLosesLast`.
- Parallel steps are meant to give every branch a completion event
  (src/scenario/runner.rs:1583-1586). A branch can be dropped between setting its flag and writing its
  event: `Parallel.SilentBranch`, and exactly when in `Parallel.SilentIff`.
- The guard's note on undefined behaviour (src/scenario/runner.rs:344-348) speaks of another branch
  removing a held name. A held name cannot be removed (`Checkout.HeldIsUnavailable`); the effect
  described needs a connect on the held name first (`Checkout.ClosedNameComesBack`).
- The validator leaves unclosed connections to cleanup (src/scenario/mod.rs:612-614), but a run that
  completes does not clean up (src/scenario/runner.rs:321-331): `ConnectionTheorems.ValidatorSound` says
  what stays open. It also reports a tip query on an unopened name and the closing of an absent
  listener, neither of which fails when run: `ConnectionTheorems.FalseAlarms` shows both, and
  `ConnectionTheorems.ValidatorExact` and `ConnectionTheorems.NameFailureIff` say exactly which reports are failures.
- The validator steps over repeat bodies: `ConnectionTheorems.RepeatEscapes` is a scenario that passes
  and fails when run, and `RepeatsExact` says exactly when a scenario with repeats runs clean.
- A periodic rule whose first slot lies before `start_slot` is rejected because it would never
  produce a block (src/scenario/mod.rs:685-692). It would, from its next scheduled slot on:
  `Schedule.FirstFiring`.
- The error message for a wrong hash asks for lower-case hex; upper case is accepted:
  `Declaration.UpperCaseAccepted`.
- `start_slot` is documented with a default of 0 (docs/network_declarations.md:193); without it there
  is no clock at all (src/scenario/runner.rs:193-201): `TimelineTheorems.NoStartSlotNoTime`.
- A peer served with an empty chain and no responses is commented as producing an empty script
  (src/scenario/runner.rs:1177-1178); the step fails instead (src/scenario/runner.rs:1214-1217):
  `HonestChainSync.PrepareAsPeer`.

## Model

| member | source | states |
|---|---|---|
| Text.ParseOfDecimal | src/scenario/mod.rs:1083-1095 | parsing the decimal text of any 64-bit number gives that number back |
| Text.SlotBytesInjective | src/scenario/peer_state.rs:201-207 | two slots with the same eight big-endian bytes are equal |
| Hex.DecodeOfEncode | src/scenario/fixture.rs:262-276 | all three decoders return the encoded bytes |
| Hex.EncodeOfDecode | src/scenario/peer_state.rs:310-319 | re-encoding decoded text gives the same text exactly when it was lower-case hex |
| Points.PointRoundTrip | src/scenario/vars.rs:159-167 | parsing a point's text gives the point, for every slot and hash |
| Points.PointTextInjective | src/scenario/mod.rs:1083-1106 | different points have different texts |
| Notation.EncodeAt | src/scenario/fixture.rs:262-264 | encoded text is two lower-case digits a byte, the high one first |
| Notation.DecodeExactly | src/scenario/peer_state.rs:310-319 | the checking decoder accepts exactly texts of even length whose pairs are two digits of either case or a plus sign and a digit, and returns those bytes in order |
| Notation.BadText | src/scenario/fixture.rs:274-276 | on text that does not decode one unchecked decoder returns nothing and the other comes out short; else both agree with the checking one |
| Notation.LossyPair | src/scenario/block_fixture.rs:156-160 | that other decoder keeps a pair exactly when it reads as a byte |
| Notation.LossyConcat | src/scenario/block_fixture.rs:156-160 | and treats each pair on its own |
| Notation.PointExactly | src/scenario/mod.rs:1083-1095 | a text is a specific point exactly when a 64-bit number stands before its first colon and hex after it, and the origin exactly when it says so |
| Notation.NumberTexts | src/scenario/mod.rs:1091-1093 | a plus sign in front of a number is read over, a number beyond 64 bits refused |
| Notation.WrittenNumbers | src/scenario/peer_state.rs:122-127 | some numbers as decimal text |
| Notation.WrittenBytes | src/scenario/peer_state.rs:216-237 | some numbers and one synthetic header as bytes |
| Cbor.DecodeOfCborUint | src/scenario/peer_state.rs:225-237 | a decoder accepting all widths returns the number and exactly the bytes that followed (section 3.1 of RFC 8949) |
| Cbor.CborUintShortest | src/scenario/peer_state.rs:225-237 | no accepted encoding of the number is shorter (section 4.2.1 of RFC 8949) |
| Cbor.CborUintPrefixFree | src/scenario/peer_state.rs:225-237 | no encoding is a prefix of another number's |
| Cbor.HeaderRoundTrip | src/scenario/peer_state.rs:216-222 | a synthetic header reads back to its block number and slot |
| Cbor.HeaderInjective | src/scenario/peer_state.rs:216-222 | equal headers have equal numbers and slots |
| Schedule.FiringExact | src/scenario/mod.rs:73-103 | the reference list holds exactly the firing slots of the range, strictly increasing |
| Schedule.FiringSplit | src/scenario/mod.rs:73-103 | the slots of two adjoining ranges joined are those of the whole |
| Schedule.StartIsFirstScheduled | src/scenario/mod.rs:109-114 | the ceiling division yields the least scheduled slot at or after the range start |
| Schedule.EveryNSlotsRange | src/scenario/mod.rs:107-122 | the loop ends and returns exactly the scheduled slots in order, whenever nothing overflows |
| Schedule.LoopExitsIff | src/scenario/mod.rs:117-120 | the saturating loop can end exactly when the upper bound is not the largest 64-bit number |
| Schedule.BoundSuffices | src/scenario/mod.rs:107-122 | upper bound plus interval within 64 bits rules out overflow and the endless loop |
| Schedule.FirstFiring | docs/network_declarations.md:366-381 | the first firing slot is the first scheduled one after the clock's start; the rule's own first slot fires exactly when the clock starts below it |
| Schedule.SlotsInRange | src/scenario/mod.rs:76-103 | every rule's slots are the reference list; an unsorted slot list is filtered in its own order |
| Schedule.SameTiming | src/scenario/mod.rs:86-90 | forked and broken rules fire when the plain rule does |
| Schedule.SparseTiming | src/scenario/mod.rs:92-100 | a sparse rule's slots are the plain ones minus those with a listed index |
| Schedule.SkipsByGlobalIndex | src/scenario/mod.rs:92-100 | the k-th scheduled slot is dropped exactly when k is listed, wherever the range starts |
| Declaration.FirstDisorder | src/scenario/mod.rs:681-757 | reports nothing exactly for strictly increasing lists, else the first entry not above the one before it |
| Declaration.CheckRule | src/scenario/mod.rs:671-785 | no error exactly when the rule satisfies every declared constraint, and each error exactly when its own constraint is broken, with the offending values |
| Declaration.ValidateNetwork | src/scenario/mod.rs:658-788 | no error exactly when ids are unique, each peer has a source of content, and each rule is sound; each error exactly when some peer breaks its constraint |
| Declaration.ValidatedWrongHash | src/scenario/peer_state.rs:132-136 | a validated wrong hash decodes, to 32 bytes, so the fallback is never taken |
| Declaration.UpperCaseAccepted | src/scenario/mod.rs:771-776 | an upper-case wrong hash passes validation |
| ProductionTheorems.SplitInvariance | src/scenario/peer_state.rs:107-196 | producing over (a,b] and then (b,c] gives the chain, store and events of producing over (a,c] |
| ProductionTheorems.ProducedEntries | src/scenario/peer_state.rs:142-187 | old entries stay a prefix; each new one is the block its peer makes on what precedes it, past the tip, at a firing slot, with its body stored |
| ProductionTheorems.StoreFrame | src/scenario/peer_state.rs:187 | production stores an empty body under each new key and touches no other key |
| ProductionTheorems.TipReached | src/scenario/peer_state.rs:146 | after a clock move the tip is at or past every slot that fired |
| ProductionTheorems.PreimageInjective | src/scenario/peer_state.rs:201-207 | with predecessor hashes of equal length, equal hash inputs mean equal id, slot and predecessor |
| ProductionTheorems.PreimageAmbiguous | src/scenario/peer_state.rs:201-207 | without that condition different ids, slots and predecessors can give the same input, at slots production reaches |
| TimelineTheorems.ShortHashesCollide | src/scenario/runner.rs:1394-1432 | two explicit extensions with short hashes and one advance give two peers different blocks with the same hash, for every hash function |
| ProductionTheorems.CanonicalRootInjective | src/scenario/peer_state.rs:122-127 | two peers share the pre-fork identity exactly when first slot, interval and fork slot agree |
| ProductionTheorems.TwinsStayTwins | src/scenario/peer_state.rs:142-187 | equal timing and equal starts up to hashes give chains equal up to hashes |
| ProductionTheorems.EqualBelow | src/scenario/peer_state.rs:156-164 | below a slot up to which two rules hash the same inputs the chains are equal |
| ProductionTheorems.ForkTheorem | src/scenario/peer_state.rs:121-127 | forked peers of equal timing agree below the fork slot and differ in every hash from it on, or the hash collides on two named inputs |
| ProductionTheorems.HonestBlocksLinked | src/scenario/peer_state.rs:152-176 | blocks of plain, listed and sparse rules hash their predecessor under the peer's id |
| ProductionTheorems.ForkedBlocksLinked | src/scenario/peer_state.rs:156-176 | a forked peer's block hashes its predecessor, below the fork under the decimal text of its timing and from the fork on under a zero byte and the marker |
| ProductionTheorems.ProducedContents | src/scenario/peer_state.rs:151-187 | every produced block has its predecessor's number plus one modulo 2^64 (0 on an empty chain), the header bytes of number and slot, variant 6 and stored body 0xa0 |
| ProductionTheorems.BrokenTheorem | src/scenario/peer_state.rs:128-136 | beside an honest peer of equal timing: same slots and numbers, equal entries below the break, the fixed wrong hash covered from it on |
| ProductionTheorems.BreakSevers | src/scenario/peer_state.rs:167-170 | from the break a link survives exactly when the predecessor's hash is the wrong hash or the hash collides |
| ProductionTheorems.EventSlots | src/scenario/peer_state.rs:142-193 | the i-th event evaluates the rule at the i-th firing slot on the chain the earlier ones left |
| ProductionTheorems.EventContents | src/scenario/peer_state.rs:142-193 | an event carries its peer, slot and rule kind; skipped it is empty, else it has the new block's number, the hex of its hash, and the mark of its defect if any |
| ProductionTheorems.KindNames | src/scenario/mod.rs:62-71 | the six rule kinds by name |
| PeerStates.ServedChainReadsBack | src/scenario/peer_state.rs:258-286 | a served chain loaded into a peer is the visible part, byte for byte |
| PeerStates.VisibleIsPrefix | src/scenario/peer_state.rs:258-261 | on increasing slots the clock hides exactly the entries after it, a suffix |
| PeerStates.VisibleAt | src/scenario/peer_state.rs:258-261 | on any chain each entry is kept or hidden by its own slot |
| PeerStates.VisibleWithoutClock | src/scenario/peer_state.rs:258-261 | without a clock everything is visible |
| PeerStates.PeerState.FromFixtureChain | src/scenario/peer_state.rs:279-286 | a peer loaded from what another serves holds exactly the entries visible there; it starts without bodies or rule |
| PeerStates.PeerState.ServedHeaders | src/scenario/peer_state.rs:258-271 | what is served of a chain decodes to its visible part |
| PeerStates.PeerState.ChainTipSlot | src/scenario/peer_state.rs:245-247 | returns the last slot; a slot is covered exactly when it is at or below it |
| PeerStates.PeerState.ExtendFromBlockFixtureChain | src/scenario/peer_state.rs:288-295 | every body is inserted under its key, later entries winning, and nothing else changes |
| PeerStates.PeerState.ProduceSlot | src/scenario/peer_state.rs:144-193 | the loop body changes the peer and reports as one evaluation on values, whose block and event ProducedContents, the two linking lemmas and EventContents spell out |
| PeerStates.PeerState.ProduceSlots | src/scenario/peer_state.rs:144-194 | the inner loop is the evaluations in order |
| PeerStates.CollectTasks | src/scenario/peer_state.rs:113-140 | one task per peer whose rule fires, with the exact slots and context, and none missing |
| PeerStates.RunTask | src/scenario/peer_state.rs:144-194 | one task changes its own peer and no other |
| PeerStates.ApplyProductionRules | src/scenario/peer_state.rs:107-196 | every peer ends as if it alone had been moved and its events are its own, whatever order the map is visited in; the blocks are those ProducedContents and the two linking lemmas spell out |
| Timeline.NetworkState.AdvanceToSlot | src/scenario/runner.rs:1448-1473 | accepted exactly with a clock and a later slot, else the matching error; the clock, every peer and each peer's events are those of the move |
| Timeline.NetworkState.TickSlots | src/scenario/runner.rs:1475-1493 | the same for a relative move, accepted exactly with a clock |
| Timeline.NetworkState.PeerExtendsChain | src/scenario/runner.rs:1381-1446 | bad hex, unknown peer and slots not past the tip are rejected in that order with no effect; else the peer gets one entry with the given slot, number, decoded hash and header and variant (6 by default), the given body under its key, and nothing else changes |
| Timeline.NetworkState.Run | src/scenario/runner.rs:286-319 | steps are performed in order up to the first rejected one; network and trace are those of the steps done |
| TimelineTheorems.TraceTheorem | src/scenario/runner.rs:1402-1493 | over any run whose clock moves the code can compute, the chain is its start plus what the trace announces, every event is right where it stands, and the rule fired exactly once at each scheduled slot in order |
| TimelineTheorems.ReplayKeepsOrder | src/scenario/runner.rs:1416-1423 | replaying a right trace keeps old entries as a prefix and increasing slots increasing |
| TimelineTheorems.ChainInvariant | src/scenario/runner.rs:1402-1432 | any interleaving of advances, ticks and accepted or rejected extensions keeps chains append-only and slots strictly increasing |
| TimelineTheorems.ProducedNumber | src/scenario/peer_state.rs:153 | a produced block has number 0 on an empty chain, else its predecessor's plus one exactly when that fits in 64 bits |
| TimelineTheorems.RunKeepsBody | src/scenario/runner.rs:1402-1432 | whatever body is stored at a covered slot survives any run |
| TimelineTheorems.BodiesKept | src/scenario/peer_state.rs:187 | the body 0xa0 of every block a clock move produced is there after any later run |
| TimelineTheorems.GivenBodyKept | src/scenario/runner.rs:1425-1431 | so is the body an accepted explicit extension gave |
| TimelineTheorems.ValidatedRuleReady | src/scenario/mod.rs:658-788 | a validated rule never overflows or loops for a move that stays one interval below the 64-bit end |
| TimelineTheorems.BoundedRunReady | src/scenario/mod.rs:658-788 | validated rules and a last slot one interval below the 64-bit end make every clock move of a run computable |
| TimelineTheorems.NoStartSlotNoTime | src/scenario/runner.rs:193-201 | without a start slot every advance and tick is rejected and nothing is produced |
| TimelineTheorems.ClockRunsAgree | src/scenario/runner.rs:1448-1493 | any run of advances and ticks equals the single move to its last slot, chains and events |
| TimelineTheorems.TwoWaysToASlot | src/scenario/runner.rs:1448-1493 | two clock-only runs to the same slot leave the same network and the same events |
| TimelineTheorems.ForkAfterAnyRun | src/scenario/peer_state.rs:121-127 | the fork theorem after any sequence of advances and ticks |
| Fixture.PointToPos | src/scenario/fixture.rs:194-219 | finds a position exactly for points on the chain, and the point there is the one asked for |
| Fixture.FirstCandidateWins | src/scenario/fixture.rs:184-192 | the client's first on-chain candidate is chosen, whatever its height |
| Fixture.NoCandidate | src/scenario/fixture.rs:190-192 | no intersection exactly when no candidate is on the chain |
| Fixture.Cursor.SetPos | src/scenario/fixture.rs:221-235 | set to a position an intersection search found, the cursor names one of the candidates, and a point on the chain |
| Fixture.IntersectNamesCandidate | src/scenario/fixture.rs:184-192 | the position found is in range and the point there is one of the candidates, on the chain |
| Fixture.Cursor.CurrentPoint | src/scenario/fixture.rs:227-235 | the point at the cursor |
| Fixture.Cursor.Advance | src/scenario/fixture.rs:238-251 | serves the next entry; none at the tip, and none when the step only reaches the anchor |
| BlockFixture.RangeAgreesWithStore | src/scenario/block_fixture.rs:55-91 | range lookup in the list built from a store is Some exactly when both keys are stored and in order, and then lists exactly the entries between them |
| BlockFixture.SliceOfSorted | src/scenario/block_fixture.rs:74-81 | a contiguous piece of the key listing is the listing of the keys between its ends |
| BlockFixture.StoreRoundTrip | src/scenario/peer_state.rs:274-295 | a store written as a fixture and loaded into an empty peer is the same store |
| BlockFixture.RangeFound | src/scenario/block_fixture.rs:74-91 | in any fixture, sorted or not, a range is found exactly when both points name entries in order, and runs from the first entry for the one to the first for the other |
| BlockFixture.ExtendLastWins | src/scenario/peer_state.rs:288-295 | after loading, a key holds the body of the last entry that names it |
| BlockFixture.ExtendKeeps | src/scenario/peer_state.rs:288-295 | and what it held before when none does |
| ScriptRules.RuleDefToScript | src/scenario/response_rules.rs:320-341 | converts exactly the convertible rules, send by send, to one-shot rules whose sends are flat and never cursor sends; else reports the first send that does not convert |
| ScriptRules.ConvertIff | src/scenario/response_rules.rs:200-317 | a definition converts exactly when it has one source where one is needed, readable hex, and fixture positions in range |
| ScriptRules.ConvertContents | src/scenario/response_rules.rs:200-317 | a converted send carries the fixture entries at the written positions and the written points, tips, variants (6 by default) and durations |
| ScriptRules.ConvertErrors | src/scenario/response_rules.rs:200-317 | a rejected definition is reported by what is wrong with it, the first position out of range for a list |
| ScriptRules.ConvertKeepsBytes | src/scenario/response_rules.rs:222-306 | the bytes of a converted send print as the text written exactly when that was lower-case |
| ScriptRules.BlocksFromIndices | src/scenario/response_rules.rs:268-280 | succeeds exactly when every index is in range, with the entries in the order listed |
| ScriptRules.GenerateFromFixture | src/scenario/response_rules.rs:345-354 | one intersect rule, one cursor step per entry, one await, one hang-up |
| ScriptRules.NextMatch | src/miniprotocols/chainsync_server.rs:179-183 | the least matching rule at or after the index, none only if none matches |
| ScriptRules.SelectionsAdvance | src/miniprotocols/chainsync_server.rs:179-199 | each selection answers its request, lies past every one-shot selection before it, and passes over no usable match |
| ScriptRules.OneShotScriptsEnd | src/miniprotocols/blockfetch_server.rs:131-150 | a script of one-shot rules answers at most as many requests as it has rules |
| ChainSyncServer.Loop.ExecuteAnswer | src/miniprotocols/chainsync_server.rs:381-464 | the four spelled-out answers give the specified messages, labels and counters, or fail on an unreadable point |
| ChainSyncServer.Loop.ExecuteSend | src/miniprotocols/chainsync_server.rs:278-514 | every send, cursor sends included, gives the specified messages, labels, counters and cursor |
| ChainSyncServer.Loop.ExecuteResponseScript | src/miniprotocols/chainsync_server.rs:128-272 | the serve loop computes the session function, over all requests |
| ChainSyncContents.ExecutePinned | src/miniprotocols/chainsync_server.rs:278-514 | what each send puts on the wire: the entry's or literal header bytes and variant, the written point, the written or fixture tip, the first on-chain candidate, the entry at the cursor, the raw bytes; with its trace states |
| ChainSyncContents.ServePinned | src/miniprotocols/chainsync_server.rs:158-230 | one request is traced, ends the session on done, fails without a matching rule, and else has the first matching rule's send performed |
| ChainSyncContents.WireTipIs | src/miniprotocols/chainsync_server.rs:618-658 | a written tip is sent as written, an unreadable point becoming the origin; without one the fixture's last entry, or the origin at 0 |
| HonestChainSync.FiredAreSelections | src/miniprotocols/chainsync_server.rs:179-199 | the rules a session fires are those the selection picks, in order |
| HonestChainSync.OneShotSessionEnds | src/miniprotocols/chainsync_server.rs:158-230 | a session on one-shot rules ends after at most one receive more than rules |
| HonestChainSync.CountersTruthful | src/miniprotocols/chainsync_server.rs:278-514 | in every session headers served, the await flag and the number of trace labels equal what was sent and received; intersects handled lie between the positive answers and all answers |
| HonestChainSync.LabelDrift | src/miniprotocols/chainsync_server.rs:52-75 | logged and tracked states agree after every send except a cursor step that finds no entry |
| HonestChainSync.DriftAtTip | src/miniprotocols/chainsync_server.rs:336-379 | a client that intersects at the tip and asks for the next entry reaches that disagreement with the generated script |
| HonestChainSync.RefinesSuffix | src/scenario/response_rules.rs:345-354 | from any point of a session the generated script is the simple server on what is left of the suffix |
| HonestChainSync.HonestServesSuffix | src/scenario/response_rules.rs:345-354 | if the first on-chain candidate is at position k the reply names it and the rest of the session is the simple server on entries k.. |
| HonestChainSync.NextByNext | src/miniprotocols/chainsync_server.rs:336-379 | to a client that only asks for the next entry the i-th answer is entry i of the suffix, then await replies, then the end |
| HonestChainSync.NoIntersectLosesLast | src/scenario/fixture.rs:238-251 | with no intersection the client first waits and gets every entry but the last |
| HonestChainSync.PrepareAsPeer | src/scenario/runner.rs:1160-1219 | serving a peer without written responses fails exactly on an empty chain; otherwise the script is the generated one for the visible entries |
| HonestChainSync.PeerServedFromOrigin | src/scenario/runner.rs:1160-1189 | a client starting from the origin gets the headers of the visible chain, byte for byte, under its tip |
| BlockFetchServer.Loop.StreamBatch | src/miniprotocols/blockfetch_server.rs:303-393 | a batch is a start, the bodies in order and an end, or one refusal when empty, with states and counters |
| BlockFetchServer.Loop.ExecuteSingleSend | src/miniprotocols/blockfetch_server.rs:234-426 | one send changes state, counters, messages and trace as specified |
| BlockFetchServer.Loop.ExecuteSend | src/miniprotocols/blockfetch_server.rs:209-231 | a sequence runs its sends until one ends the session |
| BlockFetchServer.Loop.Execute | src/miniprotocols/blockfetch_server.rs:80-204 | the serve loop computes the session function, over all requests |
| BlockFetchContents.SinglePinned | src/miniprotocols/blockfetch_server.rs:234-426 | what each send puts on the wire: the entry's or literal body, a start, the bodies in order and an end, one refusal, the raw bytes; with states and trace |
| BlockFetchContents.StoredBatch | src/miniprotocols/blockfetch_server.rs:303-393 | a batch of stored entries sends exactly their stored bodies, in the order listed |
| BlockFetchContents.ServePinned | src/miniprotocols/blockfetch_server.rs:109-174 | one request is traced and counted, ends the session on done, fails without a matching rule, and else has the first matching rule's sends performed |
| BlockFetchContents.SendsInOrder | src/miniprotocols/blockfetch_server.rs:209-231 | sends are performed one after the other until one ends the session |
| BlockFetchTheorems.FiredAreSelections | src/miniprotocols/blockfetch_server.rs:131-150 | the rules a session fires are those the selection picks, in order |
| BlockFetchTheorems.OneShotSessionEnds | src/miniprotocols/blockfetch_server.rs:109-174 | a session on one-shot rules ends after at most one receive more than rules |
| BlockFetchTheorems.CountersTruthful | src/miniprotocols/blockfetch_server.rs:88-92 | in every session the three counters equal the messages and requests, and the trace shows every message but raw bytes, in order |
| BlockFetchTheorems.ResponseLegal | src/miniprotocols/blockfetch_server.rs:234-426 | a response keeps the trace legal exactly when its sends form a path of the protocol's state machine |
| BlockFetchTheorems.TraceLegalIff | src/miniprotocols/blockfetch_server.rs:109-174 | a session's trace is legal exactly when each response was a path from busy and each that was followed by another message ended idle |
| BlockFetchTheorems.LegalForEveryClientIff | src/miniprotocols/blockfetch_server.rs:109-174 | the traces of a script are legal for every client exactly when the rules that can fire, walked in order, are paths of the machine that end idle or end the session |
| BlockFetchTheorems.WellFormedScriptsLegal | src/miniprotocols/blockfetch_server.rs:109-174 | scripts of refusals, streamed batches and start-blocks-end sequences leave legal traces whatever the client does |
| BlockFetchRanges.BatchIsStored | src/miniprotocols/blockfetch_server.rs:310-337 | the batch for a requested range is the stored bodies between its keys |
| BlockFetchRanges.RangesFromStore | src/miniprotocols/blockfetch_server.rs:303-393 | a streaming script answers every range from the store: one batch with exactly those bodies, or one refusal |
| BlockFetchRanges.GeneratedScriptFails | src/scenario/response_rules.rs:366-376 | the generated script sends nothing and fails on the first range request |
| BlockFetchRanges.DefaultRefuses | src/scenario/response_rules.rs:366-376 | with refusal as the default every range is refused and the session goes on |
| BlockFetchRanges.RunKeepsFullyStored | src/scenario/runner.rs:1425-1431 | runs whose explicit extensions carry bodies keep the stored keys equal to the chain's |
| BlockFetchRanges.ChainIsRange | src/scenario/block_fixture.rs:74-81 | on such a peer the keys between two of its blocks are the chain between them, in order |
| BlockFetchRanges.FetchesWhatWasSynced | src/scenario/runner.rs:1247-1262 | after any such run from an empty peer, a range from its i-th to its j-th block yields one body per block in chain order |
| BlockFetchRanges.ProducedBlockFetched | src/scenario/peer_state.rs:187 | a block produced by a clock move can be fetched by its own point after any later run, with body 0xa0 |
| BlockFetchRanges.GivenBlockFetched | src/scenario/runner.rs:1425-1431 | the body of an accepted explicit extension can be fetched by that block's point after any later run |
| Connections.ValidateConnectionNames | src/scenario/mod.rs:524-615 | the three-set scan reports exactly the specified errors, in order |
| Connections.RunnerState.ExecuteStep | src/scenario/runner.rs:621-1354 | a step finds its name or fails with the tables unchanged; only opening and closing change them |
| Connections.RunnerState.CleanUp | src/scenario/runner.rs:1690-1716 | everything live is closed and the tables are empty |
| Connections.RunnerState.Run | src/scenario/runner.rs:286-319 | the runner stops at the first failing step, cleans up, and reports it |
| ConnectionTheorems.StepMeaning | src/scenario/runner.rs:621-1354 | kind by kind, the table and the written name (`default` when absent) a step opens, closes or looks up |
| ConnectionTheorems.ReportMeaning | src/scenario/mod.rs:524-615 | kind by kind, what the validator reports about a step and remembers after it |
| ConnectionTheorems.ErrorsExactly | src/scenario/mod.rs:524-615 | an error is reported exactly when its step has it against the names then open |
| ConnectionTheorems.TwoConnections | src/scenario/mod.rs:532-544 | two connects are accepted exactly under different names, and then both stay live |
| ConnectionTheorems.RunStops | src/scenario/runner.rs:286-319 | a run stops at its first step that fails or misses its name, with everything closed, or past the last |
| ConnectionTheorems.RunAccounted | src/scenario/runner.rs:286-319 | in any run every handle is in exactly one place, and a failing run leaves nothing open |
| ConnectionTheorems.ValidatorSound | src/scenario/mod.rs:517-523 | no run of an accepted list, repeat bodies written out, misses a name or overwrites an entry, whatever else fails; a failing run closes all it opened, a completed one leaves exactly the validator's names open |
| ConnectionTheorems.UnrollFlat | src/scenario/mod.rs:530-534 | without nested steps that list is the one the validator looks at |
| ConnectionTheorems.NameFailureIff | src/scenario/runner.rs:621-1354 | the run in which nothing else fails misses or overwrites a name exactly when some step looks up a name not open then or opens one that is |
| ConnectionTheorems.ValidatorExact | src/scenario/mod.rs:524-615 | a list is accepted exactly when that run has no name failure and no step queries the tip on an unopened name or closes an absent listener |
| ConnectionTheorems.FalseAlarms | src/scenario/runner.rs:1344-1354 | those two steps alone are rejected, and run to completion with nothing missed or replaced |
| ConnectionTheorems.RepeatEscapes | src/scenario/mod.rs:603-606 | a repeat body that uses an unopened name passes validation and fails when run |
| ConnectionTheorems.UnrolledCheck | src/scenario/runner.rs:908-973 | checking each repeat body for at most two rounds is checking the written-out list, for any number of rounds and depth of nesting |
| ConnectionTheorems.RepeatsExact | src/scenario/runner.rs:908-973 | the run in which nothing else fails has a name failure exactly when that two-round check fails |
| ConnectionTheorems.RepeatsSound | src/scenario/runner.rs:908-973 | under that check no run misses or overwrites a name, and a completed one leaves the names of one round of each body |
| Checkout.CheckedOut.Take | src/scenario/runner.rs:358-365 | removes the entry and holds its value, or fails with the table unchanged |
| Checkout.CheckedOut.Consume | src/scenario/runner.rs:373-376 | gives the value up so that a later drop puts nothing back |
| Checkout.CheckedOut.Drop | src/scenario/runner.rs:379-389 | puts the value back under its name, once |
| Checkout.UseAndReturn | src/scenario/runner.rs:351-389 | taking and returning leaves the table as it was |
| Checkout.Workspace.Take | src/scenario/runner.rs:358-365 | the guard operation is the take step on table and live guards |
| Checkout.Workspace.Drop | src/scenario/runner.rs:379-389 | a guard going out of scope is the drop step |
| Checkout.Workspace.Interleave | src/scenario/runner.rs:1527-1581 | any interleaving of branch operations on table and guards is the run of steps the safety theorem is about |
| Checkout.StepExclusiveIff | src/scenario/runner.rs:344-348 | one operation keeps every connection in exactly one place exactly when it is not a connect on a name in use |
| Checkout.InterleavingsExclusive | src/scenario/runner.rs:1527-1581 | an interleaving is exclusive throughout exactly when every connect is on a name neither stored nor held |
| Checkout.ScenarioExclusive | src/scenario/runner.rs:1527-1581 | the same from the start of a scenario |
| Checkout.ClosedNameComesBack | src/scenario/runner.rs:344-348 | after a connect on a held name a returning guard revives a closed name |
| Checkout.AllReturned | src/scenario/runner.rs:379-389 | dropping guards in any order fills exactly their names, closes nothing and loses no connection |
| Checkout.ReturnedUnderName | src/scenario/runner.rs:379-389 | each of them comes back under its own name and what was stored stays as it was |
| Checkout.AbortClosesAll | src/scenario/runner.rs:1690-1716 | once all guards are dropped, closing the table's entries closes every connection ever opened |
| Parallel.FinishParallel | src/scenario/runner.rs:1587-1603 | the loop over the flags writes the specified aborted events |
| Parallel.OutcomeTheorem | src/scenario/runner.rs:1513-1612 | in every interleaving a branch has at most one of completed, failed and aborted; on success all completed; on failure exactly the unflagged ones are aborted, with the step they were in |
| Parallel.SilentIff | src/scenario/runner.rs:1558-1576 | a branch has no outcome event exactly when its flag was set but its event not written, or its aborted event could not be written |
| Parallel.SilentBranch | src/scenario/runner.rs:1583-1586 | an interleaving in which that happens without any write failing |
| ParallelProgress.StepsInOrder | src/scenario/runner.rs:1537-1576 | in every interleaving a completed branch ended each of its steps in order, a failed one exactly those before the reported one; on success each branch wrote its start and completion and nothing else |
| ParallelProgress.RunStands | src/scenario/runner.rs:1537-1576 | how far each branch stands, told by the steps it ended and the events it wrote |
| ParallelProgress.CanSucceed | src/scenario/runner.rs:1513-1612 | branches of any lengths can all complete and the join then succeeds |
| ParallelProgress.CanFailAt | src/scenario/runner.rs:1548-1567 | any step of any branch can fail, is reported as that step of that branch, and aborts the branches not started |
| Vars.ExpandTemplate | src/scenario/vars.rs:116-142 | the scanning loop renders the parsed template |
| VarsTheorems.UnparseOfParse | src/scenario/vars.rs:116-142 | reading a template as literals and placeholders loses nothing |
| VarsTheorems.ParseOfUnparse | src/scenario/vars.rs:116-142 | a split is the one that is read exactly when literals have no opening and names no closing mark |
| VarsTheorems.ExpansionIff | src/scenario/vars.rs:116-142 | expands exactly when all placeholders are closed and name numbers or strings, to the literals and renderings joined |
| VarsTheorems.Renderings | src/scenario/vars.rs:127-134 | a number contributes its text, a string itself, anything else nothing |
| VarsTheorems.ExpandFirst | src/scenario/vars.rs:116-142 | text, placeholder and the rest expand to the text, the variable's text and the rest's expansion, or to the first error |
| VarsTheorems.ExpandLast | src/scenario/vars.rs:116-142 | text without an opening mark stays as it is; an opening mark never closed is an error |
| VarsTheorems.StringCases | src/scenario/vars.rs:76-93 | a string with an opening mark is expanded, one starting with a dollar sign becomes the stored value, any other stays |
| VarsTheorems.ReferenceForms | src/scenario/vars.rs:22-51 | what `name`, `name.field` and `name[i]` give, and each error |
| VarsTheorems.BracketsTrimmed | src/scenario/vars.rs:37 | all closing brackets at the end of an index are dropped, and nothing else |
| VarsTheorems.FieldFound | src/scenario/vars.rs:30-34 | a field is found exactly when its key is there, the first with that key |
| VarsTheorems.ReportsNames | src/scenario/vars.rs:62-109 | the reported references are the variables the value names, in order |
| VarsTheorems.Frame | src/scenario/vars.rs:71-109 | stores that agree on the named variables give the same value, references or error |
| VarsTheorems.FrameByReports | src/scenario/vars.rs:53-69 | a successful substitution comes out the same under any store agreeing on the reported names |
| VarsTheorems.UntouchedIff | src/scenario/vars.rs:53-61 | nothing is reported exactly when no string is a reference or template, and then the value is unchanged |
| VarsTheorems.PartByPart | src/scenario/vars.rs:94-105 | every part of a value is substituted where it stands, independently of the rest |
| VarsTheorems.PointsThroughVariable | src/scenario/runner.rs:799-806 | a point list stored under a plain name and read back through it is the same list |
| VarsTheorems.PlainNameIff | src/scenario/vars.rs:27-50 | and for no other name |
| VarsTheorems.TipThroughVariable | src/scenario/runner.rs:764-771 | a tip stored by a query and read back through `$name.point` and `$name.block_number` is the same tip |
| VarsTheorems.PointByIndex | src/scenario/vars.rs:35-46 | `$name[i]` is the i-th stored point |

## Left out

- TCP, the multiplexer, the wire codec, handshake, keep-alive, transaction submission and peer sharing: input and output over libraries that are not part of this model. Their failures are parameters.
- The Chain-Sync, Block-Fetch and Leios clients and the Leios servers: thin loops over those libraries, or repeats of the rule loop modelled here.
- Loading and saving of JSONL fixtures, parsing of scenario files, the command line, timestamps, sleeps, the seeding of `current_slot` from the wall clock, and the trace file itself.
- Blake2b: the hash is an arbitrary function with 32-byte results.
- Hex text of odd length in the two unchecked decoders, where the code would panic; malformed pairs are modelled (they are dropped). A multi-byte character split across a pair panics in every decoder; in the model it is a malformed pair.
- Timeline.NetworkState.TickSlots: requires that the clock does not pass the 64-bit end, where the code would wrap or panic.
- TimelineTheorems.TraceTheorem: says nothing of runs on which the code overflows or never returns; `Schedule.LoopExitsIff` says when the loop cannot end.
- Schedule.EveryNSlotsRange: requires that no intermediate value overflows and that the upper bound is not the largest 64-bit number; LoopExitsIff and BoundSuffices say what that means.
- `block_number + 1` in a build with overflow checks, which panics instead of wrapping.
- Channels of a connection that were already used by an earlier step: the validator does not track them.
- ConnectionTheorems.ValidatorSound: connection names across parallel branches, which the validator steps over as it does repeat bodies; repeat bodies are modelled.
- Vars.Substitute: substitution builds a new value instead of rewriting in place; a failed one is discarded by the only caller, so what it leaves half done is not modelled. Object keys and values are kept side by side.
- The `blocks_in_batch` number on an explicit end of batch, which is the session total.
- HonestChainSync.LabelDrift: continuity of chain-sync labels for scripts that are out of step on purpose is not stated beyond this.
