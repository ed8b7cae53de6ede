/** Static checks on the `network` block. */
module Declaration {
  import opened Text
  import opened Hex
  import opened Schedule

  datatype PeerDecl = PeerDecl(
    id: Str,
    chainSyncFixture: Option<Str>,
    blockFetchFixture: Option<Str>,
    productionRule: Option<ProductionRule>)

  datatype DeclError =
    | DuplicatePeerId(id: Str)
    | NoContentSource(id: Str)
    | ZeroInterval
    | FirstBeforeStart(firstSlot: u64, start: u64)
    | EmptySlotList
    | SlotsNotIncreasing(index: nat)
    | ForkBeforeFirst(forkSlot: u64, firstSlot: u64)
    | EmptyMarker
    | LongMarker(length: nat)
    | SkipsNotIncreasing(index: nat)
    | BreakBeforeFirst(breakAtSlot: u64, firstSlot: u64)
    | BadWrongHash

  predicate IsHexDigit(c: byte) {
    DigitValue(c).Some?
  }

  ghost predicate AllHex(s: Str) {
    forall i :: 0 <= i < |s| ==> IsHexDigit(s[i])
  }

  /** What a declared rule must satisfy. */
  ghost predicate RuleOk(rule: ProductionRule, startSlot: Option<u64>) {
    && (rule.Periodic() ==>
          && rule.interval > 0
          && (startSlot.Some? ==> startSlot.value <= rule.firstSlot))
    && (rule.AtSlots? ==> rule.slots != [] && Increasing(rule.slots))
    && (rule.ForkedFromSlot? ==> rule.firstSlot <= rule.forkSlot && 1 <= |rule.forkMarker| <= 256)
    && (rule.SkipsSlots? ==> Increasing(rule.skipIndices))
    && (rule.BrokenPrevHash? ==>
          rule.firstSlot <= rule.breakAtSlot && |rule.wrongHash| == 64 && AllHex(rule.wrongHash))
  }

  ghost predicate PeerOk(peer: PeerDecl, startSlot: Option<u64>) {
    && (|| peer.chainSyncFixture.Some?
        || peer.blockFetchFixture.Some?
        || (peer.productionRule.Some? && !peer.productionRule.value.NoProduction?))
    && (peer.productionRule.Some? ==> RuleOk(peer.productionRule.value, startSlot))
  }

  ghost predicate UniqueIds(peers: seq<PeerDecl>) {
    forall i, j :: 0 <= i < j < |peers| ==> peers[i].id != peers[j].id
  }

  /** The entry at `i` is the first that does not exceed the one before it. */
  ghost predicate FirstBad(list: seq<u64>, i: nat) {
    1 <= i < |list| && list[i] <= list[i - 1] && Increasing(list[..i])
  }

  /** What each report about a rule means. */
  ghost predicate Faulty(e: DeclError, rule: ProductionRule, startSlot: Option<u64>) {
    match e
    case ZeroInterval => rule.Periodic() && rule.interval == 0
    case FirstBeforeStart(first, start) =>
      rule.Periodic() && startSlot == Some(start) && first == rule.firstSlot && first < start
    case EmptySlotList => rule.AtSlots? && rule.slots == []
    case SlotsNotIncreasing(i) => rule.AtSlots? && FirstBad(rule.slots, i)
    case ForkBeforeFirst(fork, first) =>
      rule.ForkedFromSlot? && fork == rule.forkSlot && first == rule.firstSlot && fork < first
    case EmptyMarker => rule.ForkedFromSlot? && rule.forkMarker == []
    case LongMarker(n) => rule.ForkedFromSlot? && n == |rule.forkMarker| && n > 256
    case SkipsNotIncreasing(i) => rule.SkipsSlots? && FirstBad(rule.skipIndices, i)
    case BreakBeforeFirst(at, first) =>
      rule.BrokenPrevHash? && at == rule.breakAtSlot && first == rule.firstSlot && at < first
    case BadWrongHash => rule.BrokenPrevHash? && !(|rule.wrongHash| == 64 && AllHex(rule.wrongHash))
    case DuplicatePeerId(_) => false
    case NoContentSource(_) => false
  }

  /** Reports the first neighbours out of order, as the two validation loops do. */
  method FirstDisorder(list: seq<u64>) returns (at: Option<nat>)
    ensures at.None? <==> Increasing(list)
    ensures at.Some? ==> 1 <= at.value < |list| && list[at.value] <= list[at.value - 1]
    ensures at.Some? ==> Increasing(list[..at.value])
    ensures forall j: nat :: FirstBad(list, j) <==> at == Some(j)
  {
    at := None;
    var i := 1;
    while i < |list|
      invariant i >= 1
      invariant forall p, q :: 0 <= p < q < i && q < |list| ==> list[p] < list[q]
    {
      if list[i] <= list[i - 1] {
        return Some(i);
      }
      i := i + 1;
    }
  }

  method HasNonHex(s: Str) returns (found: bool)
    ensures found <==> !AllHex(s)
  {
    found := false;
    for i := 0 to |s|
      invariant !found ==> forall j :: 0 <= j < i ==> IsHexDigit(s[j])
      invariant found ==> !AllHex(s)
    {
      if !IsHexDigit(s[i]) {
        found := true;
      }
    }
  }

  /** The rule part of the check: one `match`, collecting every problem of the rule. */
  method CheckRule(rule: ProductionRule, startSlot: Option<u64>) returns (errors: seq<DeclError>)
    ensures errors == [] <==> RuleOk(rule, startSlot)
    ensures forall e :: e in errors <==> Faulty(e, rule, startSlot)
  {
    errors := [];
    if rule.Periodic() && rule.interval == 0 {
      errors := errors + [ZeroInterval];
    }
    match rule {
      case NoProduction =>
      case EveryNSlots(_, _) =>
      case AtSlots(slots) =>
        if slots == [] {
          errors := errors + [EmptySlotList];
        } else {
          var at := FirstDisorder(slots);
          if at.Some? { errors := errors + [SlotsNotIncreasing(at.value)]; }
        }
      case ForkedFromSlot(firstSlot, _, forkSlot, forkMarker) =>
        if forkSlot < firstSlot { errors := errors + [ForkBeforeFirst(forkSlot, firstSlot)]; }
        if forkMarker == [] {
          errors := errors + [EmptyMarker];
        } else if |forkMarker| > 256 {
          errors := errors + [LongMarker(|forkMarker|)];
        }
      case SkipsSlots(_, _, skipIndices) =>
        var at := FirstDisorder(skipIndices);
        if at.Some? { errors := errors + [SkipsNotIncreasing(at.value)]; }
      case BrokenPrevHash(firstSlot, _, breakAtSlot, wrongHash) =>
        if breakAtSlot < firstSlot { errors := errors + [BreakBeforeFirst(breakAtSlot, firstSlot)]; }
        var nonHex := HasNonHex(wrongHash);
        if |wrongHash| != 64 || nonHex { errors := errors + [BadWrongHash]; }
    }
    if rule.Periodic() && startSlot.Some? && rule.firstSlot < startSlot.value {
      errors := errors + [FirstBeforeStart(rule.firstSlot, startSlot.value)];
    }
  }

  /** What each report about the `n`-th peer means. */
  ghost predicate PeerFaulty(e: DeclError, peers: seq<PeerDecl>, n: nat, startSlot: Option<u64>)
    requires n < |peers|
  {
    var peer := peers[n];
    match e
    case DuplicatePeerId(id) => id == peer.id && exists i :: 0 <= i < n && peers[i].id == id
    case NoContentSource(id) =>
      && id == peer.id && peer.chainSyncFixture.None? && peer.blockFetchFixture.None?
      && (peer.productionRule.None? || peer.productionRule == Some(NoProduction))
    case _ => peer.productionRule.Some? && Faulty(e, peer.productionRule.value, startSlot)
  }

  method ValidateNetwork(peers: seq<PeerDecl>, startSlot: Option<u64>) returns (errors: seq<DeclError>)
    ensures errors == [] <==>
      UniqueIds(peers) && forall i :: 0 <= i < |peers| ==> PeerOk(peers[i], startSlot)
    ensures forall e :: e in errors <==> exists i :: 0 <= i < |peers| && PeerFaulty(e, peers, i, startSlot)
  {
    hide RuleOk, Faulty;
    errors := [];
    var seen: set<Str> := {};
    for n := 0 to |peers|
      invariant forall id :: id in seen <==> exists i :: 0 <= i < n && peers[i].id == id
      invariant errors == [] <==>
        UniqueIds(peers[..n]) && forall i :: 0 <= i < n ==> PeerOk(peers[i], startSlot)
      invariant forall e :: e in errors <==> exists i :: 0 <= i < n && PeerFaulty(e, peers, i, startSlot)
    {
      ghost var before := errors;
      var peer := peers[n];
      assert UniqueIds(peers[..n + 1]) <==> UniqueIds(peers[..n]) && peer.id !in seen by {
        UniqueExtend(peers, n);
      }
      if peer.id in seen { errors := errors + [DuplicatePeerId(peer.id)]; }
      seen := seen + {peer.id};
      if peer.chainSyncFixture.None? && peer.blockFetchFixture.None?
         && (peer.productionRule.None? || peer.productionRule.value.NoProduction?) {
        errors := errors + [NoContentSource(peer.id)];
      }
      if peer.productionRule.Some? {
        var more := CheckRule(peer.productionRule.value, startSlot);
        errors := errors + more;
        NetworkErrorsOnly(peer.productionRule.value, startSlot);
      }
      assert forall e :: e in errors <==> e in before || PeerFaulty(e, peers, n, startSlot);
    }
    assert peers[..|peers|] == peers;
  }

  lemma NetworkErrorsOnly(rule: ProductionRule, startSlot: Option<u64>)
    ensures forall e :: Faulty(e, rule, startSlot) ==> !e.DuplicatePeerId? && !e.NoContentSource?
  {
  }

  lemma UniqueExtend(peers: seq<PeerDecl>, n: nat)
    requires n < |peers|
    ensures UniqueIds(peers[..n + 1]) <==>
      UniqueIds(peers[..n]) && !exists i :: 0 <= i < n && peers[i].id == peers[n].id
  {
    var short, long := peers[..n], peers[..n + 1];
    assert forall i :: 0 <= i < n ==> short[i] == long[i] == peers[i];
    assert long[n] == peers[n];
  }

  /** A validated wrong hash decodes, and to 32 bytes. */
  lemma ValidatedWrongHash(rule: ProductionRule, startSlot: Option<u64>)
    requires rule.BrokenPrevHash? && RuleOk(rule, startSlot)
    ensures DecodeHex(rule.wrongHash).Some? && |DecodeHex(rule.wrongHash).value| == 32
  {
    HexTextDecodes(rule.wrongHash);
  }

  /** Letter case is not checked. */
  lemma UpperCaseAccepted(firstSlot: u64, interval: u64, breakAtSlot: u64)
    requires interval > 0 && firstSlot <= breakAtSlot
    ensures var text: Str := seq(64, _ => 0x41);
      RuleOk(BrokenPrevHash(firstSlot, interval, breakAtSlot, text), None) && !LowerHex(text)
  {
    var text: Str := seq(64, _ => 0x41);
    assert !IsLowerHex(text[0]) && text[0] == 0x41;
  }

  lemma {:induction false} HexTextDecodes(s: Str)
    requires |s| % 2 == 0 && AllHex(s)
    ensures DecodeHex(s).Some?
  {
    if s != [] {
      assert IsHexDigit(s[0]) && IsHexDigit(s[1]);
      forall i | 0 <= i < |s[2..]| ensures IsHexDigit(s[2..][i]) {
        assert IsHexDigit(s[i + 2]);
      }
      HexTextDecodes(s[2..]);
    }
  }
}
