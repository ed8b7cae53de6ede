/** Production rules and the slots at which they fire.

    `FiringSlots` is the reference: try every slot of `(after, upTo]` in turn. The
    harness computes the same list with a ceiling division and a saturating loop. */
module Schedule {
  import opened Text
  import opened Ordering

  datatype ProductionRule =
    | NoProduction
    | EveryNSlots(firstSlot: u64, interval: u64)
    | AtSlots(slots: seq<u64>)
    | ForkedFromSlot(firstSlot: u64, interval: u64, forkSlot: u64, forkMarker: Str)
    | SkipsSlots(firstSlot: u64, interval: u64, skipIndices: seq<u64>)
    | BrokenPrevHash(firstSlot: u64, interval: u64, breakAtSlot: u64, wrongHash: Str)
  {
    predicate Periodic() {
      EveryNSlots? || ForkedFromSlot? || SkipsSlots? || BrokenPrevHash?
    }
  }

  // ---- reference ---------------------------------------------------------------

  predicate OnSchedule(firstSlot: u64, interval: u64, s: int) {
    interval > 0 && s >= firstSlot && (s - firstSlot) % interval == 0
  }

  predicate FiresAt(rule: ProductionRule, s: u64) {
    match rule
    case NoProduction => false
    case AtSlots(slots) => s in slots
    case SkipsSlots(firstSlot, interval, skip) =>
      OnSchedule(firstSlot, interval, s) && (s - firstSlot) / interval !in skip
    case _ => OnSchedule(rule.firstSlot, rule.interval, s)
  }

  /** Every slot of `(after, upTo]` at which the rule fires, in order. */
  function FiringSlots(rule: ProductionRule, after: int, upTo: int): seq<u64>
    requires -1 <= after && upTo <= U64_MAX
    decreases upTo - after
  {
    if upTo <= after then []
    else FiringSlots(rule, after, upTo - 1) + (if FiresAt(rule, upTo) then [upTo] else [])
  }

  predicate Increasing(s: seq<u64>) {
    forall i, j :: 0 <= i < j < |s| ==> s[i] < s[j]
  }

  lemma {:induction false} FiringExact(rule: ProductionRule, after: int, upTo: int)
    requires -1 <= after && upTo <= U64_MAX
    ensures forall x :: x in FiringSlots(rule, after, upTo) <==> after < x <= upTo && FiresAt(rule, x)
    ensures Increasing(FiringSlots(rule, after, upTo))
    decreases upTo - after
  {
    if upTo > after {
      FiringExact(rule, after, upTo - 1);
      var before := FiringSlots(rule, after, upTo - 1);
      assert forall i :: 0 <= i < |before| ==> before[i] in before;
    }
  }

  /** Time may be cut anywhere. */
  lemma {:induction false} FiringSplit(rule: ProductionRule, a: int, b: int, c: int)
    requires -1 <= a <= b <= c <= U64_MAX
    ensures FiringSlots(rule, a, b) + FiringSlots(rule, b, c) == FiringSlots(rule, a, c)
    decreases c
  {
    if b < c {
      FiringSplit(rule, a, b, c - 1);
    }
  }

  lemma {:induction false} FiringGap(rule: ProductionRule, after: int, a: int, b: int)
    requires -1 <= after <= a <= b <= U64_MAX
    requires forall x: u64 :: a < x <= b ==> !FiresAt(rule, x)
    ensures FiringSlots(rule, after, a) == FiringSlots(rule, after, b)
    decreases b
  {
    if a < b {
      FiringGap(rule, after, a, b - 1);
    }
  }

  /** An increasing list with the right members is the list. */
  lemma FiringUnique(rule: ProductionRule, after: int, upTo: int, slots: seq<u64>)
    requires -1 <= after && upTo <= U64_MAX
    requires Increasing(slots)
    requires forall x :: x in slots <==> after < x <= upTo && FiresAt(rule, x)
    ensures slots == FiringSlots(rule, after, upTo)
  {
    FiringExact(rule, after, upTo);
    var lt := (x: u64, y: u64) => x < y;
    SortedUnique(slots, FiringSlots(rule, after, upTo), lt);
  }

  // ---- the harness's computation -----------------------------------------------

  function CeilSteps(firstSlot: u64, interval: u64, from: u64): nat
    requires interval > 0 && firstSlot < from
  {
    (from - firstSlot + interval - 1) / interval
  }

  function StartSlot(firstSlot: u64, interval: u64, from: u64): nat
    requires interval > 0
  {
    if firstSlot >= from then firstSlot
    else firstSlot + CeilSteps(firstSlot, interval, from) * interval
  }

  /** No intermediate value leaves 64 bits and the loop ends. */
  predicate RangeFits(firstSlot: u64, interval: u64, from: u64, to: u64) {
    interval == 0 || from > to ||
    (&& to < U64_MAX
     && (firstSlot < from ==> from - firstSlot + interval - 1 <= U64_MAX)
     && StartSlot(firstSlot, interval, from) <= U64_MAX)
  }

  /** The ceiling division finds the first scheduled slot at or after `from`. */
  lemma StartIsFirstScheduled(firstSlot: u64, interval: u64, from: u64)
    requires interval > 0
    ensures var start := StartSlot(firstSlot, interval, from);
      && from <= start
      && (firstSlot < from ==> start < from + interval)
      && OnSchedule(firstSlot, interval, start)
      && forall x: int :: from <= x < start ==> !OnSchedule(firstSlot, interval, x)
  {
    if firstSlot < from {
      var d, q := from - firstSlot, CeilSteps(firstSlot, interval, from);
      assert q * interval <= d + interval - 1 < q * interval + interval;
      MultipleRemainder(q, interval);
      var start := StartSlot(firstSlot, interval, from);
      forall x: int | from <= x < start ensures !OnSchedule(firstSlot, interval, x) {
        ScheduleGap(firstSlot, interval, start, x);
      }
    }
  }

  lemma MultipleRemainder(q: int, interval: nat)
    requires interval > 0
    ensures (q * interval) % interval == 0 && (q * interval) / interval == q
  {
    var a := q * interval;
    var d := q - a / interval;
    assert interval * d == a % interval by {
      assert interval * d == interval * q - interval * (a / interval);
    }
    assert d >= 1 ==> interval * d >= interval;
    assert d <= -1 ==> interval * d <= -(interval as int);
  }

  /** Two multiples of `interval` that differ by less than `interval` are equal. */
  lemma MultiplesApart(p: int, q: int, interval: nat)
    requires interval > 0 && p != q
    ensures p * interval + interval <= q * interval || q * interval + interval <= p * interval
  {
    var d := if p < q then q - p else p - q;
    assert d * interval == (d - 1) * interval + interval && (d - 1) * interval >= 0;
    assert q * interval - p * interval == (q - p) * interval;
  }

  /** Nothing is scheduled strictly between two neighbours. */
  lemma ScheduleGap(firstSlot: u64, interval: u64, s: int, x: int)
    requires OnSchedule(firstSlot, interval, s)
    ensures OnSchedule(firstSlot, interval, s + interval)
    ensures x != s && s - interval < x < s + interval ==> !OnSchedule(firstSlot, interval, x)
  {
    var p := (s - firstSlot) / interval;
    assert s - firstSlot == p * interval;
    MultipleRemainder(p + 1, interval);
    assert (p + 1) * interval == s + interval - firstSlot;
    if OnSchedule(firstSlot, interval, x) && x != s {
      var q := (x - firstSlot) / interval;
      assert x - firstSlot == q * interval;
      MultiplesApart(p, q, interval);
    }
  }

  /** The bound the validator's users are expected to respect is enough. */
  lemma BoundSuffices(firstSlot: u64, interval: u64, from: u64, to: u64)
    requires to + interval <= U64_MAX
    ensures RangeFits(firstSlot, interval, from, to)
  {
    if interval > 0 && from <= to && firstSlot < from {
      StartIsFirstScheduled(firstSlot, interval, from);
    }
  }

  function SaturatingAdd(a: u64, b: u64): u64 {
    if a + b > U64_MAX then U64_MAX else a + b
  }

  /** The loop variable after `k` rounds. */
  function LoopSlot(start: u64, interval: u64, k: nat): u64 {
    if k == 0 then start else SaturatingAdd(LoopSlot(start, interval, k - 1), interval)
  }

  lemma {:induction false} LoopSlotAtLeast(start: u64, interval: u64, k: nat)
    requires interval > 0
    ensures LoopSlot(start, interval, k) == U64_MAX || LoopSlot(start, interval, k) >= start + k
  {
    if k > 0 {
      LoopSlotAtLeast(start, interval, k - 1);
    }
  }

  /** The loop condition `s <= to` eventually fails exactly when `to` is not the
      largest 64-bit number: the saturating step can never pass that one. */
  lemma LoopExitsIff(start: u64, interval: u64, to: u64)
    requires interval > 0
    ensures (exists k: nat :: LoopSlot(start, interval, k) > to) <==> to < U64_MAX
  {
    if to < U64_MAX {
      LoopSlotAtLeast(start, interval, to + 1);
      assert LoopSlot(start, interval, to + 1) > to;
    }
  }

  /** One round of the loop moves from one scheduled slot to the next. */
  lemma NextScheduled(rule: ProductionRule, from: u64, to: u64, s: u64)
    requires rule.EveryNSlots? && OnSchedule(rule.firstSlot, rule.interval, s)
    requires from <= s <= to < U64_MAX
    ensures var next := SaturatingAdd(s, rule.interval);
      && s < next
      && (next <= to ==> OnSchedule(rule.firstSlot, rule.interval, next))
      && FiringSlots(rule, from - 1, if next <= to then next - 1 else to)
         == FiringSlots(rule, from - 1, s - 1) + [s]
  {
    var next := SaturatingAdd(s, rule.interval);
    ScheduleGap(rule.firstSlot, rule.interval, s, s);
    forall x: u64 | s < x <= to && x < next ensures !FiresAt(rule, x) {
      ScheduleGap(rule.firstSlot, rule.interval, s, x);
    }
    FiringGap(rule, from - 1, s, if next <= to then next - 1 else to);
  }

  method EveryNSlotsRange(firstSlot: u64, interval: u64, from: u64, to: u64) returns (slots: seq<u64>)
    requires RangeFits(firstSlot, interval, from, to)
    ensures slots == FiringSlots(EveryNSlots(firstSlot, interval), from - 1, to)
  {
    ghost var rule := EveryNSlots(firstSlot, interval);
    if interval == 0 || from > to {
      FiringUnique(rule, from - 1, to, []);
      return [];
    }
    StartIsFirstScheduled(firstSlot, interval, from);
    var start: u64 := StartSlot(firstSlot, interval, from);
    slots := [];
    var s := start;
    FiringGap(rule, from - 1, from - 1, if s <= to then s - 1 else to);
    assert FiringSlots(rule, from - 1, from - 1) == [];
    while s <= to
      invariant from <= s
      invariant s <= to ==> OnSchedule(firstSlot, interval, s)
      invariant slots == FiringSlots(rule, from - 1, if s <= to then s - 1 else to)
      decreases U64_MAX - s
    {
      NextScheduled(rule, from, to, s);
      slots := slots + [s];
      s := SaturatingAdd(s, interval);
    }
  }

  /** The first slot at which a plain rule fires once the clock has started: the first
      scheduled one strictly after the start. The rule's own first slot is met exactly when
      the clock starts below it; starting on or past it loses that slot, not the rest. */
  lemma FirstFiring(firstSlot: u64, interval: u64, start: int, upTo: int)
    requires interval > 0 && -1 <= start < U64_MAX && upTo <= U64_MAX
    ensures var slots := FiringSlots(EveryNSlots(firstSlot, interval), start, upTo);
      var first := StartSlot(firstSlot, interval, start + 1);
      && (slots != [] <==> first <= upTo)
      && (slots != [] ==> slots[0] == first)
      && (firstSlot in slots <==> start < firstSlot <= upTo)
  {
    var rule := EveryNSlots(firstSlot, interval);
    OwnFirst(firstSlot, interval);
    hide FiringSlots, StartSlot, OnSchedule;
    var slots, first := FiringSlots(rule, start, upTo), StartSlot(firstSlot, interval, start + 1);
    FiringExact(rule, start, upTo);
    StartIsFirstScheduled(firstSlot, interval, start + 1);
    if first <= upTo {
      assert first in slots;
      var k :| 0 <= k < |slots| && slots[k] == first;
      assert slots[0] in slots;
    }
    if slots != [] { assert slots[0] in slots; }
  }

  lemma OwnFirst(firstSlot: u64, interval: u64)
    requires interval > 0
    ensures OnSchedule(firstSlot, interval, firstSlot)
    ensures forall x: int :: OnSchedule(firstSlot, interval, x) ==> x >= firstSlot
  {
  }

  /** The two filters applied to slot lists. */
  datatype SlotFilter =
    | Within(from: u64, to: u64)
    | Unskipped(firstSlot: u64, interval: u64, skip: seq<u64>)
  {
    predicate Passes(s: u64) {
      match this
      case Within(from, to) => from <= s <= to
      case Unskipped(firstSlot, interval, skip) =>
        interval > 0 && s >= firstSlot && (s - firstSlot) / interval !in skip
    }
  }

  /** `filter` on a list of slots. */
  function Keep(slots: seq<u64>, p: SlotFilter): (r: seq<u64>)
    ensures forall x :: x in r <==> x in slots && p.Passes(x)
  {
    if slots == [] then []
    else
      var last := slots[|slots| - 1];
      assert slots == slots[..|slots| - 1] + [last];
      Keep(slots[..|slots| - 1], p) + if p.Passes(last) then [last] else []
  }

  lemma KeepLast(slots: seq<u64>, last: u64, p: SlotFilter)
    ensures Keep(slots + [last], p) == Keep(slots, p) + if p.Passes(last) then [last] else []
  {
    assert (slots + [last])[..|slots|] == slots;
  }

  lemma {:induction false} KeepIncreasing(slots: seq<u64>, p: SlotFilter)
    requires Increasing(slots)
    ensures Increasing(Keep(slots, p))
  {
    if slots != [] {
      var init := slots[..|slots| - 1];
      KeepIncreasing(init, p);
      var kept := Keep(init, p);
      forall i | 0 <= i < |kept| ensures kept[i] < slots[|slots| - 1] {
        assert kept[i] in kept;
      }
    }
  }

  predicate Fits(rule: ProductionRule, from: u64, to: u64) {
    rule.Periodic() ==> RangeFits(rule.firstSlot, rule.interval, from, to)
  }

  /** A forked or broken rule keeps the timing of the plain one. */
  lemma {:induction false} SameTiming(rule: ProductionRule, after: int, upTo: int)
    requires rule.Periodic() && !rule.SkipsSlots? && -1 <= after && upTo <= U64_MAX
    ensures FiringSlots(rule, after, upTo)
         == FiringSlots(EveryNSlots(rule.firstSlot, rule.interval), after, upTo)
    decreases upTo - after
  {
    if upTo > after {
      SameTiming(rule, after, upTo - 1);
    }
  }

  /** A sparse rule filters the plain one. */
  lemma {:induction false} SparseTiming(rule: ProductionRule, after: int, upTo: int)
    requires rule.SkipsSlots? && -1 <= after && upTo <= U64_MAX
    ensures FiringSlots(rule, after, upTo)
         == Keep(FiringSlots(EveryNSlots(rule.firstSlot, rule.interval), after, upTo),
                 Unskipped(rule.firstSlot, rule.interval, rule.skipIndices))
    decreases upTo - after
  {
    if upTo > after {
      SparseTiming(rule, after, upTo - 1);
      var plain := EveryNSlots(rule.firstSlot, rule.interval);
      var before := FiringSlots(plain, after, upTo - 1);
      var p := Unskipped(rule.firstSlot, rule.interval, rule.skipIndices);
      KeepLast(before, upTo, p);
      SkipAt(rule, upTo);
      hide FiresAt;
      if FiresAt(plain, upTo) {
        assert FiringSlots(plain, after, upTo) == before + [upTo];
      } else {
        assert FiringSlots(plain, after, upTo) == before;
      }
    }
  }

  lemma SkipAt(rule: ProductionRule, s: u64)
    requires rule.SkipsSlots?
    ensures var p := Unskipped(rule.firstSlot, rule.interval, rule.skipIndices);
      FiresAt(rule, s) <==> FiresAt(EveryNSlots(rule.firstSlot, rule.interval), s) && p.Passes(s)
  {
  }

  /** A sorted list is cut to the range. */
  lemma ListedTiming(rule: ProductionRule, from: u64, to: u64)
    requires rule.AtSlots? && Increasing(rule.slots)
    ensures Keep(rule.slots, Within(from, to)) == FiringSlots(rule, from - 1, to)
  {
    KeepIncreasing(rule.slots, Within(from, to));
    FiringUnique(rule, from - 1, to, Keep(rule.slots, Within(from, to)));
  }

  /** `slots_in_range` on the closed interval. An unsorted `at_slots` list, which
      validation rejects, would be reported in its own order. */
  method SlotsInRange(rule: ProductionRule, from: u64, to: u64) returns (slots: seq<u64>)
    requires Fits(rule, from, to)
    ensures !rule.AtSlots? || Increasing(rule.slots) ==> slots == FiringSlots(rule, from - 1, to)
    ensures rule.AtSlots? ==> forall x :: x in slots <==> from <= x <= to && x in rule.slots
  {
    if from > to { return []; }
    match rule {
      case NoProduction =>
        slots := [];
        FiringUnique(rule, from - 1, to, slots);
      case AtSlots(listed) =>
        slots := Keep(listed, Within(from, to));
        if Increasing(listed) { ListedTiming(rule, from, to); }
      case SkipsSlots(firstSlot, interval, skip) =>
        var all := EveryNSlotsRange(firstSlot, interval, from, to);
        slots := Keep(all, Unskipped(firstSlot, interval, skip));
        SparseTiming(rule, from - 1, to);
      case _ =>
        slots := EveryNSlotsRange(rule.firstSlot, rule.interval, from, to);
        SameTiming(rule, from - 1, to);
    }
  }

  /** The k-th scheduled slot of a sparse rule is dropped exactly when `k` is listed,
      wherever the queried range starts. */
  lemma SkipsByGlobalIndex(rule: ProductionRule, after: int, upTo: int, k: nat)
    requires rule.SkipsSlots? && rule.interval > 0 && -1 <= after && upTo <= U64_MAX
    requires after < rule.firstSlot + k * rule.interval <= upTo
    ensures rule.firstSlot + k * rule.interval in FiringSlots(rule, after, upTo) <==> k !in rule.skipIndices
  {
    FiringExact(rule, after, upTo);
    MultipleRemainder(k, rule.interval);
    assert (k * rule.interval) / rule.interval == k;
  }
}
