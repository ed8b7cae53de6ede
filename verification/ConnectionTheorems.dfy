/** The runner's tables in every run, what the validator's verdict says about runs, and what
    it does not say about repeated steps. */
module ConnectionTheorems {
  import opened Text
  import opened Connections

  // ---- what each step does with its names ---------------------------------------------------------------

  /** A written name is used as it is; an absent one is `default`. */
  ghost predicate NameIs(written: Option<Str>, name: Str) {
    match written
    case Some(n) => name == n
    case None => name == Ascii("default")
  }

  lemma DefaultName()
    ensures Ascii("default") == DEFAULT_NAME
  {
  }

  ghost predicate OpensOnly(t: Tables, t': Tables, slot: Slot) {
    && t'.live == t.live[slot := t.next] && t'.next == t.next + 1 && t'.closed == t.closed
    && t'.replaced == t.replaced + (if slot in t.live then {t.live[slot]} else {})
  }

  ghost predicate ClosesOnly(t: Tables, t': Tables, slot: Slot) {
    && t'.live == t.live - {slot} && t'.next == t.next && t'.replaced == t.replaced
    && t'.closed == t.closed + (if slot in t.live then {t.live[slot]} else {})
  }

  predicate UsesClient(k: Kind) {
    k.Handshake? || k.ChainSync? || k.BlockFetch? || k.LeiosNotify? || k.LeiosFetch?
  }

  predicate UsesServer(k: Kind) {
    k.ServeChainSync? || k.ServeBlockFetch? || k.ServeLeiosNotify? || k.ServeLeiosFetch?
  }

  predicate UsesNothing(k: Kind) {
    k.Sleep? || k.EmitPeerEvent? || k.AdvanceToSlot? || k.TickSlots? || k.PeerExtendsChain? || k.Nested?
  }

  /** Kind by kind: which table and which written name a step opens, closes and looks up. */
  lemma StepMeaning(t: Tables, a: Action, asName: Str, onName: Str)
    requires NameIs(a.asName, asName) && NameIs(a.onName, onName)
    ensures a.kind.Connect? ==> OpensOnly(t, Apply(t, a), Client(asName)) && !Misses(t, a)
    ensures a.kind.Listen? ==> OpensOnly(t, Apply(t, a), Listener(asName)) && !Misses(t, a)
    ensures a.kind.AcceptHandshake? ==>
      OpensOnly(t, Apply(t, a), Server(asName)) && (Misses(t, a) <==> Listener(onName) !in t.live)
    ensures a.kind.Disconnect? ==>
      ClosesOnly(t, Apply(t, a), Client(onName)) && (Misses(t, a) <==> Client(onName) !in t.live)
    ensures a.kind.CloseListener? ==> ClosesOnly(t, Apply(t, a), Listener(onName)) && !Misses(t, a)
    ensures UsesClient(a.kind) ==> Apply(t, a) == t && (Misses(t, a) <==> Client(onName) !in t.live)
    ensures UsesServer(a.kind) ==> Apply(t, a) == t && (Misses(t, a) <==> Server(onName) !in t.live)
    ensures UsesNothing(a.kind) || a.kind.QueryTip? ==> Apply(t, a) == t && !Misses(t, a)
  {
    DefaultName();
    assert asName == NameOr(a.asName) && onName == NameOr(a.onName);
    hide NameOr, NameIs;
  }

  /** Kind by kind: what the validator reports about a step and what it remembers. */
  lemma ReportMeaning(names: set<Slot>, i: nat, a: Action, asName: Str, onName: Str)
    requires NameIs(a.asName, asName) && NameIs(a.onName, onName)
    ensures a.kind.Connect? ==>
      && NamesAfter(names, a) == names + {Client(asName)}
      && StepErrors(names, i, a) == if Client(asName) in names then [AlreadyOpen(i, Client(asName))] else []
    ensures a.kind.Listen? ==>
      && NamesAfter(names, a) == names + {Listener(asName)}
      && StepErrors(names, i, a) == if Listener(asName) in names then [AlreadyOpen(i, Listener(asName))] else []
    ensures a.kind.AcceptHandshake? ==>
      && NamesAfter(names, a) == names + {Server(asName)}
      && StepErrors(names, i, a) ==
           (if Listener(onName) in names then [] else [NotOpen(i, Listener(onName))])
           + (if Server(asName) in names then [AlreadyOpen(i, Server(asName))] else [])
    ensures a.kind.Disconnect? ==>
      && NamesAfter(names, a) == names - {Client(onName)}
      && StepErrors(names, i, a) == if Client(onName) in names then [] else [NotOpen(i, Client(onName))]
    ensures a.kind.CloseListener? ==>
      && NamesAfter(names, a) == names - {Listener(onName)}
      && StepErrors(names, i, a) == if Listener(onName) in names then [] else [NotOpen(i, Listener(onName))]
    ensures UsesClient(a.kind) || a.kind.QueryTip? ==>
      && NamesAfter(names, a) == names
      && StepErrors(names, i, a) == if Client(onName) in names then [] else [NotOpen(i, Client(onName))]
    ensures UsesServer(a.kind) ==>
      && NamesAfter(names, a) == names
      && StepErrors(names, i, a) == if Server(onName) in names then [] else [NotOpen(i, Server(onName))]
    ensures UsesNothing(a.kind) ==> NamesAfter(names, a) == names && StepErrors(names, i, a) == []
  {
    DefaultName();
    assert asName == NameOr(a.asName) && onName == NameOr(a.onName);
    hide NameOr, NameIs;
  }

  /** Two connections are in order exactly under different names, and are then both kept. */
  lemma TwoConnections(a: Str, b: Str)
    ensures var acts := [Action(Connect, Some(a), None), Action(Connect, Some(b), None)];
      && (ErrorsUpTo(acts, 2) == [] <==> a != b)
      && var (t, v) := RunFrom(NOTHING_OPEN, acts, [Succeeds, Succeeds], 0);
        && v == Completed && t.live.Keys == {Client(a), Client(b)}
        && (a != b <==> t.replaced == {})
  {
    var acts := [Action(Connect, Some(a), None), Action(Connect, Some(b), None)];
    var t1 := Apply(NOTHING_OPEN, acts[0]);
    var t2 := Apply(t1, acts[1]);
    assert NamesUpTo(acts, 0) == {} && NamesUpTo(acts, 1) == {Client(a)};
    assert ErrorsUpTo(acts, 1) == ErrorsUpTo(acts, 0) + StepErrors({}, 0, acts[0]);
    assert ErrorsUpTo(acts, 2) == ErrorsUpTo(acts, 1) + StepErrors({Client(a)}, 1, acts[1]);
    assert RunFrom(t2, acts, [Succeeds, Succeeds], 2) == (t2, Completed);
    assert RunFrom(t1, acts, [Succeeds, Succeeds], 1) == (t2, Completed);
    if a == b { assert 0 in t2.replaced; }
  }

  /** The report on a list is the report on each step against the names then open. */
  lemma {:induction false} ErrorsExactly(actions: seq<Action>, n: nat, e: NameError)
    requires n <= |actions|
    ensures e in ErrorsUpTo(actions, n) <==>
      e.index < n && e in StepErrors(NamesUpTo(actions, e.index), e.index, actions[e.index])
  {
    hide NamesUpTo;
    if n > 0 { ErrorsExactly(actions, n - 1, e); }
  }

  /** Where a run stops: at its first step that fails or misses its name, with everything
      closed; or past the last step. */
  lemma {:induction false} RunStops(actions: seq<Action>, lucks: seq<Luck>, i: nat)
    requires |lucks| == |actions| && i <= |actions|
    ensures var (t, v) := RunFrom(TablesUpTo(actions, i), actions, lucks, i);
      match v
      case Completed => t == TablesUpTo(actions, |actions|) && GoesWell(actions, lucks, i, |actions|)
      case Missing(k, slot) =>
        && i <= k < |actions| && GoesWell(actions, lucks, i, k) && lucks[k] != FailsBefore
        && Misses(TablesUpTo(actions, k), actions[k]) && slot !in TablesUpTo(actions, k).live
        && t == Cleanup(TablesUpTo(actions, k))
      case StepFailed(k) =>
        && i <= k < |actions| && GoesWell(actions, lucks, i, k) && lucks[k] != Succeeds
        && (lucks[k] == FailsBefore ==> t == Cleanup(TablesUpTo(actions, k)))
        && (lucks[k] == FailsAfter ==>
              t == Cleanup(TablesUpTo(actions, k + 1)) && !Misses(TablesUpTo(actions, k), actions[k]))
    decreases |actions| - i
  {
    hide Apply, Cleanup, LooksUp;
    if i < |actions| && lucks[i] == Succeeds && !Misses(TablesUpTo(actions, i), actions[i]) {
      assert TablesUpTo(actions, i + 1) == Apply(TablesUpTo(actions, i), actions[i]);
      RunStops(actions, lucks, i + 1);
    }
  }

  ghost predicate GoesWell(actions: seq<Action>, lucks: seq<Luck>, i: nat, n: nat)
    requires |lucks| == |actions| && n <= |actions|
  {
    forall k :: i <= k < n ==> lucks[k] == Succeeds && !Misses(TablesUpTo(actions, k), actions[k])
  }

  // ---- conservation -----------------------------------------------------------------------------------

  /** Every handle ever given out is in exactly one place: live under exactly one name,
      closed, or replaced. */
  ghost predicate Accounted(t: Tables) {
    && (forall s, s' :: s in t.live && s' in t.live && s != s' ==> t.live[s] != t.live[s'])
    && (forall s :: s in t.live ==> t.live[s] !in t.closed && t.live[s] !in t.replaced)
    && t.closed !! t.replaced
    && forall id :: (id in t.live.Values || id in t.closed || id in t.replaced) <==> 0 <= id < t.next
  }

  lemma ApplyAccounted(t: Tables, a: Action)
    requires Accounted(t)
    ensures Accounted(Apply(t, a))
  {
    var t' := Apply(t, a);
    if Opens(a).Some? {
      var slot := Opens(a).value;
      forall id ensures id in t'.live.Values <==> id == t.next || exists s :: s in t.live && s != slot && t.live[s] == id {
        assert t'.live[slot] == t.next;
        if s :| s in t.live && s != slot && t.live[s] == id { assert t'.live[s] == id; }
      }
    } else if Closes(a).Some? && Closes(a).value in t.live {
      var slot := Closes(a).value;
      forall id ensures id in t'.live.Values <==> exists s :: s in t.live && s != slot && t.live[s] == id {
        if s :| s in t.live && s != slot && t.live[s] == id { assert t'.live[s] == id; }
      }
    }
  }

  lemma CleanupAccounted(t: Tables)
    requires Accounted(t)
    ensures Accounted(Cleanup(t))
  {
  }

  /** Nothing is ever lost or held twice, whatever the scenario and however it fails; a run
      that fails leaves nothing open. */
  lemma {:induction false} RunAccounted(t: Tables, actions: seq<Action>, lucks: seq<Luck>, i: nat)
    requires Accounted(t) && |lucks| == |actions| && i <= |actions|
    ensures var (t', v) := RunFrom(t, actions, lucks, i);
      Accounted(t') && (v != Completed ==> t'.live == map[])
    decreases |actions| - i
  {
    hide Accounted, Apply;
    if i < |actions| {
      ApplyAccounted(t, actions[i]);
      CleanupAccounted(t);
      CleanupAccounted(Apply(t, actions[i]));
      if lucks[i] == Succeeds && !Misses(t, actions[i]) {
        RunAccounted(Apply(t, actions[i]), actions, lucks, i + 1);
      }
    }
  }

  // ---- name failures of a run -------------------------------------------------------------------------

  /** A run went wrong on names: it stopped at a missing one or overwrote a live entry. */
  predicate NameFailure(result: (Tables, Verdict)) {
    result.1.Missing? || result.0.replaced != {}
  }

  predicate AllSucceed(lucks: seq<Luck>) {
    forall i :: 0 <= i < |lucks| ==> lucks[i] == Succeeds
  }

  predicate Overwrites(t: Tables, a: Action) {
    Opens(a).Some? && Opens(a).value in t.live
  }

  /** A report of the validator that no failure of the runner answers to. */
  predicate IdleComplaint(t: Tables, a: Action) {
    MustBeOpen(a).Some? && MustBeOpen(a).value !in t.live && !Misses(t, a)
  }

  /** The tables after `n` actions when nothing fails. */
  function TablesUpTo(actions: seq<Action>, n: nat): Tables
    requires n <= |actions|
  {
    if n == 0 then NOTHING_OPEN else Apply(TablesUpTo(actions, n - 1), actions[n - 1])
  }

  lemma {:induction false} NamesAreKeys(actions: seq<Action>, n: nat)
    requires n <= |actions|
    ensures TablesUpTo(actions, n).live.Keys == NamesUpTo(actions, n)
  {
    if n > 0 {
      NamesAreKeys(actions, n - 1);
      KeysStep(TablesUpTo(actions, n - 1), actions[n - 1]);
    }
  }

  lemma KeysStep(t: Tables, a: Action)
    ensures Apply(t, a).live.Keys == NamesAfter(t.live.Keys, a)
  {
  }

  lemma ReplacedStep(t: Tables, a: Action)
    ensures Apply(t, a).replaced != {} <==> t.replaced != {} || Overwrites(t, a)
  {
    if Overwrites(t, a) { assert t.live[Opens(a).value] in Apply(t, a).replaced; }
  }

  lemma {:induction false} NameFailureFrom(actions: seq<Action>, lucks: seq<Luck>, i: nat)
    requires |lucks| == |actions| && i <= |actions| && AllSucceed(lucks)
    ensures NameFailure(RunFrom(TablesUpTo(actions, i), actions, lucks, i)) <==>
      || TablesUpTo(actions, i).replaced != {}
      || exists k :: i <= k < |actions|
           && (Misses(TablesUpTo(actions, k), actions[k]) || Overwrites(TablesUpTo(actions, k), actions[k]))
    decreases |actions| - i
  {
    hide Misses, Overwrites, Apply;
    if i < |actions| {
      var t := TablesUpTo(actions, i);
      ReplacedStep(t, actions[i]);
      assert TablesUpTo(actions, i + 1) == Apply(t, actions[i]);
      NameFailureFrom(actions, lucks, i + 1);
    }
  }

  /** The run in which nothing else fails goes wrong on names exactly when some step looks up
      a name that is not open then, or opens one that is. */
  lemma NameFailureIff(actions: seq<Action>, lucks: seq<Luck>)
    requires |lucks| == |actions| && AllSucceed(lucks)
    ensures NameFailure(RunFrom(NOTHING_OPEN, actions, lucks, 0)) <==>
      exists k :: 0 <= k < |actions|
        && (Misses(TablesUpTo(actions, k), actions[k]) || Overwrites(TablesUpTo(actions, k), actions[k]))
  {
    hide Misses, Overwrites, RunFrom, NameFailure;
    NameFailureFrom(actions, lucks, 0);
    assert TablesUpTo(actions, 0) == NOTHING_OPEN;
  }

  // ---- name checks over lists ---------------------------------------------------------------------------

  /** A step is in order on these names: to the validator (`strict`) or to the runner. */
  predicate ActionOk(strict: bool, names: set<Slot>, a: Action) {
    var need := if strict then MustBeOpen(a) else LooksUp(a);
    (need.Some? ==> need.value in names) && (Opens(a).Some? ==> Opens(a).value !in names)
  }

  predicate AllOk(strict: bool, names: set<Slot>, actions: seq<Action>)
    decreases |actions|
  {
    actions == [] || (ActionOk(strict, names, actions[0]) && AllOk(strict, NamesAfter(names, actions[0]), actions[1..]))
  }

  function AllAfter(names: set<Slot>, actions: seq<Action>): set<Slot>
    decreases |actions|
  {
    if actions == [] then names else AllAfter(NamesAfter(names, actions[0]), actions[1..])
  }

  lemma {:induction false} OkByIndex(strict: bool, actions: seq<Action>, i: nat)
    requires i <= |actions|
    ensures AllOk(strict, NamesUpTo(actions, i), actions[i..]) <==>
      forall k :: i <= k < |actions| ==> ActionOk(strict, NamesUpTo(actions, k), actions[k])
    ensures AllAfter(NamesUpTo(actions, i), actions[i..]) == NamesUpTo(actions, |actions|)
    decreases |actions| - i
  {
    hide ActionOk, NamesAfter;
    if i < |actions| {
      OkByIndex(strict, actions, i + 1);
      assert actions[i..][0] == actions[i] && actions[i..][1..] == actions[i + 1..];
      assert NamesUpTo(actions, i + 1) == NamesAfter(NamesUpTo(actions, i), actions[i]);
    }
  }

  lemma {:induction false} ErrorsByIndex(actions: seq<Action>, n: nat)
    requires n <= |actions|
    ensures ErrorsUpTo(actions, n) == [] <==>
      forall k :: 0 <= k < n ==> ActionOk(true, NamesUpTo(actions, k), actions[k])
  {
    hide NamesUpTo, MustBeOpen, Opens, LooksUp;
    if n > 0 { ErrorsByIndex(actions, n - 1); }
  }

  /** The validator's verdict on a list, and the runner's. */
  lemma VerdictsAreChecks(actions: seq<Action>, lucks: seq<Luck>)
    requires |lucks| == |actions| && AllSucceed(lucks)
    ensures ErrorsUpTo(actions, |actions|) == [] <==> AllOk(true, {}, actions)
    ensures !NameFailure(RunFrom(NOTHING_OPEN, actions, lucks, 0)) <==> AllOk(false, {}, actions)
  {
    hide RunFrom, AllOk, NameFailure, Apply, MustBeOpen, LooksUp, Opens, NamesAfter;
    assert actions[0..] == actions && NamesUpTo(actions, 0) == {};
    OkByIndex(true, actions, 0);
    OkByIndex(false, actions, 0);
    ErrorsByIndex(actions, |actions|);
    NameFailureIff(actions, lucks);
    forall k | 0 <= k < |actions|
      ensures ActionOk(false, NamesUpTo(actions, k), actions[k]) <==>
        !Misses(TablesUpTo(actions, k), actions[k]) && !Overwrites(TablesUpTo(actions, k), actions[k])
    {
      NamesAreKeys(actions, k);
    }
  }

  /** On a list that is in order no run fails on a name. */
  lemma {:induction false} CheckedFrom(t: Tables, actions: seq<Action>, lucks: seq<Luck>, i: nat)
    requires |lucks| == |actions| && i <= |actions| && AllOk(false, t.live.Keys, actions[i..])
    ensures var (t', v) := RunFrom(t, actions, lucks, i);
      && !v.Missing? && t'.replaced == t.replaced
      && (v == Completed ==> t'.live.Keys == AllAfter(t.live.Keys, actions[i..]))
    decreases |actions| - i
  {
    hide Apply, NamesAfter;
    if i < |actions| {
      assert actions[i..][0] == actions[i] && actions[i..][1..] == actions[i + 1..];
      OkStep(t, actions[i]);
      if lucks[i] == Succeeds { CheckedFrom(Apply(t, actions[i]), actions, lucks, i + 1); }
    }
  }

  lemma OkStep(t: Tables, a: Action)
    requires ActionOk(false, t.live.Keys, a)
    ensures !Misses(t, a) && Apply(t, a).replaced == t.replaced
    ensures Apply(t, a).live.Keys == NamesAfter(t.live.Keys, a)
  {
  }

  lemma {:induction false} StrictIsEnough(names: set<Slot>, actions: seq<Action>)
    requires AllOk(true, names, actions)
    ensures AllOk(false, names, actions)
    decreases |actions|
  {
    hide NamesAfter;
    if actions != [] {
      StricterNeed(actions[0]);
      StrictIsEnough(NamesAfter(names, actions[0]), actions[1..]);
    }
  }

  // ---- what the validator's verdict means -------------------------------------------------------------------

  /** The validator accepts a list exactly when the run in which nothing else fails neither
      misses nor overwrites a name, and no step queries the tip on an unopened name or
      closes an absent listener. */
  lemma ValidatorExact(actions: seq<Action>, lucks: seq<Luck>)
    requires |lucks| == |actions| && AllSucceed(lucks)
    ensures ErrorsUpTo(actions, |actions|) == [] <==>
      && !NameFailure(RunFrom(NOTHING_OPEN, actions, lucks, 0))
      && forall k :: 0 <= k < |actions| ==> !IdleComplaint(TablesUpTo(actions, k), actions[k])
  {
    hide RunFrom, NameFailure, Apply, NamesAfter, TablesUpTo, NamesUpTo;
    ErrorsByIndex(actions, |actions|);
    NameFailureIff(actions, lucks);
    forall k | 0 <= k < |actions|
      ensures ActionOk(true, NamesUpTo(actions, k), actions[k]) <==>
        && !Misses(TablesUpTo(actions, k), actions[k])
        && !Overwrites(TablesUpTo(actions, k), actions[k])
        && !IdleComplaint(TablesUpTo(actions, k), actions[k])
    {
      NamesAreKeys(actions, k);
      StricterNeed(actions[k]);
    }
  }

  /** The two steps for which the validator asks more than the runner looks up. */
  lemma StricterNeed(a: Action)
    ensures LooksUp(a).Some? ==> MustBeOpen(a) == LooksUp(a)
    ensures MustBeOpen(a) != LooksUp(a) <==> a.kind.QueryTip? || a.kind.CloseListener?
  {
  }

  /** Both happen: each of these scenarios is rejected, and its run completes with nothing
      opened, missed or replaced. */
  lemma FalseAlarms(a: Action)
    requires a.kind.QueryTip? || a.kind.CloseListener?
    ensures ErrorsUpTo([a], 1) != []
    ensures RunFrom(NOTHING_OPEN, [a], [Succeeds], 0) == (NOTHING_OPEN, Completed)
  {
    assert NamesUpTo([a], 0) == {};
    assert RunFrom(NOTHING_OPEN, [a], [Succeeds], 1) == (NOTHING_OPEN, Completed);
  }

  /** Soundness of the validator: no run of a list it accepts fails on a name or overwrites
      an entry, whatever else goes wrong; a failing run closes everything it opened, and a
      completed one leaves exactly the validator's names open. */
  lemma ValidatorSound(steps: seq<StepDef>, lucks: seq<Luck>)
    requires |lucks| == |Unroll(steps)|
    requires ErrorsUpTo(Unroll(steps), |Unroll(steps)|) == []
    ensures var (t, v) := RunFrom(NOTHING_OPEN, Unroll(steps), lucks, 0);
      && !NameFailure((t, v))
      && (v != Completed ==> forall id :: id in t.closed <==> 0 <= id < t.next)
      && (v == Completed ==> t.live.Keys == NamesUpTo(Unroll(steps), |Unroll(steps)|))
  {
    hide RunFrom, Unroll, AllOk, AllAfter, ActionOk, NamesAfter;
    var actions := Unroll(steps);
    assert actions[0..] == actions && NamesUpTo(actions, 0) == {} && NOTHING_OPEN.live.Keys == {};
    ErrorsByIndex(actions, |actions|);
    OkByIndex(true, actions, 0);
    StrictIsEnough({}, actions);
    CheckedFrom(NOTHING_OPEN, actions, lucks, 0);
    RunAccounted(NOTHING_OPEN, actions, lucks, 0);
  }

  /** For a scenario without nested steps that list is the one the validator looks at. */
  lemma {:induction false} UnrollFlat(steps: seq<StepDef>)
    requires forall i :: 0 <= i < |steps| ==> steps[i].Do?
    ensures Unroll(steps) == TopLevel(steps)
  {
    if steps != [] { UnrollFlat(steps[1..]); }
  }

  // ---- repeats ---------------------------------------------------------------------------------------------

  /** The validator does not look inside a repeat: this scenario passes and its run stops at
      a missing connection. */
  lemma RepeatEscapes()
    ensures var sync := Action(ChainSync, None, None);
      var steps := [Repeat(1, [Do(sync)])];
      && ErrorsUpTo(TopLevel(steps), 1) == []
      && |Unroll(steps)| == 2
      && RunFrom(NOTHING_OPEN, Unroll(steps), [Succeeds, Succeeds], 0).1 == Missing(1, Client(DEFAULT_NAME))
  {
    var sync := Action(ChainSync, None, None);
    var steps, body := [Repeat(1, [Do(sync)])], [Do(sync)];
    UnrollFlat(body);
    assert TopLevel(body) == [sync];
    assert Times(1, [sync]) == [sync] + Times(0, [sync]) == [sync];
    var actions := Unroll(steps);
    assert actions == [NESTED, sync] by {
      assert Unroll(steps) == [NESTED] + Times(1, Unroll(body)) + Unroll(steps[1..]);
    }
    assert RunFrom(NOTHING_OPEN, actions, [Succeeds, Succeeds], 1).1 == Missing(1, Client(DEFAULT_NAME));
    var top := TopLevel(steps);
    assert ErrorsUpTo(top, 0) == [] && StepErrors(NamesUpTo(top, 0), 0, top[0]) == [];
  }

  /** The names left open by a scenario: a body leaves the same names however often it runs. */
  function StepsAfter(names: set<Slot>, steps: seq<StepDef>): set<Slot>
    decreases steps
  {
    if steps == [] then names
    else
      var next := match steps[0]
        case Do(a) => NamesAfter(names, a)
        case Repeat(times, body) => if times == 0 then names else StepsAfter(names, body);
      StepsAfter(next, steps[1..])
  }

  /** A check that looks at each repeat body twice: on the names before the first round, and,
      if there is a second round, on the names after the first. */
  predicate NamesOk(strict: bool, names: set<Slot>, steps: seq<StepDef>)
    decreases steps
  {
    steps == [] ||
    match steps[0]
    case Do(a) => ActionOk(strict, names, a) && NamesOk(strict, NamesAfter(names, a), steps[1..])
    case Repeat(times, body) =>
      && (times >= 1 ==> NamesOk(strict, names, body))
      && (times >= 2 ==> NamesOk(strict, StepsAfter(names, body), body))
      && NamesOk(strict, if times == 0 then names else StepsAfter(names, body), steps[1..])
  }

  lemma {:induction false} OkConcat(strict: bool, names: set<Slot>, a: seq<Action>, b: seq<Action>)
    ensures AllOk(strict, names, a + b) <==> AllOk(strict, names, a) && AllOk(strict, AllAfter(names, a), b)
    ensures AllAfter(names, a + b) == AllAfter(AllAfter(names, a), b)
    decreases |a|
  {
    hide ActionOk, NamesAfter;
    if a == [] {
      assert a + b == b;
    } else {
      OkConcat(strict, NamesAfter(names, a[0]), a[1..], b);
      assert (a + b)[0] == a[0] && (a + b)[1..] == a[1..] + b;
    }
  }

  /** What a list does to one name: opens or closes it for good, or leaves it alone. */
  function Leaves(actions: seq<Action>, slot: Slot): Option<bool>
    decreases |actions|
  {
    if actions == [] then None
    else match Leaves(actions[1..], slot)
      case Some(b) => Some(b)
      case None =>
        if Closes(actions[0]) == Some(slot) then Some(false)
        else if Opens(actions[0]) == Some(slot) then Some(true)
        else None
  }

  lemma {:induction false} AfterLeaves(names: set<Slot>, actions: seq<Action>, slot: Slot)
    ensures slot in AllAfter(names, actions) <==>
      if Leaves(actions, slot).Some? then Leaves(actions, slot).value else slot in names
    decreases |actions|
  {
    hide Opens, Closes;
    if actions != [] { AfterLeaves(NamesAfter(names, actions[0]), actions[1..], slot); }
  }

  /** A second round changes nothing. */
  lemma AfterTwice(names: set<Slot>, actions: seq<Action>)
    ensures AllAfter(AllAfter(names, actions), actions) == AllAfter(names, actions)
  {
    forall slot ensures slot in AllAfter(AllAfter(names, actions), actions) <==> slot in AllAfter(names, actions) {
      AfterLeaves(names, actions, slot);
      AfterLeaves(AllAfter(names, actions), actions, slot);
    }
  }

  lemma {:induction false} TimesAfter(strict: bool, names: set<Slot>, n: nat, actions: seq<Action>)
    ensures AllAfter(names, Times(n, actions)) == if n == 0 then names else AllAfter(names, actions)
    ensures AllOk(strict, names, Times(n, actions)) <==>
      && (n >= 1 ==> AllOk(strict, names, actions))
      && (n >= 2 ==> AllOk(strict, AllAfter(names, actions), actions))
    decreases n
  {
    hide AllOk, AllAfter;
    if n == 0 {
      assert AllOk(strict, names, []) && AllAfter(names, []) == names by { EmptyOk(strict, names); }
    } else {
      var next := AllAfter(names, actions);
      OkConcat(strict, names, actions, Times(n - 1, actions));
      TimesAfter(strict, next, n - 1, actions);
      AfterTwice(names, actions);
    }
  }

  lemma EmptyOk(strict: bool, names: set<Slot>)
    ensures AllOk(strict, names, []) && AllAfter(names, []) == names
  {
  }

  lemma NestedOk(strict: bool, names: set<Slot>)
    ensures AllOk(strict, names, [NESTED]) && AllAfter(names, [NESTED]) == names
  {
    assert AllOk(strict, names, [NESTED][1..]) && AllAfter(names, [NESTED][1..]) == names;
  }

  lemma OneOk(strict: bool, names: set<Slot>, a: Action)
    ensures AllOk(strict, names, [a]) <==> ActionOk(strict, names, a)
    ensures AllAfter(names, [a]) == NamesAfter(names, a)
  {
    hide ActionOk, NamesAfter;
    assert [a][1..] == [];
  }

  /** Checking each body twice is checking the written-out list, however many rounds there
      are and however deep repeats nest. */
  lemma {:induction false} UnrolledCheck(strict: bool, names: set<Slot>, steps: seq<StepDef>)
    ensures AllOk(strict, names, Unroll(steps)) <==> NamesOk(strict, names, steps)
    ensures AllAfter(names, Unroll(steps)) == StepsAfter(names, steps)
    decreases steps
  {
    hide AllOk, AllAfter, ActionOk, NamesAfter;
    if steps == [] {
      EmptyOk(strict, names);
    } else {
      match steps[0]
      case Do(a) =>
        OneOk(strict, names, a);
        OkConcat(strict, names, [a], Unroll(steps[1..]));
        UnrolledCheck(strict, NamesAfter(names, a), steps[1..]);
      case Repeat(times, body) =>
        var rounds := Times(times, Unroll(body));
        NestedOk(strict, names);
        OkConcat(strict, names, [NESTED], rounds);
        TimesAfter(strict, names, times, Unroll(body));
        UnrolledCheck(strict, names, body);
        UnrolledCheck(strict, StepsAfter(names, body), body);
        OkConcat(strict, names, [NESTED] + rounds, Unroll(steps[1..]));
        UnrolledCheck(strict, if times == 0 then names else StepsAfter(names, body), steps[1..]);
    }
  }

  /** Exactly when a scenario with repeats runs without a name failure (nothing else failing):
      when each body, looked at for at most two rounds, looks up only open names and opens
      only closed ones. */
  lemma RepeatsExact(steps: seq<StepDef>, lucks: seq<Luck>)
    requires |lucks| == |Unroll(steps)| && AllSucceed(lucks)
    ensures NameFailure(RunFrom(NOTHING_OPEN, Unroll(steps), lucks, 0)) <==> !NamesOk(false, {}, steps)
    ensures ErrorsUpTo(Unroll(steps), |Unroll(steps)|) == [] <==> NamesOk(true, {}, steps)
  {
    hide RunFrom, Unroll, NamesOk, AllOk, ErrorsUpTo, NameFailure;
    VerdictsAreChecks(Unroll(steps), lucks);
    UnrolledCheck(false, {}, steps);
    UnrolledCheck(true, {}, steps);
  }

  /** Under that check no run fails on a name, whatever else goes wrong, and a completed one
      leaves the names of one round of each body. */
  lemma RepeatsSound(steps: seq<StepDef>, lucks: seq<Luck>)
    requires |lucks| == |Unroll(steps)| && NamesOk(false, {}, steps)
    ensures var (t, v) := RunFrom(NOTHING_OPEN, Unroll(steps), lucks, 0);
      && !NameFailure((t, v))
      && (v != Completed ==> forall id :: id in t.closed <==> 0 <= id < t.next)
      && (v == Completed ==> t.live.Keys == StepsAfter({}, steps))
  {
    hide RunFrom, Unroll, NamesOk, StepsAfter, AllOk, AllAfter;
    UnrolledCheck(false, {}, steps);
    assert Unroll(steps)[0..] == Unroll(steps) && NOTHING_OPEN.live.Keys == {};
    CheckedFrom(NOTHING_OPEN, Unroll(steps), lucks, 0);
    RunAccounted(NOTHING_OPEN, Unroll(steps), lucks, 0);
  }
}
