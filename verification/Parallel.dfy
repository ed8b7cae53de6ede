/** Parallel branches: every interleaving of their steps and trace writes, the fail-fast
    join, and the aborted events the parent adds afterwards. */
module Parallel {
  import opened Text

  /** Where a branch stands. A flag is set before its event is written, and the write may
      fail or never happen. */
  datatype Phase =
    | Pending
    | Stepping(step: nat)
    | FailureFlagged
    | CompletionFlagged
    | Written
    | ReturnedOk
    | ReturnedErr(written: bool)

  datatype Branch = Branch(steps: nat, phase: Phase, completed: bool, failed: bool, lastStep: nat)

  datatype Event = Started(b: nat) | Completed(b: nat) | Failed(b: nat, step: nat) | Aborted(b: nat, lastStep: nat)

  datatype Join = Waiting | Succeeded | Broken

  datatype Par = Par(branches: seq<Branch>, trace: seq<Event>, join: Join)

  /** What may happen next, in any order: a branch starts (its event written or not), ends
      its current step, writes its outcome (or fails to), or returns; the join notices. */
  datatype Move = Start(b: nat, ok: bool) | EndStep(b: nat, ok: bool) | Write(b: nat, ok: bool) | Return(b: nat) | Notice

  function NextStep(br: Branch, step: nat): Branch {
    if step < br.steps then br.(phase := Stepping(step), lastStep := step)
    else br.(phase := CompletionFlagged, completed := true)
  }

  function StepBranch(br: Branch, m: Move): Branch
    requires !m.Notice?
  {
    match (m, br.phase)
    case (Start(_, true), Pending) => NextStep(br, 0)
    case (Start(_, false), Pending) => br.(phase := ReturnedErr(false))
    case (EndStep(_, true), Stepping(s)) => NextStep(br, s + 1)
    case (EndStep(_, false), Stepping(_)) => br.(phase := FailureFlagged, failed := true)
    case (Write(_, true), FailureFlagged) => br.(phase := Written)
    case (Write(_, true), CompletionFlagged) => br.(phase := Written)
    case (Write(_, false), FailureFlagged) => br.(phase := ReturnedErr(false))
    case (Write(_, false), CompletionFlagged) => br.(phase := ReturnedErr(false))
    case (Return(_), Written) => br.(phase := if br.failed then ReturnedErr(true) else ReturnedOk)
    case _ => br
  }

  function Emitted(br: Branch, m: Move): seq<Event>
    requires !m.Notice?
  {
    match (m, br.phase)
    case (Start(b, true), Pending) => [Started(b)]
    case (Write(b, true), FailureFlagged) => [Failed(b, br.lastStep)]
    case (Write(b, true), CompletionFlagged) => [Completed(b)]
    case _ => []
  }

  /** The join ends once some branch has returned an error, at the latest when no branch is
      left; it succeeds only when all returned well. After that no branch moves: the
      others are dropped where they stand. */
  function Step(p: Par, m: Move): Par {
    if p.join != Waiting then p
    else if m.Notice? then
      if exists b :: 0 <= b < |p.branches| && p.branches[b].phase.ReturnedErr? then p.(join := Broken)
      else if forall b :: 0 <= b < |p.branches| ==> p.branches[b].phase.ReturnedOk? then p.(join := Succeeded)
      else p
    else if m.b >= |p.branches| then p
    else
      var br := p.branches[m.b];
      p.(branches := p.branches[m.b := StepBranch(br, m)], trace := p.trace + Emitted(br, m))
  }

  function Run(p: Par, moves: seq<Move>): Par {
    if moves == [] then p else Step(Run(p, moves[..|moves| - 1]), moves[|moves| - 1])
  }

  function Fresh(lengths: seq<nat>): (p: Par)
    ensures |p.branches| == |lengths|
    ensures forall b :: 0 <= b < |lengths| ==> p.branches[b] == Branch(lengths[b], Pending, false, false, 0)
    ensures p.trace == [] && p.join == Waiting
  {
    if lengths == [] then Par([], [], Waiting)
    else
      var rest := Fresh(lengths[..|lengths| - 1]);
      rest.(branches := rest.branches + [Branch(lengths[|lengths| - 1], Pending, false, false, 0)])
  }

  // ---- after the join -----------------------------------------------------------------------------

  /** Aborted events for the first `n` branches; `writes` says which trace writes succeed. */
  function AbortEvents(branches: seq<Branch>, writes: seq<bool>, n: nat): seq<Event>
    requires n <= |branches| == |writes|
  {
    if n == 0 then []
    else
      var br := branches[n - 1];
      AbortEvents(branches, writes, n - 1)
      + if !br.completed && !br.failed && writes[n - 1] then [Aborted(n - 1, br.lastStep)] else []
  }

  /** The trace once the parent is done. */
  function Finished(p: Par, writes: seq<bool>): seq<Event>
    requires |p.branches| == |writes|
  {
    p.trace + if p.join == Broken then AbortEvents(p.branches, writes, |writes|) else []
  }

  /** The parent's loop over the shared flags. */
  method FinishParallel(completed: array<bool>, failed: array<bool>, lastStep: array<nat>, resultIsErr: bool,
                        writes: seq<bool>, ghost p: Par)
    returns (events: seq<Event>)
    requires completed.Length == failed.Length == lastStep.Length == |p.branches| == |writes|
    requires forall b :: 0 <= b < |writes| ==>
      (completed[b], failed[b], lastStep[b]) == (p.branches[b].completed, p.branches[b].failed, p.branches[b].lastStep)
    requires resultIsErr <==> p.join == Broken
    ensures p.trace + events == Finished(p, writes)
  {
    events := [];
    if resultIsErr {
      for bi := 0 to completed.Length
        invariant events == AbortEvents(p.branches, writes, bi)
      {
        if !completed[bi] && !failed[bi] {
          var last := lastStep[bi];
          if writes[bi] { events := events + [Aborted(bi, last)]; }
        }
      }
    }
  }

  // ---- outcomes -----------------------------------------------------------------------------------

  predicate IsOutcome(e: Event, b: nat) {
    e.b == b && !e.Started?
  }

  /** The outcome events of one branch, in order. */
  function Outcomes(trace: seq<Event>, b: nat): seq<Event> {
    if trace == [] then []
    else
      var last := trace[|trace| - 1];
      Outcomes(trace[..|trace| - 1], b) + if IsOutcome(last, b) then [last] else []
  }

  lemma {:induction false} OutcomesConcat(s: seq<Event>, t: seq<Event>, b: nat)
    ensures Outcomes(s + t, b) == Outcomes(s, b) + Outcomes(t, b)
  {
    if t == [] {
      assert s + t == s;
    } else {
      OutcomesConcat(s, t[..|t| - 1], b);
      assert (s + t)[..|s + t| - 1] == s + t[..|t| - 1];
    }
  }

  /** Flags, phase and what the trace shows of branch `b` fit together. */
  ghost predicate Tidy(br: Branch, b: nat, outcomes: seq<Event>) {
    && !(br.completed && br.failed)
    && (br.phase.Pending? ==> !br.completed && !br.failed && br.lastStep == 0)
    && (br.phase.Stepping? ==> !br.completed && !br.failed && br.lastStep == br.phase.step < br.steps)
    && (br.phase.FailureFlagged? ==> br.failed)
    && (br.phase.CompletionFlagged? ==> br.completed)
    && (br.phase.Written? ==> br.completed || br.failed)
    && (br.phase.ReturnedOk? ==> br.completed)
    && (br.phase == ReturnedErr(true) ==> br.failed)
    && outcomes == (
         if br.phase.Written? || br.phase.ReturnedOk? || br.phase == ReturnedErr(true)
         then [if br.failed then Failed(b, br.lastStep) else Completed(b)]
         else [])
  }

  ghost predicate AllTidy(p: Par) {
    && (forall b :: 0 <= b < |p.branches| ==> Tidy(p.branches[b], b, Outcomes(p.trace, b)))
    && (p.join == Broken ==> exists b :: 0 <= b < |p.branches| && p.branches[b].phase.ReturnedErr?)
    && (p.join == Succeeded ==> forall b :: 0 <= b < |p.branches| ==> p.branches[b].phase.ReturnedOk?)
  }

  lemma BranchTidy(br: Branch, b: nat, trace: seq<Event>, m: Move)
    requires Tidy(br, b, Outcomes(trace, b)) && !m.Notice? && m.b == b
    ensures Tidy(StepBranch(br, m), b, Outcomes(trace + Emitted(br, m), b))
  {
    hide Outcomes;
    OutcomesConcat(trace, Emitted(br, m), b);
    NoOutcomes(b);
    if Emitted(br, m) != [] {
      var e := Emitted(br, m)[0];
      OneOutcome(e, b);
      assert Emitted(br, m) == [e];
    }
  }

  lemma OneOutcome(e: Event, b: nat)
    ensures Outcomes([e], b) == if IsOutcome(e, b) then [e] else []
  {
    assert [e][..0] == [];
    assert Outcomes([], b) == [];
  }

  lemma OtherOutcomes(br: Branch, trace: seq<Event>, m: Move, b: nat)
    requires !m.Notice? && m.b != b
    ensures Outcomes(trace + Emitted(br, m), b) == Outcomes(trace, b)
  {
    OutcomesConcat(trace, Emitted(br, m), b);
    if Emitted(br, m) != [] { OneOutcome(Emitted(br, m)[0], b); }
  }

  lemma StepTidy(p: Par, m: Move)
    requires AllTidy(p)
    ensures AllTidy(Step(p, m))
  {
    hide Outcomes, Tidy, StepBranch, Emitted;
    if p.join == Waiting && !m.Notice? && m.b < |p.branches| {
      var p' := Step(p, m);
      forall b | 0 <= b < |p'.branches| ensures Tidy(p'.branches[b], b, Outcomes(p'.trace, b)) {
        if b == m.b { BranchTidy(p.branches[b], b, p.trace, m); } else { OtherOutcomes(p.branches[m.b], p.trace, m, b); }
      }
    }
  }

  lemma {:induction false} RunTidy(lengths: seq<nat>, moves: seq<Move>)
    ensures AllTidy(Run(Fresh(lengths), moves)) && |Run(Fresh(lengths), moves).branches| == |lengths|
  {
    hide AllTidy, StepBranch, Emitted;
    if moves == [] {
      assert AllTidy(Fresh(lengths)) by { FreshTidy(lengths); }
    } else {
      RunTidy(lengths, moves[..|moves| - 1]);
      StepTidy(Run(Fresh(lengths), moves[..|moves| - 1]), moves[|moves| - 1]);
    }
  }

  lemma FreshTidy(lengths: seq<nat>)
    ensures AllTidy(Fresh(lengths))
  {
  }

  lemma {:induction false} AbortOutcomes(branches: seq<Branch>, writes: seq<bool>, n: nat, b: nat)
    requires n <= |branches| == |writes|
    ensures Outcomes(AbortEvents(branches, writes, n), b)
         == if b < n && !branches[b].completed && !branches[b].failed && writes[b]
            then [Aborted(b, branches[b].lastStep)] else []
  {
    hide Outcomes;
    if n > 0 {
      AbortOutcomes(branches, writes, n - 1, b);
      var e := Aborted(n - 1, branches[n - 1].lastStep);
      OutcomesConcat(AbortEvents(branches, writes, n - 1), [e], b);
      OneOutcome(e, b);
      assert AbortEvents(branches, writes, n - 1) + [] == AbortEvents(branches, writes, n - 1);
    }
    assert n == 0 ==> Outcomes(AbortEvents(branches, writes, n), b) == [] by { NoOutcomes(b); }
  }

  lemma NoOutcomes(b: nat)
    ensures Outcomes([], b) == []
  {
  }

  /** The outcome of a branch, once the join is over. */
  ghost function Outcome(br: Branch, b: nat, join: Join, written: bool): seq<Event> {
    if br.phase.ReturnedOk? then [Completed(b)]
    else if br.phase.Written? || br.phase == ReturnedErr(true)
    then [if br.failed then Failed(b, br.lastStep) else Completed(b)]
    else if br.completed || br.failed then []
    else if join == Broken && written then [Aborted(b, br.lastStep)]
    else []
  }

  /** In every interleaving a branch has at most one of completed, failed and aborted. On
      success every branch has completed. On failure the aborted events name exactly the
      branches that set neither flag (as far as the trace could be written), each with the
      step it was in. */
  lemma OutcomeTheorem(lengths: seq<nat>, moves: seq<Move>, writes: seq<bool>, b: nat)
    requires |writes| == |lengths| && b < |lengths|
    requires Run(Fresh(lengths), moves).join != Waiting
    ensures |Run(Fresh(lengths), moves).branches| == |lengths|
    ensures var p := Run(Fresh(lengths), moves); var br := p.branches[b];
      var seen := Outcomes(Finished(p, writes), b);
      && |seen| <= 1 && seen == Outcome(br, b, p.join, writes[b])
      && (p.join == Succeeded ==> seen == [Completed(b)])
      && (p.join == Broken ==>
            ((exists last :: seen == [Aborted(b, last)]) <==> !br.completed && !br.failed && writes[b]))
      && (p.join == Broken && br.phase.Stepping? && writes[b] ==> seen == [Aborted(b, br.phase.step)])
  {
    hide Run, Outcomes, AbortEvents;
    var p := Run(Fresh(lengths), moves);
    RunTidy(lengths, moves);
    var aborts := AbortEvents(p.branches, writes, |writes|);
    AbortOutcomes(p.branches, writes, |writes|, b);
    OutcomesConcat(p.trace, aborts, b);
    assert p.trace + [] == p.trace;
  }

  /** A branch stays without any outcome event exactly when it set a flag whose event was
      not written, by a failed write or because the join dropped the branch first, or when
      its aborted event could not be written. */
  lemma SilentIff(lengths: seq<nat>, moves: seq<Move>, writes: seq<bool>, b: nat)
    requires |writes| == |lengths| && b < |lengths|
    requires Run(Fresh(lengths), moves).join != Waiting
    ensures |Run(Fresh(lengths), moves).branches| == |lengths|
    ensures var p := Run(Fresh(lengths), moves); var br := p.branches[b];
      Outcomes(Finished(p, writes), b) == [] <==>
        if br.completed || br.failed
        then br.phase.FailureFlagged? || br.phase.CompletionFlagged? || br.phase == ReturnedErr(false)
        else !writes[b]
  {
    hide Run, Outcomes, AbortEvents, Finished;
    OutcomeTheorem(lengths, moves, writes, b);
    RunTidy(lengths, moves);
    var br := Run(Fresh(lengths), moves).branches[b];
    assert Tidy(br, b, Outcomes(Run(Fresh(lengths), moves).trace, b));
  }

  /** It does happen without any write failing: two branches of one step; the second fails
      and the join ends between the first one's flag and its event. The trace then shows
      no outcome for the first branch. */
  lemma SilentBranch()
    ensures var moves := [Start(0, true), Start(1, true), EndStep(0, true), EndStep(1, false),
                          Write(1, true), Return(1), Notice];
      var p := Run(Fresh([1, 1]), moves);
      && p.join == Broken && |p.branches| == 2 && Outcomes(Finished(p, [true, true]), 0) == []
  {
    hide Run, Outcomes;
    var p0 := Fresh([1, 1]);
    assert p0.branches == [Branch(1, Pending, false, false, 0), Branch(1, Pending, false, false, 0)];
    var m1 := [Start(0, true)];
    var m2 := m1 + [Start(1, true)];
    var m3 := m2 + [EndStep(0, true)];
    var m4 := m3 + [EndStep(1, false)];
    var m5 := m4 + [Write(1, true)];
    var m6 := m5 + [Return(1)];
    RunNothing(p0);
    assert [] + [Start(0, true)] == m1;
    RunThen(p0, [], Start(0, true));
    RunThen(p0, m1, Start(1, true));
    RunThen(p0, m2, EndStep(0, true));
    RunThen(p0, m3, EndStep(1, false));
    RunThen(p0, m4, Write(1, true));
    RunThen(p0, m5, Return(1));
    RunThen(p0, m6, Notice);
    var p := Run(p0, m6);
    assert p.branches[1].phase == ReturnedErr(true) && p.branches[0].phase == CompletionFlagged;
    assert m6 + [Notice] == [Start(0, true), Start(1, true), EndStep(0, true), EndStep(1, false),
                             Write(1, true), Return(1), Notice];
    SilentIff([1, 1], m6 + [Notice], [true, true], 0);
  }

  lemma RunNothing(p: Par)
    ensures Run(p, []) == p
  {
  }

  lemma RunThen(p: Par, moves: seq<Move>, m: Move)
    ensures Run(p, moves + [m]) == Step(Run(p, moves), m)
  {
    assert (moves + [m])[..|moves|] == moves;
  }
}
