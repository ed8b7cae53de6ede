/** What the branches of a parallel step get done: which steps each one ended, in which
    order its events stand, and which ends can be reached. */
module ParallelProgress {
  import opened Parallel

  function UpTo(n: nat): (s: seq<nat>)
    ensures |s| == n && forall i :: 0 <= i < n ==> s[i] == i
  {
    seq(n, i => i)
  }

  /** The steps branch `b` ended well, in the order of the moves that ended them. */
  ghost function Ended(lengths: seq<nat>, moves: seq<Move>, b: nat): seq<nat> {
    if moves == [] then []
    else
      var earlier := moves[..|moves| - 1];
      var before := Run(Fresh(lengths), earlier);
      Ended(lengths, earlier, b)
      + if before.join == Waiting && b < |before.branches| && moves[|moves| - 1] == EndStep(b, true)
           && before.branches[b].phase.Stepping?
        then [before.branches[b].phase.step] else []
  }

  /** All events of branch `b`, in order. */
  function Mine(trace: seq<Event>, b: nat): seq<Event> {
    if trace == [] then []
    else
      var last := trace[|trace| - 1];
      Mine(trace[..|trace| - 1], b) + if last.b == b then [last] else []
  }

  lemma {:induction false} MineConcat(s: seq<Event>, t: seq<Event>, b: nat)
    ensures Mine(s + t, b) == Mine(s, b) + Mine(t, b)
  {
    if t == [] {
      assert s + t == s;
    } else {
      MineConcat(s, t[..|t| - 1], b);
      assert (s + t)[..|s + t| - 1] == s + t[..|t| - 1];
    }
  }

  lemma MineOne(e: Event, b: nat)
    ensures Mine([], b) == []
    ensures Mine([e], b) == if e.b == b then [e] else []
  {
    assert [e][..0] == [];
  }

  /** How far a branch of `length` steps stands, told by what it ended and what it wrote. */
  ghost predicate Stands(br: Branch, length: nat, b: nat, ended: seq<nat>, mine: seq<Event>) {
    && br.steps == length
    && (br.phase.Pending? ==> ended == [] && mine == [])
    && (br.phase.Stepping? ==> br.phase.step < length && ended == UpTo(br.phase.step) && mine == [Started(b)])
    && (br.failed ==> br.lastStep < length && ended == UpTo(br.lastStep))
    && (br.completed ==> ended == UpTo(length))
    && (br.phase.FailureFlagged? ==> br.failed && mine == [Started(b)])
    && (br.phase.CompletionFlagged? ==> br.completed && mine == [Started(b)])
    && (br.phase.Written? || br.phase.ReturnedOk? || br.phase == ReturnedErr(true) ==>
          mine == [Started(b), if br.failed then Failed(b, br.lastStep) else Completed(b)])
    && (br.phase.Written? ==> br.failed || br.completed)
    && (br.phase.ReturnedOk? ==> br.completed && !br.failed)
    && (br.phase == ReturnedErr(true) ==> br.failed)
    && (br.phase == ReturnedErr(false) ==> mine == if br.failed || br.completed then [Started(b)] else [])
    && (!br.failed && !br.completed && !br.phase.Stepping? ==> ended == [])
    && (br.phase.Pending? || br.phase.Stepping? ==> !br.failed && !br.completed)
    && (br.phase.Stepping? ==> br.lastStep == br.phase.step)
    && !(br.failed && br.completed)
  }

  lemma BranchStands(br: Branch, length: nat, b: nat, ended: seq<nat>, mine: seq<Event>, m: Move)
    requires Stands(br, length, b, ended, mine) && !m.Notice? && m.b == b
    ensures Stands(StepBranch(br, m), length, b,
                   ended + (if m == EndStep(b, true) && br.phase.Stepping? then [br.phase.step] else []),
                   mine + Emitted(br, m))
  {
    if br.phase.Stepping? {
      assert UpTo(br.phase.step) + [br.phase.step] == UpTo(br.phase.step + 1);
    }
    assert UpTo(0) == [];
    assert ended + [] == ended && mine + [] == mine;
  }

  /** In every interleaving each branch ends its steps one by one from the first, and its
      events are its start followed by at most one outcome. */
  lemma {:induction false} RunStands(lengths: seq<nat>, moves: seq<Move>, b: nat)
    requires b < |lengths|
    ensures var p := Run(Fresh(lengths), moves);
      |p.branches| == |lengths| && Stands(p.branches[b], lengths[b], b, Ended(lengths, moves, b), Mine(p.trace, b))
  {
    hide Stands, StepBranch, Emitted, Mine;
    if moves == [] {
      assert Stands(Fresh(lengths).branches[b], lengths[b], b, [], []) by { FreshStands(lengths, b); }
      MineOne(Started(b), b);
    } else {
      var m := moves[|moves| - 1];
      var before := Run(Fresh(lengths), moves[..|moves| - 1]);
      RunStands(lengths, moves[..|moves| - 1], b);
      var ended := Ended(lengths, moves[..|moves| - 1], b);
      assert ended + [] == ended && Mine(before.trace, b) + [] == Mine(before.trace, b);
      if before.join == Waiting && !m.Notice? && m.b < |lengths| {
        MineConcat(before.trace, Emitted(before.branches[m.b], m), b);
        EmittedMine(before.branches[m.b], m, b);
        if m.b == b {
          BranchStands(before.branches[b], lengths[b], b, ended, Mine(before.trace, b), m);
        }
      }
    }
  }

  lemma FreshStands(lengths: seq<nat>, b: nat)
    requires b < |lengths|
    ensures Stands(Fresh(lengths).branches[b], lengths[b], b, [], [])
  {
  }

  lemma EmittedMine(br: Branch, m: Move, b: nat)
    requires !m.Notice?
    ensures Mine(Emitted(br, m), b) == if m.b == b then Emitted(br, m) else []
  {
    if Emitted(br, m) == [] { MineOne(Started(b), b); } else {
      assert Emitted(br, m) == [Emitted(br, m)[0]];
      MineOne(Emitted(br, m)[0], b);
    }
  }

  /** A branch that completed ended exactly its steps, in order; one that failed ended
      exactly those before the step it reports; one still going, those before the current
      one. When the step succeeds, each branch wrote its start and its completion, nothing
      else, and left no step out. */
  lemma StepsInOrder(lengths: seq<nat>, moves: seq<Move>, b: nat)
    requires b < |lengths|
    ensures var p := Run(Fresh(lengths), moves); var ended := Ended(lengths, moves, b);
      && |p.branches| == |lengths|
      && (p.branches[b].completed ==> ended == seq(lengths[b], i => i))
      && (p.branches[b].failed ==> p.branches[b].lastStep < lengths[b] && ended == seq(p.branches[b].lastStep, i => i))
      && (p.branches[b].phase.Stepping? ==> ended == seq(p.branches[b].phase.step, i => i))
      && (p.join == Succeeded ==> Mine(p.trace, b) == [Started(b), Completed(b)] && ended == seq(lengths[b], i => i))
  {
    hide Run, Ended, Mine;
    RunStands(lengths, moves, b);
    RunTidy(lengths, moves);
    var p := Run(Fresh(lengths), moves);
    var br := p.branches[b];
    forall n: nat ensures UpTo(n) == seq(n, i => i) { }
  }

  // ---- ends that can be reached -------------------------------------------------------------------

  lemma {:induction false} RunConcat(p: Par, s: seq<Move>, t: seq<Move>)
    ensures Run(p, s + t) == Run(Run(p, s), t)
  {
    if t == [] {
      assert s + t == s;
    } else {
      RunConcat(p, s, t[..|t| - 1]);
      assert (s + t)[..|s + t| - 1] == s + t[..|t| - 1];
    }
  }

  lemma RunOne(p: Par, m: Move)
    ensures Run(p, [m]) == Step(p, m)
  {
    assert [m][..0] == [];
    RunNothing(p);
  }

  /** Branch `b` starts and ends its first `n` steps. */
  function Walk(b: nat, n: nat): seq<Move> {
    if n == 0 then [Start(b, true)] else Walk(b, n - 1) + [EndStep(b, true)]
  }

  function Walked(steps: nat, n: nat): Branch {
    Branch(steps, if n < steps then Stepping(n) else CompletionFlagged, n >= steps, false,
           if n < steps then n else if steps == 0 then 0 else steps - 1)
  }

  lemma {:induction false} WalkRuns(p: Par, b: nat, n: nat)
    requires p.join == Waiting && b < |p.branches| && n <= p.branches[b].steps
    requires p.branches[b] == Branch(p.branches[b].steps, Pending, false, false, 0)
    ensures Run(p, Walk(b, n))
         == p.(branches := p.branches[b := Walked(p.branches[b].steps, n)], trace := p.trace + [Started(b)])
  {
    hide Run;
    if n == 0 {
      RunOne(p, Start(b, true));
    } else {
      WalkRuns(p, b, n - 1);
      RunThen(p, Walk(b, n - 1), EndStep(b, true));
      assert p.trace + [Started(b)] + [] == p.trace + [Started(b)];
    }
  }

  /** The first `k` branches run one after the other, each through all of its steps. */
  function OneByOne(lengths: seq<nat>, k: nat): seq<Move>
    requires k <= |lengths|
  {
    if k == 0 then []
    else OneByOne(lengths, k - 1) + Walk(k - 1, lengths[k - 1]) + [Write(k - 1, true)] + [Return(k - 1)]
  }

  function InTurn(k: nat): seq<Event> {
    if k == 0 then [] else InTurn(k - 1) + [Started(k - 1), Completed(k - 1)]
  }

  lemma {:induction false} OneByOneRuns(lengths: seq<nat>, k: nat)
    requires k <= |lengths|
    ensures var p := Run(Fresh(lengths), OneByOne(lengths, k));
      && p.join == Waiting && p.trace == InTurn(k) && |p.branches| == |lengths|
      && (forall b :: 0 <= b < k ==> p.branches[b].phase == ReturnedOk)
      && (forall b :: k <= b < |lengths| ==> p.branches[b] == Branch(lengths[b], Pending, false, false, 0))
  {
    hide Run, Walk, Step, Walked, InTurn;
    var p0 := Fresh(lengths);
    assert InTurn(0) == [] by { NoneInTurn(); }
    if k == 0 {
      RunNothing(p0);
    } else {
      OneByOneRuns(lengths, k - 1);
      var m1 := OneByOne(lengths, k - 1);
      var p1 := Run(p0, m1);
      var m2 := m1 + Walk(k - 1, lengths[k - 1]);
      RunConcat(p0, m1, Walk(k - 1, lengths[k - 1]));
      WalkRuns(p1, k - 1, lengths[k - 1]);
      RunThen(p0, m2, Write(k - 1, true));
      RunThen(p0, m2 + [Write(k - 1, true)], Return(k - 1));
      LastTwoMoves(p1, lengths, k);
    }
  }

  lemma LastTwoMoves(p: Par, lengths: seq<nat>, k: nat)
    requires 0 < k <= |lengths| == |p.branches| && p.join == Waiting && p.trace == InTurn(k - 1)
    ensures var walked := p.(branches := p.branches[k - 1 := Walked(lengths[k - 1], lengths[k - 1])],
                             trace := p.trace + [Started(k - 1)]);
      var q := Step(Step(walked, Write(k - 1, true)), Return(k - 1));
      && q.join == Waiting && q.trace == InTurn(k) && |q.branches| == |lengths|
      && q.branches[k - 1].phase == ReturnedOk
      && forall b :: 0 <= b < |lengths| && b != k - 1 ==> q.branches[b] == p.branches[b]
  {
    assert p.trace + [Started(k - 1)] + [Completed(k - 1)] + [] == p.trace + [Started(k - 1), Completed(k - 1)];
  }

  lemma NoneInTurn()
    ensures InTurn(0) == []
  {
  }

  /** Whatever the branches, the parallel step can succeed: run one after the other they
      write start and completion in turn, and the join accepts. */
  lemma CanSucceed(lengths: seq<nat>)
    ensures var p := Run(Fresh(lengths), OneByOne(lengths, |lengths|) + [Notice]);
      p.join == Succeeded && p.trace == InTurn(|lengths|)
  {
    hide Run, OneByOne, InTurn;
    OneByOneRuns(lengths, |lengths|);
    RunThen(Fresh(lengths), OneByOne(lengths, |lengths|), Notice);
  }

  /** Any step of any branch can be the one that fails, and the failed event then names that
      branch and that step; the other branches are reported as aborted at their first. */
  lemma CanFailAt(lengths: seq<nat>, b: nat, step: nat, writes: seq<bool>)
    requires b < |lengths| == |writes| && step < lengths[b]
    ensures var moves := Walk(b, step) + [EndStep(b, false)] + [Write(b, true)] + [Return(b)] + [Notice];
      var p := Run(Fresh(lengths), moves);
      && p.join == Broken && p.trace == [Started(b), Failed(b, step)]
      && |p.branches| == |lengths|
      && forall c :: 0 <= c < |lengths| && c != b && writes[c] ==> Outcomes(Finished(p, writes), c) == [Aborted(c, 0)]
  {
    hide Run, Walk, Outcomes, Finished;
    var p0 := Fresh(lengths);
    WalkRuns(p0, b, step);
    var m1 := Walk(b, step);
    var m2 := m1 + [EndStep(b, false)];
    var m3 := m2 + [Write(b, true)];
    var m4 := m3 + [Return(b)];
    RunThen(p0, m1, EndStep(b, false));
    RunThen(p0, m2, Write(b, true));
    RunThen(p0, m3, Return(b));
    RunThen(p0, m4, Notice);
    var p4 := Run(p0, m4);
    assert p4.branches[b].phase == ReturnedErr(true);
    assert p4.trace == [Started(b), Failed(b, step)];
    forall c | 0 <= c < |lengths| && c != b && writes[c]
      ensures Outcomes(Finished(Run(p0, m4 + [Notice]), writes), c) == [Aborted(c, 0)]
    {
      OutcomeTheorem(lengths, m4 + [Notice], writes, c);
    }
  }
}
