/**
 Whether a worker pool gets to its end.  A worker that found the error channel empty and comes
 to push after another has filled it waits until a further task empties it, for ever if there
 is none.
 */
module WorkerPoolProgress {
  import opened Wrappers
  import opened WorkerPool

  /** Some task is unfinished and nothing can happen any more. */
  ghost predicate Stuck<T>(tasks: seq<Task<T>>, workers: nat, s: Pool)
    requires |s.phases| == |tasks|
  {
    !Complete(s) && forall a :: Act(tasks, workers, s, a).None?
  }

  ghost predicate CanStick<T>(tasks: seq<Task<T>>, workers: nat) {
    exists actions ::
      && Run(tasks, workers, Submitted(|tasks|), actions).Some?
      && Stuck(tasks, workers, Run(tasks, workers, Submitted(|tasks|), actions).value)
  }

  predicate SticksWhen<T>(tasks: seq<Task<T>>, workers: nat) {
    && workers >= 2 && !AtMostOneFails(tasks)
    && (workers == 2 ==>
          tasks[|tasks| - 1].Err? && !(AllFail(tasks) && |tasks| % 2 == 1))
  }

  // ---------- Stuck states ----------

  /** A stuck pool has a full channel, and every worker in use waits to push. */
  lemma {:induction false} StuckShape<T>(tasks: seq<Task<T>>, workers: nat, s: Pool)
    requires workers >= 1 && Inv(tasks, workers, s) && Stuck(tasks, workers, s)
    ensures s.channel.Some?
    ensures forall i :: 0 <= i < |tasks| && IsBusy(s.phases[i]) ==> s.phases[i].Pushing?
    ensures s.next < |tasks| ==> Count(IsBusy, s.phases) == workers
    ensures Count(IsBusy, s.phases) >= 1
  {
    assert Act(tasks, workers, s, Hand).None?;
    var waiting :| 0 <= waiting < |tasks| && !s.phases[waiting].Done?;
    assert s.phases[waiting].Queued? || IsBusy(s.phases[waiting]);
    forall i: nat | i < |tasks| && IsBusy(s.phases[i]) ensures s.phases[i].Pushing? && s.channel.Some? {
      assert Act(tasks, workers, s, Begin(i)).None?;
      assert Act(tasks, workers, s, Finish(i)).None?;
      assert Act(tasks, workers, s, Push(i)).None?;
    }
    CountAtEnds(IsBusy, s.phases);
  }

  lemma {:induction false} BusyAreActive(phases: seq<Phase>)
    requires forall i :: 0 <= i < |phases| && IsBusy(phases[i]) ==> phases[i].Pushing?
    ensures Count(IsActive, phases) == Count(IsBusy, phases)
  {
    if phases == [] {
    } else {
      BusyAreActive(phases[..|phases| - 1]);
    }
  }

  lemma {:induction false} BusyOrDone(phases: seq<Phase>)
    requires forall i :: 0 <= i < |phases| ==> !phases[i].Queued?
    ensures Count(IsBusy, phases) + Count(IsDone, phases) == |phases|
  {
    if phases == [] {
    } else {
      BusyOrDone(phases[..|phases| - 1]);
    }
  }

  /** What a task waits to do next. */
  function NextAction(p: Phase, i: nat): Action {
    match p
    case Queued => Hand
    case Handed => Begin(i)
    case Running => Finish(i)
    case _ => Push(i)
  }

  lemma {:induction false} OneWorkerNeverSticks<T>(tasks: seq<Task<T>>, s: Pool)
    requires Inv(tasks, 1, s)
    ensures !Stuck(tasks, 1, s)
  {
    if !Complete(s) {
      CountAtEnds(IsBusy, s.phases);
      if Count(IsBusy, s.phases) == 0 {
        assert Act(tasks, 1, s, Hand).Some?;
      } else {
        var last := s.next - 1;
        assert Act(tasks, 1, s, NextAction(s.phases[last], last)).Some?;
      }
    }
  }

  /** A pool of two is stuck in one way only: all else done, one task waiting to push. */
  lemma {:induction false} TwoWorkersStuckShape<T>(tasks: seq<Task<T>>, s: Pool)
    requires Inv(tasks, 2, s) && Stuck(tasks, 2, s)
    ensures s.next == |tasks| && s.channel.Some?
    ensures Count(IsDone, s.phases) == |tasks| - 1
    ensures exists i :: 0 <= i < |tasks| && s.phases[i].Pushing?
  {
    StuckShape(tasks, 2, s);
    BusyAreActive(s.phases);
    BusyOrDone(s.phases);
    CountAtEnds(IsBusy, s.phases);
  }

  lemma {:induction false} TwoWorkersStickOnly<T>(tasks: seq<Task<T>>, s: Pool)
    requires Inv(tasks, 2, s) && Stuck(tasks, 2, s)
    ensures tasks != [] && tasks[|tasks| - 1].Err? && !(AllFail(tasks) && |tasks| % 2 == 1)
  {
    TwoWorkersStuckShape(tasks, s);
    StuckShape(tasks, 2, s);
    var i :| 0 <= i < |tasks| && s.phases[i].Pushing?;
    assert IsBusy(s.phases[i]);
  }

  /** With at most one failing task no pool gets stuck. */
  lemma {:induction false} OneFailureNeverSticks<T>(tasks: seq<Task<T>>, workers: nat, s: Pool)
    requires workers >= 1 && AtMostOneFails(tasks) && Inv(tasks, workers, s)
    ensures !Stuck(tasks, workers, s)
  {
    if !Complete(s) {
      CountAtEnds(IsBusy, s.phases);
      if Count(IsBusy, s.phases) == 0 {
        assert Act(tasks, workers, s, Hand).Some?;
      } else {
        var i: nat :| i < |tasks| && IsBusy(s.phases[i]);
        assert Act(tasks, workers, s, NextAction(s.phases[i], i)).Some?;
      }
    }
  }

  // ---------- Getting stuck ----------

  lemma {:induction false} PushersBlock<T>(tasks: seq<Task<T>>, workers: nat, s: Pool, j: nat)
    requires |s.phases| == |tasks| && j < |tasks| && s.phases[j].Pushing? && s.channel.Some?
    requires s.next == |tasks| && forall i :: 0 <= i < |tasks| ==> s.phases[i].Done? || s.phases[i].Pushing?
    ensures Stuck(tasks, workers, s)
  {
  }

  /** A run that sticks, from wherever a pool stands. */
  ghost predicate SticksFrom<T>(tasks: seq<Task<T>>, workers: nat, s: Pool)
    requires |s.phases| == |tasks|
  {
    exists actions ::
      Run(tasks, workers, s, actions).Some? && Stuck(tasks, workers, Run(tasks, workers, s, actions).value)
  }

  lemma {:induction false} SticksAfter<T>(tasks: seq<Task<T>>, workers: nat, s: Pool, actions: seq<Action>, t: Pool)
    requires |s.phases| == |tasks| && Run(tasks, workers, s, actions) == Some(t)
    requires SticksFrom(tasks, workers, t)
    ensures SticksFrom(tasks, workers, s)
  {
    var more :|
      Run(tasks, workers, t, more).Some? && Stuck(tasks, workers, Run(tasks, workers, t, more).value);
    RunAppend(tasks, workers, s, actions, more);
  }

  /** All that was handed out is done, up to tasks that wait to push. */
  predicate Settled(s: Pool) {
    InOrder(s) && forall i :: 0 <= i < s.next ==> s.phases[i].Done? || s.phases[i].Pushing?
  }

  /** Hold the next task at its push and run the rest: stuck if the rest leaves the channel full. */
  lemma {:induction false} HoldAndDrain<T>(tasks: seq<Task<T>>, workers: nat, s: Pool)
    requires Settled(s) && |s.phases| == |tasks| && s.next < |tasks| && Count(IsBusy, s.phases) + 1 < workers
    requires s.channel.None? && tasks[s.next].Err? && Relay(tasks, false, s.next + 1, |tasks|)
    ensures SticksFrom(tasks, workers, s)
  {
    var hold, held := HoldPushing(tasks, workers, s);
    var rest, t := Drain(tasks, workers, held, |tasks|);
    RunAppend(tasks, workers, s, hold, rest);
    PushersBlock(tasks, workers, t, s.next);
  }

  /** An even number of failures at the end: hold the first of them. */
  lemma {:induction false} EvenTrailSticks<T>(tasks: seq<Task<T>>, workers: nat, s: Pool)
    requires workers >= 2 && s == Submitted(|tasks|)
    requires TrailingFailures(tasks) >= 2 && TrailingFailures(tasks) % 2 == 0
    ensures SticksFrom(tasks, workers, s)
  {
    SubmittedInv(tasks, workers);
    var first := |tasks| - TrailingFailures(tasks);
    var actions, t := Drain(tasks, workers, s, first);
    RelayOfFailures(tasks, false, first + 1, |tasks|);
    HoldAndDrain(tasks, workers, t);
    SticksAfter(tasks, workers, s, actions, t);
  }

  /** A success held back takes away the error of the task after it. */
  lemma {:induction false} HeldSuccessDropsError<T>(tasks: seq<Task<T>>, workers: nat, s: Pool)
    returns (actions: seq<Action>, t: Pool)
    requires InOrder(s) && |s.phases| == |tasks| && s.next + 1 < |tasks| && Count(IsBusy, s.phases) + 2 <= workers
    requires tasks[s.next].Ok?
    ensures Run(tasks, workers, s, actions) == Some(t)
    ensures InOrder(t) && t.channel.None? && t.next == s.next + 2
    ensures t.phases == s.phases[s.next := Done][s.next + 1 := Done]
    ensures Count(IsBusy, t.phases) == Count(IsBusy, s.phases)
  {
    var good := s.next;
    var held := HandNext(tasks, workers, s);
    var solo, mid := Solo(tasks, workers, held);
    var last;
    last, t := BeginAndFinish(tasks, workers, mid, good);
    actions := [Hand] + solo + last;
    RunAppend(tasks, workers, s, [Hand], solo);
    RunAppend(tasks, workers, s, [Hand] + solo, last);
    CountAfterUpdate(IsBusy, mid.phases, good, Done);
    assert t.phases == s.phases[good := Done][good + 1 := Done];
  }

  lemma {:induction false} DropThenHold<T>(tasks: seq<Task<T>>, workers: nat, s: Pool)
    requires Settled(s) && |s.phases| == |tasks| && Count(IsBusy, s.phases) + 2 <= workers
    requires s.next + 3 <= |tasks| && (|tasks| - s.next) % 2 == 0 && tasks[s.next].Ok?
    requires forall i :: s.next < i < |tasks| ==> tasks[i].Err?
    ensures SticksFrom(tasks, workers, s)
  {
    var swap, t := HeldSuccessDropsError(tasks, workers, s);
    RelayOfFailures(tasks, false, s.next + 3, |tasks|);
    HoldAndDrain(tasks, workers, t);
    SticksAfter(tasks, workers, s, swap, t);
  }

  /**
   An odd number of failures at the end, at least three: the success before them, held back,
   takes away the error of the first; then hold the second.
   */
  lemma {:induction false} OddTrailSticks<T>(tasks: seq<Task<T>>, workers: nat, s: Pool)
    requires workers >= 2 && s == Submitted(|tasks|)
    requires 3 <= TrailingFailures(tasks) < |tasks| && TrailingFailures(tasks) % 2 == 1
    ensures SticksFrom(tasks, workers, s)
  {
    SubmittedInv(tasks, workers);
    var before, t := Drain(tasks, workers, s, |tasks| - TrailingFailures(tasks) - 1);
    DropThenHold(tasks, workers, t);
    SticksAfter(tasks, workers, s, before, t);
  }

  /** The first task that fails. */
  predicate FirstFails<T>(tasks: seq<Task<T>>, from: nat, f: nat) {
    from <= f < |tasks| && tasks[f].Err? && forall i :: from <= i < f ==> tasks[i].Ok?
  }

  lemma {:induction false} FindFirst<T>(tasks: seq<Task<T>>, from: nat, some: nat) returns (f: nat)
    requires from <= some < |tasks| && tasks[some].Err?
    ensures FirstFails(tasks, from, f) && f <= some
    decreases some - from
  {
    if tasks[from].Err? {
      f := from;
    } else {
      f := FindFirst(tasks, from + 1, some);
    }
  }

  /** One failure at the end and another before: hold the first of all. */
  lemma {:induction false} SingleTrailSticks<T>(tasks: seq<Task<T>>, workers: nat, s: Pool, f: nat)
    requires workers >= 2 && s == Submitted(|tasks|)
    requires TrailingFailures(tasks) == 1 && FirstFails(tasks, 0, f) && f < |tasks| - 1
    ensures SticksFrom(tasks, workers, s)
  {
    SubmittedInv(tasks, workers);
    var actions, t := Drain(tasks, workers, s, f);
    RelayOfSuccesses(tasks, 0, f);
    RelayToEnd(tasks, false, f + 1);
    HoldAndDrain(tasks, workers, t);
    SticksAfter(tasks, workers, s, actions, t);
  }

  lemma {:induction false} TwoWorkersStick<T>(tasks: seq<Task<T>>, workers: nat)
    requires workers >= 2 && SticksWhen(tasks, 2)
    ensures CanStick(tasks, workers)
  {
    var s, trail := Submitted(|tasks|), TrailingFailures(tasks);
    if trail % 2 == 0 {
      EvenTrailSticks(tasks, workers, s);
    } else if trail >= 3 {
      OddTrailSticks(tasks, workers, s);
    } else {
      var i, j :| 0 <= i < j < |tasks| && tasks[i].Err? && tasks[j].Err?;
      var f := FindFirst(tasks, 0, i);
      SingleTrailSticks(tasks, workers, s, f);
    }
  }

  /** Run up to a first failure and hold it at its push. */
  lemma {:induction false} HoldFirst<T>(tasks: seq<Task<T>>, workers: nat, s: Pool, f: nat)
    returns (actions: seq<Action>, t: Pool)
    requires Settled(s) && |s.phases| == |tasks| && s.channel.None? && FirstFails(tasks, s.next, f)
    requires Count(IsBusy, s.phases) < workers
    ensures Run(tasks, workers, s, actions) == Some(t)
    ensures Settled(t) && |t.phases| == |tasks| && t.channel.None? && t.next == f + 1 && t.phases[f].Pushing?
    ensures forall i :: 0 <= i < s.next ==> t.phases[i] == s.phases[i]
    ensures Count(IsBusy, t.phases) == Count(IsBusy, s.phases) + 1
  {
    var drain, mid := Drain(tasks, workers, s, f);
    RelayOfSuccesses(tasks, s.next, f);
    var hold;
    hold, t := HoldPushing(tasks, workers, mid);
    actions := drain + hold;
    RunAppend(tasks, workers, s, drain, hold);
  }

  /** Two tasks waiting to push, and a worker to run the rest. */
  lemma {:induction false} TwoHeldStick<T>(tasks: seq<Task<T>>, workers: nat, s: Pool, f: nat, g: nat)
    requires Settled(s) && |s.phases| == |tasks| && Count(IsBusy, s.phases) < workers
    requires f < g < s.next && s.phases[f].Pushing? && s.phases[g].Pushing?
    ensures SticksFrom(tasks, workers, s)
  {
    var rest, t := Drain(tasks, workers, s, |tasks|);
    if t.channel.Some? {
      PushersBlock(tasks, workers, t, g);
    } else {
      RunThen(tasks, workers, s, rest, t, Push(f));
      PushersBlock(tasks, workers, Act(tasks, workers, t, Push(f)).value, g);
    }
  }

  /** With a third worker the first two failures can both be held while it runs everything else. */
  lemma {:induction false} ThreeWorkersStick<T>(tasks: seq<Task<T>>, workers: nat)
    requires workers >= 3 && !AtMostOneFails(tasks)
    ensures CanStick(tasks, workers)
  {
    var i, j :| 0 <= i < j < |tasks| && tasks[i].Err? && tasks[j].Err?;
    var f := FindFirst(tasks, 0, i);
    var g := FindFirst(tasks, f + 1, j);
    var s := Submitted(|tasks|);
    SubmittedInv(tasks, workers);
    var first, s1 := HoldFirst(tasks, workers, s, f);
    var second, s2 := HoldFirst(tasks, workers, s1, g);
    TwoHeldStick(tasks, workers, s2, f, g);
    SticksAfter(tasks, workers, s1, second, s2);
    SticksAfter(tasks, workers, s, first, s1);
  }

  /**
   For every number of workers, when a pool can hang for ever.  One worker: never.  Two: exactly
   when at least two tasks fail, the last one among them, unless all fail and they are an odd
   number.  Three or more: exactly when at least two tasks fail.
   */
  lemma {:induction false} CanStickIff<T>(tasks: seq<Task<T>>, workers: nat)
    requires workers >= 1
    ensures CanStick(tasks, workers) <==> SticksWhen(tasks, workers)
  {
    if SticksWhen(tasks, workers) {
      if workers == 2 {
        TwoWorkersStick(tasks, workers);
      } else {
        ThreeWorkersStick(tasks, workers);
      }
    }
    if actions :| && Run(tasks, workers, Submitted(|tasks|), actions).Some?
                  && Stuck(tasks, workers, Run(tasks, workers, Submitted(|tasks|), actions).value) {
      var s := Run(tasks, workers, Submitted(|tasks|), actions).value;
      ReachableInv(tasks, workers, actions);
      if AtMostOneFails(tasks) {
        OneFailureNeverSticks(tasks, workers, s);
      }
      if workers == 1 {
        OneWorkerNeverSticks(tasks, s);
      }
      if workers == 2 {
        TwoWorkersStickOnly(tasks, s);
      }
    }
  }

  // ---------- Bounded runs ----------

  function StepsLeft(p: Phase): nat {
    match p
    case Queued => 4
    case Handed => 3
    case Running => 2
    case Pushing => 1
    case Done => 0
  }

  function TotalLeft(phases: seq<Phase>): nat {
    if phases == [] then 0 else TotalLeft(phases[..|phases| - 1]) + StepsLeft(phases[|phases| - 1])
  }

  lemma {:induction false} TotalAfterUpdate(phases: seq<Phase>, i: nat, p: Phase)
    requires i < |phases|
    ensures TotalLeft(phases[i := p]) == TotalLeft(phases) - StepsLeft(phases[i]) + StepsLeft(p)
  {
    var n := |phases| - 1;
    if i == n {
      assert phases[i := p][..n] == phases[..n];
    } else {
      assert phases[i := p][..n] == phases[..n][i := p];
      TotalAfterUpdate(phases[..n], i, p);
    }
  }

  lemma {:induction false} TotalAtStart(n: nat)
    ensures TotalLeft(Submitted(n).phases) == 4 * n
  {
    if n == 0 {
    } else {
      TotalAtStart(n - 1);
      assert Submitted(n).phases[..n - 1] == Submitted(n - 1).phases;
    }
  }

  lemma {:induction false} ActShrinks<T>(tasks: seq<Task<T>>, workers: nat, s: Pool, a: Action)
    requires InOrder(s) && |s.phases| == |tasks| && Act(tasks, workers, s, a).Some?
    ensures TotalLeft(Act(tasks, workers, s, a).value.phases) < TotalLeft(s.phases)
  {
    var i := ActMovesOne(tasks, workers, s, a);
    TotalAfterUpdate(s.phases, i, Act(tasks, workers, s, a).value.phases[i]);
  }

  lemma {:induction false} RunsShrink<T>(tasks: seq<Task<T>>, workers: nat, s: Pool, actions: seq<Action>)
    requires InOrder(s) && ErrorsAccounted(tasks, s) && Run(tasks, workers, s, actions).Some?
    ensures |actions| + TotalLeft(Run(tasks, workers, s, actions).value.phases) <= TotalLeft(s.phases)
    decreases actions
  {
    if actions == [] {
    } else {
      ActShrinks(tasks, workers, s, actions[0]);
      ActKeepsOrder(tasks, workers, s, actions[0]);
      RunsShrink(tasks, workers, Act(tasks, workers, s, actions[0]).value, actions[1..]);
    }
  }

  /** No action can follow. */
  ghost predicate Maximal<T>(tasks: seq<Task<T>>, workers: nat, actions: seq<Action>) {
    && Run(tasks, workers, Submitted(|tasks|), actions).Some?
    && forall a :: Run(tasks, workers, Submitted(|tasks|), actions + [a]).None?
  }

  /**
   No run has more than four actions a task, so every run can only go on so long; and unless
   the pool can stick, where it cannot go on all tasks are done.
   */
  lemma {:induction false} MaximalRunsComplete<T>(tasks: seq<Task<T>>, workers: nat, actions: seq<Action>)
    requires workers >= 1 && Run(tasks, workers, Submitted(|tasks|), actions).Some?
    ensures |actions| <= 4 * |tasks|
    ensures !SticksWhen(tasks, workers) && Maximal(tasks, workers, actions) ==>
              Complete(Run(tasks, workers, Submitted(|tasks|), actions).value)
  {
    var s := Run(tasks, workers, Submitted(|tasks|), actions).value;
    SubmittedInv(tasks, workers);
    RunsShrink(tasks, workers, Submitted(|tasks|), actions);
    TotalAtStart(|tasks|);
    CanStickIff(tasks, workers);
    forall a ensures Run(tasks, workers, Submitted(|tasks|), actions + [a]) == Act(tasks, workers, s, a) {
      RunThen(tasks, workers, Submitted(|tasks|), actions, s, a);
    }
    if Maximal(tasks, workers, actions) && !Complete(s) {
      assert forall a :: Run(tasks, workers, Submitted(|tasks|), actions + [a]).None?;
      assert Stuck(tasks, workers, s);
    }
  }
}
