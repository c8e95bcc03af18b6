/**
 The worker pool that builds child nodes in parallel: tasks are handed to workers in the order
 they were submitted, run concurrently, and their results are gathered in completion order;
 errors travel through a channel of capacity one.

 Two things decide how faithful it is.  Reading the error channel consumes the error, also
 where the pool only wants to know whether there is one; and checking the channel and
 pushing an error onto it are two separate steps.
 */
module WorkerPool {
  import opened Wrappers
  import opened Gathering

  /** A task by its outcome, should it be run. */
  type Task<T> = Result<T, ()>

  /** `Handed` is a task some worker has taken but whose first instruction is still to come. */
  datatype Phase = Queued | Handed | Running | Pushing | Done

  /**
   `next` is the first task not handed out yet, `responses` lists the tasks whose results were
   gathered, and `channel` holds the error waiting in it.
   */
  datatype Pool = Pool(phases: seq<Phase>, next: nat, channel: Option<nat>, responses: seq<nat>)

  datatype Action = Hand | Begin(task: nat) | Finish(task: nat) | Push(task: nat)

  predicate Fails<T>(tasks: seq<Task<T>>, i: nat) {
    i < |tasks| && tasks[i].Err?
  }

  function Submitted(n: nat): Pool {
    Pool(seq(n, i => Queued), 0, None, [])
  }

  /** The task occupies a worker. */
  predicate IsBusy(p: Phase) {
    p.Handed? || p.Running? || p.Pushing?
  }

  /** The task has been begun. */
  predicate IsActive(p: Phase) {
    p.Running? || p.Pushing?
  }

  predicate IsDone(p: Phase) {
    p.Done?
  }

  function Count(which: Phase -> bool, phases: seq<Phase>): nat {
    if phases == [] then 0
    else Count(which, phases[..|phases| - 1]) + if which(phases[|phases| - 1]) then 1 else 0
  }

  function To(s: Pool, i: nat, p: Phase): Pool
    requires i < |s.phases|
  {
    s.(phases := s.phases[i := p])
  }

  /**
   One action of a pool with that many workers, if it is possible.  A free worker is handed the
   next task in order.  Beginning a task reads the channel, and skips the task when it held an
   error.  Finishing with an error reads it too, and drops both errors when it held one.
   Pushing blocks while the channel is full.
   */
  function Act<T>(tasks: seq<Task<T>>, workers: nat, s: Pool, a: Action): Option<Pool>
    requires |s.phases| == |tasks|
  {
    match a
    case Hand =>
      if s.next >= |tasks| || Count(IsBusy, s.phases) >= workers then None
      else Some(To(s, s.next, Handed).(next := s.next + 1))
    case Begin(i) =>
      if i >= |tasks| || !s.phases[i].Handed? then None
      else if s.channel.Some? then Some(To(s, i, Done).(channel := None))
      else Some(To(s, i, Running))
    case Finish(i) =>
      if i >= |tasks| || !s.phases[i].Running? then None
      else if tasks[i].Ok? then Some(To(s, i, Done).(responses := s.responses + [i]))
      else if s.channel.Some? then Some(To(s, i, Done).(channel := None))
      else Some(To(s, i, Pushing))
    case Push(i) =>
      if i >= |tasks| || !s.phases[i].Pushing? || s.channel.Some? then None
      else Some(To(s, i, Done).(channel := Some(i)))
  }

  function Run<T>(tasks: seq<Task<T>>, workers: nat, s: Pool, actions: seq<Action>): (r: Option<Pool>)
    requires |s.phases| == |tasks|
    ensures r.Some? ==> |r.value.phases| == |tasks|
    decreases actions
  {
    if actions == [] then Some(s)
    else match Act(tasks, workers, s, actions[0])
      case None => None
      case Some(t) => Run(tasks, workers, t, actions[1..])
  }

  predicate Complete(s: Pool) {
    forall i :: 0 <= i < |s.phases| ==> s.phases[i].Done?
  }

  /** What waiting for the pool returns: its error, or the gathered tasks. */
  function StopWait(s: Pool): Result<seq<nat>, ()> {
    if s.channel.Some? then Err(()) else Ok(s.responses)
  }

  predicate NoneFails<T>(tasks: seq<Task<T>>) {
    forall i :: 0 <= i < |tasks| ==> tasks[i].Ok?
  }

  predicate AllFail<T>(tasks: seq<Task<T>>) {
    forall i :: 0 <= i < |tasks| ==> tasks[i].Err?
  }

  predicate AtMostOneFails<T>(tasks: seq<Task<T>>) {
    forall i, j :: 0 <= i < j < |tasks| ==> tasks[i].Ok? || tasks[j].Ok?
  }

  /** How many of the tasks submitted last fail without one that succeeds after them. */
  function TrailingFailures<T>(tasks: seq<Task<T>>): (t: nat)
    ensures t <= |tasks|
    ensures forall i :: |tasks| - t <= i < |tasks| ==> tasks[i].Err?
    ensures t < |tasks| ==> tasks[|tasks| - t - 1].Ok?
  {
    if tasks == [] || tasks[|tasks| - 1].Ok? then 0 else 1 + TrailingFailures(tasks[..|tasks| - 1])
  }

  /** The outcome a sequential loop over the tasks would have. */
  predicate AsSequential<T>(tasks: seq<Task<T>>, r: Result<seq<nat>, ()>) {
    if NoneFails(tasks) then r.Ok? && EachOnce(r.value, |tasks|) else r.Err?
  }

  /** Whatever the interleaving, a pool that completes has the sequential outcome. */
  ghost predicate Faithful<T>(tasks: seq<Task<T>>, workers: nat) {
    forall actions, s ::
      Run(tasks, workers, Submitted(|tasks|), actions) == Some(s) && Complete(s) ==>
        AsSequential(tasks, StopWait(s))
  }

  // ---------- Counting ----------

  lemma {:induction false} CountAfterUpdate(which: Phase -> bool, phases: seq<Phase>, i: nat, p: Phase)
    requires i < |phases|
    ensures Count(which, phases[i := p])
         == Count(which, phases) - (if which(phases[i]) then 1 else 0) + (if which(p) then 1 else 0)
  {
    var n := |phases| - 1;
    if i == n {
      assert phases[i := p][..n] == phases[..n];
    } else {
      assert phases[i := p][..n] == phases[..n][i := p];
      CountAfterUpdate(which, phases[..n], i, p);
    }
  }

  lemma {:induction false} CountAtEnds(which: Phase -> bool, phases: seq<Phase>)
    ensures Count(which, phases) <= |phases|
    ensures Count(which, phases) == 0 <==> forall i :: 0 <= i < |phases| ==> !which(phases[i])
    ensures Count(which, phases) == |phases| <==> forall i :: 0 <= i < |phases| ==> which(phases[i])
  {
    if phases == [] {
    } else {
      var n := |phases| - 1;
      CountAtEnds(which, phases[..n]);
      assert forall i :: 0 <= i < n ==> phases[..n][i] == phases[i];
    }
  }

  lemma {:induction false} CountTwo(which: Phase -> bool, phases: seq<Phase>, i: nat, j: nat)
    requires i < j < |phases| && which(phases[i]) && which(phases[j])
    ensures Count(which, phases) >= 2
  {
    CountAfterUpdate(which, phases, i, phases[i]);
    var n := |phases| - 1;
    if j < n {
      CountTwo(which, phases[..n], i, j);
    } else {
      CountAtEnds(which, phases[..n]);
      assert which(phases[..n][i]);
    }
  }

  /** An action only moves its own task's phase. */
  lemma {:induction false} ActMovesOne<T>(tasks: seq<Task<T>>, workers: nat, s: Pool, a: Action) returns (i: nat)
    requires |s.phases| == |tasks| && Act(tasks, workers, s, a).Some?
    ensures i < |tasks| && |Act(tasks, workers, s, a).value.phases| == |tasks|
    ensures i == if a.Hand? then s.next else a.task
    ensures var t := Act(tasks, workers, s, a).value; t.phases == s.phases[i := t.phases[i]]
  {
    i := if a.Hand? then s.next else a.task;
  }

  // ---------- What every run keeps ----------

  predicate InOrder(s: Pool) {
    s.next <= |s.phases| && forall i :: 0 <= i < |s.phases| ==> (s.phases[i].Queued? <==> i >= s.next)
  }

  predicate ErrorsAccounted<T>(tasks: seq<Task<T>>, s: Pool) {
    && |s.phases| == |tasks|
    && (s.channel.Some? ==> Fails(tasks, s.channel.value) && s.phases[s.channel.value].Done?)
    && (forall i :: 0 <= i < |tasks| && s.phases[i].Pushing? ==> tasks[i].Err?)
  }

  /** Is the channel full after one worker has run the tasks from `from` up to `end`? */
  function Relay<T>(tasks: seq<Task<T>>, full: bool, from: nat, end: nat): bool
    requires end <= |tasks|
    decreases end
  {
    if end <= from then full else !Relay(tasks, full, from, end - 1) && tasks[end - 1].Err?
  }

  /** With one worker everything handed out is done but the last, and the channel is as relayed. */
  predicate OneWorker<T>(tasks: seq<Task<T>>, s: Pool) {
    && s.next <= |s.phases| == |tasks|
    && (forall i :: 0 <= i < s.next - 1 ==> s.phases[i].Done?)
    && if s.next == 0 then s.channel.None?
       else
         var last := s.next - 1;
         match s.phases[last]
         case Queued => false
         case Handed => s.channel.Some? <==> Relay(tasks, false, 0, last)
         case Done => s.channel.Some? <==> Relay(tasks, false, 0, s.next)
         case _ => s.channel.None? && !Relay(tasks, false, 0, last)
  }

  /**
   With two workers a full channel leaves room for one begun task.  Once a last task that
   succeeds has read the channel, only a task still busy then can fill it again.
   */
  predicate TwoWorkers<T>(tasks: seq<Task<T>>, s: Pool) {
    && |s.phases| == |tasks|
    && (s.channel.Some? ==> Count(IsActive, s.phases) <= 1)
    && (tasks != [] && s.next == |tasks| && tasks[|tasks| - 1].Ok? ==>
          var last := |tasks| - 1;
          && (forall i, j :: 0 <= i < j < last ==> !(IsBusy(s.phases[i]) && IsBusy(s.phases[j])))
          && (s.channel.Some? && !s.phases[last].Handed? ==> forall i :: 0 <= i < last ==> !IsBusy(s.phases[i])))
  }

  predicate Inv<T>(tasks: seq<Task<T>>, workers: nat, s: Pool) {
    && InOrder(s) && ErrorsAccounted(tasks, s) && Count(IsBusy, s.phases) <= workers
    && (workers == 1 ==> OneWorker(tasks, s))
    && (workers == 2 ==> TwoWorkers(tasks, s))
    && (AllFail(tasks) ==> (s.channel.Some? <==> Count(IsDone, s.phases) % 2 == 1))
  }

  lemma {:induction false} OneWorkerStep<T>(tasks: seq<Task<T>>, s: Pool, a: Action)
    requires InOrder(s) && ErrorsAccounted(tasks, s) && OneWorker(tasks, s)
    requires Act(tasks, 1, s, a).Some?
    ensures OneWorker(tasks, Act(tasks, 1, s, a).value)
  {
    if a.Hand? {
      CountAtEnds(IsBusy, s.phases);
      assert s.next > 0 ==> !IsBusy(s.phases[s.next - 1]);
    } else {
      assert a.task == s.next - 1;
    }
  }

  lemma {:induction false} TwoWorkersStep<T>(tasks: seq<Task<T>>, s: Pool, a: Action)
    requires InOrder(s) && ErrorsAccounted(tasks, s) && TwoWorkers(tasks, s) && Count(IsBusy, s.phases) <= 2
    requires Act(tasks, 2, s, a).Some?
    ensures TwoWorkers(tasks, Act(tasks, 2, s, a).value)
  {
    var t := Act(tasks, 2, s, a).value;
    var i := ActMovesOne(tasks, 2, s, a);
    CountAfterUpdate(IsActive, s.phases, i, t.phases[i]);
    CountAfterUpdate(IsBusy, s.phases, i, t.phases[i]);
    ActiveIsBusy(t.phases);
    forall j, k | 0 <= j < k < |tasks| && IsBusy(s.phases[j]) && IsBusy(s.phases[k])
      ensures Count(IsBusy, s.phases) >= 2
    {
      CountTwo(IsBusy, s.phases, j, k);
    }
  }

  lemma {:induction false} ActiveIsBusy(phases: seq<Phase>)
    ensures Count(IsActive, phases) <= Count(IsBusy, phases)
  {
    if phases == [] {
    } else {
      ActiveIsBusy(phases[..|phases| - 1]);
    }
  }

  lemma {:induction false} ActKeepsOrder<T>(tasks: seq<Task<T>>, workers: nat, s: Pool, a: Action)
    requires InOrder(s) && ErrorsAccounted(tasks, s) && Act(tasks, workers, s, a).Some?
    ensures InOrder(Act(tasks, workers, s, a).value) && ErrorsAccounted(tasks, Act(tasks, workers, s, a).value)
  {
  }

  lemma {:induction false} ActKeepsCounts<T>(tasks: seq<Task<T>>, workers: nat, s: Pool, a: Action)
    requires InOrder(s) && |s.phases| == |tasks| && Act(tasks, workers, s, a).Some?
    requires Count(IsBusy, s.phases) <= workers
    ensures Count(IsBusy, Act(tasks, workers, s, a).value.phases) <= workers
    ensures AllFail(tasks) && (s.channel.Some? <==> Count(IsDone, s.phases) % 2 == 1) ==>
              var t := Act(tasks, workers, s, a).value; t.channel.Some? <==> Count(IsDone, t.phases) % 2 == 1
  {
    var t := Act(tasks, workers, s, a).value;
    var i := ActMovesOne(tasks, workers, s, a);
    CountAfterUpdate(IsBusy, s.phases, i, t.phases[i]);
    CountAfterUpdate(IsDone, s.phases, i, t.phases[i]);
  }

  lemma {:induction false} ActKeepsInv<T>(tasks: seq<Task<T>>, workers: nat, s: Pool, a: Action)
    requires Inv(tasks, workers, s) && Act(tasks, workers, s, a).Some?
    ensures Inv(tasks, workers, Act(tasks, workers, s, a).value)
  {
    ActKeepsOrder(tasks, workers, s, a);
    ActKeepsCounts(tasks, workers, s, a);
    if workers == 1 {
      OneWorkerStep(tasks, s, a);
    }
    if workers == 2 {
      TwoWorkersStep(tasks, s, a);
    }
  }

  lemma {:induction false} RunKeepsInv<T>(tasks: seq<Task<T>>, workers: nat, s: Pool, actions: seq<Action>)
    requires Inv(tasks, workers, s) && Run(tasks, workers, s, actions).Some?
    ensures Inv(tasks, workers, Run(tasks, workers, s, actions).value)
    decreases actions
  {
    if actions == [] {
    } else {
      ActKeepsInv(tasks, workers, s, actions[0]);
      RunKeepsInv(tasks, workers, Act(tasks, workers, s, actions[0]).value, actions[1..]);
    }
  }

  lemma {:induction false} SubmittedInv<T>(tasks: seq<Task<T>>, workers: nat)
    ensures Inv(tasks, workers, Submitted(|tasks|))
    ensures Count(IsBusy, Submitted(|tasks|).phases) == 0
  {
    var phases := Submitted(|tasks|).phases;
    CountAtEnds(IsBusy, phases);
    CountAtEnds(IsDone, phases);
  }

  /** In every reachable state of a pool, whatever the interleaving. */
  lemma {:induction false} ReachableInv<T>(tasks: seq<Task<T>>, workers: nat, actions: seq<Action>)
    requires Run(tasks, workers, Submitted(|tasks|), actions).Some?
    ensures Inv(tasks, workers, Run(tasks, workers, Submitted(|tasks|), actions).value)
  {
    SubmittedInv(tasks, workers);
    RunKeepsInv(tasks, workers, Submitted(|tasks|), actions);
  }

  // ---------- What is gathered ----------

  predicate GatheredExactly<T>(tasks: seq<Task<T>>, s: Pool) {
    && |s.phases| == |tasks|
    && s.channel.None?
    && s.next <= |tasks| && (forall i :: s.next <= i < |tasks| ==> s.phases[i].Queued?)
    && (forall i :: 0 <= i < |tasks| ==> !s.phases[i].Pushing?)
    && (forall i :: 0 <= i < |tasks| && s.phases[i].Done? ==> i in s.responses)
    && (forall i, j :: 0 <= i < j < |s.responses| ==> s.responses[i] != s.responses[j])
    && (forall i :: 0 <= i < |s.responses| ==> s.responses[i] < |tasks| && s.phases[s.responses[i]].Done?)
  }

  lemma {:induction false} SuccessIsGathered<T>(tasks: seq<Task<T>>, workers: nat, s: Pool, a: Action)
    requires NoneFails(tasks) && GatheredExactly(tasks, s)
    requires Act(tasks, workers, s, a).Some?
    ensures GatheredExactly(tasks, Act(tasks, workers, s, a).value)
  {
    var t := Act(tasks, workers, s, a).value;
    if a.Finish? {
      assert t.responses[|s.responses|] == a.task;
      forall i | 0 <= i < |tasks| && t.phases[i].Done? ensures i in t.responses {
        assert i != a.task ==> i in s.responses;
      }
    }
  }

  /** While no task fails, exactly the finished tasks have been gathered, each once. */
  lemma {:induction false} SuccessesAreGathered<T>(tasks: seq<Task<T>>, workers: nat, s: Pool, actions: seq<Action>)
    requires NoneFails(tasks) && GatheredExactly(tasks, s)
    requires Run(tasks, workers, s, actions).Some?
    ensures GatheredExactly(tasks, Run(tasks, workers, s, actions).value)
    decreases actions
  {
    if actions == [] {
    } else {
      SuccessIsGathered(tasks, workers, s, actions[0]);
      SuccessesAreGathered(tasks, workers, Act(tasks, workers, s, actions[0]).value, actions[1..]);
    }
  }

  predicate GatheredSucceeded<T>(tasks: seq<Task<T>>, s: Pool) {
    && |s.phases| == |tasks|
    && forall i :: 0 <= i < |s.responses| ==> s.responses[i] < |tasks| && tasks[s.responses[i]].Ok?
  }

  /** Only results of tasks that succeed are ever gathered. */
  lemma {:induction false} OnlySuccessesAreGathered<T>(tasks: seq<Task<T>>, workers: nat, s: Pool, actions: seq<Action>)
    requires GatheredSucceeded(tasks, s)
    requires Run(tasks, workers, s, actions).Some?
    ensures GatheredSucceeded(tasks, Run(tasks, workers, s, actions).value)
    decreases actions
  {
    if actions == [] {
    } else {
      OnlySuccessesAreGathered(tasks, workers, Act(tasks, workers, s, actions[0]).value, actions[1..]);
    }
  }

  // ---------- Relaying errors from task to task ----------

  lemma {:induction false} RelaySplit<T>(tasks: seq<Task<T>>, full: bool, from: nat, mid: nat, end: nat)
    requires from <= mid <= end <= |tasks|
    ensures Relay(tasks, full, from, end) == Relay(tasks, Relay(tasks, full, from, mid), mid, end)
    decreases end
  {
    if mid == end {
    } else {
      RelaySplit(tasks, full, from, mid, end - 1);
    }
  }

  /** Failing tasks flip the channel one after the other, starting empty after a success. */
  lemma {:induction false} RelayOfFailures<T>(tasks: seq<Task<T>>, full: bool, from: nat, end: nat)
    requires from <= end <= |tasks| && forall i :: from <= i < end ==> tasks[i].Err?
    ensures Relay(tasks, full, from, end) <==> full == ((end - from) % 2 == 0)
    decreases end
  {
    if from == end {
    } else {
      RelayOfFailures(tasks, full, from, end - 1);
    }
  }

  lemma {:induction false} RelayOfSuccesses<T>(tasks: seq<Task<T>>, from: nat, end: nat)
    requires from <= end <= |tasks| && forall i :: from <= i < end ==> tasks[i].Ok?
    ensures !Relay(tasks, false, from, end)
  {
    if from == end {
    } else {
      RelayOfSuccesses(tasks, from, end - 1);
    }
  }

  /** Through to the end only the trailing failures decide, once a success was passed. */
  lemma {:induction false} RelayToEnd<T>(tasks: seq<Task<T>>, full: bool, from: nat)
    requires from + TrailingFailures(tasks) <= |tasks|
    requires full ==> from + TrailingFailures(tasks) < |tasks|
    ensures Relay(tasks, full, from, |tasks|) <==> TrailingFailures(tasks) % 2 == 1
  {
    var g := |tasks| - TrailingFailures(tasks);
    RelaySplit(tasks, full, from, g, |tasks|);
    RelayOfFailures(tasks, Relay(tasks, full, from, g), g, |tasks|);
  }

  // ---------- Driving a pool ----------

  lemma {:induction false} RunAppend<T>(tasks: seq<Task<T>>, workers: nat, s: Pool, first: seq<Action>,
                                        second: seq<Action>)
    requires |s.phases| == |tasks|
    requires Run(tasks, workers, s, first).Some?
    ensures Run(tasks, workers, s, first + second)
         == Run(tasks, workers, Run(tasks, workers, s, first).value, second)
    decreases first
  {
    if first == [] {
      assert first + second == second;
    } else {
      assert (first + second)[0] == first[0] && (first + second)[1..] == first[1..] + second;
      RunAppend(tasks, workers, Act(tasks, workers, s, first[0]).value, first[1..], second);
    }
  }

  lemma {:induction false} RunOne<T>(tasks: seq<Task<T>>, workers: nat, s: Pool, a: Action)
    requires |s.phases| == |tasks|
    ensures Run(tasks, workers, s, [a]) == Act(tasks, workers, s, a)
  {
  }

  /** One action more at the end of a run. */
  lemma {:induction false} RunThen<T>(tasks: seq<Task<T>>, workers: nat, s: Pool, actions: seq<Action>, mid: Pool,
                                      a: Action)
    requires |s.phases| == |tasks| && Run(tasks, workers, s, actions) == Some(mid)
    ensures Run(tasks, workers, s, actions + [a]) == Act(tasks, workers, mid, a)
  {
    RunAppend(tasks, workers, s, actions, [a]);
    RunOne(tasks, workers, mid, a);
  }

  /** Begin a task that was handed out and bring it to its end, or to the push of its error. */
  lemma {:induction false} BeginAndFinish<T>(tasks: seq<Task<T>>, workers: nat, s: Pool, i: nat)
    returns (actions: seq<Action>, t: Pool)
    requires |s.phases| == |tasks| && i < |tasks| && s.phases[i].Handed?
    ensures Run(tasks, workers, s, actions) == Some(t)
    ensures t.next == s.next && t.channel.None?
    ensures t.phases == s.phases[i := if s.channel.None? && tasks[i].Err? then Pushing else Done]
  {
    RunOne(tasks, workers, s, Begin(i));
    actions, t := [Begin(i)], Act(tasks, workers, s, Begin(i)).value;
    if s.channel.None? {
      RunThen(tasks, workers, s, actions, t, Finish(i));
      actions, t := actions + [Finish(i)], Act(tasks, workers, t, Finish(i)).value;
    }
  }

  /** Hand out the next task and leave it there. */
  lemma {:induction false} HandNext<T>(tasks: seq<Task<T>>, workers: nat, s: Pool) returns (t: Pool)
    requires InOrder(s) && |s.phases| == |tasks| && s.next < |tasks| && Count(IsBusy, s.phases) < workers
    ensures Run(tasks, workers, s, [Hand]) == Some(t)
    ensures InOrder(t) && t == s.(phases := s.phases[s.next := Handed], next := s.next + 1)
    ensures Count(IsBusy, t.phases) == Count(IsBusy, s.phases) + 1
  {
    RunOne(tasks, workers, s, Hand);
    t := Act(tasks, workers, s, Hand).value;
    CountAfterUpdate(IsBusy, s.phases, s.next, Handed);
  }

  /** Hand out the next task, which fails, and hold it where it is about to push its error. */
  lemma {:induction false} HoldPushing<T>(tasks: seq<Task<T>>, workers: nat, s: Pool)
    returns (actions: seq<Action>, t: Pool)
    requires InOrder(s) && |s.phases| == |tasks| && s.next < |tasks| && Count(IsBusy, s.phases) < workers
    requires s.channel.None? && tasks[s.next].Err?
    ensures Run(tasks, workers, s, actions) == Some(t)
    ensures InOrder(t) && t.channel.None? && t.next == s.next + 1 && t.phases == s.phases[s.next := Pushing]
    ensures Count(IsBusy, t.phases) == Count(IsBusy, s.phases) + 1
  {
    var handed := HandNext(tasks, workers, s);
    var more;
    more, t := BeginAndFinish(tasks, workers, handed, s.next);
    actions := [Hand] + more;
    RunAppend(tasks, workers, s, [Hand], more);
    CountAfterUpdate(IsBusy, s.phases, s.next, Pushing);
  }

  /** Run the next task to its end while the others stand still. */
  lemma {:induction false} Solo<T>(tasks: seq<Task<T>>, workers: nat, s: Pool) returns (actions: seq<Action>, t: Pool)
    requires InOrder(s) && |s.phases| == |tasks| && s.next < |tasks| && Count(IsBusy, s.phases) < workers
    ensures Run(tasks, workers, s, actions) == Some(t)
    ensures InOrder(t) && t.next == s.next + 1 && t.phases == s.phases[s.next := Done]
    ensures Count(IsBusy, t.phases) == Count(IsBusy, s.phases)
    ensures t.channel.Some? <==> s.channel.None? && tasks[s.next].Err?
  {
    var i := s.next;
    var handed := HandNext(tasks, workers, s);
    var more;
    more, t := BeginAndFinish(tasks, workers, handed, i);
    actions := [Hand] + more;
    RunAppend(tasks, workers, s, [Hand], more);
    if t.phases[i].Pushing? {
      RunThen(tasks, workers, s, actions, t, Push(i));
      actions, t := actions + [Push(i)], Act(tasks, workers, t, Push(i)).value;
    }
    assert t.phases == s.phases[i := Done];
    CountAfterUpdate(IsBusy, s.phases, i, Done);
  }

  /** Run the next tasks up to `end` one after the other while the others stand still. */
  lemma {:induction false} Drain<T>(tasks: seq<Task<T>>, workers: nat, s: Pool, end: nat)
    returns (actions: seq<Action>, t: Pool)
    requires InOrder(s) && |s.phases| == |tasks| && s.next <= end <= |tasks|
    requires s.next < end ==> Count(IsBusy, s.phases) < workers
    ensures Run(tasks, workers, s, actions) == Some(t)
    ensures InOrder(t) && t.next == end && |t.phases| == |tasks|
    ensures Count(IsBusy, t.phases) == Count(IsBusy, s.phases)
    ensures forall i :: 0 <= i < |tasks| ==> t.phases[i] == if s.next <= i < end then Done else s.phases[i]
    ensures t.channel.Some? <==> Relay(tasks, s.channel.Some?, s.next, end)
    decreases end
  {
    if end == s.next {
      return [], s;
    }
    var before, mid := Drain(tasks, workers, s, end - 1);
    var last;
    last, t := Solo(tasks, workers, mid);
    actions := before + last;
    RunAppend(tasks, workers, s, before, last);
  }

  // ---------- When the outcome is the sequential one ----------

  /** Everything in order on one worker: the trailing failures decide what is reported. */
  lemma {:induction false} OneAfterTheOther<T>(tasks: seq<Task<T>>, workers: nat)
    returns (actions: seq<Action>, t: Pool)
    requires workers >= 1
    ensures Run(tasks, workers, Submitted(|tasks|), actions) == Some(t) && Complete(t)
    ensures StopWait(t).Err? <==> TrailingFailures(tasks) % 2 == 1
  {
    SubmittedInv(tasks, workers);
    actions, t := Drain(tasks, workers, Submitted(|tasks|), |tasks|);
    RelayToEnd(tasks, false, 0);
  }

  /** With two workers a success can be held back until all else is done, and swallow the error. */
  lemma {:induction false} HeldSuccessHidesFailures<T>(tasks: seq<Task<T>>, workers: nat, good: nat)
    returns (actions: seq<Action>, t: Pool)
    requires good < |tasks| && tasks[good].Ok? && workers >= 2
    ensures Run(tasks, workers, Submitted(|tasks|), actions) == Some(t)
    ensures Complete(t) && StopWait(t).Ok?
  {
    var s := Submitted(|tasks|);
    SubmittedInv(tasks, workers);
    var before, s1 := Drain(tasks, workers, s, good);
    var s2 := HandNext(tasks, workers, s1);
    var after, s3 := Drain(tasks, workers, s2, |tasks|);
    var last;
    last, t := BeginAndFinish(tasks, workers, s3, good);
    RunAppend(tasks, workers, s, before, [Hand]);
    RunAppend(tasks, workers, s, before + [Hand], after);
    RunAppend(tasks, workers, s, before + [Hand] + after, last);
    actions := before + [Hand] + after + last;
  }

  predicate FaithfulWhen<T>(tasks: seq<Task<T>>, workers: nat) {
    || NoneFails(tasks)
    || (if workers == 1 then TrailingFailures(tasks) % 2 == 1 else AllFail(tasks) && |tasks| % 2 == 1)
  }

  lemma {:induction false} CompletedAsSequential<T>(tasks: seq<Task<T>>, workers: nat, actions: seq<Action>)
    requires workers >= 1 && FaithfulWhen(tasks, workers)
    requires Run(tasks, workers, Submitted(|tasks|), actions).Some?
    requires Complete(Run(tasks, workers, Submitted(|tasks|), actions).value)
    ensures AsSequential(tasks, StopWait(Run(tasks, workers, Submitted(|tasks|), actions).value))
  {
    var t := Run(tasks, workers, Submitted(|tasks|), actions).value;
    if NoneFails(tasks) {
      SuccessesAreGathered(tasks, workers, Submitted(|tasks|), actions);
    } else {
      ReachableInv(tasks, workers, actions);
      if workers == 1 {
        assert t.next == |tasks|;
        RelayToEnd(tasks, false, 0);
      } else {
        CountAtEnds(IsDone, t.phases);
      }
    }
  }

  /**
   When a pool has the sequential outcome in every interleaving.  With one worker: exactly when
   no task fails, or an odd number of tasks fails after the last success.  With more: exactly
   when no task fails, or all of them do and they are an odd number.  Otherwise some
   interleaving reports success although a task failed, and results are missing.
   */
  lemma {:induction false} FaithfulIff<T>(tasks: seq<Task<T>>, workers: nat)
    requires workers >= 1
    ensures Faithful(tasks, workers) <==> FaithfulWhen(tasks, workers)
  {
    if FaithfulWhen(tasks, workers) {
      forall actions, t | Run(tasks, workers, Submitted(|tasks|), actions) == Some(t) && Complete(t)
        ensures AsSequential(tasks, StopWait(t))
      {
        CompletedAsSequential(tasks, workers, actions);
      }
    } else if workers == 1 || AllFail(tasks) {
      if AllFail(tasks) {
        assert TrailingFailures(tasks) == |tasks|;
      }
      var actions, t := OneAfterTheOther(tasks, workers);
    } else {
      var good: nat :| good < |tasks| && tasks[good].Ok?;
      var actions, t := HeldSuccessHidesFailures(tasks, workers, good);
    }
  }
}
