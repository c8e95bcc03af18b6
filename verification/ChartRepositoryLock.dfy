/**
 The per-repository lock around chart operations: a growing map from repository name to
 mutex, itself guarded by `mapLock`, and the requests that lock and unlock through it.
 */
module ChartRepositoryLock {
  import opened Wrappers

  /** Look a name up, inserting `made` when it is missing. */
  function LookupOrInsert<M>(locks: map<string, M>, name: string, made: M): (map<string, M>, M) {
    if name in locks then (locks, locks[name]) else (locks[name := made], made)
  }

  class Mutex {
    constructor () {}
  }

  class ChartRepositoryLocker {
    var locks: map<string, Mutex>

    /** No two repositories share a mutex. */
    ghost predicate Valid()
      reads this
    {
      forall a, b :: a in locks && b in locks && a != b ==> locks[a] != locks[b]
    }

    constructor ()
      ensures Valid() && locks == map[]
    {
      locks := map[];
    }

    /** The section that `mapLock` guards, so one atomic step. */
    method GetLockBy(chartRepoName: string) returns (mutex: Mutex)
      requires Valid()
      modifies this
      ensures Valid()
      ensures (locks, mutex) == LookupOrInsert(old(locks), chartRepoName, mutex)
      ensures chartRepoName !in old(locks) ==> fresh(mutex)
    {
      if chartRepoName in locks {
        return locks[chartRepoName];
      }
      mutex := new Mutex();
      locks := locks[chartRepoName := mutex];
    }
  }

  // ---------- Any number of requests, interleaved ----------

  /** A mutex of the protocol: the number of mutexes made before it. */
  type MutexId = nat

  /**
   Where a request is.  `taken` is the mutex its `Lock` acquired; `mutex` is what the lookup
   in progress returned.  A request without a chart repository takes no lock.
   */
  datatype Phase =
    | Lockless
    | LockEntry
    | LockLookup
    | LockFound(mutex: MutexId)
    | Waiting(mutex: MutexId)
    | Critical(taken: MutexId)
    | UnlockEntry(taken: MutexId)
    | UnlockLookup(taken: MutexId)
    | UnlockFound(taken: MutexId, mutex: MutexId)
    | Releasing(taken: MutexId, mutex: MutexId)
    | Finished

  /**
   Go mutexes have no owner: `mapLocked` and `held` only say which are locked.  `fatal` is
   set when an unlocked mutex is unlocked, which ends a Go program.
   */
  datatype State = State(
    phases: seq<Phase>,
    mapLocked: bool,
    locks: map<string, MutexId>,
    mutexes: nat,
    held: set<MutexId>,
    fatal: bool)

  function Entering(repo: Option<string>): Phase {
    if repo.None? then Lockless else LockEntry
  }

  function Initial(repos: seq<Option<string>>): State {
    State(seq(|repos|, i requires 0 <= i < |repos| => Entering(repos[i])), false, map[], 0, {}, false)
  }

  /** Can request `i` take its next step, rather than being finished or blocked on a lock? */
  predicate Enabled(s: State, i: nat) {
    && i < |s.phases|
    && match s.phases[i]
       case Finished => false
       case LockEntry => !s.mapLocked
       case UnlockEntry(_) => !s.mapLocked
       case Waiting(m) => m !in s.held
       case _ => true
  }

  function Lookup(s: State, name: string): (State, MutexId) {
    var (locks, m) := LookupOrInsert(s.locks, name, s.mutexes);
    (s.(locks := locks, mutexes := if name in s.locks then s.mutexes else s.mutexes + 1), m)
  }

  function UnlockMap(s: State): State {
    s.(mapLocked := false, fatal := s.fatal || !s.mapLocked)
  }

  function UnlockMutex(s: State, m: MutexId): State {
    s.(held := s.held - {m}, fatal := s.fatal || m !in s.held)
  }

  /** One atomic step of request `i`, whose repository is named `name`. */
  function Next(s: State, i: nat, name: string): State
    requires Enabled(s, i)
  {
    match s.phases[i]
    case Lockless => At(s, i, Finished)
    case LockEntry => At(s.(mapLocked := true), i, LockLookup)
    case LockLookup => var (t, m) := Lookup(s, name); At(t, i, LockFound(m))
    case LockFound(m) => At(UnlockMap(s), i, Waiting(m))
    case Waiting(m) => At(s.(held := s.held + {m}), i, Critical(m))
    case Critical(k) => At(s, i, UnlockEntry(k))
    case UnlockEntry(k) => At(s.(mapLocked := true), i, UnlockLookup(k))
    case UnlockLookup(k) => var (t, m) := Lookup(s, name); At(t, i, UnlockFound(k, m))
    case UnlockFound(k, m) => At(UnlockMap(s), i, Releasing(k, m))
    case Releasing(k, m) => At(UnlockMutex(s, m), i, Finished)
  }

  function At(s: State, i: nat, p: Phase): State
    requires i < |s.phases|
  {
    s.(phases := s.phases[i := p])
  }

  function NameOf(repos: seq<Option<string>>, i: nat): string
    requires i < |repos|
  {
    repos[i].GetOr("")
  }

  /** The state after the requests took one step each in the order of `schedule`. */
  function Run(repos: seq<Option<string>>, schedule: seq<nat>): Option<State> {
    if schedule == [] then Some(Initial(repos))
    else match Run(repos, schedule[..|schedule| - 1])
      case None => None
      case Some(s) =>
        var i := schedule[|schedule| - 1];
        if i < |repos| && Enabled(s, i) then Some(Next(s, i, NameOf(repos, i))) else None
  }

  // ---------- Invariant ----------

  predicate HoldsMap(p: Phase) {
    p.LockLookup? || p.LockFound? || p.UnlockLookup? || p.UnlockFound?
  }

  predicate HoldsMutex(p: Phase) {
    p.Critical? || p.UnlockEntry? || p.UnlockLookup? || p.UnlockFound? || p.Releasing?
  }

  /** The mutexes a phase remembers are the one its repository is mapped to. */
  predicate PhaseFits(s: State, p: Phase, repo: Option<string>) {
    match p
    case Lockless => repo.None?
    case Finished => true
    case LockEntry => repo.Some?
    case LockLookup => repo.Some?
    case LockFound(m) => Mapped(s, repo, m)
    case Waiting(m) => Mapped(s, repo, m)
    case Critical(k) => Mapped(s, repo, k)
    case UnlockEntry(k) => Mapped(s, repo, k)
    case UnlockLookup(k) => Mapped(s, repo, k)
    case UnlockFound(k, m) => Mapped(s, repo, k) && m == k
    case Releasing(k, m) => Mapped(s, repo, k) && m == k
  }

  predicate Mapped(s: State, repo: Option<string>, m: MutexId) {
    repo.Some? && repo.value in s.locks && s.locks[repo.value] == m
  }

  predicate LocksDistinct(s: State) {
    && (forall a :: a in s.locks ==> s.locks[a] < s.mutexes)
    && (forall a, b :: a in s.locks && b in s.locks && a != b ==> s.locks[a] != s.locks[b])
  }

  predicate MapExclusive(s: State) {
    && (forall i :: 0 <= i < |s.phases| && HoldsMap(s.phases[i]) ==> s.mapLocked)
    && (forall i, j :: 0 <= i < j < |s.phases| ==> !(HoldsMap(s.phases[i]) && HoldsMap(s.phases[j])))
    && (s.mapLocked ==> exists i :: 0 <= i < |s.phases| && HoldsMap(s.phases[i]))
  }

  predicate MutexExclusive(s: State) {
    && (forall i :: 0 <= i < |s.phases| && HoldsMutex(s.phases[i]) ==> s.phases[i].taken in s.held)
    && (forall i, j :: 0 <= i < j < |s.phases| && HoldsMutex(s.phases[i]) && HoldsMutex(s.phases[j]) ==>
          s.phases[i].taken != s.phases[j].taken)
    && (forall m :: m in s.held ==>
          exists i :: 0 <= i < |s.phases| && HoldsMutex(s.phases[i]) && s.phases[i].taken == m)
  }

  predicate Inv(repos: seq<Option<string>>, s: State) {
    && |s.phases| == |repos|
    && !s.fatal
    && (forall i :: 0 <= i < |repos| ==> PhaseFits(s, s.phases[i], repos[i]))
    && LocksDistinct(s) && MapExclusive(s) && MutexExclusive(s)
  }

  lemma {:induction false} StepKeepsMapExclusive(repos: seq<Option<string>>, s: State, i: nat)
    requires Inv(repos, s) && Enabled(s, i)
    ensures MapExclusive(Next(s, i, NameOf(repos, i)))
  {
    var t := Next(s, i, NameOf(repos, i));
    assert forall j :: 0 <= j < |s.phases| && j != i ==> t.phases[j] == s.phases[j];
    if t.mapLocked {
      if s.mapLocked {
        var j :| 0 <= j < |s.phases| && HoldsMap(s.phases[j]);
        assert HoldsMap(t.phases[j]);
      } else {
        assert HoldsMap(t.phases[i]);
      }
    }
  }

  /** Request `i` went from phase `p` to `q` and took, gave back or kept its mutex. */
  predicate MutexMoves(s: State, t: State, p: Phase, q: Phase) {
    || (!HoldsMutex(p) && HoldsMutex(q) && q.taken !in s.held && t.held == s.held + {q.taken})
    || (HoldsMutex(p) && !HoldsMutex(q) && t.held == s.held - {p.taken})
    || (HoldsMutex(p) && HoldsMutex(q) && p.taken == q.taken && t.held == s.held)
    || (!HoldsMutex(p) && !HoldsMutex(q) && t.held == s.held)
  }

  lemma {:induction false} MutexMovesKeepExclusive(s: State, t: State, i: nat)
    requires MutexExclusive(s)
    requires i < |s.phases| == |t.phases| && t.phases == s.phases[i := t.phases[i]]
    requires MutexMoves(s, t, s.phases[i], t.phases[i])
    ensures MutexExclusive(t)
  {
    forall m | m in t.held
      ensures exists j :: 0 <= j < |t.phases| && HoldsMutex(t.phases[j]) && t.phases[j].taken == m
    {
      if m in s.held {
        var j :| 0 <= j < |s.phases| && HoldsMutex(s.phases[j]) && s.phases[j].taken == m;
        assert HoldsMutex(t.phases[j]) && t.phases[j].taken == m;
      } else {
        assert HoldsMutex(t.phases[i]) && t.phases[i].taken == m;
      }
    }
  }

  lemma {:induction false} StepMovesMutex(s: State, i: nat, name: string, repo: Option<string>)
    requires Enabled(s, i) && PhaseFits(s, s.phases[i], repo)
    ensures var t := Next(s, i, name);
            |t.phases| == |s.phases| && t.phases == s.phases[i := t.phases[i]]
            && MutexMoves(s, t, s.phases[i], t.phases[i])
  {
  }

  lemma {:induction false} StepKeepsPhases(repos: seq<Option<string>>, s: State, i: nat)
    requires Inv(repos, s) && Enabled(s, i)
    ensures var t := Next(s, i, NameOf(repos, i));
            && !t.fatal && LocksDistinct(t)
            && forall j :: 0 <= j < |repos| ==> PhaseFits(t, t.phases[j], repos[j])
  {
    var t := Next(s, i, NameOf(repos, i));
    assert PhaseFits(s, s.phases[i], repos[i]);
    forall j | 0 <= j < |repos| ensures PhaseFits(t, t.phases[j], repos[j]) {
      assert PhaseFits(s, s.phases[j], repos[j]);
    }
  }

  /** Every interleaving keeps the invariant, so none unlocks a mutex that is not locked. */
  lemma {:induction false} RunKeepsInv(repos: seq<Option<string>>, schedule: seq<nat>)
    requires Run(repos, schedule).Some?
    ensures Inv(repos, Run(repos, schedule).value)
  {
    if schedule == [] {
    } else {
      var before := schedule[..|schedule| - 1];
      RunKeepsInv(repos, before);
      var s, i := Run(repos, before).value, schedule[|schedule| - 1];
      StepKeepsPhases(repos, s, i);
      StepKeepsMapExclusive(repos, s, i);
      StepMovesMutex(s, i, NameOf(repos, i), repos[i]);
      MutexMovesKeepExclusive(s, Next(s, i, NameOf(repos, i)), i);
    }
  }

  /** At most one request is between `Lock` and `Unlock` of a repository name. */
  lemma {:induction false} MutualExclusion(repos: seq<Option<string>>, schedule: seq<nat>, i: nat, j: nat)
    requires Run(repos, schedule).Some? && i < |repos| && j < |repos|
    requires i != j && repos[i] == repos[j]
    ensures var s := Run(repos, schedule).value;
            && |s.phases| == |repos|
            && !(HoldsMutex(s.phases[i]) && HoldsMutex(s.phases[j]))
  {
    RunKeepsInv(repos, schedule);
    var s := Run(repos, schedule).value;
    assert PhaseFits(s, s.phases[i], repos[i]) && PhaseFits(s, s.phases[j], repos[j]);
  }

  /** An `Unlock` looks its mutex up anew, and always finds the one its own `Lock` took. */
  lemma {:induction false} UnlockReleasesOwnMutex(repos: seq<Option<string>>, schedule: seq<nat>, i: nat)
    requires Run(repos, schedule).Some? && i < |repos|
    ensures var s := Run(repos, schedule).value;
            && |s.phases| == |repos| && !s.fatal
            && (s.phases[i].Releasing? ==> s.phases[i].mutex == s.phases[i].taken && s.phases[i].mutex in s.held)
  {
    RunKeepsInv(repos, schedule);
    var s := Run(repos, schedule).value;
    assert PhaseFits(s, s.phases[i], repos[i]);
  }

  predicate Keeps(s: State, t: State) {
    forall a :: a in s.locks ==> a in t.locks && t.locks[a] == s.locks[a]
  }

  lemma {:induction false} NextKeepsLocks(s: State, i: nat, name: string)
    requires Enabled(s, i)
    ensures Keeps(s, Next(s, i, name))
  {
  }

  lemma {:induction false} StepKeepsLocks(repos: seq<Option<string>>, schedule: seq<nat>, i: nat)
    requires Run(repos, schedule + [i]).Some?
    ensures Run(repos, schedule).Some?
    ensures Keeps(Run(repos, schedule).value, Run(repos, schedule + [i]).value)
  {
    assert (schedule + [i])[..|schedule|] == schedule;
    NextKeepsLocks(Run(repos, schedule).value, i, NameOf(repos, i));
  }

  /** The map only grows and never remaps a name. */
  lemma {:induction false} LocksOnlyGrow(repos: seq<Option<string>>, schedule: seq<nat>, more: seq<nat>)
    requires Run(repos, schedule + more).Some?
    ensures Run(repos, schedule).Some?
    ensures Keeps(Run(repos, schedule).value, Run(repos, schedule + more).value)
  {
    if more == [] {
      assert schedule + more == schedule;
    } else {
      var shorter, i := more[..|more| - 1], more[|more| - 1];
      assert schedule + more == schedule + shorter + [i];
      StepKeepsLocks(repos, schedule + shorter, i);
      LocksOnlyGrow(repos, schedule, shorter);
    }
  }

  /** Two repository names never share a mutex. */
  lemma {:induction false} NamesHaveOwnMutex(repos: seq<Option<string>>, schedule: seq<nat>, a: string, b: string)
    requires Run(repos, schedule).Some?
    ensures var locks := Run(repos, schedule).value.locks;
            a in locks && b in locks && locks[a] == locks[b] ==> a == b
  {
    RunKeepsInv(repos, schedule);
  }

  // ---------- Progress ----------

  function StepsLeft(p: Phase): nat {
    match p
    case Finished => 0
    case Lockless => 1
    case LockEntry => 9
    case LockLookup => 8
    case LockFound(_) => 7
    case Waiting(_) => 6
    case Critical(_) => 5
    case UnlockEntry(_) => 4
    case UnlockLookup(_) => 3
    case UnlockFound(_, _) => 2
    case Releasing(_, _) => 1
  }

  function TotalStepsLeft(phases: seq<Phase>): nat {
    if phases == [] then 0
    else TotalStepsLeft(phases[..|phases| - 1]) + StepsLeft(phases[|phases| - 1])
  }

  lemma {:induction false} TotalAfterUpdate(phases: seq<Phase>, i: nat, p: Phase)
    requires i < |phases|
    ensures TotalStepsLeft(phases[i := p]) == TotalStepsLeft(phases) - StepsLeft(phases[i]) + StepsLeft(p)
  {
    var n := |phases| - 1;
    if i == n {
      assert phases[i := p][..n] == phases[..n];
    } else {
      assert phases[i := p][..n] == phases[..n][i := p];
      TotalAfterUpdate(phases[..n], i, p);
    }
  }

  lemma {:induction false} TotalZero(phases: seq<Phase>)
    ensures TotalStepsLeft(phases) == 0 <==> forall i :: 0 <= i < |phases| ==> phases[i].Finished?
  {
    if phases == [] {
    } else {
      var n := |phases| - 1;
      TotalZero(phases[..n]);
      assert forall i :: 0 <= i < n ==> phases[..n][i] == phases[i];
    }
  }

  lemma {:induction false} StepConsumesOne(s: State, i: nat, name: string)
    requires Enabled(s, i)
    ensures TotalStepsLeft(Next(s, i, name).phases) + 1 == TotalStepsLeft(s.phases)
  {
    var p := Next(s, i, name).phases[i];
    assert Next(s, i, name).phases == s.phases[i := p];
    TotalAfterUpdate(s.phases, i, p);
  }

  /** Every step counts the work left down by one, so no run is longer than the work. */
  lemma {:induction false} RunsConsumeTheWork(repos: seq<Option<string>>, schedule: seq<nat>)
    requires Run(repos, schedule).Some?
    ensures TotalStepsLeft(Run(repos, schedule).value.phases) + |schedule|
         == TotalStepsLeft(Initial(repos).phases)
  {
    if schedule == [] {
    } else {
      var before := schedule[..|schedule| - 1];
      RunsConsumeTheWork(repos, before);
      var s, i := Run(repos, before).value, schedule[|schedule| - 1];
      StepConsumesOne(s, i, NameOf(repos, i));
    }
  }

  /** No reachable state is stuck: some request can step unless all have finished. */
  lemma {:induction false} NeverStuck(repos: seq<Option<string>>, schedule: seq<nat>)
    requires Run(repos, schedule).Some?
    ensures var s := Run(repos, schedule).value;
            (exists i: nat :: Enabled(s, i)) <==> (exists i :: 0 <= i < |s.phases| && !s.phases[i].Finished?)
  {
    RunKeepsInv(repos, schedule);
    var s := Run(repos, schedule).value;
    if j :| 0 <= j < |s.phases| && !s.phases[j].Finished? {
      if s.mapLocked {
        var h :| 0 <= h < |s.phases| && HoldsMap(s.phases[h]);
        assert Enabled(s, h);
      } else if s.phases[j].Waiting? && s.phases[j].mutex in s.held {
        var m := s.phases[j].mutex;
        var h :| 0 <= h < |s.phases| && HoldsMutex(s.phases[h]) && s.phases[h].taken == m;
        assert Enabled(s, h);
      } else {
        assert Enabled(s, j);
      }
    }
  }

  lemma {:induction false} ExtendsIffEnabled(repos: seq<Option<string>>, schedule: seq<nat>, i: nat)
    requires Run(repos, schedule).Some?
    ensures Run(repos, schedule + [i]).Some? <==> i < |repos| && Enabled(Run(repos, schedule).value, i)
  {
  }

  predicate Maximal(repos: seq<Option<string>>, schedule: seq<nat>) {
    Run(repos, schedule).Some? && forall i :: 0 <= i < |repos| ==> Run(repos, schedule + [i]).None?
  }

  predicate AllFinished(phases: seq<Phase>) {
    forall i :: 0 <= i < |phases| ==> phases[i].Finished?
  }

  /**
   Every maximal run finishes every request, and runs are maximal exactly when they have as
   many steps as the requests have work.
   */
  lemma {:induction false} MaximalRunsFinish(repos: seq<Option<string>>, schedule: seq<nat>)
    requires Run(repos, schedule).Some?
    ensures Maximal(repos, schedule) <==> AllFinished(Run(repos, schedule).value.phases)
    ensures Maximal(repos, schedule) <==> |schedule| == TotalStepsLeft(Initial(repos).phases)
  {
    var s := Run(repos, schedule).value;
    NeverStuck(repos, schedule);
    assert |s.phases| == |repos| by { RunKeepsInv(repos, schedule); }
    forall i: nat ensures Run(repos, schedule + [i]).Some? <==> i < |repos| && Enabled(s, i) {
      ExtendsIffEnabled(repos, schedule, i);
    }
    if !AllFinished(s.phases) {
      var i: nat :| Enabled(s, i);
      assert Run(repos, schedule + [i]).Some?;
    }
    RunsConsumeTheWork(repos, schedule);
    TotalZero(s.phases);
  }
}
