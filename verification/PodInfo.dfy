/**
 The one-line summary of a pod: its reason, restarts and ready containers, computed by an
 upward loop over the init containers that stops at the first unsuccessful one and, when
 there is none, a downward loop over the containers in which later (lower) ones overwrite.
 */
module PodInfo {
  import opened Wrappers
  import opened Decimal

  datatype Terminated = Terminated(reason: string, signal: int, exitCode: int)

  /** Kubernetes sets one of the three; the code reads them as independent pointers. */
  datatype ContainerState = ContainerState(waiting: Option<string>, running: bool, terminated: Option<Terminated>)

  datatype ContainerStatus = ContainerStatus(restartCount: int, ready: bool, state: ContainerState)

  datatype Pod = Pod(
    phase: string, statusReason: string, deleted: bool, initContainers: nat,
    initStatuses: seq<ContainerStatus>, statuses: seq<ContainerStatus>)

  // ---------- What the summary means ----------

  predicate Succeeded(c: ContainerStatus) {
    c.state.terminated.Some? && c.state.terminated.value.exitCode == 0
  }

  /** The status at `k` is the first one that did not succeed. */
  predicate Blocks(inits: seq<ContainerStatus>, k: int) {
    && 0 <= k < |inits| && !Succeeded(inits[k])
    && forall j :: 0 <= j < k ==> Succeeded(inits[j])
  }

  predicate Initialized(inits: seq<ContainerStatus>) {
    forall j :: 0 <= j < |inits| ==> Succeeded(inits[j])
  }

  function Restarts(statuses: seq<ContainerStatus>): int {
    if statuses == [] then 0 else statuses[0].restartCount + Restarts(statuses[1..])
  }

  /** Signal, else exit code, of a container that ended without a reason. */
  function Ended(t: Terminated): string {
    if t.reason != "" then t.reason
    else if t.signal != 0 then "Signal:" + Itoa(t.signal)
    else "ExitCode:" + Itoa(t.exitCode)
  }

  /** The same for an init container. */
  function InitEnded(t: Terminated): string {
    if t.reason != "" then "Init:" + t.reason
    else if t.signal != 0 then "Init:Signal:" + Itoa(t.signal)
    else "Init:ExitCode:" + Itoa(t.exitCode)
  }

  /** Why the init container at `k` of `total` blocks. */
  function InitReason(c: ContainerStatus, k: nat, total: nat): string {
    if c.state.terminated.Some? then InitEnded(c.state.terminated.value)
    else if c.state.waiting.Some? && c.state.waiting.value != "" && c.state.waiting.value != "PodInitializing"
    then "Init:" + c.state.waiting.value
    else "Init:" + Itoa(k) + "/" + Itoa(total)
  }

  /** The reason a container sets, if it sets one. */
  function OwnReason(c: ContainerStatus): Option<string> {
    if c.state.waiting.Some? && c.state.waiting.value != "" then Some(c.state.waiting.value)
    else if c.state.terminated.Some? then Some(Ended(c.state.terminated.value))
    else None
  }

  /** The container sets no reason and is counted as ready. */
  predicate IsReady(c: ContainerStatus) {
    OwnReason(c).None? && c.ready && c.state.running
  }

  function ReadyOnes(statuses: seq<ContainerStatus>): set<int> {
    set i | 0 <= i < |statuses| && IsReady(statuses[i])
  }

  /** The container at `k` is the lowest that sets a reason. */
  predicate Decides(statuses: seq<ContainerStatus>, k: int) {
    && 0 <= k < |statuses| && OwnReason(statuses[k]).Some?
    && forall j :: 0 <= j < k ==> OwnReason(statuses[j]).None?
  }

  predicate NobodyDecides(statuses: seq<ContainerStatus>) {
    forall j :: 0 <= j < |statuses| ==> OwnReason(statuses[j]).None?
  }

  function Phase(pod: Pod): string {
    if pod.statusReason != "" then pod.statusReason else pod.phase
  }

  /** A pod that once completed but still has a ready container is running. */
  function StillRunning(reason: string, ready: nat): string {
    if reason == "Completed" && ready > 0 then "Running" else reason
  }

  /** What deletion makes of a reason. */
  function AfterDeletion(pod: Pod, reason: string): string {
    if !pod.deleted then reason else if pod.statusReason == "NodeLost" then "Unknown" else "Terminating"
  }

  datatype Summary = Summary(reason: string, restarts: int, ready: nat)

  /** The declarative reading, by the decisive container rather than by loops. */
  ghost predicate Summarises(s: Summary, pod: Pod) {
    && (forall k :: Blocks(pod.initStatuses, k) ==>
          s == Summary(AfterDeletion(pod, InitReason(pod.initStatuses[k], k, pod.initContainers)),
                       Restarts(pod.initStatuses[..k + 1]), 0))
    && (Initialized(pod.initStatuses) ==>
          && s.restarts == Restarts(pod.statuses)
          && s.ready == |ReadyOnes(pod.statuses)|
          && (forall k :: Decides(pod.statuses, k) ==>
                s.reason == AfterDeletion(pod, StillRunning(OwnReason(pod.statuses[k]).value, s.ready)))
          && (NobodyDecides(pod.statuses) ==>
                s.reason == AfterDeletion(pod, StillRunning(Phase(pod), s.ready))))
  }

  // ---------- The reading determines the summary ----------

  lemma {:induction false} Decisive(statuses: seq<ContainerStatus>)
    ensures NobodyDecides(statuses) || exists k :: Decides(statuses, k)
  {
    if statuses == [] {
    } else if OwnReason(statuses[0]).None? {
      Decisive(statuses[1..]);
      if k :| Decides(statuses[1..], k) {
        assert Decides(statuses, k + 1);
      }
    } else {
      assert Decides(statuses, 0);
    }
  }

  lemma {:induction false} BlockedOrInitialized(inits: seq<ContainerStatus>)
    ensures Initialized(inits) || exists k :: Blocks(inits, k)
  {
    if inits == [] {
    } else if Succeeded(inits[0]) {
      BlockedOrInitialized(inits[1..]);
      if k :| Blocks(inits[1..], k) {
        assert Blocks(inits, k + 1);
      }
    } else {
      assert Blocks(inits, 0);
    }
  }

  /** At most one summary fits a pod. */
  lemma {:induction false} OneSummary(s: Summary, t: Summary, pod: Pod)
    requires Summarises(s, pod) && Summarises(t, pod)
    ensures s == t
  {
    BlockedOrInitialized(pod.initStatuses);
    if Initialized(pod.initStatuses) {
      Decisive(pod.statuses);
    }
  }

  /** Ready never exceeds the number of statuses, and is zero while an init container blocks. */
  lemma {:induction false} ReadyBounded(s: Summary, pod: Pod)
    requires Summarises(s, pod)
    ensures s.ready <= |pod.statuses|
    ensures !Initialized(pod.initStatuses) ==> s.ready == 0
  {
    ReadyCountIsSize(pod.statuses);
    BlockedOrInitialized(pod.initStatuses);
  }

  /** While an init container blocks, the containers have no say at all. */
  lemma {:induction false} BlockedHidesContainers(s: Summary, pod: Pod, statuses: seq<ContainerStatus>)
    requires Summarises(s, pod) && !Initialized(pod.initStatuses)
    ensures Summarises(s, pod.(statuses := statuses))
  {
  }

  /** What a blocking init container makes of a pod that is not being deleted, case by case. */
  lemma {:induction false} BlockedReasons(s: Summary, pod: Pod, k: nat)
    requires Summarises(s, pod) && Blocks(pod.initStatuses, k) && !pod.deleted
    ensures var state := pod.initStatuses[k].state;
            match state.terminated
            case Some(Terminated(reason, signal, exitCode)) =>
              s.reason == (if reason != "" then "Init:" + reason
                           else if signal != 0 then "Init:Signal:" + Itoa(signal)
                           else "Init:ExitCode:" + Itoa(exitCode))
            case None =>
              if state.waiting.Some? && state.waiting.value != "" && state.waiting.value != "PodInitializing"
              then s.reason == "Init:" + state.waiting.value
              else s.reason == "Init:" + Itoa(k) + "/" + Itoa(pod.initContainers)
  {
  }

  /** What the deciding container makes of an initialised pod that is not being deleted. */
  lemma {:induction false} DecidedReasons(s: Summary, pod: Pod, k: nat)
    requires Summarises(s, pod) && Initialized(pod.initStatuses) && Decides(pod.statuses, k) && !pod.deleted
    ensures var state := pod.statuses[k].state;
            var own :=
              if state.waiting.Some? && state.waiting.value != "" then state.waiting.value
              else if state.terminated.None? then ""
              else if state.terminated.value.reason != "" then state.terminated.value.reason
              else if state.terminated.value.signal != 0 then "Signal:" + Itoa(state.terminated.value.signal)
              else "ExitCode:" + Itoa(state.terminated.value.exitCode);
            s.reason == if own == "Completed" && s.ready > 0 then "Running" else own
  {
  }

  /** While an init container blocks, its restarts and those before it count, and nothing is ready. */
  lemma {:induction false} BlockedCounts(s: Summary, pod: Pod, k: nat)
    requires Summarises(s, pod) && Blocks(pod.initStatuses, k)
    ensures s.restarts == Restarts(pod.initStatuses[..k + 1]) && s.ready == 0
  {
  }

  /**
   One container more on an initialised pod adds its restarts, and one to the ready ones if it
   runs, is ready, and neither waits with a reason nor has terminated.
   */
  lemma {:induction false} OneContainerMore(s: Summary, t: Summary, pod: Pod, c: ContainerStatus)
    requires Initialized(pod.initStatuses)
    requires Summarises(s, pod) && Summarises(t, pod.(statuses := pod.statuses + [c]))
    ensures t.restarts == s.restarts + c.restartCount
    ensures var waits := c.state.waiting.Some? && c.state.waiting.value != "";
            t.ready == s.ready + if c.ready && c.state.running && !waits && c.state.terminated.None? then 1 else 0
  {
    RestartsOfConcat(pod.statuses, c);
    ReadyCountOfConcat(pod.statuses, c);
    ReadyCountIsSize(pod.statuses);
    ReadyCountIsSize(pod.statuses + [c]);
  }

  /** A pod without containers to speak for it shows its status reason, or else its phase. */
  lemma {:induction false} QuietReasons(s: Summary, pod: Pod)
    requires Summarises(s, pod) && pod.initStatuses == [] && pod.statuses == [] && !pod.deleted
    ensures s == Summary(if pod.statusReason != "" then pod.statusReason else pod.phase, 0, 0)
  {
    assert ReadyOnes(pod.statuses) == {};
  }

  /** A pod being deleted is terminating, or unknown if its node is lost. */
  lemma {:induction false} DeletedReasons(s: Summary, pod: Pod)
    requires Summarises(s, pod) && pod.deleted
    ensures s.reason == if pod.statusReason == "NodeLost" then "Unknown" else "Terminating"
  {
    BlockedOrInitialized(pod.initStatuses);
    Decisive(pod.statuses);
  }

  /** A pod is never reported completed while a container still counts as ready. */
  lemma {:induction false} CompletedMeansNoneReady(s: Summary, pod: Pod)
    requires Summarises(s, pod) && s.reason == "Completed"
    ensures s.ready == 0
  {
    BlockedOrInitialized(pod.initStatuses);
    Decisive(pod.statuses);
  }

  // ---------- The loops ----------

  lemma {:induction false} RestartsOfConcat(a: seq<ContainerStatus>, c: ContainerStatus)
    ensures Restarts(a + [c]) == Restarts(a) + c.restartCount
  {
    if a == [] {
      assert Restarts([c]) == c.restartCount + Restarts([]);
    } else {
      RestartsOfConcat(a[1..], c);
      assert (a + [c])[1..] == a[1..] + [c];
    }
  }

  /** The upward loop, left at the first init container that did not succeed. */
  method ScanInitContainers(pod: Pod, initial: string)
    returns (reason: string, restarts: int, initializing: bool)
    ensures !initializing <==> Initialized(pod.initStatuses)
    ensures !initializing ==> reason == initial
    ensures forall k :: Blocks(pod.initStatuses, k) ==>
              && reason == InitReason(pod.initStatuses[k], k, pod.initContainers)
              && restarts == Restarts(pod.initStatuses[..k + 1])
  {
    reason, restarts, initializing := initial, 0, false;
    var i := 0;
    while i < |pod.initStatuses|
      invariant 0 <= i <= |pod.initStatuses|
      invariant !initializing && reason == initial
      invariant forall j :: 0 <= j < i ==> Succeeded(pod.initStatuses[j])
      invariant restarts == Restarts(pod.initStatuses[..i])
    {
      var container := pod.initStatuses[i];
      restarts := restarts + container.restartCount;
      RestartsOfConcat(pod.initStatuses[..i], container);
      assert pod.initStatuses[..i + 1] == pod.initStatuses[..i] + [container];
      if container.state.terminated.Some? && container.state.terminated.value.exitCode == 0 {
        i := i + 1;
        continue;
      }
      if container.state.terminated.Some? {
        var terminated := container.state.terminated.value;
        if |terminated.reason| == 0 {
          if terminated.signal != 0 {
            reason := "Init:Signal:" + Itoa(terminated.signal);
          } else {
            reason := "Init:ExitCode:" + Itoa(terminated.exitCode);
          }
        } else {
          reason := "Init:" + terminated.reason;
        }
        initializing := true;
      } else if container.state.waiting.Some? && |container.state.waiting.value| > 0
                && container.state.waiting.value != "PodInitializing" {
        reason := "Init:" + container.state.waiting.value;
        initializing := true;
      } else {
        reason := "Init:" + Itoa(i) + "/" + Itoa(pod.initContainers);
        initializing := true;
      }
      assert Blocks(pod.initStatuses, i);
      break;
    }
  }

  function LowestReason(statuses: seq<ContainerStatus>): Option<string> {
    if statuses == [] then None
    else if OwnReason(statuses[0]).Some? then OwnReason(statuses[0])
    else LowestReason(statuses[1..])
  }

  function ReadyCount(statuses: seq<ContainerStatus>): (n: nat)
    ensures n <= |statuses|
  {
    if statuses == [] then 0 else (if IsReady(statuses[0]) then 1 else 0) + ReadyCount(statuses[1..])
  }

  lemma {:induction false} LowestReasonDecides(statuses: seq<ContainerStatus>)
    ensures forall k :: Decides(statuses, k) ==> LowestReason(statuses) == OwnReason(statuses[k])
    ensures NobodyDecides(statuses) ==> LowestReason(statuses).None?
  {
    if statuses == [] {
    } else {
      LowestReasonDecides(statuses[1..]);
      forall k | Decides(statuses, k) ensures LowestReason(statuses) == OwnReason(statuses[k]) {
        assert k > 0 ==> Decides(statuses[1..], k - 1);
      }
    }
  }

  lemma {:induction false} CountOneMore<T>(before: set<T>, all: set<T>, last: T, counts: bool)
    requires last !in before && forall i :: i in all <==> i in before || (i == last && counts)
    ensures |all| == |before| + if counts then 1 else 0
  {
    if counts {
      assert all == before + {last};
    } else {
      assert all == before;
    }
  }

  lemma {:induction false} ReadyCountIsSize(statuses: seq<ContainerStatus>)
    ensures ReadyCount(statuses) == |ReadyOnes(statuses)|
  {
    if statuses == [] {
    } else {
      var last := |statuses| - 1;
      ReadyCountIsSize(statuses[..last]);
      ReadyCountOfConcat(statuses[..last], statuses[last]);
      assert statuses[..last] + [statuses[last]] == statuses;
      CountOneMore(ReadyOnes(statuses[..last]), ReadyOnes(statuses), last, IsReady(statuses[last]));
    }
  }

  lemma {:induction false} ReadyCountOfConcat(a: seq<ContainerStatus>, c: ContainerStatus)
    ensures ReadyCount(a + [c]) == ReadyCount(a) + if IsReady(c) then 1 else 0
  {
    if a == [] {
      assert ReadyCount([c]) == (if IsReady(c) then 1 else 0) + ReadyCount([]);
    } else {
      ReadyCountOfConcat(a[1..], c);
      assert (a + [c])[1..] == a[1..] + [c];
    }
  }

  /** The downward loop: lower containers overwrite the reason of higher ones. */
  method ReadContainers(statuses: seq<ContainerStatus>, initial: string)
    returns (reason: string, restarts: int, ready: nat, hasRunning: bool)
    ensures restarts == Restarts(statuses)
    ensures ready == ReadyCount(statuses) && (hasRunning <==> ready > 0)
    ensures reason == LowestReason(statuses).GetOr(initial)
  {
    reason, restarts, ready := initial, 0, 0;
    hasRunning := false;
    var i := |statuses| - 1;
    while i >= 0
      invariant -1 <= i < |statuses|
      invariant restarts == Restarts(statuses[i + 1..])
      invariant ready == ReadyCount(statuses[i + 1..]) && (hasRunning <==> ready > 0)
      invariant reason == LowestReason(statuses[i + 1..]).GetOr(initial)
    {
      var container := statuses[i];
      restarts := restarts + container.restartCount;
      assert statuses[i..][1..] == statuses[i + 1..] && statuses[i..][0] == container;
      if container.state.waiting.Some? && container.state.waiting.value != "" {
        reason := container.state.waiting.value;
      } else if container.state.terminated.Some? && container.state.terminated.value.reason != "" {
        reason := container.state.terminated.value.reason;
      } else if container.state.terminated.Some? && container.state.terminated.value.reason == "" {
        var terminated := container.state.terminated.value;
        if terminated.signal != 0 {
          reason := "Signal:" + Itoa(terminated.signal);
        } else {
          reason := "ExitCode:" + Itoa(terminated.exitCode);
        }
      } else if container.ready && container.state.running {
        hasRunning := true;
        ready := ready + 1;
      }
      i := i - 1;
    }
    assert statuses[0..] == statuses;
  }

  /** The loop, and the correction of a completed pod that still has a ready container. */
  method ScanContainers(statuses: seq<ContainerStatus>, initial: string)
    returns (reason: string, restarts: int, ready: nat)
    ensures restarts == Restarts(statuses) && ready == |ReadyOnes(statuses)|
    ensures forall k :: Decides(statuses, k) ==>
              reason == StillRunning(OwnReason(statuses[k]).value, ready)
    ensures NobodyDecides(statuses) ==> reason == StillRunning(initial, ready)
  {
    var hasRunning;
    reason, restarts, ready, hasRunning := ReadContainers(statuses, initial);
    LowestReasonDecides(statuses);
    ReadyCountIsSize(statuses);
    if reason == "Completed" && hasRunning {
      reason := "Running";
    }
  }

  method Summarise(pod: Pod) returns (s: Summary)
    ensures Summarises(s, pod)
  {
    var reason := pod.phase;
    if pod.statusReason != "" {
      reason := pod.statusReason;
    }
    var restarts, ready, initializing := 0, 0, false;
    reason, restarts, initializing := ScanInitContainers(pod, reason);
    if !initializing {
      reason, restarts, ready := ScanContainers(pod.statuses, reason);
    }
    if pod.deleted && pod.statusReason == "NodeLost" {
      reason := "Unknown";
    } else if pod.deleted {
      reason := "Terminating";
    }
    return Summary(reason, restarts, ready);
  }
}
