/**
 The life of the helm-release informers of all clusters: starting, stopping and syncing
 them, and delivering secrets to their handlers, as one state machine.  A step yields no
 state where the Go program would panic (closing a closed channel, writing to a nil map).
 */
module InformerLifecycle {
  import opened Wrappers
  import opened ReleaseCache
  import Decimal
  import ReleaseKey

  /**
   The informer object.  Stop channels are numbered in the order they are made; `channels`
   remembers for which cluster each was made and `closes` lists every close performed.
   */
  datatype State = State(
    cache: map<int, Details>,
    stoppers: map<int, nat>,
    channels: seq<int>,
    closes: seq<nat>)

  datatype StartOutcome = Started | ClusterNotFound | AlreadyExists | ClientFailed

  const EMPTY_STATE := State(map[], map[], [], [])

  /** Start the informer of a cluster; `found` is the repository's answer for its id. */
  function StartInformer(st: State, clusterId: int, found: Option<Cluster>, clientOk: bool): (State, StartOutcome) {
    if found.None? then (st, ClusterNotFound)
    else if clusterId in st.stoppers then (st, AlreadyExists)
    else if !clientOk then (st, ClientFailed)
    else
      (State(st.cache[clusterId := map[]],
             st.stoppers[clusterId := |st.channels|],
             st.channels + [clusterId],
             st.closes),
       Started)
  }

  /** Close the recorded channel and forget it; the cached details stay. */
  function StopInformer(st: State, clusterId: int): Option<State> {
    if clusterId !in st.stoppers then Some(st)
    else if st.stoppers[clusterId] in st.closes then None
    else Some(st.(stoppers := st.stoppers - {clusterId}, closes := st.closes + [st.stoppers[clusterId]]))
  }

  /** Stop, then start again; the repository is asked twice and may answer differently. */
  function SyncInformer(st: State, clusterId: int, found: Option<Cluster>, foundAgain: Option<Cluster>,
                        clientOk: bool): Option<(State, StartOutcome)>
  {
    if found.None? then Some((st, ClusterNotFound))
    else match StopInformer(st, found.value.id)
      case None => None
      case Some(stopped) => Some(StartInformer(stopped, clusterId, foundAgain, clientOk))
  }

  /** A handler's effect; assigning into a cluster's absent inner map panics. */
  function HandleSecret(st: State, clusterId: int, c: Cluster, e: SecretEvent): Option<State> {
    if clusterId in st.cache then
      Some(st.(cache := st.cache[clusterId := Handle(c, st.cache[clusterId], e)]))
    else if e.Deleted? || e.secret.kind != HELM_RELEASE_SECRET_TYPE then Some(st)
    else None
  }

  datatype Step =
    | Start(clusterId: int, found: Option<Cluster>, clientOk: bool)
    | Sync(clusterId: int, found: Option<Cluster>, foundAgain: Option<Cluster>, clientOk: bool)
    | Remove(clusterId: int, inactive: Option<Cluster>)
    | Deliver(clusterId: int, event: SecretEvent)

  /**
   The informer with what surrounds it: the cluster record each running informer's handlers
   captured, and the secrets delivered to the current generation.
   */
  datatype World = World(st: State, captured: map<int, Cluster>, views: map<int, View>)

  const INITIAL := World(EMPTY_STATE, map[], map[])

  predicate Answers(found: Option<Cluster>, clusterId: int) {
    found.Some? ==> found.value.id == clusterId
  }

  /**
   What the surroundings promise: the repository answers with the cluster asked for, and an
   informer delivers as a shared informer does, while it runs, with no tombstones.
   */
  predicate Allowed(w: World, s: Step) {
    match s
    case Start(id, found, _) => Answers(found, id)
    case Sync(id, found, again, _) => Answers(found, id) && Answers(again, id)
    case Remove(id, inactive) => Answers(inactive, id)
    case Deliver(id, e) =>
      && id in w.st.stoppers && id in w.captured && id in w.views
      && Delivers(w.views[id], e)
      && (e.Deleted? ==> !e.tombstone)
  }

  /** Record the outcome of a start: a successful one begins a new generation. */
  function Restarted(w: World, id: int, found: Option<Cluster>, r: (State, StartOutcome)): World {
    if r.1.Started? && found.Some? then
      World(r.0, w.captured[id := found.value], w.views[id := map[]])
    else w.(st := r.0)
  }

  function Next(w: World, s: Step): Option<World> {
    match s
    case Start(id, found, clientOk) =>
      Some(Restarted(w, id, found, StartInformer(w.st, id, found, clientOk)))
    case Sync(id, found, again, clientOk) =>
      (match SyncInformer(w.st, id, found, again, clientOk)
       case None => None
       case Some(r) => Some(Restarted(w, id, again, r)))
    case Remove(id, inactive) =>
      if inactive.None? then Some(w)
      else (match StopInformer(w.st, inactive.value.id)
            case None => None
            case Some(st) => Some(w.(st := st)))
    case Deliver(id, e) =>
      if id !in w.captured || id !in w.views then None
      else (match HandleSecret(w.st, id, w.captured[id], e)
            case None => None
            case Some(st) => Some(w.(st := st, views := w.views[id := Observe(w.views[id], e)])))
  }

  function Run(w: World, steps: seq<Step>): Option<World> {
    if steps == [] then Some(w)
    else match Run(w, steps[..|steps| - 1])
      case None => None
      case Some(before) => Next(before, steps[|steps| - 1])
  }

  predicate AllowedRun(w: World, steps: seq<Step>) {
    steps == [] ||
    (&& AllowedRun(w, steps[..|steps| - 1])
     && var before := Run(w, steps[..|steps| - 1]);
        before.Some? ==> Allowed(before.value, steps[|steps| - 1]))
  }

  // ---------- Invariant ----------

  predicate Distinct(s: seq<nat>) {
    forall i, j :: 0 <= i < j < |s| ==> s[i] != s[j]
  }

  /** Each channel is either closed, once, or recorded for the cluster it was made for. */
  predicate ChannelsSafe(st: State) {
    && Distinct(st.closes)
    && (forall i :: 0 <= i < |st.closes| ==> st.closes[i] < |st.channels|)
    && (forall id :: id in st.stoppers ==>
          && st.stoppers[id] < |st.channels|
          && st.channels[st.stoppers[id]] == id
          && st.stoppers[id] !in st.closes)
    && (forall ch :: 0 <= ch < |st.channels| && ch !in st.closes ==>
          st.channels[ch] in st.stoppers && st.stoppers[st.channels[ch]] == ch)
  }

  ghost predicate CacheSafe(w: World, id: int) {
    && id in w.captured && id in w.st.cache && id in w.views
    && w.captured[id].id == id
    && Sound(w.captured[id], w.st.cache[id], w.views[id])
    && WellKeyed(w.captured[id], w.st.cache[id])
  }

  ghost predicate Inv(w: World) {
    && ChannelsSafe(w.st)
    && (forall id :: id in w.captured ==> CacheSafe(w, id))
    && (forall id :: id in w.st.stoppers ==> id in w.captured)
    && (forall id :: id in w.st.cache ==> id in w.captured)
  }

  lemma {:induction false} StartKeepsChannelsSafe(st: State, id: int, found: Option<Cluster>, clientOk: bool)
    requires ChannelsSafe(st)
    ensures ChannelsSafe(StartInformer(st, id, found, clientOk).0)
  {
  }

  lemma {:induction false} StopKeepsChannelsSafe(st: State, id: int)
    requires ChannelsSafe(st)
    ensures StopInformer(st, id).Some?
    ensures ChannelsSafe(StopInformer(st, id).value)
  {
  }

  lemma {:induction false} RestartKeepsInv(w: World, id: int, found: Option<Cluster>, clientOk: bool)
    requires Inv(w) && Answers(found, id)
    ensures Inv(Restarted(w, id, found, StartInformer(w.st, id, found, clientOk)))
  {
    StartKeepsChannelsSafe(w.st, id, found, clientOk);
    var after := Restarted(w, id, found, StartInformer(w.st, id, found, clientOk));
    forall other | other in after.captured ensures CacheSafe(after, other) {
      assert other != id ==> CacheSafe(w, other);
      if after.st.cache == w.st.cache {
        assert after.captured == w.captured ==> CacheSafe(w, other);
      }
    }
  }

  lemma {:induction false} StopKeepsInv(w: World, id: int)
    requires Inv(w)
    ensures StopInformer(w.st, id).Some?
    ensures Inv(w.(st := StopInformer(w.st, id).value))
  {
  }

  lemma {:induction false} DeliverKeepsInv(w: World, id: int, e: SecretEvent)
    requires Inv(w) && Allowed(w, Deliver(id, e))
    ensures Next(w, Deliver(id, e)).Some?
    ensures Inv(Next(w, Deliver(id, e)).value)
  {
    assert CacheSafe(w, id);
    var after := Next(w, Deliver(id, e)).value;
    SoundStep(w.captured[id], w.st.cache[id], w.views[id], e);
    WellKeyedStep(w.captured[id], w.st.cache[id], e);
    forall other | other in after.captured ensures CacheSafe(after, other) {
      assert CacheSafe(w, other);
    }
  }

  lemma {:induction false} StepKeepsInv(w: World, s: Step)
    requires Inv(w) && Allowed(w, s)
    ensures Next(w, s).Some? && Inv(Next(w, s).value)
  {
    match s
    case Start(id, found, clientOk) => RestartKeepsInv(w, id, found, clientOk);
    case Sync(id, found, again, clientOk) =>
      if found.Some? {
        StopKeepsInv(w, id);
        var stopped := w.(st := StopInformer(w.st, id).value);
        RestartKeepsInv(stopped, id, again, clientOk);
        assert Next(w, s).value == Restarted(stopped, id, again, StartInformer(stopped.st, id, again, clientOk));
      } else {
        assert Next(w, s).value == w;
      }
    case Remove(id, inactive) =>
      if inactive.Some? {
        StopKeepsInv(w, id);
      }
    case Deliver(id, e) => DeliverKeepsInv(w, id, e);
  }

  /**
   No run of starts, syncs, removals and deliveries panics, and every run keeps the
   invariant: channels closed at most once, one open channel per cluster at most and that
   the recorded one, and caches that are sound and keyed by what they hold.
   */
  lemma {:induction false} RunsAreSafe(w: World, steps: seq<Step>)
    requires Inv(w) && AllowedRun(w, steps)
    ensures Run(w, steps).Some? && Inv(Run(w, steps).value)
  {
    if steps == [] {
    } else {
      var before := steps[..|steps| - 1];
      RunsAreSafe(w, before);
      StepKeepsInv(Run(w, before).value, steps[|steps| - 1]);
    }
  }

  /** In every reachable state at most one stop channel per cluster is still open. */
  lemma {:induction false} OneOpenChannelPerCluster(steps: seq<Step>, ch: nat, other: nat)
    requires AllowedRun(INITIAL, steps)
    ensures Run(INITIAL, steps).Some?
    ensures var st := Run(INITIAL, steps).value.st;
            ch < |st.channels| && other < |st.channels|
            && ch !in st.closes && other !in st.closes
            && st.channels[ch] == st.channels[other]
            ==> ch == other && st.channels[ch] in st.stoppers && st.stoppers[st.channels[ch]] == ch
  {
    RunsAreSafe(INITIAL, steps);
  }

  // ---------- Steps do not interfere ----------

  predicate SameEntry<T(==)>(before: map<int, T>, after: map<int, T>, id: int) {
    (id in after <==> id in before) && (id in before ==> after[id] == before[id])
  }

  predicate Untouched(before: World, after: World, id: int) {
    && SameEntry(before.st.cache, after.st.cache, id)
    && SameEntry(before.st.stoppers, after.st.stoppers, id)
    && SameEntry(before.views, after.views, id)
    && SameEntry(before.captured, after.captured, id)
  }

  /** A step for one cluster leaves every other cluster's cache, channel and view alone. */
  lemma {:induction false} StepsAreLocal(w: World, s: Step, other: int)
    requires Allowed(w, s) && s.clusterId != other && Next(w, s).Some?
    ensures Untouched(w, Next(w, s).value, other)
  {
  }

  /** A refused start changes nothing, and a start is refused exactly in these cases. */
  lemma {:induction false} RefusedStartChangesNothing(st: State, id: int, found: Option<Cluster>, clientOk: bool)
    ensures var (after, outcome) := StartInformer(st, id, found, clientOk);
            && (outcome.Started? <==> found.Some? && id !in st.stoppers && clientOk)
            && (outcome.Started? <==> after != st)
  {
  }

  /** A sync of a cluster that cannot be looked up changes nothing, least of all its informer. */
  lemma {:induction false} UnknownSyncChangesNothing(w: World, id: int, again: Option<Cluster>, clientOk: bool)
    ensures Next(w, Sync(id, None, again, clientOk)) == Some(w)
    ensures Next(w, Remove(id, None)) == Some(w)
  {
  }

  /**
   A sync that fails to start again leaves the cluster without an informer but still serving
   the details it had; this happens exactly when the second lookup or the client fails.
   */
  lemma {:induction false} FailedSyncKeepsServing(w: World, id: int, found: Option<Cluster>, again: Option<Cluster>,
                                                  clientOk: bool)
    requires Inv(w) && found.Some? && Answers(found, id)
    ensures SyncInformer(w.st, id, found, again, clientOk).Some?
    ensures var st := SyncInformer(w.st, id, found, again, clientOk).value.0;
            && (id !in st.stoppers <==> again.None? || !clientOk)
            && (id !in st.stoppers ==> st.cache == w.st.cache)
            && (id in st.stoppers ==> id in st.cache && st.cache[id] == map[])
  {
  }

  // ---------- One generation inside a run ----------

  predicate OnlyDeliveriesFor(steps: seq<Step>, id: int) {
    forall i :: 0 <= i < |steps| && steps[i].clusterId == id ==> steps[i].Deliver?
  }

  /** The deliveries to one cluster, in order. */
  function EventsFor(steps: seq<Step>, id: int): seq<SecretEvent> {
    if steps == [] then []
    else
      var before, s := EventsFor(steps[..|steps| - 1], id), steps[|steps| - 1];
      if s.clusterId == id && s.Deliver? then before + [s.event] else before
  }

  /** `after` is `w` with just the events `es` delivered to cluster `id`. */
  predicate Follows(w: World, after: World, id: int, es: seq<SecretEvent>) {
    && id in w.captured && id in w.st.cache && id in w.views
    && id in after.captured && id in after.st.cache && id in after.views
    && after.captured[id] == w.captured[id]
    && after.st.cache[id] == RunCache(w.captured[id], w.st.cache[id], es)
    && after.views[id] == RunView(w.views[id], es)
    && Delivered(w.views[id], es) && NoTombstone(es)
  }

  lemma {:induction false} DeliveryFollows(w: World, mid: World, id: int, es: seq<SecretEvent>, e: SecretEvent)
    requires Follows(w, mid, id, es) && Allowed(mid, Deliver(id, e))
    ensures Next(mid, Deliver(id, e)).Some?
    ensures Follows(w, Next(mid, Deliver(id, e)).value, id, es + [e])
  {
    RunOneMore(w.captured[id], w.st.cache[id], w.views[id], es, e);
  }

  /** Between two starts of its informer, a cluster sees only its own deliveries. */
  lemma {:induction false} GenerationIsItsEvents(w: World, steps: seq<Step>, id: int)
    requires Inv(w) && AllowedRun(w, steps) && OnlyDeliveriesFor(steps, id)
    requires id in w.captured
    ensures Run(w, steps).Some?
    ensures Follows(w, Run(w, steps).value, id, EventsFor(steps, id))
  {
    if steps == [] {
      assert CacheSafe(w, id);
    } else {
      var before, s := steps[..|steps| - 1], steps[|steps| - 1];
      GenerationIsItsEvents(w, before, id);
      RunsAreSafe(w, before);
      var mid := Run(w, before).value;
      StepKeepsInv(mid, s);
      if s.clusterId != id {
        StepsAreLocal(mid, s, id);
      } else {
        DeliveryFollows(w, mid, id, EventsFor(before, id), s.event);
      }
    }
  }

  /**
   Cache agreement after a resync, in the middle of anything other clusters do: from any
   reachable state, once all live secrets of a cluster have been updated again and none was
   deleted meanwhile, its cached keys are exactly its live keys.
   */
  lemma {:induction false} ResyncInAnyRun(history: seq<Step>, steps: seq<Step>, id: int)
    requires AllowedRun(INITIAL, history) && Run(INITIAL, history).Some?
    requires var w := Run(INITIAL, history).value;
             && AllowedRun(w, steps) && OnlyDeliveriesFor(steps, id)
             && id in w.captured && id in w.views
             && NoDeletion(EventsFor(steps, id))
             && forall sid :: sid in w.views[id] ==> Touches(EventsFor(steps, id), sid)
    ensures Run(Run(INITIAL, history).value, steps).Some?
    ensures var after := Run(Run(INITIAL, history).value, steps).value;
            && id in after.st.cache && id in after.views && id in after.captured
            && after.st.cache[id].Keys == LiveKeys(after.captured[id], after.views[id])
  {
    RunsAreSafe(INITIAL, history);
    var w := Run(INITIAL, history).value;
    assert CacheSafe(w, id);
    GenerationIsItsEvents(w, steps, id);
    ResyncRestoresAgreement(w.captured[id], w.st.cache[id], w.views[id], EventsFor(steps, id));
  }

  /**
   The stale entry, in the middle of anything other clusters do: counting from a fresh start
   of its informer, a release with one revision is cached one version behind.
   */
  lemma {:induction false} LagInAnyRun(history: seq<Step>, steps: seq<Step>, id: int, sid: SecretId)
    requires AllowedRun(INITIAL, history) && Run(INITIAL, history).Some?
    requires var w, es := Run(INITIAL, history).value, EventsFor(steps, id);
             && AllowedRun(w, steps) && OnlyDeliveriesFor(steps, id)
             && id in w.captured && id in w.views && w.views[id] == map[]
             && sid in RunView(map[], es)
             && OnlyCarrier(w.captured[id], es, sid, Key(w.captured[id], RunView(map[], es)[sid]))
    ensures Run(Run(INITIAL, history).value, steps).Some?
    ensures var after, es := Run(Run(INITIAL, history).value, steps).value, EventsFor(steps, id);
            && id in after.st.cache && id in after.captured
            && var key := Key(after.captured[id], RunView(map[], es)[sid]);
            && key in after.st.cache[id] && Versions(es, sid) != []
            && after.st.cache[id][key] == CachedDetail(after.captured[id], Lagged(Versions(es, sid)).release)
  {
    RunsAreSafe(INITIAL, history);
    var w := Run(INITIAL, history).value;
    assert CacheSafe(w, id);
    assert w.st.cache[id] == map[] by {
      assert LiveKeys(w.captured[id], map[]) == {};
    }
    GenerationIsItsEvents(w, steps, id);
    CacheLagsByOneVersion(w.captured[id], EventsFor(steps, id), sid);
  }

  /** In every reachable state each entry sits under the key of the release it describes. */
  lemma {:induction false} ReachableEntriesMatchKeys(steps: seq<Step>, id: int, key: string)
    requires AllowedRun(INITIAL, steps)
    ensures Run(INITIAL, steps).Some?
    ensures var st := Run(INITIAL, steps).value.st;
            id in st.cache && key in st.cache[id] ==>
              var d := st.cache[id][key];
              && key == ReleaseKey.WriterKey(ReleaseKey.ReleaseId(d.namespace, d.appName, id))
              && d.clusterId == Decimal.ToInt32(id)
  {
    RunsAreSafe(INITIAL, steps);
    var w := Run(INITIAL, steps).value;
    if id in w.st.cache && key in w.st.cache[id] {
      assert CacheSafe(w, id);
      assert WrittenFor(w.captured[id], key, w.st.cache[id][key]);
    }
  }

  /**
   In every reachable state, a release found under its key has a live secret under that key;
   with namespaces free of underscores, as Kubernetes has them, it is the release's own.
   */
  lemma {:induction false} HitsAreLive(steps: seq<Step>, r: ReleaseKey.ReleaseId)
    requires AllowedRun(INITIAL, steps)
    ensures Run(INITIAL, steps).Some?
    ensures var w := Run(INITIAL, steps).value;
            r.cluster in w.st.cache && ReleaseKey.WriterKey(r) in w.st.cache[r.cluster] ==>
              && r.cluster in w.views
              && exists sid ::
                   && sid in w.views[r.cluster]
                   && var live := w.views[r.cluster][sid].release;
                      && ReleaseKey.WriterKey(ReleaseKey.ReleaseId(live.namespace, live.name, r.cluster))
                           == ReleaseKey.WriterKey(r)
                      && ('_' !in r.namespace && '_' !in live.namespace ==>
                            live.namespace == r.namespace && live.name == r.name)
  {
    RunsAreSafe(INITIAL, steps);
    var w := Run(INITIAL, steps).value;
    if r.cluster in w.st.cache && ReleaseKey.WriterKey(r) in w.st.cache[r.cluster] {
      assert CacheSafe(w, r.cluster);
      var c, view := w.captured[r.cluster], w.views[r.cluster];
      assert ReleaseKey.WriterKey(r) in LiveKeys(c, view);
      var sid :| sid in view && Key(c, view[sid]) == ReleaseKey.WriterKey(r);
      var live := view[sid].release;
      var id := ReleaseKey.ReleaseId(live.namespace, live.name, r.cluster);
      if '_' !in r.namespace && '_' !in live.namespace {
        ReleaseKey.KeysInjective(id, r);
      }
    }
  }
}
