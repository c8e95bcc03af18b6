/**
 One cluster's helm-release cache during one informer generation: what the three secret
 handlers do to it, and how it relates to the secrets the informer has delivered.

 A release has one secret per revision, and all revisions of a release share one key.
 */
module ReleaseCache {
  import opened Wrappers
  import Decimal
  import ReleaseKey

  const HELM_RELEASE_SECRET_TYPE := "helm.sh/release.v1"

  type SecretId = string

  datatype Release = Release(namespace: string, name: string, chartName: string, icon: string,
                             lastDeployed: int, chartVersion: string)

  datatype Secret = Secret(kind: string, release: Release)

  datatype Cluster = Cluster(id: int, name: string)

  datatype AppDetail = AppDetail(appId: string, appName: string, chartName: string, chartAvatar: string,
                                 lastDeployed: int, chartVersion: string,
                                 clusterId: int, clusterName: string, namespace: string)

  type Details = map<string, AppDetail>

  /** The secrets delivered so far: the informer's own store. */
  type View = map<SecretId, Secret>

  /** A deletion may reach the handler as a tombstone, which is not a Secret. */
  datatype SecretEvent =
    | Added(sid: SecretId, secret: Secret)
    | Updated(sid: SecretId, secret: Secret, newSecret: Secret)
    | Deleted(sid: SecretId, secret: Secret, tombstone: bool)

  function AppId(cluster32: int, r: Release): string {
    Decimal.Itoa(cluster32) + "|" + r.namespace + "|" + r.name
  }

  /** The detail the handlers store; they leave the chart version out. */
  function CachedDetail(c: Cluster, r: Release): AppDetail {
    var cluster32 := Decimal.ToInt32(c.id);
    AppDetail(AppId(cluster32, r), r.name, r.chartName, r.icon, r.lastDeployed, "",
              cluster32, c.name, r.namespace)
  }

  /** The detail a request builds from Helm when the cache has no entry. */
  function MissDetail(cluster32: int, clusterName: string, r: Release): AppDetail {
    AppDetail(AppId(cluster32, r), r.name, r.chartName, r.icon, r.lastDeployed, r.chartVersion,
              cluster32, clusterName, r.namespace)
  }

  /**
   Both details show the release's own fields; a cached one only lacks the chart version.
   */
  lemma {:induction false} DetailsShowRelease(c: Cluster, r: Release)
    ensures var cached := CachedDetail(c, r);
            && cached.appId == Decimal.Itoa(Decimal.ToInt32(c.id)) + "|" + r.namespace + "|" + r.name
            && cached.appName == r.name && cached.namespace == r.namespace
            && cached.chartName == r.chartName && cached.chartAvatar == r.icon
            && cached.lastDeployed == r.lastDeployed && cached.chartVersion == ""
            && cached.clusterId == Decimal.ToInt32(c.id) && cached.clusterName == c.name
    ensures MissDetail(Decimal.ToInt32(c.id), c.name, r) == CachedDetail(c, r).(chartVersion := r.chartVersion)
  {
  }

  function Key(c: Cluster, s: Secret): string {
    ReleaseKey.WriterKey(ReleaseKey.ReleaseId(s.release.namespace, s.release.name, c.id))
  }

  // ---------- The handlers ----------

  function Store(c: Cluster, cache: Details, s: Secret): Details {
    if s.kind != HELM_RELEASE_SECRET_TYPE then cache
    else cache[Key(c, s) := CachedDetail(c, s.release)]
  }

  function Evict(c: Cluster, cache: Details, s: Secret): Details {
    if s.kind != HELM_RELEASE_SECRET_TYPE then cache
    else cache - {Key(c, s)}
  }

  /** An update stores the object as it was before the update. */
  function Handle(c: Cluster, cache: Details, e: SecretEvent): Details {
    match e
    case Added(_, s) => Store(c, cache, s)
    case Updated(_, oldSecret, _) => Store(c, cache, oldSecret)
    case Deleted(_, s, tombstone) => if tombstone then cache else Evict(c, cache, s)
  }

  /** Secrets that are not Helm's are ignored; Helm's are stored and evicted under their key. */
  lemma {:induction false} OnlyHelmSecretsCount(c: Cluster, cache: Details, e: SecretEvent)
    ensures e.secret.kind != "helm.sh/release.v1" ==> Handle(c, cache, e) == cache
    ensures e.secret.kind == "helm.sh/release.v1" && !e.Deleted? ==> Key(c, e.secret) in Handle(c, cache, e)
    ensures e.secret.kind == "helm.sh/release.v1" && e.Deleted? && !e.tombstone ==>
              Key(c, e.secret) !in Handle(c, cache, e)
  {
  }

  // ---------- What the informer delivers ----------

  function Observe(view: View, e: SecretEvent): View {
    match e
    case Added(sid, s) => view[sid := s]
    case Updated(sid, _, s) => view[sid := s]
    case Deleted(sid, _, _) => view - {sid}
  }

  predicate SameRelease(a: Release, b: Release) {
    a.namespace == b.namespace && a.name == b.name
  }

  /**
   A shared informer delivers an addition once, then updates that carry the object it last
   held, and a deletion that may carry a newer state of it: a revision that is superseded
   drops out of the informer's label selector.  The field selector admits helm-release
   secrets only, and a secret never changes which release it belongs to.
   */
  predicate Delivers(view: View, e: SecretEvent) {
    && e.secret.kind == HELM_RELEASE_SECRET_TYPE
    && match e
       case Added(sid, _) => sid !in view
       case Updated(sid, oldSecret, s) =>
         && sid in view && view[sid] == oldSecret
         && s.kind == HELM_RELEASE_SECRET_TYPE && SameRelease(s.release, oldSecret.release)
       case Deleted(sid, s, _) => sid in view && SameRelease(s.release, view[sid].release)
  }

  function RunView(view: View, es: seq<SecretEvent>): View {
    if es == [] then view else Observe(RunView(view, es[..|es| - 1]), es[|es| - 1])
  }

  function RunCache(c: Cluster, cache: Details, es: seq<SecretEvent>): Details {
    if es == [] then cache else Handle(c, RunCache(c, cache, es[..|es| - 1]), es[|es| - 1])
  }

  predicate Delivered(view: View, es: seq<SecretEvent>) {
    es == [] ||
    (Delivered(view, es[..|es| - 1]) && Delivers(RunView(view, es[..|es| - 1]), es[|es| - 1]))
  }

  predicate NoTombstone(es: seq<SecretEvent>) {
    forall i :: 0 <= i < |es| && es[i].Deleted? ==> !es[i].tombstone
  }

  lemma {:induction false} RunOneMore(c: Cluster, cache: Details, view: View, es: seq<SecretEvent>, e: SecretEvent)
    ensures RunView(view, es + [e]) == Observe(RunView(view, es), e)
    ensures RunCache(c, cache, es + [e]) == Handle(c, RunCache(c, cache, es), e)
    ensures Delivered(view, es + [e]) <==> Delivered(view, es) && Delivers(RunView(view, es), e)
    ensures NoTombstone(es + [e]) <==> NoTombstone(es) && !(e.Deleted? && e.tombstone)
  {
  }

  // ---------- Key agreement ----------

  function LiveKeys(c: Cluster, view: View): set<string> {
    set sid | sid in view :: Key(c, view[sid])
  }

  /** Every cached key belongs to a secret that is still live. */
  ghost predicate Sound(c: Cluster, cache: Details, view: View) {
    cache.Keys <= LiveKeys(c, view)
  }

  /** Every live secret's release is cached. */
  ghost predicate Complete(c: Cluster, cache: Details, view: View) {
    LiveKeys(c, view) <= cache.Keys
  }

  lemma {:induction false} LiveKeysStep(c: Cluster, view: View, e: SecretEvent)
    requires Delivers(view, e)
    ensures !e.Deleted? ==> LiveKeys(c, Observe(view, e)) == LiveKeys(c, view) + {Key(c, e.secret)}
    ensures e.Deleted? ==> LiveKeys(c, view) == LiveKeys(c, Observe(view, e)) + {Key(c, e.secret)}
  {
    var after := Observe(view, e);
    var sid, k := e.sid, Key(c, e.secret);
    if e.Deleted? {
      forall x | x in LiveKeys(c, view) ensures x in LiveKeys(c, after) + {k} {
        var s :| s in view && Key(c, view[s]) == x;
        assert s != sid ==> s in after && after[s] == view[s];
      }
      assert sid in view && Key(c, view[sid]) == k;
    } else {
      assert Key(c, after[sid]) == k;
      forall x | x in LiveKeys(c, view) ensures x in LiveKeys(c, after) {
        var s :| s in view && Key(c, view[s]) == x;
        assert s in after && Key(c, after[s]) == x;
      }
    }
  }

  /**
   One event keeps the cache sound in every case but one: a deletion that arrives as a
   tombstone, for a cached release of which no other revision is live.
   */
  lemma {:induction false} SoundStep(c: Cluster, cache: Details, view: View, e: SecretEvent)
    requires Sound(c, cache, view) && Delivers(view, e)
    ensures Sound(c, Handle(c, cache, e), Observe(view, e)) <==>
            !(&& e.Deleted? && e.tombstone
              && Key(c, e.secret) in cache
              && Key(c, e.secret) !in LiveKeys(c, Observe(view, e)))
  {
    LiveKeysStep(c, view, e);
  }

  /** Over every run of deliveries, whatever revisions share a key, cached keys stay live. */
  lemma {:induction false} SoundRun(c: Cluster, cache: Details, view: View, es: seq<SecretEvent>)
    requires Sound(c, cache, view) && Delivered(view, es) && NoTombstone(es)
    ensures Sound(c, RunCache(c, cache, es), RunView(view, es))
  {
    if es == [] {
    } else {
      var before := es[..|es| - 1];
      SoundRun(c, cache, view, before);
      SoundStep(c, RunCache(c, cache, before), RunView(view, before), es[|es| - 1]);
    }
  }

  /**
   A deletion evicts the shared key: a complete cache stays complete exactly when no other
   live revision has that key.
   */
  lemma {:induction false} DeletionCompleteness(c: Cluster, cache: Details, view: View, e: SecretEvent)
    requires Complete(c, cache, view) && Delivers(view, e) && e.Deleted? && !e.tombstone
    ensures Complete(c, Handle(c, cache, e), Observe(view, e)) <==>
            forall sid :: sid in view && sid != e.sid ==> Key(c, view[sid]) != Key(c, e.secret)
  {
    LiveKeysStep(c, view, e);
    var after, k := Observe(view, e), Key(c, e.secret);
    if sid :| sid in view && sid != e.sid && Key(c, view[sid]) == k {
      assert sid in after && Key(c, after[sid]) == k;
    } else {
      assert k !in LiveKeys(c, after);
    }
  }

  /** A new revision arrives and the one before it drops out. */
  function Supersede(sid1: SecretId, superseded: Secret, sid2: SecretId, s: Secret): seq<SecretEvent> {
    [] + [Added(sid2, s)] + [Deleted(sid1, superseded, false)]
  }

  /**
   Superseding a revision uncaches its release although the new revision is live, and the next
   update of the new revision caches it again, as it was before that update.
   */
  lemma {:induction false} SupersedingUncaches(c: Cluster, cache: Details, view: View,
                                               sid1: SecretId, superseded: Secret, sid2: SecretId,
                                               s: Secret, later: Secret)
    requires sid1 in view && sid2 !in view
    requires superseded.kind == s.kind == later.kind == HELM_RELEASE_SECRET_TYPE
    requires SameRelease(superseded.release, view[sid1].release)
    requires SameRelease(s.release, view[sid1].release) && SameRelease(later.release, s.release)
    ensures var es := Supersede(sid1, superseded, sid2, s);
            && Delivered(view, es)
            && Key(c, s) in LiveKeys(c, RunView(view, es)) && Key(c, s) !in RunCache(c, cache, es)
            && Delivered(view, es + [Updated(sid2, s, later)])
            && Key(c, s) in RunCache(c, cache, es + [Updated(sid2, s, later)])
            && RunCache(c, cache, es + [Updated(sid2, s, later)])[Key(c, s)] == CachedDetail(c, s.release)
  {
    RunOneMore(c, cache, view, [], Added(sid2, s));
    RunOneMore(c, cache, view, [] + [Added(sid2, s)], Deleted(sid1, superseded, false));
    var es := Supersede(sid1, superseded, sid2, s);
    RunOneMore(c, cache, view, es, Updated(sid2, s, later));
    assert RunView(view, es)[sid2] == s;
  }

  predicate Touches(es: seq<SecretEvent>, sid: SecretId) {
    exists i :: 0 <= i < |es| && es[i].sid == sid
  }

  predicate NoDeletion(es: seq<SecretEvent>) {
    forall i :: 0 <= i < |es| ==> !es[i].Deleted?
  }

  /** An addition or update caches its secret's key and unsettles nothing. */
  lemma {:induction false} ArrivalCaches(c: Cluster, cache: Details, view: View, e: SecretEvent)
    requires Delivers(view, e) && !e.Deleted?
    ensures Observe(view, e).Keys == view.Keys + {e.sid}
    ensures forall sid :: sid in view ==> Key(c, Observe(view, e)[sid]) == Key(c, view[sid])
    ensures Handle(c, cache, e).Keys == cache.Keys + {Key(c, Observe(view, e)[e.sid])}
  {
  }

  lemma {:induction false} TouchesSplit(es: seq<SecretEvent>, sid: SecretId)
    requires es != []
    ensures Touches(es, sid) <==> Touches(es[..|es| - 1], sid) || es[|es| - 1].sid == sid
  {
    var before := es[..|es| - 1];
    if i :| 0 <= i < |before| && es[i].sid == sid {
      assert before[i].sid == sid;
    }
  }

  lemma {:induction false} TouchedAreCached(c: Cluster, cache: Details, view: View, es: seq<SecretEvent>,
                                            sid: SecretId)
    requires Delivered(view, es) && NoDeletion(es)
    ensures sid in view ==>
              sid in RunView(view, es) && Key(c, RunView(view, es)[sid]) == Key(c, view[sid])
    ensures sid in RunView(view, es) && (Touches(es, sid) || sid !in view) ==>
              Key(c, RunView(view, es)[sid]) in RunCache(c, cache, es)
  {
    if es == [] {
    } else {
      var before, e := es[..|es| - 1], es[|es| - 1];
      TouchedAreCached(c, cache, view, before, sid);
      ArrivalCaches(c, RunCache(c, cache, before), RunView(view, before), e);
      TouchesSplit(es, sid);
    }
  }

  /**
   A resync: once every secret live at the start has been updated, in any order and with
   other additions and updates in between, the cached keys are exactly the live ones.
   */
  lemma {:induction false} ResyncRestoresAgreement(c: Cluster, cache: Details, view: View, es: seq<SecretEvent>)
    requires Sound(c, cache, view) && Delivered(view, es) && NoDeletion(es)
    requires forall sid :: sid in view ==> Touches(es, sid)
    ensures RunCache(c, cache, es).Keys == LiveKeys(c, RunView(view, es))
  {
    SoundRun(c, cache, view, es);
    var now := RunView(view, es);
    forall k | k in LiveKeys(c, now) ensures k in RunCache(c, cache, es) {
      var sid :| sid in now && Key(c, now[sid]) == k;
      TouchedAreCached(c, cache, view, es, sid);
    }
  }

  // ---------- Cached content ----------

  /** The event makes a handler write or evict this key: a tombstone reaches it and does neither. */
  predicate Affects(c: Cluster, e: SecretEvent, key: string) {
    e.secret.kind == HELM_RELEASE_SECRET_TYPE && !(e.Deleted? && e.tombstone) && Key(c, e.secret) == key
  }

  /** The last event that affects the key stands at `i`. */
  predicate LastToAffect(c: Cluster, es: seq<SecretEvent>, key: string, i: int) {
    && 0 <= i < |es| && Affects(c, es[i], key)
    && forall j :: i < j < |es| ==> !Affects(c, es[j], key)
  }

  predicate NoneAffects(c: Cluster, es: seq<SecretEvent>, key: string) {
    forall i :: 0 <= i < |es| ==> !Affects(c, es[i], key)
  }

  predicate SameAt(before: Details, after: Details, key: string) {
    (key in after <==> key in before) && (key in before ==> after[key] == before[key])
  }

  lemma {:induction false} HandleAt(c: Cluster, cache: Details, e: SecretEvent, key: string)
    ensures !Affects(c, e, key) ==> SameAt(cache, Handle(c, cache, e), key)
    ensures Affects(c, e, key) ==>
              && (key in Handle(c, cache, e) <==> !e.Deleted?)
              && (!e.Deleted? ==> Handle(c, cache, e)[key] == CachedDetail(c, e.secret.release))
  {
  }

  /** A key that no event affects stands as it was. */
  lemma {:induction false} UnaffectedStays(c: Cluster, cache: Details, es: seq<SecretEvent>, key: string)
    requires NoneAffects(c, es, key)
    ensures SameAt(cache, RunCache(c, cache, es), key)
  {
    if es == [] {
    } else {
      var before, e := es[..|es| - 1], es[|es| - 1];
      UnaffectedStays(c, cache, before, key);
      HandleAt(c, RunCache(c, cache, before), e, key);
    }
  }

  /**
   What a cache holds after any run of events, however many revisions share a key: the last
   event to affect a key decides.
   */
  lemma {:induction false} LastWriterDecides(c: Cluster, cache: Details, es: seq<SecretEvent>, key: string, i: int)
    requires LastToAffect(c, es, key, i)
    ensures key in RunCache(c, cache, es) <==> !es[i].Deleted?
    ensures !es[i].Deleted? ==> RunCache(c, cache, es)[key] == CachedDetail(c, es[i].secret.release)
  {
    var before, e := es[..|es| - 1], es[|es| - 1];
    HandleAt(c, RunCache(c, cache, before), e, key);
    if i == |es| - 1 {
    } else {
      LastWriterDecides(c, cache, before, key, i);
    }
  }

  /** The versions of one secret delivered since it was last added. */
  function Versions(es: seq<SecretEvent>, sid: SecretId): seq<Secret> {
    if es == [] then []
    else
      var before, e := Versions(es[..|es| - 1], sid), es[|es| - 1];
      if e.sid != sid then before
      else match e
        case Added(_, s) => [s]
        case Updated(_, _, s) => before + [s]
        case Deleted(_, _, _) => []
  }

  predicate OnlyCarrier(c: Cluster, es: seq<SecretEvent>, sid: SecretId, key: string) {
    forall i :: 0 <= i < |es| && es[i].sid != sid ==> Key(c, es[i].secret) != key
  }

  /** The versions end in the one the informer holds. */
  lemma {:induction false} VersionsEndLive(es: seq<SecretEvent>, sid: SecretId)
    requires Delivered(map[], es)
    ensures sid in RunView(map[], es) <==> Versions(es, sid) != []
    ensures sid in RunView(map[], es) ==>
              RunView(map[], es)[sid] == Versions(es, sid)[|Versions(es, sid)| - 1]
  {
    if es == [] {
    } else {
      VersionsEndLive(es[..|es| - 1], sid);
    }
  }

  /** The version before the last one, or the only one. */
  function Lagged(versions: seq<Secret>): Secret
    requires versions != []
  {
    versions[if |versions| == 1 then 0 else |versions| - 2]
  }

  /** The secret an addition or update stores is the lagging version. */
  lemma {:induction false} LaggedIsStored(es: seq<SecretEvent>)
    requires Delivered(map[], es) && es != [] && !es[|es| - 1].Deleted?
    ensures var e := es[|es| - 1]; Versions(es, e.sid) != [] && Lagged(Versions(es, e.sid)) == e.secret
  {
    VersionsEndLive(es[..|es| - 1], es[|es| - 1].sid);
  }

  lemma {:induction false} KeySurvivesUpdate(c: Cluster, view: View, e: SecretEvent)
    requires Delivers(view, e) && !e.Deleted?
    ensures e.sid in Observe(view, e) && Key(c, Observe(view, e)[e.sid]) == Key(c, e.secret)
  {
  }

  /**
   The cache lags one version behind.  For a release with a single revision, after n updates
   the entry is that of version max(0, n - 1), not of version n.
   */
  lemma {:induction false} CacheLagsByOneVersion(c: Cluster, es: seq<SecretEvent>, sid: SecretId)
    requires Delivered(map[], es)
    requires sid in RunView(map[], es)
    requires OnlyCarrier(c, es, sid, Key(c, RunView(map[], es)[sid]))
    ensures Versions(es, sid) != []
    ensures var key := Key(c, RunView(map[], es)[sid]);
            && key in RunCache(c, map[], es)
            && RunCache(c, map[], es)[key] == CachedDetail(c, Lagged(Versions(es, sid)).release)
  {
    var before, e := es[..|es| - 1], es[|es| - 1];
    if e.sid == sid {
      LaggedIsStored(es);
      KeySurvivesUpdate(c, RunView(map[], before), e);
      HandleAt(c, RunCache(c, map[], before), e, Key(c, e.secret));
    } else {
      var key := Key(c, RunView(map[], es)[sid]);
      assert RunView(map[], before)[sid] == RunView(map[], es)[sid];
      assert OnlyCarrier(c, before, sid, key);
      CacheLagsByOneVersion(c, before, sid);
      HandleAt(c, RunCache(c, map[], before), e, key);
    }
  }

  /** The fields that say which application a detail belongs to. */
  predicate SameIdentity(a: AppDetail, b: AppDetail) {
    && a.appId == b.appId && a.appName == b.appName && a.namespace == b.namespace
    && a.clusterId == b.clusterId && a.clusterName == b.clusterName
  }

  /** The entry was written for some release, under that release's key. */
  ghost predicate WrittenFor(c: Cluster, key: string, d: AppDetail) {
    exists s: Secret :: Key(c, s) == key && d == CachedDetail(c, s.release)
  }

  ghost predicate WellKeyed(c: Cluster, cache: Details) {
    forall k :: k in cache ==> WrittenFor(c, k, cache[k])
  }

  lemma {:induction false} WellKeyedStep(c: Cluster, cache: Details, e: SecretEvent)
    requires WellKeyed(c, cache)
    ensures WellKeyed(c, Handle(c, cache, e))
  {
  }

  /**
   However stale, a hit identifies the same application as the detail a miss would build,
   for namespaces without underscores and a cluster id that fits an `int32`.
   */
  lemma {:induction false} HitIdentifiesLikeMiss(c: Cluster, cache: Details, r: Release)
    requires WellKeyed(c, cache)
    requires -0x8000_0000 <= c.id < 0x8000_0000
    requires ReleaseKey.ReaderKey(r.namespace, r.name, c.id) in cache
    requires '_' !in r.namespace
    requires '_' !in cache[ReleaseKey.ReaderKey(r.namespace, r.name, c.id)].namespace
    ensures SameIdentity(cache[ReleaseKey.ReaderKey(r.namespace, r.name, c.id)],
                         MissDetail(c.id, c.name, r))
  {
    var key := ReleaseKey.ReaderKey(r.namespace, r.name, c.id);
    var id := ReleaseKey.ReleaseId(r.namespace, r.name, c.id);
    ReleaseKey.ReaderMatchesWriter(id);
    assert WrittenFor(c, key, cache[key]);
    var s: Secret :| Key(c, s) == key && cache[key] == CachedDetail(c, s.release);
    ReleaseKey.KeysInjective(ReleaseKey.ReleaseId(s.release.namespace, s.release.name, c.id), id);
  }
}
