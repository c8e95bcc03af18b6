/**
 The informer object itself: the cache map and the recorded stop channels, updated in
 place by its methods, each proved against the step of `InformerLifecycle` it performs.
 */
module K8sInformer {
  import opened Wrappers
  import opened Gathering
  import opened ReleaseCache
  import opened InformerLifecycle
  import ReleaseKey

  const UPDATE := "update"
  const DELETE := "delete"

  /** How a request for a release's details can end. */
  datatype DetailsError = HelmFailed | ReleaseNotFound

  class K8sInformer {
    var helmListClusterMap: map<int, Details>
    var informerStopper: map<int, nat>
    // The Go runtime's side of the stop channels: which were made, and which were closed.
    var channels: seq<int>
    var closes: seq<nat>

    function Current(): State
      reads this
    {
      State(helmListClusterMap, informerStopper, channels, closes)
    }

    constructor ()
      ensures Current() == EMPTY_STATE
    {
      helmListClusterMap, informerStopper, channels, closes := map[], map[], [], [];
    }

    method StartInformerAndPopulateCache(clusterId: int, found: Option<Cluster>, clientOk: bool)
      returns (outcome: StartOutcome)
      modifies this
      ensures (Current(), outcome) == StartInformer(old(Current()), clusterId, found, clientOk)
    {
      if found.None? {
        return ClusterNotFound;
      }
      if clusterId in informerStopper {
        return AlreadyExists;
      }
      if !clientOk {
        return ClientFailed;
      }
      helmListClusterMap := helmListClusterMap[clusterId := map[]];
      var stopper := |channels|;
      channels := channels + [clusterId];
      informerStopper := informerStopper[clusterId := stopper];
      return Started;
    }

    /** `panicked` when the channel to close is closed already. */
    method StopInformer(clusterId: int) returns (panicked: bool)
      modifies this
      ensures panicked <==> InformerLifecycle.StopInformer(old(Current()), clusterId).None?
      ensures !panicked ==> Some(Current()) == InformerLifecycle.StopInformer(old(Current()), clusterId)
    {
      if clusterId !in informerStopper {
        return false;
      }
      var stopper := informerStopper[clusterId];
      if stopper in closes {
        return true;
      }
      closes := closes + [stopper];
      informerStopper := informerStopper - {clusterId};
      return false;
    }

    method SyncInformer(clusterId: int, found: Option<Cluster>, foundAgain: Option<Cluster>, clientOk: bool)
      returns (panicked: bool, outcome: StartOutcome)
      modifies this
      ensures var expected := InformerLifecycle.SyncInformer(old(Current()), clusterId, found, foundAgain, clientOk);
              && (panicked <==> expected.None?)
              && (!panicked ==> expected == Some((Current(), outcome)))
    {
      if found.None? {
        return false, ClusterNotFound;
      }
      panicked := StopInformer(found.value.id);
      if panicked {
        return true, ClientFailed;
      }
      outcome := StartInformerAndPopulateCache(clusterId, foundAgain, clientOk);
    }

    /** A cluster's configuration changed; `found` and `foundAgain` answer for its id. */
    method OnStateChange(clusterId: int, action: string, found: Option<Cluster>, foundAgain: Option<Cluster>,
                         clientOk: bool)
      returns (panicked: bool)
      modifies this
      ensures action == "update" ==>
                var expected := InformerLifecycle.SyncInformer(old(Current()), clusterId, found, foundAgain, clientOk);
                && (panicked <==> expected.None?)
                && (!panicked ==> Current() == expected.value.0)
      ensures action == "delete" && found.Some? ==>
                var expected := InformerLifecycle.StopInformer(old(Current()), found.value.id);
                && (panicked <==> expected.None?)
                && (!panicked ==> Some(Current()) == expected)
      ensures action != "update" && (action != "delete" || found.None?) ==>
                !panicked && Current() == old(Current())
    {
      panicked := false;
      if action == UPDATE {
        var outcome;
        panicked, outcome := SyncInformer(clusterId, found, foundAgain, clientOk);
      } else if action == DELETE {
        if found.None? {
          return false;
        }
        panicked := StopInformer(found.value.id);
      }
    }

    /** The handlers of cluster `clusterId`'s informer, which captured `c` when it started. */
    method HandleSecretEvent(clusterId: int, c: Cluster, e: SecretEvent) returns (panicked: bool)
      modifies this
      ensures panicked <==> HandleSecret(old(Current()), clusterId, c, e).None?
      ensures !panicked ==> Some(Current()) == HandleSecret(old(Current()), clusterId, c, e)
    {
      panicked := false;
      match e
      case Added(_, secret) => panicked := StoreDetail(clusterId, c, secret);
      case Updated(_, oldSecret, _) => panicked := StoreDetail(clusterId, c, oldSecret);
      case Deleted(_, secret, tombstone) =>
        if !tombstone && secret.kind == HELM_RELEASE_SECRET_TYPE && clusterId in helmListClusterMap {
          var releases := helmListClusterMap[clusterId];
          helmListClusterMap := helmListClusterMap[clusterId := releases - {Key(c, secret)}];
        }
        assert clusterId in old(helmListClusterMap) ==>
          helmListClusterMap == old(helmListClusterMap)[clusterId := Handle(c, old(helmListClusterMap)[clusterId], e)];
    }

    method StoreDetail(clusterId: int, c: Cluster, secret: Secret) returns (panicked: bool)
      modifies this
      ensures panicked <==> secret.kind == HELM_RELEASE_SECRET_TYPE && clusterId !in old(helmListClusterMap)
      ensures !panicked && clusterId in old(helmListClusterMap) ==>
                Current() == old(Current()).(
                  cache := old(helmListClusterMap)[clusterId := Store(c, old(helmListClusterMap)[clusterId], secret)])
      ensures panicked || clusterId !in old(helmListClusterMap) ==> Current() == old(Current())
    {
      if secret.kind != HELM_RELEASE_SECRET_TYPE {
        assert clusterId in helmListClusterMap ==>
          helmListClusterMap == helmListClusterMap[clusterId := helmListClusterMap[clusterId]];
        return false;
      }
      if clusterId !in helmListClusterMap {
        return true;
      }
      var releases := helmListClusterMap[clusterId];
      var stored := releases[Key(c, secret) := CachedDetail(c, secret.release)];
      helmListClusterMap := helmListClusterMap[clusterId := stored];
      return false;
    }

    /**
     Is the release cached?  Whatever run led to this state, a release said to exist has a secret
     under its key among those the cluster's informer last held.
     */
    method CheckReleaseExists(clusterId: int, releaseIdentifier: string) returns (found: bool)
      ensures found <==> clusterId in helmListClusterMap && releaseIdentifier in helmListClusterMap[clusterId]
      ensures found ==>
                forall w: World :: Inv(w) && w.st == Current() ==>
                  && clusterId in w.captured && clusterId in w.views
                  && releaseIdentifier in LiveKeys(w.captured[clusterId], w.views[clusterId])
    {
      found := clusterId in helmListClusterMap && releaseIdentifier in helmListClusterMap[clusterId];
      if found {
        forall w: World | Inv(w) && w.st == Current()
          ensures clusterId in w.captured && clusterId in w.views
          ensures releaseIdentifier in LiveKeys(w.captured[clusterId], w.views[clusterId])
        {
          assert CacheSafe(w, clusterId);
        }
      }
    }

    /** Every cached detail of a cluster once, in the map's iteration order. */
    method GetAllReleaseByClusterId(clusterId: int) returns (details: seq<AppDetail>)
      ensures clusterId !in helmListClusterMap ==> details == []
      ensures clusterId in helmListClusterMap ==>
                exists order: seq<string> ::
                  && Enumerates(order, helmListClusterMap[clusterId].Keys)
                  && |details| == |order|
                  && forall i :: 0 <= i < |order| ==> details[i] == helmListClusterMap[clusterId][order[i]]
    {
      details := [];
      if clusterId !in helmListClusterMap {
        return;
      }
      var releases := helmListClusterMap[clusterId];
      var remaining := releases.Keys;
      ghost var order: seq<string> := [];
      while remaining != {}
        invariant remaining <= releases.Keys
        invariant Enumerates(order, releases.Keys - remaining)
        invariant |details| == |order|
        invariant forall i :: 0 <= i < |order| ==> details[i] == releases[order[i]]
        decreases remaining
      {
        var k :| k in remaining;
        EnumeratesOneMore(order, releases.Keys - remaining, k);
        details := details + [releases[k]];
        order, remaining := order + [k], remaining - {k};
        assert releases.Keys - remaining == releases.Keys - (remaining + {k}) + {k};
      }
      assert releases.Keys - remaining == releases.Keys;
    }

    /**
     Release details for a request: the cache first, and Helm only on a miss.  `helm` is what
     Helm would answer: an error, no release, or the live one.
     */
    method GetReleaseDetails(namespace: string, name: string, cluster32: int, clusterName: string,
                             helm: Result<Option<Release>, ()>)
      returns (r: Result<AppDetail, DetailsError>)
      ensures var key := ReleaseKey.ReaderKey(namespace, name, cluster32);
              var hit := cluster32 in helmListClusterMap && key in helmListClusterMap[cluster32];
              && (hit ==> r == Ok(helmListClusterMap[cluster32][key]))
              && (!hit && helm.Err? ==> r == Err(HelmFailed))
              && (!hit && helm == Ok(None) ==> r == Err(ReleaseNotFound))
              && (!hit && helm.Ok? && helm.value.Some? ==>
                    r == Ok(MissDetail(cluster32, clusterName, helm.value.value)))
    {
      var key := ReleaseKey.ReaderKey(namespace, name, cluster32);
      if cluster32 in helmListClusterMap && key in helmListClusterMap[cluster32] {
        return Ok(helmListClusterMap[cluster32][key]);
      }
      match helm
      case Err(_) => return Err(HelmFailed);
      case Ok(None) => return Err(ReleaseNotFound);
      case Ok(Some(release)) => return Ok(MissDetail(cluster32, clusterName, release));
    }
  }
}
