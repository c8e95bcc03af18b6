/**
 A release's health from the fetch of its manifests to the status it is reported with: what the
 roots of its tree show for each answer of the cluster, and what that makes of the application.
 */
module ReleaseHealth {
  import opened Wrappers
  import opened Manifests
  import opened Gathering
  import opened ManifestFetch
  import opened ResourceTree
  import opened AppHealth
  import PodAge

  /** The forest of a release stands on the fetched manifests, in order. */
  predicate Fetched(desired: seq<Manifest>, answers: seq<Answer>, ts: seq<Tree>) {
    && |answers| == |desired| == |ts|
    && forall k :: 0 <= k < |ts| ==> ts[k].item == ManifestData(desired[k], answers[k])
  }

  /** The nodes after hook marks were passed on. */
  predicate Marked(before: seq<ResourceTree.Node>, after: seq<ResourceTree.Node>) {
    |after| == |before| && forall i :: 0 <= i < |after| ==> after[i] == PodAge.Inherited(before, before[i])
  }

  lemma {:induction false} RootsStayUnmarked(env: Env, ts: seq<Tree>, before: seq<ResourceTree.Node>,
                                             after: seq<ResourceTree.Node>)
    requires Roots(env, ts, None) <= before && Marked(before, after)
    ensures Roots(env, ts, None) <= after
  {
    var roots := Roots(env, ts, None);
    forall i | 0 <= i < |roots| ensures after[i] == roots[i] {
      assert before[i] == roots[i] && roots[i].parentRefs == [];
    }
  }

  /**
   From the fetch of the manifests to the status, whatever order the fetches and the pool's
   workers take.  The roots come first, one for each manifest and in the manifests' order.
   */
  method BuildReleaseHealth(env: Env, desired: seq<Manifest>, answers: seq<Answer>, batchSize: int, wp: BatchWorker,
                            ghost ts: seq<Tree>)
    returns (r: Result<(seq<ResourceTree.Node>, string), ()>)
    requires batchSize >= 1 && Fetched(desired, answers, ts) && UnfoldsAll(env, ts)
    requires Completes(Tasks(env, KidRequests(env, ts), KidForests(ts)), wp)
    ensures r.Ok? <==> Batched(env, ts, None, wp).Ok?
    ensures r.Ok? ==>
              && Marked(Batched(env, ts, None, wp).value.nodes, r.value.0)
              && IsAppHealth(r.value.1, r.value.0)
              && |desired| == |Roots(env, ts, None)| && Roots(env, ts, None) <= r.value.0
  {
    var slots, calls := GetDesiredOrLiveManifests(desired, answers, batchSize);
    var ds: seq<ResourceTree.DesiredOrLive> := [];
    for i := 0 to slots.Length
      invariant |ds| == i && forall k :: 0 <= k < i ==> ds[k] == ManifestData(desired[k], answers[k])
      invariant forall k: nat :: k < |desired| ==> slots[k] == Some(ManifestData(desired[k], answers[k]))
    {
      ds := ds + [slots[i].value];
    }
    assert Items(ts) == ds;
    var built := BuildNodesWithWorkers(env, wp, ds, None, ts);
    if built.Err? {
      return Err(());
    }
    var tree := built.value.nodes;
    var nodes := new ResourceTree.Node[|tree|](i requires 0 <= i < |tree| => tree[i]);
    assert nodes[..] == tree;
    PodAge.UpdateHookInfoForChildNodes(nodes);
    var status := BuildAppHealthStatus(nodes[..]);
    RootsStayUnmarked(env, ts, tree, nodes[..]);
    return Ok((nodes[..], status));
  }

  /** What a root shows: the fetch's failure, or else its own kind's rule. */
  lemma {:induction false} RootHealth(env: Env, desired: seq<Manifest>, answers: seq<Answer>, ts: seq<Tree>, i: nat)
    requires Fetched(desired, answers, ts) && i < |ts|
    ensures Roots(env, ts, None)[i].health ==
              match answers[i]
              case Found(live) => env.health(live)
              case StatusError(code) =>
                if code == 404 then Some(HealthStatus("Missing", "Resource missing as live manifest not found"))
                else Some(HealthStatus("Unknown", "Resource state unknown as error while fetching live manifest"))
              case OtherError =>
                Some(HealthStatus("Unknown", "Resource state unknown as error while fetching live manifest"))
  {
    assert Roots(env, ts, None)[i] == NodeOf(env, ManifestData(desired[i], answers[i]), None);
  }

  /** The manifest a root is built from: the live one, or the desired one where it is not known. */
  function Shown(desired: Manifest, answer: Answer): Manifest {
    if answer.Found? then answer.live else desired
  }

  predicate IsHookManifest(m: Manifest) {
    m.annotations.Some? && "helm.sh/hook" in m.annotations.value
  }

  /** Everything else a root shows, by its manifest. */
  lemma {:induction false} RootShows(env: Env, desired: seq<Manifest>, answers: seq<Answer>, ts: seq<Tree>, i: nat)
    requires Fetched(desired, answers, ts) && i < |ts|
    ensures var node, m := Roots(env, ts, None)[i], Shown(desired[i], answers[i]);
            && node.ref.manifest == m && node.ref.kind == m.kind && node.ref.name == m.name && node.ref.uid == m.uid
            && node.ref.namespace == (if m.namespace == "" then env.releaseNamespace else m.namespace)
            && node.parentRefs == [] && node.labels == m.labels
            && (node.isHook <==> IsHookManifest(m))
            && node.hookType == (if IsHookManifest(m) then m.annotations.value["helm.sh/hook"] else "")
            && (node.canBeHibernated <==> m.ownerReferences.None? && m.replicas.Count?)
  {
    assert Roots(env, ts, None)[i] == NodeOf(env, ManifestData(desired[i], answers[i]), None);
  }

  /** What an owned node shows: its live object's health, and never hibernation, which is for roots. */
  predicate OwnedShow(env: Env, nodes: seq<ResourceTree.Node>) {
    forall i :: 0 <= i < |nodes| && nodes[i].parentRefs != [] ==>
      && nodes[i].health == env.health(nodes[i].ref.manifest)
      && !nodes[i].canBeHibernated && !nodes[i].isHibernated
  }

  lemma {:induction false} LiveRootsShow(env: Env, ts: seq<Tree>, parent: ResourceRef, ms: seq<Manifest>)
    requires Items(ts) == LiveAll(ms)
    ensures OwnedShow(env, Roots(env, ts, Some(parent)))
  {
    forall i | 0 <= i < |ts| ensures ts[i].item == ResourceTree.Live(ms[i]) {
      assert Items(ts)[i] == ts[i].item && |Items(ts)| == |ms|;
    }
  }

  lemma {:induction false} BelowShow(env: Env, ts: seq<Tree>)
    requires UnfoldsAll(env, ts)
    ensures OwnedShow(env, LayeredBelow(env, ts))
    decreases ts
  {
    if ts == [] {
    } else {
      var before, last := ts[..|ts| - 1], ts[|ts| - 1];
      BelowShow(env, before);
      assert Unfolds(env, last);
      if last.Branch? {
        LiveRootsShow(env, last.kids, RefOf(env, last.item), env.children(last.item.manifest).value);
        BelowShow(env, last.kids);
      }
    }
  }

  /** The fetch of a root that is no hook failed. */
  predicate FailsAt(desired: seq<Manifest>, answers: seq<Answer>, i: int) {
    0 <= i < |answers| == |desired| && !answers[i].Found? && !IsHookManifest(desired[i])
  }

  /**
   A release with a manifest that could not be fetched is never reported healthy or hibernated,
   not even where a pool lost nodes below the roots.
   */
  lemma {:induction false} FailedFetchShows(env: Env, desired: seq<Manifest>, answers: seq<Answer>, ts: seq<Tree>,
                                            nodes: seq<ResourceTree.Node>, i: nat, status: string)
    requires Fetched(desired, answers, ts) && FailsAt(desired, answers, i)
    requires Roots(env, ts, None) <= nodes && IsAppHealth(status, nodes)
    ensures status !in {"Healthy", "Hibernated", "Partially Hibernated"}
  {
    RootHealth(env, desired, answers, ts, i);
    RootShows(env, desired, answers, ts, i);
    assert nodes[i] == Roots(env, ts, None)[i];
    UnhealthyShows(status, nodes, i);
  }

  /** Where the failure is not that the manifest is missing, the release is reported unknown. */
  lemma {:induction false} UnknownShows(env: Env, desired: seq<Manifest>, answers: seq<Answer>, ts: seq<Tree>,
                                        nodes: seq<ResourceTree.Node>, i: nat, status: string)
    requires Fetched(desired, answers, ts) && FailsAt(desired, answers, i) && answers[i] != StatusError(404)
    requires Roots(env, ts, None) <= nodes && IsAppHealth(status, nodes)
    ensures status == "Unknown"
  {
    RootHealth(env, desired, answers, ts, i);
    RootShows(env, desired, answers, ts, i);
    assert nodes[i] == Roots(env, ts, None)[i];
    assert Counts(nodes[i]) && nodes[i].health.value.status == SEVERITY[5];
    UnhealthyShows(status, nodes, i);
    WorstWins(status, nodes, i, 5);
  }

  /** And one whose only trouble are manifests the cluster does not have is reported missing. */
  lemma {:induction false} MissingShows(env: Env, desired: seq<Manifest>, answers: seq<Answer>, ts: seq<Tree>,
                                        nodes: seq<ResourceTree.Node>, i: nat, status: string)
    requires Fetched(desired, answers, ts) && FailsAt(desired, answers, i) && answers[i] == StatusError(404)
    requires Roots(env, ts, None) <= nodes && IsAppHealth(status, nodes)
    requires forall j :: 0 <= j < |nodes| && Counts(nodes[j]) ==>
               nodes[j].health.value.status != "Degraded" && nodes[j].health.value.status != "Unknown"
    ensures status == "Missing"
  {
    assert nodes[i] == Roots(env, ts, None)[i];
    RootHealth(env, desired, answers, ts, i);
    RootShows(env, desired, answers, ts, i);
    assert Counts(nodes[i]) && nodes[i].health.value.status == SEVERITY[3];
    UnhealthyShows(status, nodes, i);
    WorstWins(status, nodes, i, 3);
  }
}
