/**
 Telling new pods from old ones on a built resource tree.  The lookups dereference map
 entries and nodes without checking for them; here such a failure is the outcome `Crash`.
 */
module PodAge {
  import opened Wrappers
  import opened Manifests
  import opened Gathering
  import opened ResourceTree

  const DEPLOYMENT := "Deployment"
  const REPLICA_SET := "ReplicaSet"
  const STATEFUL_SET := "StatefulSet"
  const DAEMON_SET := "DaemonSet"
  const ROLLOUT := "Rollout"
  const JOB := "Job"
  const CONTROLLER_REVISION := "ControllerRevision"
  const CONTROLLER_REVISION_HASH := "controller-revision-hash"
  const ROLLOUTS_POD_TEMPLATE_HASH := "rollouts-pod-template-hash"

  /** What is kept of a StatefulSet or DaemonSet. */
  datatype SetInfo = SetInfo(updateRevision: string, labels: map<string, string>)

  /** Pod hashes by Deployment name and by Rollout name, and set information by UID. */
  datatype Mappings = Mappings(
    deployments: map<string, string>,
    rollouts: map<string, string>,
    sets: map<string, SetInfo>)

  datatype Outcome = Crash | Failed | Decided(isNew: bool)

  function Label(labels: map<string, string>, key: string): string {
    if key in labels then labels[key] else ""
  }

  function IsSet(n: Node): bool {
    n.ref.kind == STATEFUL_SET || n.ref.kind == DAEMON_SET
  }

  function WithNode(m: Mappings, n: Node): Mappings {
    if n.ref.kind == DEPLOYMENT then
      m.(deployments := m.deployments[n.ref.name := n.revision.deploymentPodHash])
    else if n.ref.kind == ROLLOUT then
      m.(rollouts := m.rollouts[n.ref.name := n.revision.rolloutPodHash])
    else if IsSet(n) && n.ref.uid !in m.sets then
      m.(sets := m.sets[n.ref.uid := SetInfo(n.revision.updateRevision, n.labels)])
    else m
  }

  function MappingsOf(nodes: seq<Node>): Mappings {
    if nodes == [] then Mappings(map[], map[], map[])
    else WithNode(MappingsOf(nodes[..|nodes| - 1]), nodes[|nodes| - 1])
  }

  method GetExtraNodeInfoMappings(nodes: seq<Node>) returns (m: Mappings)
    ensures m == MappingsOf(nodes)
  {
    var deployments: map<string, string> := map[];
    var rollouts: map<string, string> := map[];
    var sets: map<string, SetInfo> := map[];
    for i := 0 to |nodes|
      invariant Mappings(deployments, rollouts, sets) == MappingsOf(nodes[..i])
    {
      var node := nodes[i];
      assert nodes[..i + 1][..i] == nodes[..i];
      if node.ref.kind == DEPLOYMENT {
        deployments := deployments[node.ref.name := node.revision.deploymentPodHash];
      } else if node.ref.kind == ROLLOUT {
        rollouts := rollouts[node.ref.name := node.revision.rolloutPodHash];
      } else if node.ref.kind == STATEFUL_SET || node.ref.kind == DAEMON_SET {
        if node.ref.uid !in sets {
          sets := sets[node.ref.uid := SetInfo(node.revision.updateRevision, node.labels)];
        }
      }
    }
    assert nodes[..|nodes|] == nodes;
    m := Mappings(deployments, rollouts, sets);
  }

  /** Exactly the Rollouts' names and the sets' UIDs are mapped. */
  lemma {:induction false} MappedNames(nodes: seq<Node>)
    ensures forall name :: name in MappingsOf(nodes).rollouts <==>
              exists i :: 0 <= i < |nodes| && nodes[i].ref.kind == ROLLOUT && nodes[i].ref.name == name
    ensures forall uid :: uid in MappingsOf(nodes).sets <==>
              exists i :: 0 <= i < |nodes| && IsSet(nodes[i]) && nodes[i].ref.uid == uid
  {
    if nodes == [] {
    } else {
      var n := |nodes| - 1;
      MappedNames(nodes[..n]);
      assert forall i :: 0 <= i < n ==> nodes[..n][i] == nodes[i];
      assert forall i :: 0 <= i < |nodes| ==> i == n || (i < n && nodes[i] == nodes[..n][i]);
    }
  }

  /** The last node of the kind and name stands at `i`. */
  predicate IsLast(nodes: seq<Node>, kind: string, name: string, i: int) {
    && 0 <= i < |nodes| && nodes[i].ref.kind == kind && nodes[i].ref.name == name
    && forall j :: i < j < |nodes| ==> !(nodes[j].ref.kind == kind && nodes[j].ref.name == name)
  }

  /** The first set with the UID stands at `i`. */
  predicate IsFirstSet(nodes: seq<Node>, uid: string, i: int) {
    && 0 <= i < |nodes| && IsSet(nodes[i]) && nodes[i].ref.uid == uid
    && forall j :: 0 <= j < i ==> !(IsSet(nodes[j]) && nodes[j].ref.uid == uid)
  }

  /** A Deployment's pod hash is that of the last one of the name; no other name is mapped. */
  lemma {:induction false} MappedDeployments(nodes: seq<Node>, name: string)
    ensures name in MappingsOf(nodes).deployments <==> exists i :: IsLast(nodes, DEPLOYMENT, name, i)
    ensures forall i :: IsLast(nodes, DEPLOYMENT, name, i) ==>
              MappingsOf(nodes).deployments[name] == nodes[i].revision.deploymentPodHash
  {
    if nodes == [] {
    } else {
      var n := |nodes| - 1;
      MappedDeployments(nodes[..n], name);
      LastBefore(nodes, DEPLOYMENT, name);
      assert nodes[n].ref.kind == DEPLOYMENT && nodes[n].ref.name == name ==> IsLast(nodes, DEPLOYMENT, name, n);
    }
  }

  /** The same for Rollouts. */
  lemma {:induction false} MappedRollouts(nodes: seq<Node>, name: string)
    ensures name in MappingsOf(nodes).rollouts <==> exists i :: IsLast(nodes, ROLLOUT, name, i)
    ensures forall i :: IsLast(nodes, ROLLOUT, name, i) ==>
              MappingsOf(nodes).rollouts[name] == nodes[i].revision.rolloutPodHash
  {
    if nodes == [] {
    } else {
      var n := |nodes| - 1;
      MappedRollouts(nodes[..n], name);
      LastBefore(nodes, ROLLOUT, name);
      assert nodes[n].ref.kind == ROLLOUT && nodes[n].ref.name == name ==> IsLast(nodes, ROLLOUT, name, n);
    }
  }

  lemma {:induction false} LastBefore(nodes: seq<Node>, kind: string, name: string)
    requires nodes != []
    ensures var n := |nodes| - 1;
            if nodes[n].ref.kind == kind && nodes[n].ref.name == name
            then forall i :: IsLast(nodes, kind, name, i) <==> i == n
            else forall i :: IsLast(nodes, kind, name, i) <==> IsLast(nodes[..n], kind, name, i)
  {
    var n := |nodes| - 1;
    assert forall j :: 0 <= j < n ==> nodes[..n][j] == nodes[j];
  }

  /** Set information is that of the first StatefulSet or DaemonSet with the UID. */
  lemma {:induction false} MappedSets(nodes: seq<Node>, uid: string, i: int)
    requires IsFirstSet(nodes, uid, i)
    ensures uid in MappingsOf(nodes).sets
    ensures MappingsOf(nodes).sets[uid] == SetInfo(nodes[i].revision.updateRevision, nodes[i].labels)
  {
    var n := |nodes| - 1;
    var before := nodes[..n];
    assert forall j :: 0 <= j < n ==> before[j] == nodes[j];
    if i == n {
      MappedNames(before);
    } else {
      MappedSets(before, uid, i);
    }
  }

  /** The first node of a kind and name. */
  function FirstMatch(nodes: seq<Node>, kind: string, name: string): Option<Node> {
    if nodes == [] then None
    else if nodes[0].ref.kind == kind && nodes[0].ref.name == name then Some(nodes[0])
    else FirstMatch(nodes[1..], kind, name)
  }

  method GetMatchingNode(nodes: seq<Node>, kind: string, name: string) returns (r: Option<Node>)
    ensures r == FirstMatch(nodes, kind, name)
  {
    for i := 0 to |nodes|
      invariant FirstMatch(nodes, kind, name) == FirstMatch(nodes[i..], kind, name)
    {
      if nodes[i].ref.kind == kind && nodes[i].ref.name == name {
        return Some(nodes[i]);
      }
    }
    return None;
  }

  lemma {:induction false} FirstMatchFound(nodes: seq<Node>, kind: string, name: string)
    ensures FirstMatch(nodes, kind, name).Some? <==>
              exists i :: 0 <= i < |nodes| && nodes[i].ref.kind == kind && nodes[i].ref.name == name
    ensures FirstMatch(nodes, kind, name).Some? ==>
              var n := FirstMatch(nodes, kind, name).value;
              n in nodes && n.ref.kind == kind && n.ref.name == name
  {
    if nodes == [] {
    } else {
      FirstMatchFound(nodes[1..], kind, name);
      if i :| 0 <= i < |nodes| && nodes[i].ref.kind == kind && nodes[i].ref.name == name {
        assert i > 0 ==> nodes[1..][i - 1] == nodes[i];
      }
      assert forall i :: 0 <= i < |nodes| - 1 ==> nodes[1..][i] == nodes[i + 1];
    }
  }

  /** A ControllerRevision that belongs to the pod's DaemonSet. */
  predicate RevisionOf(n: Node, owner: ResourceRef) {
    && n.ref.kind == CONTROLLER_REVISION && n.parentRefs != []
    && n.parentRefs[0].kind == owner.kind && n.parentRefs[0].name == owner.name
  }

  predicate HasRevision(nodes: seq<Node>, owner: ResourceRef) {
    exists i :: 0 <= i < |nodes| && RevisionOf(nodes[i], owner)
  }

  /** The pod hash computed from a ReplicaSet and its Deployment's collision count, or an error. */
  type PodHash = (Node, Option<Node>) -> Option<string>

  function ReplicaSetVerdict(nodes: seq<Node>, m: Mappings, hash: PodHash, owner: ResourceRef): Outcome {
    match FirstMatch(nodes, REPLICA_SET, owner.name)
    case None => Crash
    case Some(replicaSet) =>
      if replicaSet.parentRefs == [] then Crash
      else
        var top := replicaSet.parentRefs[0];
        if top.kind == DEPLOYMENT then
          (match hash(replicaSet, FirstMatch(nodes, top.kind, top.name))
           case None => Failed
           case Some(h) => Decided(h == Label(m.deployments, top.name)))
        else if top.kind == ROLLOUT then
          if top.name !in m.rollouts then Crash
          else Decided(m.rollouts[top.name] == Label(replicaSet.labels, ROLLOUTS_POD_TEMPLATE_HASH))
        else Decided(false)
  }

  function SetVerdict(m: Mappings, owner: ResourceRef, podLabels: map<string, string>, own: bool): Outcome {
    if owner.uid !in m.sets then Crash
    else
      var info := m.sets[owner.uid];
      Decided(Label(podLabels, CONTROLLER_REVISION_HASH) ==
              if own then info.updateRevision else Label(info.labels, CONTROLLER_REVISION_HASH))
  }

  /** Is the pod new?  Decided by the kind of its first owner. */
  function PodVerdict(nodes: seq<Node>, m: Mappings, hash: PodHash, pod: Node): Outcome {
    if pod.parentRefs == [] then Crash
    else
      var owner := pod.parentRefs[0];
      if owner.kind == STATEFUL_SET then SetVerdict(m, owner, pod.labels, true)
      else if owner.kind == JOB then Decided(true)
      else if owner.kind == REPLICA_SET then ReplicaSetVerdict(nodes, m, hash, owner)
      else if owner.kind == DAEMON_SET && HasRevision(nodes, owner) then SetVerdict(m, owner, pod.labels, false)
      else Decided(false)
  }

  method IsPodNew(nodes: seq<Node>, m: Mappings, hash: PodHash, pod: Node) returns (r: Outcome)
    ensures r == PodVerdict(nodes, m, hash, pod)
  {
    if pod.parentRefs == [] {
      return Crash;
    }
    var owner := pod.parentRefs[0];
    var isNew := false;
    if owner.kind == STATEFUL_SET {
      if owner.uid !in m.sets {
        return Crash;
      }
      isNew := m.sets[owner.uid].updateRevision == Label(pod.labels, CONTROLLER_REVISION_HASH);
    }
    if owner.kind == JOB {
      isNew := true;
    }
    if owner.kind == REPLICA_SET {
      var replicaSet := GetMatchingNode(nodes, owner.kind, owner.name);
      if replicaSet.None? || replicaSet.value.parentRefs == [] {
        return Crash;
      }
      var top := replicaSet.value.parentRefs[0];
      if top.kind == DEPLOYMENT {
        var deployment := GetMatchingNode(nodes, top.kind, top.name);
        var podHash := hash(replicaSet.value, deployment);
        if podHash.None? {
          return Failed;
        }
        isNew := podHash.value == Label(m.deployments, top.name);
      } else if top.kind == ROLLOUT {
        if top.name !in m.rollouts {
          return Crash;
        }
        isNew := m.rollouts[top.name] == Label(replicaSet.value.labels, ROLLOUTS_POD_TEMPLATE_HASH);
      }
    }
    if owner.kind == DAEMON_SET {
      for i := 0 to |nodes|
        invariant HasRevision(nodes[..i], owner) ==> SetVerdict(m, owner, pod.labels, false) == Decided(isNew)
        invariant !HasRevision(nodes[..i], owner) ==> !isNew
      {
        assert nodes[..i + 1][i] == nodes[i];
        assert forall k :: 0 <= k < i ==> nodes[..i + 1][k] == nodes[..i][k] == nodes[k];
        if RevisionOf(nodes[i], owner) {
          if owner.uid !in m.sets {
            assert HasRevision(nodes, owner);
            return Crash;
          }
          var labels := m.sets[owner.uid].labels;
          isNew := Label(labels, CONTROLLER_REVISION_HASH) == Label(pod.labels, CONTROLLER_REVISION_HASH);
        }
      }
      assert nodes[..|nodes|] == nodes;
    }
    return Decided(isNew);
  }

  // ---------- What makes a pod new ----------

  /** The first node of the kind and name stands at `i`. */
  predicate IsFirst(nodes: seq<Node>, kind: string, name: string, i: int) {
    && 0 <= i < |nodes| && nodes[i].ref.kind == kind && nodes[i].ref.name == name
    && forall j :: 0 <= j < i ==> !(nodes[j].ref.kind == kind && nodes[j].ref.name == name)
  }

  lemma {:induction false} FirstMatchIs(nodes: seq<Node>, kind: string, name: string, i: int)
    requires IsFirst(nodes, kind, name, i)
    ensures FirstMatch(nodes, kind, name) == Some(nodes[i])
  {
    if i == 0 {
    } else {
      assert forall j :: 0 <= j < |nodes| - 1 ==> nodes[1..][j] == nodes[j + 1];
      FirstMatchIs(nodes[1..], kind, name, i - 1);
    }
  }

  /** The pod belongs to the ReplicaSet at `k`, and that to an object of this kind and name. */
  predicate ThroughReplicaSet(nodes: seq<Node>, pod: Node, k: int, kind: string, name: string) {
    && pod.parentRefs != [] && pod.parentRefs[0].kind == "ReplicaSet"
    && IsFirst(nodes, "ReplicaSet", pod.parentRefs[0].name, k)
    && nodes[k].parentRefs != []
    && nodes[k].parentRefs[0].kind == kind && nodes[k].parentRefs[0].name == name
  }

  predicate OwnedBy(pod: Node, kind: string) {
    pod.parentRefs != [] && pod.parentRefs[0].kind == kind
  }

  /**
   A Deployment's pod is new exactly if the hash of its ReplicaSet is the pod hash of the last
   Deployment listed with the name; without the hash, an error.
   */
  lemma {:induction false} DeploymentPodIsNewIff(nodes: seq<Node>, hash: PodHash, pod: Node, k: int, name: string,
                                                 i: int)
    requires ThroughReplicaSet(nodes, pod, k, "Deployment", name) && IsLast(nodes, "Deployment", name, i)
    ensures var verdict := PodVerdict(nodes, MappingsOf(nodes), hash, pod);
            match hash(nodes[k], FirstMatch(nodes, "Deployment", name))
            case None => verdict == Failed
            case Some(h) => verdict == Decided(h == nodes[i].revision.deploymentPodHash)
  {
    FirstMatchIs(nodes, REPLICA_SET, pod.parentRefs[0].name, k);
    MappedDeployments(nodes, name);
  }

  /** With no Deployment of the name listed, it is new exactly if that hash is empty. */
  lemma {:induction false} UnlistedDeploymentPod(nodes: seq<Node>, hash: PodHash, pod: Node, k: int, name: string)
    requires ThroughReplicaSet(nodes, pod, k, "Deployment", name)
    requires forall i :: !IsLast(nodes, "Deployment", name, i)
    ensures var verdict := PodVerdict(nodes, MappingsOf(nodes), hash, pod);
            match hash(nodes[k], FirstMatch(nodes, "Deployment", name))
            case None => verdict == Failed
            case Some(h) => verdict == Decided(h == "")
  {
    FirstMatchIs(nodes, REPLICA_SET, pod.parentRefs[0].name, k);
    MappedDeployments(nodes, name);
  }

  /** A Rollout's pod is new exactly if its ReplicaSet is labelled with the last one's pod hash. */
  lemma {:induction false} RolloutPodIsNewIff(nodes: seq<Node>, hash: PodHash, pod: Node, k: int, name: string, i: int)
    requires ThroughReplicaSet(nodes, pod, k, "Rollout", name) && IsLast(nodes, "Rollout", name, i)
    ensures var labels := nodes[k].labels;
            PodVerdict(nodes, MappingsOf(nodes), hash, pod) ==
              Decided(nodes[i].revision.rolloutPodHash ==
                      if "rollouts-pod-template-hash" in labels then labels["rollouts-pod-template-hash"] else "")
  {
    FirstMatchIs(nodes, REPLICA_SET, pod.parentRefs[0].name, k);
    MappedRollouts(nodes, name);
  }

  /** A StatefulSet's pod is new exactly if it is labelled with the set's update revision. */
  lemma {:induction false} StatefulPodIsNewIff(nodes: seq<Node>, hash: PodHash, pod: Node, i: int)
    requires OwnedBy(pod, "StatefulSet") && IsFirstSet(nodes, pod.parentRefs[0].uid, i)
    ensures PodVerdict(nodes, MappingsOf(nodes), hash, pod) ==
              Decided(nodes[i].revision.updateRevision ==
                      if "controller-revision-hash" in pod.labels then pod.labels["controller-revision-hash"] else "")
  {
    MappedSets(nodes, pod.parentRefs[0].uid, i);
  }

  /**
   A DaemonSet's pod is new exactly if a ControllerRevision of the set is listed, and the set and
   the pod are labelled with the same revision.
   */
  lemma {:induction false} DaemonPodIsNewIff(nodes: seq<Node>, hash: PodHash, pod: Node, i: int)
    requires OwnedBy(pod, "DaemonSet") && IsFirstSet(nodes, pod.parentRefs[0].uid, i)
    ensures var revision := (labels: map<string, string>) =>
              if "controller-revision-hash" in labels then labels["controller-revision-hash"] else "";
            PodVerdict(nodes, MappingsOf(nodes), hash, pod) ==
              Decided(&& revision(nodes[i].labels) == revision(pod.labels)
                      && exists k :: && 0 <= k < |nodes| && nodes[k].ref.kind == "ControllerRevision"
                                     && nodes[k].parentRefs != [] && nodes[k].parentRefs[0].kind == "DaemonSet"
                                     && nodes[k].parentRefs[0].name == pod.parentRefs[0].name)
  {
    MappedSets(nodes, pod.parentRefs[0].uid, i);
    var owner := pod.parentRefs[0];
    if HasRevision(nodes, owner) {
      var k :| 0 <= k < |nodes| && RevisionOf(nodes[k], owner);
      assert nodes[k].ref.kind == "ControllerRevision";
    }
    if k :| && 0 <= k < |nodes| && nodes[k].ref.kind == "ControllerRevision"
            && nodes[k].parentRefs != [] && nodes[k].parentRefs[0].kind == "DaemonSet"
            && nodes[k].parentRefs[0].name == owner.name {
      assert RevisionOf(nodes[k], owner);
    }
  }

  /** A Job's pod is always new; below any other kind, below other ReplicaSets and without a revision, never. */
  lemma {:induction false} OtherPods(nodes: seq<Node>, hash: PodHash, pod: Node, k: int, kind: string, name: string)
    ensures OwnedBy(pod, "Job") ==> PodVerdict(nodes, MappingsOf(nodes), hash, pod) == Decided(true)
    ensures pod.parentRefs != []
            && pod.parentRefs[0].kind !in {"StatefulSet", "Job", "ReplicaSet", "DaemonSet"} ==>
              PodVerdict(nodes, MappingsOf(nodes), hash, pod) == Decided(false)
    ensures OwnedBy(pod, "DaemonSet") && !HasRevision(nodes, pod.parentRefs[0]) ==>
              PodVerdict(nodes, MappingsOf(nodes), hash, pod) == Decided(false)
    ensures ThroughReplicaSet(nodes, pod, k, kind, name) && kind != "Deployment" && kind != "Rollout" ==>
              PodVerdict(nodes, MappingsOf(nodes), hash, pod) == Decided(false)
  {
    if ThroughReplicaSet(nodes, pod, k, kind, name) {
      FirstMatchIs(nodes, REPLICA_SET, pod.parentRefs[0].name, k);
    }
  }

  // ---------- When the lookups are safe ----------

  /** On a list closed under parents, a pod's owner is itself a node. */
  lemma {:induction false} OwnerIsNode(nodes: seq<Node>, i: nat)
    requires ParentsFirst(nodes, {}) && i < |nodes| && nodes[i].parentRefs != []
    ensures exists j :: 0 <= j < |nodes| && nodes[j].ref == nodes[i].parentRefs[0]
  {
  }

  /** A node of the tree whose owner is of a kind that is mapped: the mapping has the owner. */
  lemma {:induction false} OwnerIsMapped(nodes: seq<Node>, i: nat)
    requires ParentsFirst(nodes, {}) && i < |nodes| && nodes[i].parentRefs != []
    ensures var owner, m := nodes[i].parentRefs[0], MappingsOf(nodes);
            && (owner.kind == ROLLOUT ==> owner.name in m.rollouts)
            && (owner.kind == STATEFUL_SET || owner.kind == DAEMON_SET ==> owner.uid in m.sets)
            && (owner.kind == REPLICA_SET ==> FirstMatch(nodes, REPLICA_SET, owner.name).Some?)
  {
    var owner := nodes[i].parentRefs[0];
    OwnerIsNode(nodes, i);
    var j :| 0 <= j < |nodes| && nodes[j].ref == owner;
    if owner.kind == REPLICA_SET {
      FirstMatchFound(nodes, REPLICA_SET, owner.name);
    } else {
      MappedNames(nodes);
      assert owner.kind == STATEFUL_SET || owner.kind == DAEMON_SET ==>
               IsSet(nodes[j]) && nodes[j].ref.uid == owner.uid;
    }
  }

  lemma {:induction false} ReplicaSetCrashesIff(nodes: seq<Node>, hash: PodHash, owner: ResourceRef)
    requires ParentsFirst(nodes, {}) && FirstMatch(nodes, REPLICA_SET, owner.name).Some?
    ensures ReplicaSetVerdict(nodes, MappingsOf(nodes), hash, owner).Crash? <==>
            FirstMatch(nodes, REPLICA_SET, owner.name).value.parentRefs == []
  {
    var replicaSet := FirstMatch(nodes, REPLICA_SET, owner.name).value;
    FirstMatchFound(nodes, REPLICA_SET, owner.name);
    if replicaSet.parentRefs != [] {
      var k: nat :| k < |nodes| && nodes[k] == replicaSet;
      OwnerIsMapped(nodes, k);
    }
  }

  /**
   On a parent-closed tree the decision for an owned pod crashes in one case only: its owner
   is a ReplicaSet and the first ReplicaSet of that name, in any namespace, is a root.
   */
  lemma {:induction false} CrashesIff(nodes: seq<Node>, hash: PodHash, i: nat)
    requires ParentsFirst(nodes, {}) && i < |nodes| && nodes[i].parentRefs != []
    ensures var owner := nodes[i].parentRefs[0];
            PodVerdict(nodes, MappingsOf(nodes), hash, nodes[i]).Crash? <==>
            && owner.kind == REPLICA_SET
            && FirstMatch(nodes, REPLICA_SET, owner.name).Some?
            && FirstMatch(nodes, REPLICA_SET, owner.name).value.parentRefs == []
  {
    OwnerIsMapped(nodes, i);
    var owner := nodes[i].parentRefs[0];
    if owner.kind == REPLICA_SET {
      ReplicaSetCrashesIff(nodes, hash, owner);
    }
  }

  /** No such node, or one without an owner, or owned by a Rollout that is not listed. */
  predicate BadReplicaSet(nodes: seq<Node>, name: string) {
    match FirstMatch(nodes, REPLICA_SET, name)
    case None => true
    case Some(replicaSet) =>
      replicaSet.parentRefs == [] ||
      (&& replicaSet.parentRefs[0].kind == ROLLOUT
       && FirstMatch(nodes, ROLLOUT, replicaSet.parentRefs[0].name).None?)
  }

  predicate SetListed(nodes: seq<Node>, uid: string) {
    exists i :: 0 <= i < |nodes| && IsSet(nodes[i]) && nodes[i].ref.uid == uid
  }

  /**
   On any list and for any pod, filtered lists included, exactly when the decision crashes: the
   pod has no owner; its StatefulSet is not listed; its DaemonSet is not although a revision of
   it is; or of its ReplicaSet's name none is listed, or the first is bad.
   */
  lemma {:induction false} CrashesOnAnyListIff(nodes: seq<Node>, hash: PodHash, pod: Node)
    ensures PodVerdict(nodes, MappingsOf(nodes), hash, pod).Crash? <==>
            || pod.parentRefs == []
            || (var owner := pod.parentRefs[0];
                || (owner.kind == STATEFUL_SET && !SetListed(nodes, owner.uid))
                || (owner.kind == DAEMON_SET && HasRevision(nodes, owner) && !SetListed(nodes, owner.uid))
                || (owner.kind == REPLICA_SET && BadReplicaSet(nodes, owner.name)))
  {
    MappedNames(nodes);
    if pod.parentRefs != [] && pod.parentRefs[0].kind == REPLICA_SET {
      var replicaSet := FirstMatch(nodes, REPLICA_SET, pod.parentRefs[0].name);
      if replicaSet.Some? && replicaSet.value.parentRefs != [] {
        FirstMatchFound(nodes, ROLLOUT, replicaSet.value.parentRefs[0].name);
      }
    }
  }

  /** On any list, a StatefulSet's pod is safe exactly while a set with the owner's UID is listed. */
  lemma {:induction false} StatefulPodSafeIff(nodes: seq<Node>, hash: PodHash, pod: Node)
    requires pod.parentRefs != [] && pod.parentRefs[0].kind == STATEFUL_SET
    ensures PodVerdict(nodes, MappingsOf(nodes), hash, pod).Crash? <==>
            forall i :: 0 <= i < |nodes| && IsSet(nodes[i]) ==> nodes[i].ref.uid != pod.parentRefs[0].uid
  {
    MappedNames(nodes);
  }

  predicate AllOwned(nodes: seq<Node>) {
    forall i :: 0 <= i < |nodes| ==> nodes[i].parentRefs != []
  }

  /** Below the first level every node has an owner. */
  lemma {:induction false} OnlyRootsAreOwnerless(env: Env, ts: seq<Tree>, ref: ResourceRef)
    ensures AllOwned(LayeredBelow(env, ts))
    ensures AllOwned(Layered(env, ts, Some(ref)))
  {
    if ts == [] {
    } else {
      var before, last := ts[..|ts| - 1], ts[|ts| - 1];
      OnlyRootsAreOwnerless(env, before, ref);
      if last.Branch? {
        OnlyRootsAreOwnerless(env, last.kids, RefOf(env, last.item));
      }
    }
  }

  lemma {:induction false} GatheredAreOwned(segments: seq<seq<Node>>, order: seq<nat>)
    requires Below(order, |segments|)
    requires forall i :: 0 <= i < |segments| ==> AllOwned(segments[i])
    ensures AllOwned(Gathered(segments, order))
  {
    if order == [] {
    } else {
      GatheredAreOwned(segments, order[..|order| - 1]);
    }
  }

  predicate NoReplicaSetRoot(ts: seq<Tree>) {
    forall i :: 0 <= i < |ts| ==> ts[i].item.manifest.kind != REPLICA_SET
  }

  lemma {:induction false} ReplicaSetsAreOwned(env: Env, ts: seq<Tree>, below: seq<Node>, n: Node)
    requires NoReplicaSetRoot(ts) && AllOwned(below)
    requires n in Roots(env, ts, None) + below && n.ref.kind == REPLICA_SET
    ensures n.parentRefs != []
  {
  }

  lemma {:induction false} NoCrash(env: Env, ts: seq<Tree>, below: seq<Node>, nodes: seq<Node>, hash: PodHash, i: nat)
    requires NoReplicaSetRoot(ts) && AllOwned(below) && nodes == Roots(env, ts, None) + below
    requires ParentsFirst(nodes, {}) && i < |nodes| && nodes[i].parentRefs != []
    ensures !PodVerdict(nodes, MappingsOf(nodes), hash, nodes[i]).Crash?
  {
    var name := nodes[i].parentRefs[0].name;
    CrashesIff(nodes, hash, i);
    FirstMatchFound(nodes, REPLICA_SET, name);
    if FirstMatch(nodes, REPLICA_SET, name).Some? {
      ReplicaSetsAreOwned(env, ts, below, FirstMatch(nodes, REPLICA_SET, name).value);
    }
  }

  /** On a tree built sequentially without a ReplicaSet among its roots no owned pod crashes. */
  lemma {:induction false} SequentialTreeIsSafe(env: Env, ts: seq<Tree>, hash: PodHash, i: nat)
    requires NoReplicaSetRoot(ts)
    requires i < |Layered(env, ts, None)| && Layered(env, ts, None)[i].parentRefs != []
    ensures var nodes := Layered(env, ts, None);
            !PodVerdict(nodes, MappingsOf(nodes), hash, nodes[i]).Crash?
  {
    LayeredParentsFirst(env, ts, None, {});
    if ts != [] {
      OnlyRootsAreOwnerless(env, ts, RefOf(env, ts[0].item));
    }
    NoCrash(env, ts, LayeredBelow(env, ts), Layered(env, ts, None), hash, i);
  }

  /** Nor on one built with a worker pool, even where the pool lost nodes. */
  lemma {:induction false} BatchedTreeIsSafe(env: Env, ts: seq<Tree>, wp: BatchWorker, hash: PodHash, i: nat)
    requires UnfoldsAll(env, ts) && NoReplicaSetRoot(ts)
    requires Completes(Tasks(env, KidRequests(env, ts), KidForests(ts)), wp)
    requires Batched(env, ts, None, wp).Ok?
    requires i < |Batched(env, ts, None, wp).value.nodes|
    requires Batched(env, ts, None, wp).value.nodes[i].parentRefs != []
    ensures var nodes := Batched(env, ts, None, wp).value.nodes;
            !PodVerdict(nodes, MappingsOf(nodes), hash, nodes[i]).Crash?
  {
    var requests, forests := KidRequests(env, ts), KidForests(ts);
    var segments := Segments(env, requests, forests);
    var order := Waited(Tasks(env, requests, forests), wp).value;
    BatchParentsFirst(env, ts, order);
    forall k | 0 <= k < |segments| ensures AllOwned(segments[k]) {
      OnlyRootsAreOwnerless(env, forests[k], requests[k].ref);
    }
    GatheredAreOwned(segments, order);
    NoCrash(env, ts, Gathered(segments, order), Batched(env, ts, None, wp).value.nodes, hash, i);
  }

  // ---------- Hooks ----------

  /** The type of the last hook with this UID among the nodes, if there is one. */
  function HookTypeOf(nodes: seq<Node>, uid: string): Option<string> {
    if nodes == [] then None
    else
      var last := nodes[|nodes| - 1];
      if last.isHook && last.ref.uid == uid then Some(last.hookType) else HookTypeOf(nodes[..|nodes| - 1], uid)
  }

  /** A node whose first owner is one of `hooks` becomes a hook of that owner's type. */
  function Inherited(hooks: seq<Node>, n: Node): Node {
    if n.parentRefs == [] then n
    else match HookTypeOf(hooks, n.parentRefs[0].uid)
      case None => n
      case Some(t) => n.(isHook := true, hookType := t)
  }

  /** The last hook with the UID decides. */
  lemma {:induction false} HookTypeOfIs(nodes: seq<Node>, uid: string, i: int)
    ensures 0 <= i < |nodes| && nodes[i].isHook && nodes[i].ref.uid == uid
            && (forall j :: i < j < |nodes| ==> !(nodes[j].isHook && nodes[j].ref.uid == uid)) ==>
              HookTypeOf(nodes, uid) == Some(nodes[i].hookType)
    ensures (forall j :: 0 <= j < |nodes| ==> !(nodes[j].isHook && nodes[j].ref.uid == uid)) ==>
              HookTypeOf(nodes, uid) == None
  {
    if nodes == [] {
    } else {
      var n := |nodes| - 1;
      assert forall j :: 0 <= j < n ==> nodes[..n][j] == nodes[j];
      HookTypeOfIs(nodes[..n], uid, i);
    }
  }

  /** The last hook with the UID stands at `i`. */
  predicate IsLastHook(nodes: seq<Node>, uid: string, i: int) {
    && 0 <= i < |nodes| && nodes[i].isHook && nodes[i].ref.uid == uid
    && forall j :: i < j < |nodes| ==> !(nodes[j].isHook && nodes[j].ref.uid == uid)
  }

  /** A node takes over the type of the last hook that is its first owner, and else stays as it was. */
  lemma {:induction false} MarksComeFromOwners(nodes: seq<Node>, n: Node, i: int)
    ensures n.parentRefs == [] ==> Inherited(nodes, n) == n
    ensures n.parentRefs != [] && IsLastHook(nodes, n.parentRefs[0].uid, i) ==>
              Inherited(nodes, n) == n.(isHook := true, hookType := nodes[i].hookType)
    ensures n.parentRefs != []
            && (forall j :: 0 <= j < |nodes| ==> !(nodes[j].isHook && nodes[j].ref.uid == n.parentRefs[0].uid)) ==>
              Inherited(nodes, n) == n
  {
    if n.parentRefs != [] {
      HookTypeOfIs(nodes, n.parentRefs[0].uid, i);
    }
  }

  /** Hook marks pass to the direct children of what was a hook before, and no further. */
  method UpdateHookInfoForChildNodes(nodes: array<Node>)
    modifies nodes
    ensures forall i :: 0 <= i < nodes.Length ==> nodes[i] == Inherited(old(nodes[..]), old(nodes[i]))
  {
    var hooks: map<string, string> := map[];
    ghost var before := nodes[..];
    for i := 0 to nodes.Length
      invariant forall uid :: uid in hooks <==> HookTypeOf(before[..i], uid).Some?
      invariant forall uid :: uid in hooks ==> HookTypeOf(before[..i], uid) == Some(hooks[uid])
    {
      assert before[..i + 1][..i] == before[..i];
      if nodes[i].isHook {
        hooks := hooks[nodes[i].ref.uid := nodes[i].hookType];
      }
    }
    assert before[..nodes.Length] == before;
    if |hooks| > 0 {
      for i := 0 to nodes.Length
        invariant forall k :: 0 <= k < i ==> nodes[k] == Inherited(before, before[k])
        invariant forall k :: i <= k < nodes.Length ==> nodes[k] == before[k]
      {
        var node := nodes[i];
        if |node.parentRefs| > 0 && node.parentRefs[0].uid in hooks {
          nodes[i] := node.(isHook := true, hookType := hooks[node.parentRefs[0].uid]);
        }
      }
    }
  }
}
