/** The health of an application: the worst of its nodes, or its hibernation. */
module AppHealth {
  import opened Wrappers
  import opened Manifests
  import opened Hibernation
  import opened ResourceTree

  const HEALTHY := "Healthy"
  const HIBERNATED := "Hibernated"
  const PARTIALLY_HIBERNATED := "Partially Hibernated"

  /** Healthiest first; a code that is not listed ranks with the healthy ones. */
  function Rank(status: string): nat {
    if status == "Suspended" then 1
    else if status == "Progressing" then 2
    else if status == "Missing" then 3
    else if status == "Degraded" then 4
    else if status == "Unknown" then 5
    else 0
  }

  predicate IsWorseStatus(current: string, other: string) {
    Rank(other) > Rank(current)
  }

  /** Hooks and nodes without health are left out. */
  predicate Counts(n: Node) {
    !n.isHook && n.health.Some?
  }

  predicate Hibernatable(n: Node) {
    !n.isHook && n.canBeHibernated
  }

  /** The status is the worst of the nodes', "Healthy" if none is worse than that. */
  predicate IsWorstOf(status: string, nodes: seq<Node>) {
    && (forall i :: 0 <= i < |nodes| && Counts(nodes[i]) ==> Rank(nodes[i].health.value.status) <= Rank(status))
    && (status == HEALTHY ||
        (Rank(status) > 0 &&
         exists i :: 0 <= i < |nodes| && Counts(nodes[i]) && nodes[i].health.value.status == status))
  }

  predicate AnyHibernatable(nodes: seq<Node>) {
    exists i :: 0 <= i < |nodes| && Hibernatable(nodes[i])
  }

  predicate AllHibernated(nodes: seq<Node>) {
    forall i :: 0 <= i < |nodes| && Hibernatable(nodes[i]) ==> nodes[i].isHibernated
  }

  predicate AnyHibernated(nodes: seq<Node>) {
    exists i :: 0 <= i < |nodes| && Hibernatable(nodes[i]) && nodes[i].isHibernated
  }

  /** The application's status, said without the loop that finds it. */
  predicate IsAppHealth(status: string, nodes: seq<Node>) {
    if IsWorstOf(HEALTHY, nodes) && AnyHibernatable(nodes) && AllHibernated(nodes) then status == HIBERNATED
    else if IsWorstOf(HEALTHY, nodes) && AnyHibernated(nodes) then status == PARTIALLY_HIBERNATED
    else IsWorstOf(status, nodes)
  }

  method BuildAppHealthStatus(nodes: seq<Node>) returns (status: string)
    ensures IsAppHealth(status, nodes)
  {
    status := HEALTHY;
    var fully, partially, any := true, false, false;
    for i := 0 to |nodes|
      invariant IsWorstOf(status, nodes[..i])
      invariant any <==> AnyHibernatable(nodes[..i])
      invariant fully <==> AllHibernated(nodes[..i])
      invariant partially <==> AnyHibernated(nodes[..i])
    {
      var node := nodes[i];
      LongerPrefix(nodes, i, status);
      if node.isHook {
        continue;
      }
      if node.canBeHibernated {
        any := true;
        if !node.isHibernated {
          fully := false;
        } else {
          partially := true;
        }
      }
      if node.health.None? {
        continue;
      }
      if IsWorseStatus(status, node.health.value.status) {
        status := node.health.value.status;
      }
    }
    assert nodes[..|nodes|] == nodes;
    HealthyIsUnique(status, nodes);
    if status == HEALTHY && any {
      if fully {
        status := HIBERNATED;
      } else if partially {
        status := PARTIALLY_HIBERNATED;
      }
    }
  }

  lemma {:induction false} LongerPrefix(nodes: seq<Node>, i: nat, status: string)
    requires i < |nodes|
    ensures AnyHibernatable(nodes[..i + 1]) <==> AnyHibernatable(nodes[..i]) || Hibernatable(nodes[i])
    ensures AllHibernated(nodes[..i + 1]) <==>
            AllHibernated(nodes[..i]) && (Hibernatable(nodes[i]) ==> nodes[i].isHibernated)
    ensures AnyHibernated(nodes[..i + 1]) <==>
            AnyHibernated(nodes[..i]) || (Hibernatable(nodes[i]) && nodes[i].isHibernated)
    ensures IsWorstOf(status, nodes[..i]) ==>
              if Counts(nodes[i]) && IsWorseStatus(status, nodes[i].health.value.status)
              then IsWorstOf(nodes[i].health.value.status, nodes[..i + 1])
              else IsWorstOf(status, nodes[..i + 1])
  {
    var longer, shorter := nodes[..i + 1], nodes[..i];
    assert longer[i] == nodes[i];
    assert forall k :: 0 <= k < i ==> longer[k] == shorter[k];
    assert forall k :: 0 <= k < |longer| ==> k == i || longer[k] == shorter[k];
  }

  /** Ranks above zero tell statuses apart, so there is one worst status. */
  lemma {:induction false} WorstIsUnique(a: string, b: string, nodes: seq<Node>)
    requires IsWorstOf(a, nodes) && IsWorstOf(b, nodes)
    ensures a == b
  {
  }

  lemma {:induction false} HealthyIsUnique(status: string, nodes: seq<Node>)
    requires IsWorstOf(status, nodes)
    ensures IsWorstOf(HEALTHY, nodes) <==> status == HEALTHY
  {
  }

  /** From healthy to worst. */
  const SEVERITY := ["Healthy", "Suspended", "Progressing", "Missing", "Degraded", "Unknown"]

  lemma {:induction false} RankIsSeverity(status: string)
    ensures Rank(status) < |SEVERITY| && (Rank(status) > 0 ==> SEVERITY[Rank(status)] == status)
    ensures forall k :: 0 <= k < |SEVERITY| ==> Rank(SEVERITY[k]) == k
  {
  }

  /**
   The worst node decides: if one that counts has the severity `k` and none that counts has a
   higher one, that is the worst status.
   */
  lemma {:induction false} WorstWins(status: string, nodes: seq<Node>, i: nat, k: nat)
    requires IsWorstOf(status, nodes) && 0 < k < |SEVERITY|
    requires i < |nodes| && Counts(nodes[i]) && nodes[i].health.value.status == SEVERITY[k]
    requires forall j, l :: 0 <= j < |nodes| && Counts(nodes[j]) && k < l < |SEVERITY| ==>
               nodes[j].health.value.status != SEVERITY[l]
    ensures status == SEVERITY[k]
  {
    RankIsSeverity(status);
    forall j | 0 <= j < |nodes| && Counts(nodes[j]) ensures Rank(nodes[j].health.value.status) <= k {
      RankIsSeverity(nodes[j].health.value.status);
    }
  }

  /** One node that counts and is worse than healthy keeps an application from looking well or asleep. */
  lemma {:induction false} UnhealthyShows(status: string, nodes: seq<Node>, i: nat)
    requires IsAppHealth(status, nodes) && i < |nodes| && Counts(nodes[i])
    requires Rank(nodes[i].health.value.status) > 0
    ensures IsWorstOf(status, nodes) && Rank(status) > 0
    ensures status !in {"Healthy", "Hibernated", "Partially Hibernated"}
  {
    assert !IsWorstOf(HEALTHY, nodes);
  }

  predicate MembersOf(a: seq<Node>, b: seq<Node>) {
    forall i :: 0 <= i < |a| ==> a[i] in b
  }

  lemma {:induction false} SameMembers(a: seq<Node>, b: seq<Node>)
    requires multiset(a) == multiset(b)
    ensures MembersOf(a, b)
  {
    forall i | 0 <= i < |a| ensures a[i] in b {
      assert a[i] in multiset(a);
      assert a[i] in multiset(b);
    }
  }

  lemma {:induction false} WorstOfSameMembers(status: string, a: seq<Node>, b: seq<Node>)
    requires MembersOf(a, b) && MembersOf(b, a) && IsWorstOf(status, a)
    ensures IsWorstOf(status, b)
  {
  }

  lemma {:induction false} HibernationOfSameMembers(a: seq<Node>, b: seq<Node>)
    requires MembersOf(a, b)
    ensures AnyHibernatable(a) ==> AnyHibernatable(b)
    ensures AnyHibernated(a) ==> AnyHibernated(b)
    ensures AllHibernated(b) ==> AllHibernated(a)
  {
  }

  /** The application's status does not depend on the order of the nodes. */
  lemma {:induction false} OrderDoesNotMatter(a: seq<Node>, b: seq<Node>, s: string, t: string)
    requires multiset(a) == multiset(b)
    requires IsAppHealth(s, a) && IsAppHealth(t, b)
    ensures s == t
  {
    SameMembers(a, b);
    SameMembers(b, a);
    HibernationOfSameMembers(a, b);
    HibernationOfSameMembers(b, a);
    if IsWorstOf(HEALTHY, a) {
      WorstOfSameMembers(HEALTHY, a, b);
    } else if IsWorstOf(HEALTHY, b) {
      WorstOfSameMembers(HEALTHY, b, a);
    }
    if IsWorstOf(s, a) && IsWorstOf(t, b) {
      WorstOfSameMembers(s, a, b);
      WorstIsUnique(s, t, b);
    }
  }

  /** The first status worse than healthy decides a deployment's status. */
  method GetAppStatusOnBasisOfHealthyNonHealthy(healths: seq<Option<HealthStatus>>) returns (status: string)
    ensures status == HEALTHY <==>
            forall i :: 0 <= i < |healths| && healths[i].Some? ==> Rank(healths[i].value.status) == 0
    ensures status != HEALTHY ==>
              exists i :: && 0 <= i < |healths| && healths[i].Some? && healths[i].value.status == status
                          && Rank(status) > 0
                          && forall k :: 0 <= k < i && healths[k].Some? ==> Rank(healths[k].value.status) == 0
  {
    status := HEALTHY;
    for i := 0 to |healths|
      invariant status == HEALTHY
      invariant forall k :: 0 <= k < i && healths[k].Some? ==> Rank(healths[k].value.status) == 0
    {
      if healths[i].None? {
        continue;
      }
      if IsWorseStatus(status, healths[i].value.status) {
        status := healths[i].value.status;
        break;
      }
    }
  }

  // ---------- Hibernation is what health reports ----------

  /** The objects as nodes of the tree: healthy roots without owners. */
  predicate HealthyRoots(env: Env, live: Live, roots: seq<ObjectId>) {
    forall i :: 0 <= i < |roots| ==>
      && roots[i] in live
      && live[roots[i]].ownerReferences.None?
      && (env.health(live[roots[i]]).Some? ==> env.health(live[roots[i]]).value.status == HEALTHY)
      && (live[roots[i]].annotations.Some? ==> HOOK_ANNOTATION !in live[roots[i]].annotations.value)
  }

  function RootNodes(env: Env, live: Live, roots: seq<ObjectId>): seq<Node>
    requires forall i :: 0 <= i < |roots| ==> roots[i] in live
  {
    seq(|roots|, i requires 0 <= i < |roots| => NodeOf(env, ResourceTree.Live(live[roots[i]]), None))
  }

  predicate Scalable(m: Manifest) {
    m.replicas.Count?
  }

  predicate AtZero(live: Live, id: ObjectId) {
    id in live && Scalable(live[id]) && live[id].replicas.n == 0
  }

  /** Every scalable root carries a total other than zero, in one place. */
  predicate RootsCarry(live: Live, roots: seq<ObjectId>) {
    forall i :: 0 <= i < |roots| && roots[i] in live && Scalable(live[roots[i]]) ==>
      CountsFit(live[roots[i]]) && Balanced(live[roots[i]]) && TotalCount(live[roots[i]]) != 0
  }

  /** What the scalable roots add up to: nothing to hibernate, or all, some or none of them at zero. */
  function HibernationOf(live: Live, roots: seq<ObjectId>): string
    requires forall i :: 0 <= i < |roots| ==> roots[i] in live
  {
    if forall i :: 0 <= i < |roots| ==> !Scalable(live[roots[i]]) then "Healthy"
    else if forall i :: 0 <= i < |roots| && Scalable(live[roots[i]]) ==> AtZero(live, roots[i]) then "Hibernated"
    else if exists i :: 0 <= i < |roots| && AtZero(live, roots[i]) then "Partially Hibernated"
    else "Healthy"
  }

  lemma {:induction false} RootNodeShows(env: Env, live: Live, roots: seq<ObjectId>, i: nat)
    requires HealthyRoots(env, live, roots) && RootsCarry(live, roots) && i < |roots|
    ensures var node := RootNodes(env, live, roots)[i];
            && (Hibernatable(node) <==> Scalable(live[roots[i]]))
            && (Scalable(live[roots[i]]) ==> (node.isHibernated <==> AtZero(live, roots[i])))
            && (Counts(node) ==> node.health.value.status == HEALTHY)
  {
    if Scalable(live[roots[i]]) {
      HibernatedIffAtZero(live[roots[i]]);
    }
  }

  lemma {:induction false} RootNodesHibernate(live: Live, roots: seq<ObjectId>, nodes: seq<Node>)
    requires |nodes| == |roots| && forall i :: 0 <= i < |roots| ==> roots[i] in live
    requires forall i :: 0 <= i < |roots| ==> (Hibernatable(nodes[i]) <==> Scalable(live[roots[i]]))
    requires forall i :: 0 <= i < |roots| && Scalable(live[roots[i]]) ==>
               (nodes[i].isHibernated <==> AtZero(live, roots[i]))
    ensures AnyHibernatable(nodes) <==> exists i :: 0 <= i < |roots| && Scalable(live[roots[i]])
    ensures AllHibernated(nodes) <==>
            forall i :: 0 <= i < |roots| && Scalable(live[roots[i]]) ==> AtZero(live, roots[i])
    ensures AnyHibernated(nodes) <==> exists i :: 0 <= i < |roots| && AtZero(live, roots[i])
  {
    assert forall i :: 0 <= i < |roots| && AtZero(live, roots[i]) ==>
                         Scalable(live[roots[i]]) && Hibernatable(nodes[i]);
  }

  lemma {:induction false} HealthOfHealthyNodes(live: Live, roots: seq<ObjectId>, nodes: seq<Node>)
    requires |nodes| == |roots| && forall i :: 0 <= i < |roots| ==> roots[i] in live
    requires forall i :: 0 <= i < |roots| ==> (Hibernatable(nodes[i]) <==> Scalable(live[roots[i]]))
    requires forall i :: 0 <= i < |roots| && Scalable(live[roots[i]]) ==>
               (nodes[i].isHibernated <==> AtZero(live, roots[i]))
    requires forall i :: 0 <= i < |nodes| && Counts(nodes[i]) ==> nodes[i].health.value.status == HEALTHY
    ensures IsWorstOf(HEALTHY, nodes) && IsAppHealth(HibernationOf(live, roots), nodes)
  {
    RootNodesHibernate(live, roots, nodes);
    assert IsWorstOf(HEALTHY, nodes);
  }

  /** A hook of whatever health, or a healthy node that cannot be hibernated: all that is below. */
  predicate Bystander(n: Node) {
    n.isHook || (!n.canBeHibernated && (n.health.Some? ==> n.health.value.status == HEALTHY))
  }

  predicate Bystanders(nodes: seq<Node>) {
    forall i :: 0 <= i < |nodes| ==> Bystander(nodes[i])
  }

  /** Bystanders change nothing about an application that is healthy without them. */
  lemma {:induction false} BystandersHaveNoSay(a: seq<Node>, others: seq<Node>, status: string)
    requires Bystanders(others) && IsWorstOf(HEALTHY, a) && IsAppHealth(status, a)
    ensures IsAppHealth(status, a + others)
  {
    var all := a + others;
    assert forall i :: 0 <= i < |a| ==> all[i] == a[i];
    assert forall i :: |a| <= i < |all| ==> all[i] == others[i - |a|];
    forall i | 0 <= i < |all| && (Hibernatable(all[i]) || (Counts(all[i]) && all[i].health.value.status != HEALTHY))
      ensures i < |a|
    {
      assert i >= |a| ==> Bystander(others[i - |a|]);
    }
    assert IsWorstOf(HEALTHY, all);
    if IsWorstOf(status, a) {
      WorstIsUnique(status, HEALTHY, a);
    }
  }

  /**
   Among an application's nodes, in any order, let healthy ownerless roots stand beside
   bystanders.  It is reported as hibernated, partially hibernated or healthy as all, some or
   none of the scalable roots are at zero.
   */
  lemma {:induction false} HealthReportsHibernation(env: Env, live: Live, roots: seq<ObjectId>, others: seq<Node>,
                                                    nodes: seq<Node>, status: string)
    requires HealthyRoots(env, live, roots) && RootsCarry(live, roots) && Bystanders(others)
    requires multiset(nodes) == multiset(RootNodes(env, live, roots) + others)
    requires IsAppHealth(status, nodes)
    ensures status == HibernationOf(live, roots)
  {
    var rootNodes := RootNodes(env, live, roots);
    forall i | 0 <= i < |roots|
      ensures Hibernatable(rootNodes[i]) <==> Scalable(live[roots[i]])
      ensures Scalable(live[roots[i]]) ==> (rootNodes[i].isHibernated <==> AtZero(live, roots[i]))
      ensures Counts(rootNodes[i]) ==> rootNodes[i].health.value.status == HEALTHY
    {
      RootNodeShows(env, live, roots, i);
    }
    HealthOfHealthyNodes(live, roots, rootNodes);
    BystandersHaveNoSay(rootNodes, others, HibernationOf(live, roots));
    OrderDoesNotMatter(nodes, rootNodes + others, status, HibernationOf(live, roots));
  }

  /**
   An object that started out without an integer count: it is as it was, unless an annotated
   count was scaled up, which then it carries.
   */
  predicate MayGainCount(before: Live, after: Live, id: ObjectId) {
    && id in before && id in after
    && (before[id].replicas.Count? ==> after[id].replicas.Count?)
    && (!before[id].replicas.Count? && TotalCount(before[id]) == 0 ==> after[id] == before[id])
  }

  lemma {:induction false} BatchMayGainCount(live: Live, id: ObjectId, b: Batch, n: nat)
    requires n <= |b.objects| && id in live
    ensures MayGainCount(live, ScaleFirst(live, b, n).0, id)
  {
    if n == 0 {
    } else {
      BatchMayGainCount(live, id, b, n - 1);
      var before := ScaleFirst(live, b, n - 1).0;
      var target := b.objects[n - 1];
      if target in before && ScalePatch(before[target], b.scaleDown).Ok? {
        var m := before[target];
        HibernatePatchApplied(m, 0, Decimal.Itoa(ReplicaCount(m)));
        HibernatePatchApplied(m, AnnotatedCount(m), "0");
      }
    }
  }

  lemma {:induction false} RunsMayGainCount(live: Live, id: ObjectId, batches: seq<Batch>)
    requires id in live
    ensures MayGainCount(live, RunBatches(live, batches), id)
  {
    if batches == [] {
    } else {
      var before, b := batches[..|batches| - 1], batches[|batches| - 1];
      RunsMayGainCount(live, id, before);
      BatchMayGainCount(RunBatches(live, before), id, b, |b.objects|);
    }
  }

  /** The scalable roots still carry their counts after any run, whatever failed in it. */
  lemma {:induction false} RunsKeepRootsCarrying(live: Live, batches: seq<Batch>, roots: seq<ObjectId>)
    requires RootsCarry(live, roots) && forall i :: 0 <= i < |roots| ==> roots[i] in live
    ensures RootsCarry(RunBatches(live, batches), roots)
    ensures forall i :: 0 <= i < |roots| ==>
              && roots[i] in RunBatches(live, batches)
              && (Scalable(live[roots[i]]) ==> Scalable(RunBatches(live, batches)[roots[i]]))
  {
    var after := RunBatches(live, batches);
    forall i | 0 <= i < |roots|
      ensures roots[i] in after
      ensures Scalable(live[roots[i]]) ==> Scalable(after[roots[i]])
      ensures Scalable(after[roots[i]]) ==>
                CountsFit(after[roots[i]]) && Balanced(after[roots[i]]) && TotalCount(after[roots[i]]) != 0
    {
      RunsMayGainCount(live, roots[i], batches);
      if Scalable(live[roots[i]]) || TotalCount(live[roots[i]]) != 0 {
        RunsCarry(live, roots[i], TotalCount(live[roots[i]]), batches);
      }
    }
  }

  /**
   The whole story, over any run of scale-down and scale-up batches with whatever failures:
   if the scalable roots started with their counts in one place, the reported status says
   which of the roots that are scalable by then the run has left at zero, whatever hooks and
   healthy owned nodes stand beside them.
   */
  lemma {:induction false} RunsAreReported(env: Env, live: Live, batches: seq<Batch>, roots: seq<ObjectId>,
                                           others: seq<Node>, nodes: seq<Node>, status: string)
    requires RootsCarry(live, roots) && forall i :: 0 <= i < |roots| ==> roots[i] in live
    requires HealthyRoots(env, RunBatches(live, batches), roots) && Bystanders(others)
    requires multiset(nodes) == multiset(RootNodes(env, RunBatches(live, batches), roots) + others)
    requires IsAppHealth(status, nodes)
    ensures status == HibernationOf(RunBatches(live, batches), roots)
    ensures forall i :: 0 <= i < |roots| && Scalable(live[roots[i]]) ==>
              Scalable(RunBatches(live, batches)[roots[i]])
  {
    RunsKeepRootsCarrying(live, batches, roots);
    HealthReportsHibernation(env, RunBatches(live, batches), roots, others, nodes, status);
  }
}
