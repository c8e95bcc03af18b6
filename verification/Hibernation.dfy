/**
 Hibernating and waking workloads: scaling to zero replicas while keeping the former count
 in an annotation, and scaling back to the count found there.
 */
module Hibernation {
  import opened Wrappers
  import opened Decimal
  import opened Manifests

  datatype ObjectId = ObjectId(group: string, kind: string, version: string, name: string, namespace: string)

  /** The manifests of the cluster; an object without one is not found. */
  type Live = map<ObjectId, Manifest>

  /** What goes wrong around one object of a batch, if anything. */
  datatype Trouble = Smooth | FetchError(message: string) | NoManifest | PatchError(message: string)

  datatype Status = Status(target: ObjectId, errorMsg: string, success: bool)

  // ---------- The JSON patch ----------

  /** The two operations of the patch: `replace /spec/replicas` and `add /metadata/annotations`. */
  datatype PatchOp = ReplaceReplicas(n: int) | AddAnnotations(value: map<string, string>)

  /**
   RFC 6902: a replaced location must exist (section 4.3), and adding an object member that
   exists replaces its value (section 4.1).
   */
  function ApplyOp(m: Manifest, op: PatchOp): Option<Manifest> {
    match op
    case ReplaceReplicas(n) => if m.replicas.NoReplicas? then None else Some(m.(replicas := Count(n)))
    case AddAnnotations(value) => Some(m.(annotations := Some(value)))
  }

  /** All operations in order, or none of them. */
  function ApplyPatch(m: Manifest, ops: seq<PatchOp>): Option<Manifest>
    decreases ops
  {
    if ops == [] then Some(m)
    else match ApplyOp(m, ops[0])
      case None => None
      case Some(patched) => ApplyPatch(patched, ops[1..])
  }

  function HibernatePatch(replicas: int, annotation: string): seq<PatchOp> {
    [ReplaceReplicas(replicas), AddAnnotations(map[HIBERNATE_REPLICA_ANNOTATION := annotation])]
  }

  lemma {:induction false} HibernatePatchApplied(m: Manifest, replicas: int, annotation: string)
    ensures ApplyPatch(m, HibernatePatch(replicas, annotation)) ==
              if m.replicas.NoReplicas? then None
              else Some(m.(replicas := Count(replicas),
                           annotations := Some(map[HIBERNATE_REPLICA_ANNOTATION := annotation])))
  {
    var ops := HibernatePatch(replicas, annotation);
    var rest := ops[1..];
    assert rest == [ops[1]] && rest[1..] == [];
    if !m.replicas.NoReplicas? {
      var scaled := m.(replicas := Count(replicas));
      assert ApplyPatch(m, ops) == ApplyPatch(scaled, rest);
      assert ApplyOp(scaled, rest[0])
          == Some(scaled.(annotations := Some(map[HIBERNATE_REPLICA_ANNOTATION := annotation])));
    }
  }

  // ---------- Scaling ----------

  /** The patch for one manifest, or why there is none. */
  function ScalePatch(m: Manifest, scaleDown: bool): Result<seq<PatchOp>, string> {
    if scaleDown then
      match m.replicas
      case NotAnInteger => Err("accessor error")
      case NoReplicas => Err("replicas not found in manifest")
      case Count(n) =>
        if n == 0 then Err("object is already scaled down") else Ok(HibernatePatch(0, Itoa(n)))
    else
      match Atoi(Annotation(m, HIBERNATE_REPLICA_ANNOTATION))
      case Err(_) => Err("invalid replica count")
      case Ok(n) =>
        if n == 0 then Err("object is already scaled up") else Ok(HibernatePatch(n, "0"))
  }

  function ScaleOne(live: Live, id: ObjectId, scaleDown: bool, trouble: Trouble): (Live, Status) {
    if trouble.FetchError? then (live, Status(id, trouble.message, false))
    else if id !in live then (live, Status(id, "not found", false))
    else if trouble.NoManifest? then (live, Status(id, "manifest not found", false))
    else match ScalePatch(live[id], scaleDown)
      case Err(e) => (live, Status(id, e, false))
      case Ok(ops) =>
        if trouble.PatchError? then (live, Status(id, trouble.message, false))
        else match ApplyPatch(live[id], ops)
          case None => (live, Status(id, "patch rejected", false))
          case Some(patched) => (live[id := patched], Status(id, "", true))
  }

  /** A batch: its objects in order, each with the trouble it meets. */
  datatype Batch = Batch(objects: seq<ObjectId>, scaleDown: bool, troubles: seq<Trouble>)

  function TroubleAt(b: Batch, i: nat): Trouble {
    if i < |b.troubles| then b.troubles[i] else Smooth
  }

  function ScaleFirst(live: Live, b: Batch, n: nat): (Live, seq<Status>)
    requires n <= |b.objects|
  {
    if n == 0 then (live, [])
    else
      var (before, statuses) := ScaleFirst(live, b, n - 1);
      var (after, status) := ScaleOne(before, b.objects[n - 1], b.scaleDown, TroubleAt(b, n - 1));
      (after, statuses + [status])
  }

  function Scale(live: Live, b: Batch): (Live, seq<Status>) {
    ScaleFirst(live, b, |b.objects|)
  }

  function RunBatches(live: Live, batches: seq<Batch>): Live {
    if batches == [] then live
    else Scale(RunBatches(live, batches[..|batches| - 1]), batches[|batches| - 1]).0
  }

  // ---------- What the statuses say ----------

  /** The object can be scaled that way: down from a count other than zero, up to an annotated one. */
  predicate CanScale(m: Manifest, scaleDown: bool) {
    if scaleDown then m.replicas.Count? && m.replicas.n != 0
    else
      && !m.replicas.NoReplicas?
      && m.annotations.Some? && HIBERNATE_REPLICA_ANNOTATION in m.annotations.value
      && var n := Atoi(m.annotations.value[HIBERNATE_REPLICA_ANNOTATION]);
         n.Ok? && n.value != 0
  }

  /**
   One object's status is for that object and says success exactly if the object was found, could
   be scaled and met no trouble; exactly then the cluster changed, and no error is told.
   */
  lemma {:induction false} StatusTells(live: Live, id: ObjectId, scaleDown: bool, trouble: Trouble)
    ensures var (after, status) := ScaleOne(live, id, scaleDown, trouble);
            && status.target == id
            && (status.success <==> id in live && trouble.Smooth? && CanScale(live[id], scaleDown))
            && (status.success <==> after != live)
            && (status.success ==> status.errorMsg == "")
            && (status.success && scaleDown ==> after[id].replicas == Count(0))
  {
    assert Atoi("") == Err(Syntax);
    if id in live {
      var m := live[id];
      HibernatePatchApplied(m, 0, Itoa(ReplicaCount(m)));
      HibernatePatchApplied(m, AnnotatedCount(m), "0");
      AtoiOfItoa(0);
      assert Itoa(0) == "0";
      if ScaleOne(live, id, scaleDown, trouble).1.success {
        assert ScaleOne(live, id, scaleDown, trouble).0[id] != m;
      }
    }
  }

  /** Trouble around an object is told as it was met, the fetch first and the patch last. */
  lemma {:induction false} TroubleTells(live: Live, id: ObjectId, scaleDown: bool, trouble: Trouble)
    ensures var message := ScaleOne(live, id, scaleDown, trouble).1.errorMsg;
            && (trouble.FetchError? ==> message == trouble.message)
            && (id in live && trouble.NoManifest? ==> message == "manifest not found")
            && (id in live && CanScale(live[id], scaleDown) && trouble.PatchError? ==> message == trouble.message)
  {
    assert Atoi("") == Err(Syntax);
  }

  /** An object that cannot be scaled that way is left with the reason. */
  lemma {:induction false} FailureTells(live: Live, id: ObjectId, scaleDown: bool)
    requires id in live && !CanScale(live[id], scaleDown)
    ensures var message, m := ScaleOne(live, id, scaleDown, Smooth).1.errorMsg, live[id];
            && message != ""
            && (scaleDown && m.replicas.NoReplicas? ==> message == "replicas not found in manifest")
            && (scaleDown && m.replicas == Count(0) ==> message == "object is already scaled down")
            && (!scaleDown && Annotation(m, HIBERNATE_REPLICA_ANNOTATION) == "0" ==>
                  message == "object is already scaled up")
  {
    AtoiOfItoa(0);
    assert Itoa(0) == "0";
    HibernatePatchApplied(live[id], AnnotatedCount(live[id]), "0");
  }

  /** The status of the batch's `i`-th object, against the clusters before and after its turn. */
  predicate Tells(live: Live, b: Batch, i: nat, status: Status)
    requires i < |b.objects|
  {
    var before, after := ScaleFirst(live, b, i).0, ScaleFirst(live, b, i + 1).0;
    var id := b.objects[i];
    && status.target == id
    && (status.success <==> id in before && TroubleAt(b, i).Smooth? && CanScale(before[id], b.scaleDown))
    && (status.success <==> after != before)
    && (status.success ==> status.errorMsg == "")
  }

  /** One status for each object of the batch, in order. */
  lemma {:induction false} StatusesTell(live: Live, b: Batch, n: nat)
    requires n <= |b.objects|
    ensures |ScaleFirst(live, b, n).1| == n
    ensures forall i :: 0 <= i < n ==> Tells(live, b, i, ScaleFirst(live, b, n).1[i])
  {
    if n == 0 {
    } else {
      StatusesTell(live, b, n - 1);
      StatusTells(ScaleFirst(live, b, n - 1).0, b.objects[n - 1], b.scaleDown, TroubleAt(b, n - 1));
    }
  }

  class Scaler {
    var live: Live

    constructor (live: Live)
      ensures this.live == live
    {
      this.live := live;
    }

    /** One status for each object of the request, in order; failures do not stop the batch. */
    method ScaleObjects(b: Batch) returns (statuses: seq<Status>)
      modifies this
      ensures (live, statuses) == Scale(old(live), b)
      ensures |statuses| == |b.objects| && forall i :: 0 <= i < |statuses| ==> Tells(old(live), b, i, statuses[i])
    {
      StatusesTell(live, b, |b.objects|);
      statuses := [];
      for i := 0 to |b.objects|
        invariant (live, statuses) == ScaleFirst(old(live), b, i)
      {
        var id, trouble := b.objects[i], TroubleAt(b, i);
        var status := Status(id, "", false);
        if trouble.FetchError? {
          status := status.(errorMsg := trouble.message);
        } else if id !in live {
          status := status.(errorMsg := "not found");
        } else if trouble.NoManifest? {
          status := status.(errorMsg := "manifest not found");
        } else {
          var patch := ScalePatch(live[id], b.scaleDown);
          if patch.Err? {
            status := status.(errorMsg := patch.error);
          } else if trouble.PatchError? {
            status := status.(errorMsg := trouble.message);
          } else {
            var patched := ApplyPatch(live[id], patch.value);
            if patched.None? {
              status := status.(errorMsg := "patch rejected");
            } else {
              live := live[id := patched.value];
              status := status.(success := true);
            }
          }
        }
        statuses := statuses + [status];
      }
    }
  }

  // ---------- Conservation ----------

  function ReplicaCount(m: Manifest): int {
    if m.replicas.Count? then m.replicas.n else 0
  }

  /** The decimal value of the annotation; missing or unreadable ones count as zero. */
  function AnnotatedCount(m: Manifest): int {
    match Atoi(Annotation(m, HIBERNATE_REPLICA_ANNOTATION))
    case Ok(n) => n
    case Err(_) => 0
  }

  function TotalCount(m: Manifest): int {
    ReplicaCount(m) + AnnotatedCount(m)
  }

  /** The count is in one place only: the replicas or the annotation. */
  predicate Balanced(m: Manifest) {
    ReplicaCount(m) == 0 || AnnotatedCount(m) == 0
  }

  predicate CountsFit(m: Manifest) {
    IsInt64(ReplicaCount(m))
  }

  /** What the patch leaves behind, whichever way it scales. */
  lemma {:induction false} PatchMovesCount(m: Manifest, scaleDown: bool)
    requires CountsFit(m) && ScalePatch(m, scaleDown).Ok?
    requires ApplyPatch(m, ScalePatch(m, scaleDown).value).Some?
    ensures var after := ApplyPatch(m, ScalePatch(m, scaleDown).value).value;
            && CountsFit(after) && Balanced(after) && after.replicas.Count?
            && TotalCount(after) == (if scaleDown then ReplicaCount(m) else AnnotatedCount(m))
            && TotalCount(after) != 0
            && (ReplicaCount(after) == 0 <==> scaleDown)
            && after == m.(replicas := after.replicas, annotations := after.annotations)
            && after.annotations == Some(map[HIBERNATE_REPLICA_ANNOTATION :=
                                               if scaleDown then Itoa(ReplicaCount(m)) else "0"])
  {
    if scaleDown {
      HibernatePatchApplied(m, 0, Itoa(m.replicas.n));
      AtoiOfItoa(m.replicas.n);
    } else {
      HibernatePatchApplied(m, AnnotatedCount(m), "0");
      AtoiOfItoa(0);
      AtoiFits(Annotation(m, HIBERNATE_REPLICA_ANNOTATION));
      assert Itoa(0) == "0";
    }
  }

  lemma {:induction false} AtoiFits(s: string)
    ensures Atoi(s).Ok? ==> IsInt64(Atoi(s).value)
  {
  }

  /** Object `id` still carries the total it started with. */
  predicate Carries(live: Live, id: ObjectId, total: int) {
    id in live && CountsFit(live[id]) && Balanced(live[id]) && TotalCount(live[id]) == total
  }

  lemma {:induction false} ScaleOneCarries(live: Live, id: ObjectId, total: int, target: ObjectId, scaleDown: bool,
                                           trouble: Trouble)
    requires Carries(live, id, total)
    ensures Carries(ScaleOne(live, target, scaleDown, trouble).0, id, total)
  {
    var after := ScaleOne(live, target, scaleDown, trouble).0;
    if after != live && target == id {
      PatchMovesCount(live[id], scaleDown);
    }
  }

  lemma {:induction false} BatchCarries(live: Live, id: ObjectId, total: int, b: Batch, n: nat)
    requires Carries(live, id, total) && n <= |b.objects|
    ensures Carries(ScaleFirst(live, b, n).0, id, total)
  {
    if n == 0 {
    } else {
      BatchCarries(live, id, total, b, n - 1);
      ScaleOneCarries(ScaleFirst(live, b, n - 1).0, id, total, b.objects[n - 1], b.scaleDown, TroubleAt(b, n - 1));
    }
  }

  /** Over every run of batches, duplicates and failures included, the total stays. */
  lemma {:induction false} RunsCarry(live: Live, id: ObjectId, total: int, batches: seq<Batch>)
    requires Carries(live, id, total)
    ensures Carries(RunBatches(live, batches), id, total)
  {
    if batches == [] {
    } else {
      var before, b := batches[..|batches| - 1], batches[|batches| - 1];
      RunsCarry(live, id, total, before);
      BatchCarries(RunBatches(live, before), id, total, b, |b.objects|);
    }
  }

  /** Every run of batches keeps the object's total. */
  ghost predicate Conserved(live: Live, id: ObjectId)
    requires id in live
  {
    forall batches ::
      id in RunBatches(live, batches) && TotalCount(RunBatches(live, batches)[id]) == TotalCount(live[id])
  }

  /**
   Replicas plus annotated count is conserved over all runs exactly when at the start one of
   the two is zero.  Otherwise a single scale-down overwrites the annotation and loses it.
   */
  lemma {:induction false} ConservedIff(live: Live, id: ObjectId)
    requires id in live && CountsFit(live[id])
    ensures Conserved(live, id) <==> Balanced(live[id])
  {
    if Balanced(live[id]) {
      forall batches ensures Carries(RunBatches(live, batches), id, TotalCount(live[id])) {
        RunsCarry(live, id, TotalCount(live[id]), batches);
      }
    } else {
      var m := live[id];
      var b := Batch([id], true, []);
      HibernatePatchApplied(m, 0, Itoa(m.replicas.n));
      PatchMovesCount(m, true);
      assert ScaleFirst(live, b, 0) == (live, []);
      assert Scale(live, b).0 == ScaleOne(live, id, true, Smooth).0;
      assert [b][..0] == [];
      assert RunBatches(live, [b]) == Scale(live, b).0;
      assert TotalCount(RunBatches(live, [b])[id]) != TotalCount(m);
    }
  }

  /**
   Hibernating and waking an object that has replicas gives back their number, whatever was
   annotated before; all annotations but the program's own are gone.
   */
  lemma {:induction false} DownThenUp(live: Live, id: ObjectId)
    requires id in live && CountsFit(live[id]) && ReplicaCount(live[id]) != 0
    ensures var asleep := ScaleOne(live, id, true, Smooth).0;
            var awake := ScaleOne(asleep, id, false, Smooth).0;
            && asleep == live[id := live[id].(
                 replicas := Count(0),
                 annotations := Some(map["hibernator.devtron.ai/replicas" := Itoa(ReplicaCount(live[id]))]))]
            && awake == live[id := live[id].(
                 annotations := Some(map["hibernator.devtron.ai/replicas" := "0"]))]
  {
    var m := live[id];
    var r := m.replicas.n;
    HibernatePatchApplied(m, 0, Itoa(r));
    var asleep := ScaleOne(live, id, true, Smooth).0;
    AtoiOfItoa(r);
    HibernatePatchApplied(asleep[id], r, "0");
  }

  /** An object without a replicas field never changes. */
  lemma {:induction false} NoReplicasNoChange(live: Live, id: ObjectId, scaleDown: bool, trouble: Trouble)
    requires id in live && live[id].replicas.NoReplicas?
    ensures ScaleOne(live, id, scaleDown, trouble).0 == live
    ensures !ScaleOne(live, id, scaleDown, trouble).1.success
  {
  }

  /** While the count is in one place, an ownerless object shows as hibernated iff it is at zero. */
  lemma {:induction false} HibernatedIffAtZero(m: Manifest)
    requires m.ownerReferences.None? && m.replicas.Count?
    requires Balanced(m) && TotalCount(m) != 0
    ensures IsHibernated(m) <==> m.replicas.n == 0
  {
    AtoiOfItoa(0);
    assert Itoa(0) == "0";
    assert Atoi("") == Err(Syntax);
  }
}
