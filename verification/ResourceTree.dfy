/**
 Building the resource tree: from the manifests of a release down through the objects they
 own, sequentially or with a worker pool for the first level of children.
 */
module ResourceTree {
  import opened Wrappers
  import opened Manifests
  import opened Gathering
  import WorkerPool
  import WorkerPoolProgress

  const HTTP_NOT_FOUND: int := 404

  datatype DesiredOrLive = DesiredOrLive(manifest: Manifest, fetchError: bool, errorCode: int)

  datatype ResourceRef = ResourceRef(
    group: string, version: string, kind: string, namespace: string, name: string, uid: string,
    manifest: Manifest)

  /** What is read off workload manifests for telling new pods from old ones. */
  datatype Revision = Revision(updateRevision: string, deploymentPodHash: string, rolloutPodHash: string)

  datatype Node = Node(
    ref: ResourceRef,
    parentRefs: seq<ResourceRef>,
    labels: map<string, string>,
    health: Option<HealthStatus>,
    isHibernated: bool, canBeHibernated: bool,
    isHook: bool, hookType: string,
    revision: Revision)

  /**
   The cluster as the builder sees it: the children of an object (or an error listing them),
   its health by its kind's rules, and its revision information.
   */
  datatype Env = Env(
    children: Manifest -> Result<seq<Manifest>, string>,
    health: Manifest -> Option<HealthStatus>,
    revision: Manifest -> Revision,
    releaseNamespace: string)

  datatype Response = Response(nodes: seq<Node>, healthStatusArray: seq<Option<HealthStatus>>)

  function Live(m: Manifest): DesiredOrLive {
    DesiredOrLive(m, false, 0)
  }

  function LiveAll(ms: seq<Manifest>): seq<DesiredOrLive> {
    seq(|ms|, i requires 0 <= i < |ms| => Live(ms[i]))
  }

  function RefOf(env: Env, d: DesiredOrLive): ResourceRef {
    var m := d.manifest;
    ResourceRef(m.group, m.version, m.kind, if m.namespace == "" then env.releaseNamespace else m.namespace,
                m.name, m.uid, m)
  }

  function HealthOf(env: Env, d: DesiredOrLive): Option<HealthStatus> {
    if !d.fetchError then env.health(d.manifest)
    else if d.errorCode == HTTP_NOT_FOUND then
      Some(HealthStatus("Missing", "Resource missing as live manifest not found"))
    else
      Some(HealthStatus("Unknown", "Resource state unknown as error while fetching live manifest"))
  }

  function OwnerOf(parent: Option<ResourceRef>): seq<ResourceRef> {
    if parent.Some? then [parent.value] else []
  }

  function NodeOf(env: Env, d: DesiredOrLive, parent: Option<ResourceRef>): Node {
    var m := d.manifest;
    var isHook := m.annotations.Some? && HOOK_ANNOTATION in m.annotations.value;
    Node(RefOf(env, d), OwnerOf(parent), m.labels, HealthOf(env, d),
         parent.None? && IsHibernated(m), parent.None? && CanBeHibernated(m),
         isHook, if isHook then m.annotations.value[HOOK_ANNOTATION] else "",
         env.revision(m))
  }

  function HealthsOf(nodes: seq<Node>): seq<Option<HealthStatus>> {
    seq(|nodes|, i requires 0 <= i < |nodes| => nodes[i].health)
  }

  // ---------- The ownership forest ----------

  /** An object with everything below it, or one whose children could not be listed. */
  datatype Tree =
    | Branch(item: DesiredOrLive, kids: seq<Tree>)
    | Broken(item: DesiredOrLive, error: string)

  /** The tree is the object's ownership unfolded to the end. */
  ghost predicate Unfolds(env: Env, t: Tree) {
    match t
    case Broken(item, error) => env.children(item.manifest) == Err(error)
    case Branch(item, kids) =>
      && env.children(item.manifest).Ok?
      && Items(kids) == LiveAll(env.children(item.manifest).value)
      && forall i :: 0 <= i < |kids| ==> Unfolds(env, kids[i])
  }

  function Items(ts: seq<Tree>): seq<DesiredOrLive> {
    seq(|ts|, i requires 0 <= i < |ts| => ts[i].item)
  }

  ghost predicate UnfoldsAll(env: Env, ts: seq<Tree>) {
    forall i :: 0 <= i < |ts| ==> Unfolds(env, ts[i])
  }

  predicate Whole(t: Tree) {
    t.Branch? && forall i :: 0 <= i < |t.kids| ==> Whole(t.kids[i])
  }

  predicate WholeAll(ts: seq<Tree>) {
    forall i :: 0 <= i < |ts| ==> Whole(ts[i])
  }

  /** The errors met anywhere in the tree. */
  predicate FailsWith(t: Tree, e: string) {
    match t
    case Broken(_, error) => e == error
    case Branch(_, kids) => exists i :: 0 <= i < |kids| && FailsWith(kids[i], e)
  }

  /** Ownership is well-founded: owned objects have a smaller rank than their owner. */
  ghost predicate WellFounded(env: Env, rank: Manifest -> nat) {
    forall m, c :: env.children(m).Ok? && c in env.children(m).value ==> rank(c) < rank(m)
  }

  /** Every object has a finite unfolding when ownership is well-founded. */
  ghost function Unfold(env: Env, rank: Manifest -> nat, d: DesiredOrLive): (t: Tree)
    requires WellFounded(env, rank)
    ensures t.item == d && Unfolds(env, t)
    decreases rank(d.manifest)
  {
    match env.children(d.manifest)
    case Err(e) => Broken(d, e)
    case Ok(ms) =>
      var kids := seq(|ms|, i requires 0 <= i < |ms| => assert ms[i] in ms; Unfold(env, rank, Live(ms[i])));
      assert Items(kids) == LiveAll(ms);
      Branch(d, kids)
  }

  // ---------- The nodes of a forest ----------

  function Roots(env: Env, ts: seq<Tree>, parent: Option<ResourceRef>): seq<Node> {
    seq(|ts|, i requires 0 <= i < |ts| => NodeOf(env, ts[i].item, parent))
  }

  /** The nodes in the order they are built: a whole level of siblings, then what is below. */
  ghost function Layered(env: Env, ts: seq<Tree>, parent: Option<ResourceRef>): seq<Node>
    decreases ts, 1
  {
    Roots(env, ts, parent) + LayeredBelow(env, ts)
  }

  ghost function LayeredBelow(env: Env, ts: seq<Tree>): seq<Node>
    decreases ts, 0
  {
    if ts == [] then []
    else
      var last := ts[|ts| - 1];
      LayeredBelow(env, ts[..|ts| - 1]) +
      if last.Branch? then Layered(env, last.kids, Some(RefOf(env, last.item))) else []
  }

  /** The forest flattened: every occurrence once, labelled with the occurrence that owns it. */
  ghost function Preorder(env: Env, ts: seq<Tree>, parent: Option<ResourceRef>): seq<Node> {
    if ts == [] then []
    else
      var last := ts[|ts| - 1];
      Preorder(env, ts[..|ts| - 1], parent) + [NodeOf(env, last.item, parent)] +
      if last.Branch? then Preorder(env, last.kids, Some(RefOf(env, last.item))) else []
  }

  lemma {:induction false} RootsSplit(env: Env, ts: seq<Tree>, parent: Option<ResourceRef>)
    requires ts != []
    ensures Roots(env, ts, parent)
         == Roots(env, ts[..|ts| - 1], parent) + [NodeOf(env, ts[|ts| - 1].item, parent)]
  {
  }

  /** What one more tree adds to a layered forest: its root and, layered, what is below. */
  lemma {:induction false} LayeredSplit(env: Env, ts: seq<Tree>, parent: Option<ResourceRef>)
    requires ts != []
    ensures var before, last := ts[..|ts| - 1], ts[|ts| - 1];
            multiset(Layered(env, ts, parent)) ==
              multiset(Layered(env, before, parent)) + multiset([NodeOf(env, last.item, parent)]) +
              multiset(if last.Branch? then Layered(env, last.kids, Some(RefOf(env, last.item))) else [])
  {
    RootsSplit(env, ts, parent);
  }

  /** The nodes built are exactly the flattened forest, up to order. */
  lemma {:induction false} LayeredIsTheForest(env: Env, ts: seq<Tree>, parent: Option<ResourceRef>)
    ensures multiset(Layered(env, ts, parent)) == multiset(Preorder(env, ts, parent))
  {
    if ts == [] {
    } else {
      var before, last := ts[..|ts| - 1], ts[|ts| - 1];
      LayeredIsTheForest(env, before, parent);
      LayeredSplit(env, ts, parent);
      if last.Branch? {
        LayeredIsTheForest(env, last.kids, Some(RefOf(env, last.item)));
      }
    }
  }

  // ---------- Parent closure ----------

  function Refs(nodes: seq<Node>): set<ResourceRef> {
    set i | 0 <= i < |nodes| :: nodes[i].ref
  }

  /** Every node has at most one parent, and that one is known or stands before it. */
  predicate ParentsFirst(nodes: seq<Node>, known: set<ResourceRef>) {
    forall i :: 0 <= i < |nodes| && nodes[i].parentRefs != [] ==>
      && |nodes[i].parentRefs| == 1
      && (nodes[i].parentRefs[0] in known || exists j :: 0 <= j < i && nodes[j].ref == nodes[i].parentRefs[0])
  }

  lemma {:induction false} ParentsFirstConcat(a: seq<Node>, b: seq<Node>, known: set<ResourceRef>)
    requires ParentsFirst(a, known) && ParentsFirst(b, known + Refs(a))
    ensures ParentsFirst(a + b, known)
  {
    var c := a + b;
    forall i | 0 <= i < |c| && c[i].parentRefs != []
      ensures |c[i].parentRefs| == 1
      ensures c[i].parentRefs[0] in known || exists j :: 0 <= j < i && c[j].ref == c[i].parentRefs[0]
    {
      if i < |a| {
        assert c[i] == a[i];
        if j :| 0 <= j < i && a[j].ref == a[i].parentRefs[0] {
          assert c[j] == a[j];
        }
      } else {
        var k := i - |a|;
        assert c[i] == b[k];
        var p := b[k].parentRefs[0];
        if p in Refs(a) {
          var j :| 0 <= j < |a| && a[j].ref == p;
          assert c[j].ref == p;
        } else if p !in known {
          var j :| 0 <= j < k && b[j].ref == p;
          assert c[|a| + j].ref == p;
        }
      }
    }
  }

  lemma {:induction false} RootRefs(env: Env, ts: seq<Tree>, parent: Option<ResourceRef>, i: nat)
    requires i < |ts|
    ensures RefOf(env, ts[i].item) in Refs(Roots(env, ts, parent))
  {
    assert Roots(env, ts, parent)[i].ref == RefOf(env, ts[i].item);
  }

  lemma {:induction false} BelowParentsFirst(env: Env, ts: seq<Tree>, known: set<ResourceRef>)
    requires forall i :: 0 <= i < |ts| ==> RefOf(env, ts[i].item) in known
    ensures ParentsFirst(LayeredBelow(env, ts), known)
    decreases ts, 0
  {
    if ts == [] {
    } else {
      var before, last := ts[..|ts| - 1], ts[|ts| - 1];
      BelowParentsFirst(env, before, known);
      if last.Branch? {
        var ref := RefOf(env, last.item);
        LayeredParentsFirst(env, last.kids, Some(ref), known + Refs(LayeredBelow(env, before)));
        ParentsFirstConcat(LayeredBelow(env, before), Layered(env, last.kids, Some(ref)), known);
      } else {
        assert LayeredBelow(env, ts) == LayeredBelow(env, before);
      }
    }
  }

  /** In the order they are built, every node's parent stands before it. */
  lemma {:induction false} LayeredParentsFirst(env: Env, ts: seq<Tree>, parent: Option<ResourceRef>,
                                               known: set<ResourceRef>)
    requires parent.Some? ==> parent.value in known
    ensures ParentsFirst(Layered(env, ts, parent), known)
    decreases ts, 1
  {
    var roots := Roots(env, ts, parent);
    forall i | 0 <= i < |ts| ensures RefOf(env, ts[i].item) in known + Refs(roots) {
      RootRefs(env, ts, parent, i);
    }
    BelowParentsFirst(env, ts, known + Refs(roots));
    ParentsFirstConcat(roots, LayeredBelow(env, ts), known);
  }

  // ---------- Requests for the children of a level ----------

  datatype Request = Request(ref: ResourceRef, manifests: seq<DesiredOrLive>)

  /** One request for each object that has children. */
  function KidRequests(env: Env, ts: seq<Tree>): (requests: seq<Request>)
    ensures |requests| == |KidForests(ts)|
  {
    if ts == [] then []
    else
      var before, last := KidRequests(env, ts[..|ts| - 1]), ts[|ts| - 1];
      if last.Branch? && last.kids != [] then before + [Request(RefOf(env, last.item), Items(last.kids))] else before
  }

  function KidForests(ts: seq<Tree>): seq<seq<Tree>> {
    if ts == [] then []
    else
      var before, last := KidForests(ts[..|ts| - 1]), ts[|ts| - 1];
      if last.Branch? && last.kids != [] then before + [last.kids] else before
  }

  /** The forests are what lies below the requests' manifests. */
  ghost predicate Matching(env: Env, requests: seq<Request>, forests: seq<seq<Tree>>) {
    && |requests| == |forests|
    && forall i :: 0 <= i < |requests| ==>
         Items(forests[i]) == requests[i].manifests && UnfoldsAll(env, forests[i])
  }

  predicate AllWhole(forests: seq<seq<Tree>>) {
    forall i :: 0 <= i < |forests| ==> WholeAll(forests[i])
  }

  predicate AllBranch(ts: seq<Tree>) {
    forall i :: 0 <= i < |ts| ==> ts[i].Branch?
  }

  lemma {:induction false} KidsMatch(env: Env, ts: seq<Tree>)
    requires UnfoldsAll(env, ts)
    ensures Matching(env, KidRequests(env, ts), KidForests(ts))
    ensures SizeOfAll(KidForests(ts)) <= Size(ts)
  {
    if ts == [] {
    } else {
      KidsMatch(env, ts[..|ts| - 1]);
      assert Unfolds(env, ts[|ts| - 1]);
    }
  }

  /** Requests are made for objects of the level only. */
  lemma {:induction false} KidRefs(env: Env, ts: seq<Tree>)
    ensures forall i :: 0 <= i < |KidRequests(env, ts)| ==>
              KidRequests(env, ts)[i].ref in Refs(Roots(env, ts, None))
  {
    if ts == [] {
    } else {
      KidRefs(env, ts[..|ts| - 1]);
      var roots, before := Roots(env, ts, None), Roots(env, ts[..|ts| - 1], None);
      forall r | r in Refs(before) ensures r in Refs(roots) {
        var i :| 0 <= i < |before| && before[i].ref == r;
        assert roots[i].ref == r;
      }
      RootRefs(env, ts, None, |ts| - 1);
    }
  }

  lemma {:induction false} KidsDecideWholeness(ts: seq<Tree>)
    requires AllBranch(ts)
    ensures WholeAll(ts) <==> AllWhole(KidForests(ts))
  {
    if ts == [] {
    } else {
      var before, last := ts[..|ts| - 1], ts[|ts| - 1];
      KidsDecideWholeness(before);
      assert WholeAll(ts) <==> WholeAll(before) && Whole(last) by {
        assert forall i :: 0 <= i < |before| ==> before[i] == ts[i];
      }
      assert Whole(last) <==> WholeAll(last.kids);
      if last.kids != [] {
        var forests := KidForests(ts);
        assert forests[|forests| - 1] == last.kids && forests[..|forests| - 1] == KidForests(before);
      }
    }
  }

  /** The first of a level's objects whose children cannot be listed. */
  function LevelError(ts: seq<Tree>): Option<string> {
    if ts == [] then None
    else
      var before, last := LevelError(ts[..|ts| - 1]), ts[|ts| - 1];
      if before.Some? then before else if last.Broken? then Some(last.error) else None
  }

  /** The first error below a level, subtree by subtree. */
  ghost function BelowError(ts: seq<Tree>): Option<string>
    decreases ts, 0
  {
    if ts == [] then None
    else
      var before, last := BelowError(ts[..|ts| - 1]), ts[|ts| - 1];
      if before.Some? then before else if last.Branch? then FirstError(last.kids) else None
  }

  /** The error the recursion meets first: on the level itself, or else below it. */
  ghost function FirstError(ts: seq<Tree>): Option<string>
    decreases ts, 1
  {
    if LevelError(ts).Some? then LevelError(ts) else BelowError(ts)
  }

  ghost function ForestsError(forests: seq<seq<Tree>>): Option<string> {
    if forests == [] then None
    else
      var before := ForestsError(forests[..|forests| - 1]);
      if before.Some? then before else FirstError(forests[|forests| - 1])
  }

  lemma {:induction false} KidsErrorIsBelow(ts: seq<Tree>)
    ensures ForestsError(KidForests(ts)) == BelowError(ts)
  {
    if ts == [] {
    } else {
      var before, last := ts[..|ts| - 1], ts[|ts| - 1];
      KidsErrorIsBelow(before);
      if last.Branch? && last.kids != [] {
        var forests := KidForests(ts);
        assert forests[|forests| - 1] == last.kids && forests[..|forests| - 1] == KidForests(before);
      } else {
        assert last.Branch? ==> FirstError(last.kids).None?;
      }
    }
  }

  lemma {:induction false} LevelErrorIff(ts: seq<Tree>)
    ensures LevelError(ts).None? <==> AllBranch(ts)
  {
    if ts == [] {
    } else {
      var before := ts[..|ts| - 1];
      LevelErrorIff(before);
      assert forall i :: 0 <= i < |before| ==> before[i] == ts[i];
    }
  }

  /** An object that cannot be listed and follows ones that can be is the first such on its level. */
  lemma {:induction false} FirstBroken(ts: seq<Tree>, i: nat)
    requires i < |ts| && ts[i].Broken? && AllBranch(ts[..i])
    ensures LevelError(ts) == Some(ts[i].error)
    decreases |ts|
  {
    var before := ts[..|ts| - 1];
    if i < |before| {
      assert before[..i] == ts[..i];
      FirstBroken(before, i);
    } else {
      LevelErrorIff(before);
      assert before == ts[..i];
    }
  }

  /** The same among forests. */
  lemma {:induction false} FirstFailing(forests: seq<seq<Tree>>, i: nat)
    requires i < |forests| && FirstError(forests[i]).Some? && ForestsError(forests[..i]).None?
    ensures ForestsError(forests) == FirstError(forests[i])
    decreases |forests|
  {
    var before := forests[..|forests| - 1];
    if i < |before| {
      assert before[..i] == forests[..i];
      FirstFailing(before, i);
    } else {
      assert before == forests[..i];
    }
  }

  lemma {:induction false} KidErrors(ts: seq<Tree>, i: nat, e: string)
    requires i < |KidForests(ts)| && FailsSome(KidForests(ts)[i], e)
    ensures FailsSome(ts, e)
  {
    var before, last := ts[..|ts| - 1], ts[|ts| - 1];
    if i < |KidForests(before)| {
      KidErrors(before, i, e);
      var j :| 0 <= j < |before| && FailsWith(before[j], e);
      assert FailsWith(ts[j], e);
    } else {
      assert FailsWith(last, e);
    }
  }

  predicate FailsSome(ts: seq<Tree>, e: string) {
    exists i :: 0 <= i < |ts| && FailsWith(ts[i], e)
  }

  ghost function Size(ts: seq<Tree>): nat
    decreases ts
  {
    if ts == [] then 0
    else
      var last := ts[|ts| - 1];
      Size(ts[..|ts| - 1]) + 1 + if last.Branch? then Size(last.kids) else 0
  }

  ghost function SizeOfAll(forests: seq<seq<Tree>>): nat {
    if forests == [] then 0
    else SizeOfAll(forests[..|forests| - 1]) + 1 + Size(forests[|forests| - 1])
  }

  lemma {:induction false} SizeOfOne(forests: seq<seq<Tree>>, i: nat)
    requires i < |forests|
    ensures Size(forests[i]) < SizeOfAll(forests)
  {
    if i == |forests| - 1 {
    } else {
      SizeOfOne(forests[..|forests| - 1], i);
    }
  }

  // ---------- Gathering the requests' nodes ----------

  /** The nodes each request asks for. */
  ghost function Segments(env: Env, requests: seq<Request>, forests: seq<seq<Tree>>): seq<seq<Node>>
    requires |requests| == |forests|
  {
    seq(|requests|, i requires 0 <= i < |requests| => Layered(env, forests[i], Some(requests[i].ref)))
  }

  ghost function KidSegments(env: Env, ts: seq<Tree>): seq<seq<Node>> {
    if ts == [] then []
    else
      var before, last := KidSegments(env, ts[..|ts| - 1]), ts[|ts| - 1];
      if last.Branch? && last.kids != [] then before + [Layered(env, last.kids, Some(RefOf(env, last.item)))]
      else before
  }

  lemma {:induction false} KidSegmentsAre(env: Env, ts: seq<Tree>)
    ensures Segments(env, KidRequests(env, ts), KidForests(ts)) == KidSegments(env, ts)
  {
    if ts == [] {
    } else {
      KidSegmentsAre(env, ts[..|ts| - 1]);
    }
  }

  /** The sequential order of the requests builds what lies below the level. */
  lemma {:induction false} GatheredInOrder(env: Env, ts: seq<Tree>)
    ensures LayeredBelow(env, ts) == Gathered(KidSegments(env, ts), UpTo(|KidSegments(env, ts)|))
  {
    if ts == [] {
    } else {
      var before, last := ts[..|ts| - 1], ts[|ts| - 1];
      GatheredInOrder(env, before);
      var segments := KidSegments(env, before);
      if last.Branch? && last.kids != [] {
        GatheredIgnoresLater(segments, Layered(env, last.kids, Some(RefOf(env, last.item))), UpTo(|segments|));
      } else {
        assert last.Branch? ==> Layered(env, last.kids, Some(RefOf(env, last.item))) == [];
        assert LayeredBelow(env, ts) == LayeredBelow(env, before);
      }
    }
  }

  // ---------- The builder ----------

  function Answer(nodes: seq<Node>): Response {
    Response(nodes, HealthsOf(nodes))
  }

  /** Append another response's nodes and health statuses. */
  function Combined(a: Response, b: Response): Response {
    Response(a.nodes + b.nodes, a.healthStatusArray + b.healthStatusArray)
  }

  lemma {:induction false} AnswersJoin(a: seq<Node>, b: seq<Node>)
    ensures Combined(Answer(a), Answer(b)) == Answer(a + b)
  {
  }

  lemma {:induction false} OneTree(env: Env, ds: seq<DesiredOrLive>, ts: seq<Tree>, i: nat)
    requires Items(ts) == ds && UnfoldsAll(env, ts) && i < |ts|
    ensures |ds| == |ts| && ts[i].item == ds[i]
    ensures var children := env.children(ds[i].manifest);
            && (children.Ok? ==>
                  && ts[i].Branch? && Items(ts[i].kids) == LiveAll(children.value)
                  && |ts[i].kids| == |children.value|)
            && (children.Err? ==> ts[i].Broken? && FailsSome(ts, children.error))
  {
  }

  lemma {:induction false} LevelStep(env: Env, ts: seq<Tree>, parent: Option<ResourceRef>, i: nat)
    requires i < |ts| && ts[i].Branch?
    ensures AllBranch(ts[..i]) ==> AllBranch(ts[..i + 1])
    ensures var node := NodeOf(env, ts[i].item, parent);
            Combined(Answer(Roots(env, ts[..i], parent)), Response([node], [node.health]))
              == Answer(Roots(env, ts[..i + 1], parent))
    ensures KidRequests(env, ts[..i + 1]) == KidRequests(env, ts[..i]) +
              if ts[i].kids == [] then [] else [Request(RefOf(env, ts[i].item), Items(ts[i].kids))]
  {
    assert ts[..i + 1][..i] == ts[..i];
    RootsSplit(env, ts[..i + 1], parent);
    AnswersJoin(Roots(env, ts[..i], parent), [NodeOf(env, ts[i].item, parent)]);
  }

  /** The nodes of one level, and the requests for what lies below them. */
  method BuildLevel(env: Env, ds: seq<DesiredOrLive>, parent: Option<ResourceRef>, ghost ts: seq<Tree>)
    returns (r: Result<(Response, seq<Request>), string>)
    requires Items(ts) == ds && UnfoldsAll(env, ts)
    ensures r.Ok? <==> AllBranch(ts)
    ensures r.Ok? ==> r.value == (Answer(Roots(env, ts, parent)), KidRequests(env, ts))
    ensures r.Err? ==> LevelError(ts) == Some(r.error) && FailsSome(ts, r.error)
  {
    var response := Response([], []);
    var requests := [];
    for i := 0 to |ds|
      invariant AllBranch(ts[..i])
      invariant response == Answer(Roots(env, ts[..i], parent))
      invariant requests == KidRequests(env, ts[..i])
    {
      OneTree(env, ds, ts, i);
      var d := ds[i];
      var children := env.children(d.manifest);
      if children.Err? {
        FirstBroken(ts, i);
        return Err(children.error);
      }
      var node := NodeOf(env, d, parent);
      LevelStep(env, ts, parent, i);
      response := Response(response.nodes + [node], response.healthStatusArray + [node.health]);
      if |children.value| > 0 {
        requests := requests + [Request(RefOf(env, d), LiveAll(children.value))];
      }
    }
    assert ts[..|ds|] == ts;
    return Ok((response, requests));
  }

  /** A whole level and everything below it, sequentially. */
  method BuildNodes(env: Env, ds: seq<DesiredOrLive>, parent: Option<ResourceRef>, ghost ts: seq<Tree>)
    returns (r: Result<Response, string>)
    requires Items(ts) == ds && UnfoldsAll(env, ts)
    ensures r.Ok? <==> WholeAll(ts)
    ensures r.Ok? ==> r.value == Answer(Layered(env, ts, parent))
    ensures FirstError(ts) == if r.Ok? then None else Some(r.error)
    ensures r.Err? ==> FailsSome(ts, r.error)
    decreases Size(ts), 1
  {
    var level := BuildLevel(env, ds, parent, ts);
    if level.Err? {
      return Err(level.error);
    }
    KidsMatch(env, ts);
    KidsDecideWholeness(ts);
    LevelErrorIff(ts);
    KidsErrorIsBelow(ts);
    var below := BuildChildNodes(env, level.value.1, KidForests(ts));
    match below
    case Err(e) =>
      ghost var i :| 0 <= i < |KidForests(ts)| && FailsSome(KidForests(ts)[i], e);
      KidErrors(ts, i, e);
      return Err(e);
    case Ok(response) =>
      KidSegmentsAre(env, ts);
      GatheredInOrder(env, ts);
      AnswersJoin(Roots(env, ts, parent), LayeredBelow(env, ts));
      return Ok(Combined(level.value.0, response));
  }

  /** The requests one after the other. */
  method BuildChildNodes(env: Env, requests: seq<Request>, ghost forests: seq<seq<Tree>>)
    returns (r: Result<Response, string>)
    requires Matching(env, requests, forests)
    ensures r.Ok? <==> AllWhole(forests)
    ensures r.Ok? ==> r.value == Answer(Gathered(Segments(env, requests, forests), UpTo(|requests|)))
    ensures ForestsError(forests) == if r.Ok? then None else Some(r.error)
    ensures r.Err? ==> exists i :: 0 <= i < |forests| && FailsSome(forests[i], r.error)
    decreases SizeOfAll(forests), 0
  {
    var response := Response([], []);
    ghost var segments := Segments(env, requests, forests);
    for i := 0 to |requests|
      invariant AllWhole(forests[..i]) && ForestsError(forests[..i]).None?
      invariant response == Answer(Gathered(segments, UpTo(i)))
    {
      SizeOfOne(forests, i);
      var one := BuildNodes(env, requests[i].manifests, Some(requests[i].ref), forests[i]);
      if one.Err? {
        FirstFailing(forests, i);
        return Err(one.error);
      }
      AnswersJoin(Gathered(segments, UpTo(i)), segments[i]);
      response := Combined(response, one.value);
      assert forests[..i + 1] == forests[..i] + [forests[i]];
      assert forests[..i + 1][..i] == forests[..i];
    }
    assert forests[..|requests|] == forests;
    return Ok(response);
  }

  // ---------- With a worker pool ----------

  /** A pool and the interleaving its workers happen to take. */
  datatype BatchWorker = BatchWorker(workers: nat, interleaving: seq<WorkerPool.Action>)

  /** The pool's tasks by their outcomes: each builds one request sequentially. */
  ghost function Tasks(env: Env, requests: seq<Request>, forests: seq<seq<Tree>>): seq<WorkerPool.Task<Response>>
    requires |requests| == |forests|
  {
    seq(|requests|, i requires 0 <= i < |requests| =>
      if WholeAll(forests[i]) then Ok(Answer(Segments(env, requests, forests)[i])) else Err(()))
  }

  /** The pool finishes all tasks. */
  ghost predicate Completes(tasks: seq<WorkerPool.Task<Response>>, wp: BatchWorker) {
    var run := WorkerPool.Run(tasks, wp.workers, WorkerPool.Submitted(|tasks|), wp.interleaving);
    run.Some? && WorkerPool.Complete(run.value)
  }

  /** What waiting for the pool gives: an error, or the order in which results were gathered. */
  function Waited(tasks: seq<WorkerPool.Task<Response>>, wp: BatchWorker): (r: Result<seq<nat>, ()>)
    requires Completes(tasks, wp)
    ensures r.Ok? ==> Below(r.value, |tasks|) && forall i :: 0 <= i < |r.value| ==> tasks[r.value[i]].Ok?
  {
    WorkerPool.OnlySuccessesAreGathered(tasks, wp.workers, WorkerPool.Submitted(|tasks|), wp.interleaving);
    WorkerPool.StopWait(WorkerPool.Run(tasks, wp.workers, WorkerPool.Submitted(|tasks|), wp.interleaving).value)
  }

  method BuildChildNodesInBatch(env: Env, wp: BatchWorker, requests: seq<Request>, ghost forests: seq<seq<Tree>>)
    returns (r: Result<Response, ()>)
    requires Matching(env, requests, forests) && Completes(Tasks(env, requests, forests), wp)
    ensures var waited := Waited(Tasks(env, requests, forests), wp);
            r == if waited.Err? then Err(()) else Ok(Answer(Gathered(Segments(env, requests, forests), waited.value)))
  {
    var tasks: seq<WorkerPool.Task<Response>> := [];
    ghost var expected := Tasks(env, requests, forests);
    ghost var segments := Segments(env, requests, forests);
    for i := 0 to |requests|
      invariant tasks == expected[..i]
    {
      var one := BuildNodes(env, requests[i].manifests, Some(requests[i].ref), forests[i]);
      tasks := tasks + [if one.Ok? then Ok(one.value) else Err(())];
    }
    assert tasks == expected;
    var order := Waited(tasks, wp);
    if order.Err? {
      return Err(());
    }
    var response := Response([], []);
    for i := 0 to |order.value|
      invariant response == Answer(Gathered(segments, order.value[..i]))
    {
      var k := order.value[i];
      AnswersJoin(Gathered(segments, order.value[..i]), segments[k]);
      response := Combined(response, tasks[k].value);
      assert order.value[..i + 1][..i] == order.value[..i];
    }
    assert order.value[..|order.value|] == order.value;
    return Ok(response);
  }

  /** What a level built with a pool below it comes to. */
  ghost function Batched(env: Env, ts: seq<Tree>, parent: Option<ResourceRef>, wp: BatchWorker): Result<Response, ()>
    requires UnfoldsAll(env, ts)
    requires Completes(Tasks(env, KidRequests(env, ts), KidForests(ts)), wp)
  {
    var requests, forests := KidRequests(env, ts), KidForests(ts);
    var waited := Waited(Tasks(env, requests, forests), wp);
    if !AllBranch(ts) || waited.Err? then Err(())
    else Ok(Answer(Roots(env, ts, parent) + Gathered(Segments(env, requests, forests), waited.value)))
  }

  method BuildNodesWithWorkers(env: Env, wp: BatchWorker, ds: seq<DesiredOrLive>, parent: Option<ResourceRef>,
                               ghost ts: seq<Tree>)
    returns (r: Result<Response, ()>)
    requires Items(ts) == ds && UnfoldsAll(env, ts)
    requires Completes(Tasks(env, KidRequests(env, ts), KidForests(ts)), wp)
    ensures r == Batched(env, ts, parent, wp)
  {
    var level := BuildLevel(env, ds, parent, ts);
    if level.Err? {
      return Err(());
    }
    KidsMatch(env, ts);
    var below := BuildChildNodesInBatch(env, wp, level.value.1, KidForests(ts));
    if below.Err? {
      return Err(());
    }
    ghost var waited := Waited(Tasks(env, KidRequests(env, ts), KidForests(ts)), wp);
    AnswersJoin(Roots(env, ts, parent),
                Gathered(Segments(env, KidRequests(env, ts), KidForests(ts)), waited.value));
    return Ok(Combined(level.value.0, below.value));
  }

  // ---------- Batched against sequential ----------

  lemma {:induction false} GatheredParentsFirst(segments: seq<seq<Node>>, order: seq<nat>, known: set<ResourceRef>)
    requires Below(order, |segments|)
    requires forall i :: 0 <= i < |segments| ==> ParentsFirst(segments[i], known)
    ensures ParentsFirst(Gathered(segments, order), known)
  {
    if order == [] {
    } else {
      var before, k := Gathered(segments, order[..|order| - 1]), order[|order| - 1];
      GatheredParentsFirst(segments, order[..|order| - 1], known);
      assert ParentsFirst(segments[k], known + Refs(before)) by {
        assert ParentsFirst(segments[k], known);
      }
      ParentsFirstConcat(before, segments[k], known);
    }
  }

  lemma {:induction false} SegmentsParentsFirst(env: Env, requests: seq<Request>, forests: seq<seq<Tree>>,
                                                known: set<ResourceRef>)
    requires |requests| == |forests|
    requires forall i :: 0 <= i < |requests| ==> requests[i].ref in known
    ensures forall i :: 0 <= i < |requests| ==> ParentsFirst(Segments(env, requests, forests)[i], known)
  {
    forall i | 0 <= i < |requests| ensures ParentsFirst(Segments(env, requests, forests)[i], known) {
      LayeredParentsFirst(env, forests[i], Some(requests[i].ref), known);
    }
  }

  lemma {:induction false} BatchParentsFirst(env: Env, ts: seq<Tree>, order: seq<nat>)
    requires UnfoldsAll(env, ts)
    requires Below(order, |KidRequests(env, ts)|)
    ensures ParentsFirst(
              Roots(env, ts, None) + Gathered(Segments(env, KidRequests(env, ts), KidForests(ts)), order), {})
  {
    var requests, forests := KidRequests(env, ts), KidForests(ts);
    var roots, segments := Roots(env, ts, None), Segments(env, requests, forests);
    KidRefs(env, ts);
    SegmentsParentsFirst(env, requests, forests, Refs(roots));
    GatheredParentsFirst(segments, order, Refs(roots));
    assert {} + Refs(roots) == Refs(roots);
    ParentsFirstConcat(roots, Gathered(segments, order), {});
  }

  /** A pool none of whose tasks fails gathers each of them once. */
  lemma {:induction false} WholeTasksAreGathered(tasks: seq<WorkerPool.Task<Response>>, wp: BatchWorker)
    requires WorkerPool.NoneFails(tasks) && Completes(tasks, wp)
    ensures Waited(tasks, wp).Ok? && EachOnce(Waited(tasks, wp).value, |tasks|)
  {
    WorkerPool.SuccessesAreGathered(tasks, wp.workers, WorkerPool.Submitted(|tasks|), wp.interleaving);
  }

  /**
   Whatever order the workers take, a forest without errors comes out as a permutation of the
   sequential result, roots first, each health status at its node's index, and every parent
   before its children.
   */
  lemma {:induction false} BatchedRefinesSequential(env: Env, ts: seq<Tree>, wp: BatchWorker)
    requires UnfoldsAll(env, ts) && WholeAll(ts)
    requires Completes(Tasks(env, KidRequests(env, ts), KidForests(ts)), wp)
    ensures Batched(env, ts, None, wp).Ok?
    ensures var response := Batched(env, ts, None, wp).value;
            && multiset(response.nodes) == multiset(Layered(env, ts, None))
            && Roots(env, ts, None) <= response.nodes
            && |response.healthStatusArray| == |response.nodes|
            && (forall i :: 0 <= i < |response.nodes| ==> response.healthStatusArray[i] == response.nodes[i].health)
            && ParentsFirst(response.nodes, {})
  {
    var requests, forests := KidRequests(env, ts), KidForests(ts);
    var tasks, roots, segments := Tasks(env, requests, forests), Roots(env, ts, None), Segments(env, requests, forests);
    KidsDecideWholeness(ts);
    WholeTasksAreGathered(tasks, wp);
    var order := Waited(tasks, wp).value;
    KidSegmentsAre(env, ts);
    GatheredInOrder(env, ts);
    GatheredInAnyOrder(segments, order, |segments|);
    BatchParentsFirst(env, ts, order);
  }

  /** How many of the last child requests fail without one after them that does not. */
  function TrailingBroken(forests: seq<seq<Tree>>): nat {
    if forests == [] || WholeAll(forests[|forests| - 1]) then 0 else 1 + TrailingBroken(forests[..|forests| - 1])
  }

  lemma {:induction false} TrailingTasks(tasks: seq<WorkerPool.Task<Response>>, forests: seq<seq<Tree>>)
    requires |tasks| == |forests| && forall i :: 0 <= i < |forests| ==> (tasks[i].Ok? <==> WholeAll(forests[i]))
    ensures WorkerPool.TrailingFailures(tasks) == TrailingBroken(forests)
  {
    if forests == [] {
    } else {
      TrailingTasks(tasks[..|tasks| - 1], forests[..|forests| - 1]);
    }
  }

  /** No interleaving gets the verdict on these child requests wrong. */
  predicate NeverMisreported(forests: seq<seq<Tree>>, workers: nat) {
    || AllWhole(forests)
    || (if workers == 1 then TrailingBroken(forests) % 2 == 1
        else (forall i :: 0 <= i < |forests| ==> !WholeAll(forests[i])) && |forests| % 2 == 1)
  }

  /**
   When some child request fails the pool may still report success, with nodes missing.  One
   worker never does exactly when no request fails or the requests that fail after the last one
   that does not are an odd number; more workers never do exactly when no request fails, or
   all fail and they are an odd number.
   */
  lemma {:induction false} BatchedReportsErrorsIff(env: Env, ts: seq<Tree>, workers: nat)
    requires UnfoldsAll(env, ts) && AllBranch(ts) && workers >= 1
    ensures (forall interleaving ::
               var wp := BatchWorker(workers, interleaving);
               Completes(Tasks(env, KidRequests(env, ts), KidForests(ts)), wp) ==>
                 (Batched(env, ts, None, wp).Ok? <==> WholeAll(ts))) <==>
            NeverMisreported(KidForests(ts), workers)
  {
    var forests := KidForests(ts);
    var tasks := Tasks(env, KidRequests(env, ts), forests);
    KidsDecideWholeness(ts);
    WorkerPool.FaithfulIff(tasks, workers);
    assert forall i :: 0 <= i < |forests| ==> (tasks[i].Ok? <==> WholeAll(forests[i]));
    TrailingTasks(tasks, forests);
    if WorkerPool.Faithful(tasks, workers) {
      forall interleaving | Completes(tasks, BatchWorker(workers, interleaving))
        ensures Batched(env, ts, None, BatchWorker(workers, interleaving)).Ok? <==> WholeAll(ts)
      {
        var run := WorkerPool.Run(tasks, workers, WorkerPool.Submitted(|tasks|), interleaving);
        assert WorkerPool.AsSequential(tasks, WorkerPool.StopWait(run.value));
      }
    } else {
      var actions, s :|
        && WorkerPool.Run(tasks, workers, WorkerPool.Submitted(|tasks|), actions) == Some(s)
        && WorkerPool.Complete(s) && !WorkerPool.AsSequential(tasks, WorkerPool.StopWait(s));
      var wp := BatchWorker(workers, actions);
      if WorkerPool.NoneFails(tasks) {
        WholeTasksAreGathered(tasks, wp);
      }
      assert Completes(tasks, wp) && Batched(env, ts, None, wp).Ok?;
    }
  }

  /** When the pool that builds below a level can hang: the counterpart of a misreported verdict. */
  predicate CanHang(forests: seq<seq<Tree>>, workers: nat) {
    && workers >= 2
    && (exists i, j :: 0 <= i < j < |forests| && !WholeAll(forests[i]) && !WholeAll(forests[j]))
    && (workers == 2 ==>
          && !WholeAll(forests[|forests| - 1])
          && !((forall i :: 0 <= i < |forests| ==> !WholeAll(forests[i])) && |forests| % 2 == 1))
  }

  /**
   A batched build can hang for ever exactly when at least two child requests fail and the pool
   has three workers or more, or has two, the last request fails, and not all of an odd number.
   */
  lemma {:induction false} BatchedHangsIff(env: Env, ts: seq<Tree>, workers: nat)
    requires UnfoldsAll(env, ts) && workers >= 1
    ensures WorkerPoolProgress.CanStick(Tasks(env, KidRequests(env, ts), KidForests(ts)), workers) <==>
            CanHang(KidForests(ts), workers)
  {
    var forests := KidForests(ts);
    var tasks := Tasks(env, KidRequests(env, ts), forests);
    assert forall i :: 0 <= i < |forests| ==> (tasks[i].Ok? <==> WholeAll(forests[i]));
    WorkerPoolProgress.CanStickIff(tasks, workers);
    SticksAsTasks(tasks, forests, workers);
  }

  lemma {:induction false} SticksAsTasks(tasks: seq<WorkerPool.Task<Response>>, forests: seq<seq<Tree>>, workers: nat)
    requires |tasks| == |forests| && forall i :: 0 <= i < |forests| ==> (tasks[i].Ok? <==> WholeAll(forests[i]))
    ensures WorkerPoolProgress.SticksWhen(tasks, workers) <==> CanHang(forests, workers)
  {
    if WorkerPoolProgress.SticksWhen(tasks, workers) {
      var i, j :| 0 <= i < j < |tasks| && tasks[i].Err? && tasks[j].Err?;
      assert !WholeAll(forests[i]) && !WholeAll(forests[j]);
    }
  }
}
