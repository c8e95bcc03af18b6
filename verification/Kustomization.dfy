/**
 Collecting what a Flux Kustomization manages: its inventory, the inventories of the
 Kustomizations in it, and so on, together with the Helm releases met on the way.
 */
module Kustomization {
  import opened Wrappers
  import opened Fields
  import opened Gathering
  import opened InventoryId

  const KUSTOMIZATION_GROUP := "kustomize.toolkit.fluxcd.io"
  const KUSTOMIZATION_KIND := "Kustomization"
  const HELM_RELEASE_GROUP := "helm.toolkit.fluxcd.io"
  const HELM_RELEASE_KIND := "HelmRelease"

  datatype Resource = Resource(name: string, namespace: string, group: string, kind: string, version: string)

  datatype FluxHr = FluxHr(name: string, namespace: string)

  /** A Kustomization object by name and namespace. */
  datatype App = App(name: string, namespace: string)

  /** `NoEntries` is an inventory whose list of entries is missing. */
  datatype Inventory = NoInventory | NoEntries | Entries(entries: seq<Entry>)

  datatype KsAnswer = KsError | KsMissing | Ks(kubeConfig: bool, inventory: Inventory)

  /** A Helm release without name or namespace is answered without an error. */
  datatype HrAnswer = HrError | HrEmpty | HrFound(release: FluxHr)

  /**
   What the cluster answers for Kustomization and HelmRelease objects, and how an inventory
   entry is decoded; `DecodeObjMetadata` below is the decoder Flux ids are written for.
   */
  datatype Cluster = Cluster(
    kustomization: App -> KsAnswer,
    helmRelease: App -> HrAnswer,
    decode: (string, string) -> Option<Resource>)

  function AppOf(r: Resource): App {
    App(r.name, r.namespace)
  }

  predicate IsKustomization(r: Resource) {
    r.group == KUSTOMIZATION_GROUP && r.kind == KUSTOMIZATION_KIND
  }

  predicate IsHelmRelease(r: Resource) {
    r.group == HELM_RELEASE_GROUP && r.kind == HELM_RELEASE_KIND
  }

  predicate HasInventory(c: Cluster, app: App) {
    c.kustomization(app).Ks? && !c.kustomization(app).inventory.NoInventory?
  }

  /** The inventory's versions by id; nothing when it cannot be read. */
  function Items(c: Cluster, app: App): Option<map<string, string>> {
    if HasInventory(c, app) && c.kustomization(app).inventory.Entries?
    then ParsedItems(c.kustomization(app).inventory.entries)
    else None
  }

  function Ids(c: Cluster, app: App): set<string> {
    if Items(c, app).Some? then Items(c, app).value.Keys else {}
  }

  function ResourceAt(c: Cluster, app: App, id: string): Option<Resource>
    requires id in Ids(c, app)
  {
    c.decode(id, Items(c, app).value[id])
  }

  /** The resource is a Kustomization other than `app`, and `app` lets it be looked up. */
  predicate LooksUp(c: Cluster, app: App, r: Resource) {
    && IsKustomization(r) && AppOf(r) != app
    && c.kustomization(app).Ks? && !c.kustomization(app).kubeConfig
  }

  /** The collection continues from `app` into this resource's inventory. */
  predicate Follows(c: Cluster, app: App, id: string) {
    && id in Ids(c, app)
    && ResourceAt(c, app, id).Some?
    && LooksUp(c, app, ResourceAt(c, app, id).value)
    && HasInventory(c, AppOf(ResourceAt(c, app, id).value))
  }

  function Next(c: Cluster, app: App, id: string): App
    requires Follows(c, app, id)
  {
    AppOf(ResourceAt(c, app, id).value)
  }

  /** Following the ids of `path` leads from `app` to `target`. */
  predicate Reaches(c: Cluster, app: App, path: seq<string>, target: App)
    decreases path
  {
    if path == [] then app == target
    else Follows(c, app, path[0]) && Reaches(c, Next(c, app, path[0]), path[1..], target)
  }

  /**
   No cycles but self-loops below `app`: every Kustomization followed from one that can be
   reached has a smaller rank.  What lies elsewhere in the cluster does not matter.
   */
  ghost predicate WellFounded(c: Cluster, rank: App -> nat, app: App) {
    forall path, target, id ::
      Reaches(c, app, path, target) && Follows(c, target, id) ==> rank(Next(c, target, id)) < rank(target)
  }

  lemma {:induction false} BelowIsWellFounded(c: Cluster, rank: App -> nat, app: App, id: string)
    requires WellFounded(c, rank, app) && Follows(c, app, id)
    ensures rank(Next(c, app, id)) < rank(app)
    ensures WellFounded(c, rank, Next(c, app, id))
  {
    assert Reaches(c, app, [], app);
    forall path, target, last | Reaches(c, Next(c, app, id), path, target) && Follows(c, target, last)
      ensures rank(Next(c, target, last)) < rank(target)
    {
      assert ([id] + path)[1..] == path;
      assert Reaches(c, app, [id] + path, target);
    }
  }

  // ---------- The collection, free of order ----------

  /** One item of an inventory can be collected, with everything below it. */
  ghost predicate CleanItem(c: Cluster, rank: App -> nat, app: App, id: string)
    requires WellFounded(c, rank, app) && id in Ids(c, app)
    decreases rank(app), 0
  {
    && ResourceAt(c, app, id).Some?
    && var r := ResourceAt(c, app, id).value;
    && (IsHelmRelease(r) ==> c.helmRelease(AppOf(r)).HrFound?)
    && (LooksUp(c, app, r) ==> c.kustomization(AppOf(r)).Ks?)
    && (Follows(c, app, id) ==> (BelowIsWellFounded(c, rank, app, id); Clean(c, rank, Next(c, app, id))))
  }

  ghost predicate Clean(c: Cluster, rank: App -> nat, app: App)
    requires WellFounded(c, rank, app)
    decreases rank(app), 1
  {
    Items(c, app).Some? && forall id :: id in Ids(c, app) ==> CleanItem(c, rank, app, id)
  }

  /** Resources and Helm releases, with multiplicities. */
  datatype Bag = Bag(resources: multiset<Resource>, releases: multiset<FluxHr>)

  function Plus(a: Bag, b: Bag): Bag {
    Bag(a.resources + b.resources, a.releases + b.releases)
  }

  predicate Within(a: Bag, b: Bag) {
    a.resources <= b.resources && a.releases <= b.releases
  }

  const EMPTY := Bag(multiset{}, multiset{})

  /** What one item contributes: itself, its Helm release, and what it leads to. */
  ghost function FromItem(c: Cluster, rank: App -> nat, app: App, id: string, losing: bool): Bag
    requires WellFounded(c, rank, app) && id in Ids(c, app)
    decreases rank(app), 0
  {
    match ResourceAt(c, app, id)
    case None => EMPTY
    case Some(r) =>
      var own := Bag(multiset{r},
                     if IsHelmRelease(r) && c.helmRelease(AppOf(r)).HrFound?
                     then multiset{c.helmRelease(AppOf(r)).release} else multiset{});
      if Follows(c, app, id) then
        BelowIsWellFounded(c, rank, app, id);
        Plus(own, Below(c, rank, Next(c, app, id), losing))
      else own
  }

  ghost function FromIds(c: Cluster, rank: App -> nat, app: App, ids: set<string>, losing: bool): Bag
    requires WellFounded(c, rank, app) && ids <= Ids(c, app)
    decreases rank(app), 1, ids
  {
    if ids == {} then EMPTY
    else
      var id :| id in ids;
      Plus(FromItem(c, rank, app, id, losing), FromIds(c, rank, app, ids - {id}, losing))
  }

  /** A whole inventory; when `losing`, one that makes the call give up contributes nothing. */
  ghost function Below(c: Cluster, rank: App -> nat, app: App, losing: bool): Bag
    requires WellFounded(c, rank, app)
    decreases rank(app), 2
  {
    if losing && GivesUp(c, app) then EMPTY else FromIds(c, rank, app, Ids(c, app), losing)
  }

  /** Everything there is to collect. */
  ghost function All(c: Cluster, rank: App -> nat, app: App): Bag
    requires WellFounded(c, rank, app)
  {
    Below(c, rank, app, false)
  }

  /** What is collected: less wherever a call gives up. */
  ghost function Got(c: Cluster, rank: App -> nat, app: App): Bag
    requires WellFounded(c, rank, app)
  {
    Below(c, rank, app, true)
  }

  lemma {:induction false} PlusCommutes(a: Bag, b: Bag, rest: Bag)
    ensures Plus(a, Plus(b, rest)) == Plus(b, Plus(a, rest))
  {
  }

  /** Any item may be taken out first. */
  lemma {:induction false} TakeOut(c: Cluster, rank: App -> nat, app: App, ids: set<string>, id: string,
                                   losing: bool)
    requires WellFounded(c, rank, app) && ids <= Ids(c, app) && id in ids
    ensures FromIds(c, rank, app, ids, losing)
         == Plus(FromItem(c, rank, app, id, losing), FromIds(c, rank, app, ids - {id}, losing))
    decreases ids
  {
    var first :| first in ids && FromIds(c, rank, app, ids, losing)
                   == Plus(FromItem(c, rank, app, first, losing), FromIds(c, rank, app, ids - {first}, losing));
    if first != id {
      TakeOut(c, rank, app, ids - {first}, id, losing);
      TakeOut(c, rank, app, ids - {id}, first, losing);
      assert ids - {first} - {id} == ids - {id} - {first};
      PlusCommutes(FromItem(c, rank, app, id, losing), FromItem(c, rank, app, first, losing),
                   FromIds(c, rank, app, ids - {id} - {first}, losing));
    }
  }

  // ---------- What fails, what gives up, and what is lost ----------

  /** The inventory cannot be read: the call fails before it looks at any item. */
  predicate Unreadable(c: Cluster, app: App) {
    Items(c, app).None? || exists id :: id in Ids(c, app) && ResourceAt(c, app, id).None?
  }

  /** The item is looked up in vain: the call at hand succeeds with nothing. */
  predicate GivesUpAt(c: Cluster, app: App, id: string) {
    && id in Ids(c, app) && ResourceAt(c, app, id).Some?
    && var r := ResourceAt(c, app, id).value;
       || (IsHelmRelease(r) && c.helmRelease(AppOf(r)).HrEmpty?)
       || (LooksUp(c, app, r) && c.kustomization(AppOf(r)).KsMissing?)
  }

  ghost predicate GivesUp(c: Cluster, app: App) {
    exists id :: GivesUpAt(c, app, id)
  }

  /** The item's lookup itself is answered by an error. */
  predicate ErrsAt(c: Cluster, app: App, id: string) {
    && id in Ids(c, app) && ResourceAt(c, app, id).Some?
    && var r := ResourceAt(c, app, id).value;
       || (IsHelmRelease(r) && c.helmRelease(AppOf(r)).HrError?)
       || (LooksUp(c, app, r) && c.kustomization(AppOf(r)).KsError?)
  }

  ghost predicate NoErrorsItem(c: Cluster, rank: App -> nat, app: App, id: string)
    requires WellFounded(c, rank, app) && id in Ids(c, app)
    decreases rank(app), 0
  {
    !ErrsAt(c, app, id) &&
    (Follows(c, app, id) ==> (BelowIsWellFounded(c, rank, app, id); NoErrors(c, rank, Next(c, app, id))))
  }

  /** There is no error anywhere below: whatever the order, no call fails. */
  ghost predicate NoErrors(c: Cluster, rank: App -> nat, app: App)
    requires WellFounded(c, rank, app)
    decreases rank(app), 1
  {
    !Unreadable(c, app) && forall id :: id in Ids(c, app) ==> NoErrorsItem(c, rank, app, id)
  }

  ghost predicate MustFailItem(c: Cluster, rank: App -> nat, app: App, id: string)
    requires WellFounded(c, rank, app) && id in Ids(c, app)
    decreases rank(app), 0
  {
    ErrsAt(c, app, id) ||
    (Follows(c, app, id) && (BelowIsWellFounded(c, rank, app, id); MustFail(c, rank, Next(c, app, id))))
  }

  /** Whatever the order, the call meets an error before it can give up or come to its end. */
  ghost predicate MustFail(c: Cluster, rank: App -> nat, app: App)
    requires WellFounded(c, rank, app)
    decreases rank(app), 1
  {
    || Unreadable(c, app)
    || (!GivesUp(c, app) && exists id :: id in Ids(c, app) && MustFailItem(c, rank, app, id))
  }

  lemma {:induction false} CleanHasNoErrors(c: Cluster, rank: App -> nat, app: App)
    requires WellFounded(c, rank, app) && Clean(c, rank, app)
    ensures NoErrors(c, rank, app)
    decreases rank(app)
  {
    forall id | id in Ids(c, app) ensures NoErrorsItem(c, rank, app, id) {
      assert CleanItem(c, rank, app, id);
      if Follows(c, app, id) {
        BelowIsWellFounded(c, rank, app, id);
        CleanHasNoErrors(c, rank, Next(c, app, id));
      }
    }
  }

  /** How much less of one item, or of a set of them, is collected: nothing exactly if all is clean. */
  predicate Loses(got: Bag, all: Bag, clean: bool) {
    Within(got, all) && if clean then got == all else |got.resources| < |all.resources|
  }

  lemma {:induction false} ItemLoses(c: Cluster, rank: App -> nat, app: App, id: string)
    requires WellFounded(c, rank, app) && id in Ids(c, app) && ResourceAt(c, app, id).Some?
    requires !MustFailItem(c, rank, app, id) && !GivesUpAt(c, app, id)
    ensures Loses(FromItem(c, rank, app, id, true), FromItem(c, rank, app, id, false), CleanItem(c, rank, app, id))
    decreases rank(app), 0
  {
    if Follows(c, app, id) {
      BelowIsWellFounded(c, rank, app, id);
      CollectionLoses(c, rank, Next(c, app, id));
    }
  }

  lemma {:induction false} IdsLose(c: Cluster, rank: App -> nat, app: App, ids: set<string>)
    requires WellFounded(c, rank, app) && ids <= Ids(c, app)
    requires forall id :: id in ids ==>
               ResourceAt(c, app, id).Some? && !MustFailItem(c, rank, app, id) && !GivesUpAt(c, app, id)
    ensures Loses(FromIds(c, rank, app, ids, true), FromIds(c, rank, app, ids, false),
                  forall id :: id in ids ==> CleanItem(c, rank, app, id))
    decreases rank(app), 1, ids
  {
    if ids == {} {
    } else {
      var id :| id in ids;
      TakeOut(c, rank, app, ids, id, true);
      TakeOut(c, rank, app, ids, id, false);
      ItemLoses(c, rank, app, id);
      IdsLose(c, rank, app, ids - {id});
    }
  }

  lemma {:induction false} SomethingToLose(c: Cluster, rank: App -> nat, app: App, id: string)
    requires WellFounded(c, rank, app) && id in Ids(c, app) && ResourceAt(c, app, id).Some?
    ensures |All(c, rank, app).resources| > 0
  {
    TakeOut(c, rank, app, Ids(c, app), id, false);
    assert ResourceAt(c, app, id).value in FromItem(c, rank, app, id, false).resources;
    assert ResourceAt(c, app, id).value in All(c, rank, app).resources;
  }

  /** Where a call can succeed, it collects everything if all below is clean, and else strictly less. */
  lemma {:induction false} CollectionLoses(c: Cluster, rank: App -> nat, app: App)
    requires WellFounded(c, rank, app) && !MustFail(c, rank, app)
    ensures Loses(Got(c, rank, app), All(c, rank, app), Clean(c, rank, app))
    decreases rank(app), 2
  {
    if id :| GivesUpAt(c, app, id) {
      SomethingToLose(c, rank, app, id);
      assert !CleanItem(c, rank, app, id);
    } else {
      IdsLose(c, rank, app, Ids(c, app));
    }
  }

  lemma {:induction false} SuccessAgainstAll(c: Cluster, rank: App -> nat, app: App)
    requires WellFounded(c, rank, app)
    ensures Clean(c, rank, app) ==> NoErrors(c, rank, app)
    ensures !MustFail(c, rank, app) ==> Loses(Got(c, rank, app), All(c, rank, app), Clean(c, rank, app))
  {
    if Clean(c, rank, app) {
      CleanHasNoErrors(c, rank, app);
    }
    if !MustFail(c, rank, app) {
      CollectionLoses(c, rank, app);
    }
  }

  // ---------- The recursion, in whatever order the maps are walked ----------

  /** The items decoded in the map's iteration order, which is left open; `order` records it. */
  method DecodeItems(c: Cluster, items: map<string, string>)
    returns (r: Option<seq<Resource>>, ghost order: seq<string>)
    ensures r.Some? <==> forall id :: id in items ==> c.decode(id, items[id]).Some?
    ensures r.Some? ==> Enumerates(order, items.Keys) && |r.value| == |order|
    ensures r.Some? ==>
              forall i :: 0 <= i < |order| ==> c.decode(order[i], items[order[i]]) == Some(r.value[i])
  {
    order := [];
    var resources: seq<Resource> := [];
    var remaining := items.Keys;
    while remaining != {}
      invariant remaining <= items.Keys
      invariant Enumerates(order, items.Keys - remaining)
      invariant |resources| == |order|
      invariant forall i :: 0 <= i < |order| ==> c.decode(order[i], items[order[i]]) == Some(resources[i])
      decreases remaining
    {
      var id :| id in remaining;
      var resource := c.decode(id, items[id]);
      if resource.None? {
        return None, [];
      }
      resources := resources + [resource.value];
      EnumeratesOneMore(order, items.Keys - remaining, id);
      order, remaining := order + [id], remaining - {id};
      assert items.Keys - remaining == items.Keys - (remaining + {id}) + {id};
    }
    assert items.Keys - remaining == items.Keys;
    return Some(resources), order;
  }

  /** The decoded inventory; nothing when its entries are missing or one of them is unreadable. */
  method FetchInventoryList(c: Cluster, app: App) returns (r: Option<seq<Resource>>, ghost order: seq<string>)
    requires HasInventory(c, app)
    ensures r.Some? <==> Items(c, app).Some? && forall id :: id in Ids(c, app) ==> ResourceAt(c, app, id).Some?
    ensures r.Some? ==> Enumerates(order, Ids(c, app)) && |r.value| == |order|
    ensures r.Some? ==> forall i :: 0 <= i < |order| ==> ResourceAt(c, app, order[i]) == Some(r.value[i])
  {
    var inventory := c.kustomization(app).inventory;
    if !inventory.Entries? {
      return None, [];
    }
    var items := ParseInventoryObjects(inventory.entries);
    if items.None? {
      return None, [];
    }
    r, order := DecodeItems(c, items.value);
    assert forall id :: id in Ids(c, app) ==> ResourceAt(c, app, id) == c.decode(id, items.value[id]);
  }

  lemma {:induction false} FromOneMoreId(c: Cluster, rank: App -> nat, app: App, done: set<string>, id: string,
                                         losing: bool)
    requires WellFounded(c, rank, app) && done + {id} <= Ids(c, app) && id !in done
    ensures FromIds(c, rank, app, done + {id}, losing)
         == Plus(FromIds(c, rank, app, done, losing), FromItem(c, rank, app, id, losing))
  {
    TakeOut(c, rank, app, done + {id}, id, losing);
    assert done + {id} - {id} == done;
  }

  /** What the loop does with one child: fail, give up with nothing, or append to both lists. */
  datatype Outcome = Failed | Emptied | Appended(resources: seq<Resource>, releases: seq<FluxHr>)

  function BagOf(resources: seq<Resource>, releases: seq<FluxHr>): Bag {
    Bag(multiset(resources), multiset(releases))
  }

  lemma {:induction false} BagOfConcat(a: seq<Resource>, b: seq<FluxHr>, c: seq<Resource>, d: seq<FluxHr>)
    ensures BagOf(a + c, b + d) == Plus(BagOf(a, b), BagOf(c, d))
  {
  }

  /** The release that goes with a collected resource, if there is one. */
  function ReleaseRule(c: Cluster): Resource -> seq<FluxHr> {
    (r: Resource) =>
      if r.group == HELM_RELEASE_GROUP && r.kind == HELM_RELEASE_KIND && c.helmRelease(AppOf(r)).HrFound?
      then [c.helmRelease(AppOf(r)).release] else []
  }

  /** One round of the loop. */
  method CollectChild(c: Cluster, app: App, child: Resource, ghost id: string, ghost rank: App -> nat)
    returns (o: Outcome)
    requires WellFounded(c, rank, app) && HasInventory(c, app)
    requires id in Ids(c, app) && ResourceAt(c, app, id) == Some(child)
    ensures o.Emptied? <==> GivesUpAt(c, app, id)
    ensures o.Failed? ==> !NoErrorsItem(c, rank, app, id)
    ensures o.Appended? ==> !MustFailItem(c, rank, app, id)
    ensures o.Appended? ==> BagOf(o.resources, o.releases) == FromItem(c, rank, app, id, true)
    ensures o.Appended? ==> o.releases == FlatMap(ReleaseRule(c), o.resources)
    decreases rank(app), 0
  {
    var resources, releases := [child], [];
    assert FlatMap(ReleaseRule(c), [child]) == ReleaseRule(c)(child) by {
      assert [child][..0] == [];
    }
    if child.group == KUSTOMIZATION_GROUP && child.kind == KUSTOMIZATION_KIND && AppOf(child) == app {
      return Appended(resources, releases);
    }
    if child.group == HELM_RELEASE_GROUP && child.kind == HELM_RELEASE_KIND {
      var release := c.helmRelease(AppOf(child));
      if release.HrError? {
        return Failed;
      }
      if release.HrEmpty? {
        return Emptied;
      }
      releases := releases + [release.release];
    }
    if child.group == KUSTOMIZATION_GROUP && child.kind == KUSTOMIZATION_KIND && !c.kustomization(app).kubeConfig {
      var answer := c.kustomization(AppOf(child));
      if answer.KsError? {
        return Failed;
      }
      if answer.KsMissing? {
        return Emptied;
      }
      if !answer.inventory.NoInventory? {
        BelowIsWellFounded(c, rank, app, id);
        var below := GetKsAppResourceAndFluxHrList(c, AppOf(child), rank);
        if below.Err? {
          return Failed;
        }
        FlatMapOfConcat(ReleaseRule(c), resources, below.value.0);
        resources := resources + below.value.0;
        releases := releases + below.value.1;
      }
    }
    return Appended(resources, releases);
  }

  /** The loop over the children, in the order in which they were listed. */
  method CollectChildren(c: Cluster, app: App, children: seq<Resource>, ghost order: seq<string>,
                         ghost rank: App -> nat)
    returns (o: Outcome)
    requires WellFounded(c, rank, app) && HasInventory(c, app)
    requires Enumerates(order, Ids(c, app)) && |children| == |order|
    requires forall i :: 0 <= i < |order| ==> ResourceAt(c, app, order[i]) == Some(children[i])
    ensures o.Emptied? ==> GivesUp(c, app)
    ensures o.Failed? ==> exists id :: id in Ids(c, app) && !NoErrorsItem(c, rank, app, id)
    ensures o.Appended? ==>
              forall id :: id in Ids(c, app) ==> !GivesUpAt(c, app, id) && !MustFailItem(c, rank, app, id)
    ensures o.Appended? ==> BagOf(o.resources, o.releases) == FromIds(c, rank, app, Ids(c, app), true)
    ensures o.Appended? ==> o.releases == FlatMap(ReleaseRule(c), o.resources)
    decreases rank(app), 1
  {
    var resources: seq<Resource> := [];
    var releases: seq<FluxHr> := [];
    ghost var done: set<string> := {};
    for i := 0 to |children|
      invariant done <= Ids(c, app)
      invariant forall k :: 0 <= k < |order| ==> (order[k] in done <==> k < i)
      invariant forall id :: id in done ==> !GivesUpAt(c, app, id) && !MustFailItem(c, rank, app, id)
      invariant BagOf(resources, releases) == FromIds(c, rank, app, done, true)
      invariant releases == FlatMap(ReleaseRule(c), resources)
    {
      ghost var id := order[i];
      var child := CollectChild(c, app, children[i], id, rank);
      if !child.Appended? {
        return child;
      }
      FromOneMoreId(c, rank, app, done, id, true);
      BagOfConcat(resources, releases, child.resources, child.releases);
      FlatMapOfConcat(ReleaseRule(c), resources, child.resources);
      done := done + {id};
      resources, releases := resources + child.resources, releases + child.releases;
    }
    assert done == Ids(c, app);
    return Appended(resources, releases);
  }

  /**
   The recursive collection.  A child without a response, and a Helm release without a name,
   make the call at hand succeed with nothing at all.  So a success is what `Got` says,
   whatever order the maps were walked in: everything, if all below is clean, and silently
   less if not.  Without errors below the call always succeeds.  Only where errors and missing
   answers meet does the order decide between failing and giving up.
   */
  method GetKsAppResourceAndFluxHrList(c: Cluster, app: App, ghost rank: App -> nat)
    returns (r: Result<(seq<Resource>, seq<FluxHr>), ()>)
    requires WellFounded(c, rank, app) && HasInventory(c, app)
    ensures NoErrors(c, rank, app) ==> r.Ok?
    ensures MustFail(c, rank, app) ==> r.Err?
    ensures Clean(c, rank, app) ==> r.Ok?
    ensures r.Ok? ==> BagOf(r.value.0, r.value.1) == Got(c, rank, app)
    ensures r.Ok? ==> Loses(BagOf(r.value.0, r.value.1), All(c, rank, app), Clean(c, rank, app))
    ensures r.Ok? ==> r.value.1 == FlatMap(ReleaseRule(c), r.value.0)
    decreases rank(app), 2
  {
    SuccessAgainstAll(c, rank, app);
    var children, order := FetchInventoryList(c, app);
    if children.None? {
      return Err(());
    }
    var collected := CollectChildren(c, app, children.value, order, rank);
    match collected
    case Failed => return Err(());
    case Emptied => return Ok(([], []));
    case Appended(resources, releases) => return Ok((resources, releases));
  }

  // ---------- The collection is what can be reached ----------

  /** Something that can be collected. */
  datatype Found = AResource(resource: Resource) | ARelease(release: FluxHr)

  /**
   The item of `app`'s inventory is that resource; or it is a HelmRelease object of Flux, and
   the cluster answers for it with that release.
   */
  predicate Holds(c: Cluster, app: App, id: string, x: Found)
    requires id in Ids(c, app)
  {
    && ResourceAt(c, app, id).Some?
    && var r := ResourceAt(c, app, id).value;
       match x
       case AResource(resource) => r == resource
       case ARelease(release) =>
         && r.group == "helm.toolkit.fluxcd.io" && r.kind == "HelmRelease"
         && c.helmRelease(App(r.name, r.namespace)) == HrFound(release)
  }

  /** It is held by the inventory of a Kustomization that can be reached. */
  ghost predicate Reachable(c: Cluster, app: App, x: Found) {
    exists path, target, id :: Reaches(c, app, path, target) && id in Ids(c, target) && Holds(c, target, id, x)
  }

  /** It comes with this item: the item holds it, or it can be reached through it. */
  ghost predicate ThroughItem(c: Cluster, app: App, id: string, x: Found)
    requires id in Ids(c, app)
  {
    Holds(c, app, id, x) || (Follows(c, app, id) && Reachable(c, Next(c, app, id), x))
  }

  lemma {:induction false} FirstStep(c: Cluster, app: App, path: seq<string>, target: App, id: string, x: Found)
    requires Reaches(c, app, path, target) && id in Ids(c, target) && Holds(c, target, id, x)
    ensures exists first :: first in Ids(c, app) && ThroughItem(c, app, first, x)
  {
    if path == [] {
      assert ThroughItem(c, app, id, x);
    } else {
      assert ThroughItem(c, app, path[0], x);
    }
  }

  lemma {:induction false} ThroughIsReachable(c: Cluster, app: App, id: string, x: Found)
    requires id in Ids(c, app) && ThroughItem(c, app, id, x)
    ensures Reachable(c, app, x)
  {
    if Holds(c, app, id, x) {
      assert Reaches(c, app, [], app);
    } else {
      var path, target, last :|
        Reaches(c, Next(c, app, id), path, target) && last in Ids(c, target) && Holds(c, target, last, x);
      assert ([id] + path)[1..] == path;
      assert Reaches(c, app, [id] + path, target);
    }
  }

  lemma {:induction false} ReachableThroughItem(c: Cluster, app: App, x: Found)
    ensures Reachable(c, app, x) <==> exists id :: id in Ids(c, app) && ThroughItem(c, app, id, x)
  {
    if Reachable(c, app, x) {
      var path, target, id :|
        Reaches(c, app, path, target) && id in Ids(c, target) && Holds(c, target, id, x);
      FirstStep(c, app, path, target, id, x);
    }
    if id :| id in Ids(c, app) && ThroughItem(c, app, id, x) {
      ThroughIsReachable(c, app, id, x);
    }
  }

  predicate InBag(x: Found, bag: Bag) {
    match x
    case AResource(resource) => resource in bag.resources
    case ARelease(release) => release in bag.releases
  }

  lemma {:induction false} InFromItem(c: Cluster, rank: App -> nat, app: App, id: string, x: Found)
    requires WellFounded(c, rank, app) && id in Ids(c, app)
    ensures InBag(x, FromItem(c, rank, app, id, false)) <==> ThroughItem(c, app, id, x)
    decreases rank(app), 0
  {
    if Follows(c, app, id) {
      var next := Next(c, app, id);
      BelowIsWellFounded(c, rank, app, id);
      InFromIds(c, rank, next, Ids(c, next), x);
      ReachableThroughItem(c, next, x);
    }
  }

  lemma {:induction false} InFromIds(c: Cluster, rank: App -> nat, app: App, ids: set<string>, x: Found)
    requires WellFounded(c, rank, app) && ids <= Ids(c, app)
    ensures InBag(x, FromIds(c, rank, app, ids, false)) <==> exists id :: id in ids && ThroughItem(c, app, id, x)
    decreases rank(app), 1, ids
  {
    if ids == {} {
    } else {
      var id :| id in ids;
      TakeOut(c, rank, app, ids, id, false);
      InFromItem(c, rank, app, id, x);
      InFromIds(c, rank, app, ids - {id}, x);
    }
  }

  /** As sets, the resources and the Helm releases to collect are exactly those that can be reached. */
  lemma {:induction false} CollectedIffReachable(c: Cluster, rank: App -> nat, app: App, x: Found)
    requires WellFounded(c, rank, app)
    ensures InBag(x, All(c, rank, app)) <==> Reachable(c, app, x)
  {
    InFromIds(c, rank, app, Ids(c, app), x);
    ReachableThroughItem(c, app, x);
  }

  /** Where no call gives up, what is collected is the same. */
  ghost predicate NoneGivesUp(c: Cluster, app: App) {
    forall path, target :: Reaches(c, app, path, target) ==> !GivesUp(c, target)
  }

  lemma {:induction false} NoneGivesUpBelow(c: Cluster, app: App, id: string)
    requires NoneGivesUp(c, app) && Follows(c, app, id)
    ensures NoneGivesUp(c, Next(c, app, id))
  {
    forall path, target | Reaches(c, Next(c, app, id), path, target) ensures !GivesUp(c, target) {
      assert ([id] + path)[1..] == path;
      assert Reaches(c, app, [id] + path, target);
    }
  }

  lemma {:induction false} NothingLostFrom(c: Cluster, rank: App -> nat, app: App, ids: set<string>)
    requires WellFounded(c, rank, app) && NoneGivesUp(c, app) && ids <= Ids(c, app)
    ensures FromIds(c, rank, app, ids, true) == FromIds(c, rank, app, ids, false)
    decreases rank(app), ids
  {
    if ids == {} {
    } else {
      var id :| id in ids;
      TakeOut(c, rank, app, ids, id, true);
      TakeOut(c, rank, app, ids, id, false);
      NothingLostFrom(c, rank, app, ids - {id});
      if Follows(c, app, id) {
        var next := Next(c, app, id);
        BelowIsWellFounded(c, rank, app, id);
        NoneGivesUpBelow(c, app, id);
        assert Reaches(c, next, [], next);
        NothingLostFrom(c, rank, next, Ids(c, next));
      }
    }
  }

  lemma {:induction false} GotIfReachable(c: Cluster, rank: App -> nat, app: App, x: Found)
    requires WellFounded(c, rank, app) && NoneGivesUp(c, app)
    ensures Got(c, rank, app) == All(c, rank, app)
    ensures InBag(x, Got(c, rank, app)) <==> Reachable(c, app, x)
  {
    assert Reaches(c, app, [], app);
    NothingLostFrom(c, rank, app, Ids(c, app));
    CollectedIffReachable(c, rank, app, x);
  }

  /** A Kustomization with a kubeConfig of its own leads nowhere: its inventory alone is collected. */
  lemma {:induction false} KubeConfigStops(c: Cluster, app: App, x: Found)
    requires c.kustomization(app).Ks? && c.kustomization(app).kubeConfig
    ensures Reachable(c, app, x) <==> exists id :: id in Ids(c, app) && Holds(c, app, id, x)
  {
    ReachableThroughItem(c, app, x);
  }

  /** Without one, every other Kustomization in the inventory that has an inventory is followed. */
  lemma {:induction false} OthersAreFollowed(c: Cluster, app: App, id: string, r: Resource, next: App)
    requires id in Ids(c, app) && ResourceAt(c, app, id) == Some(r) && next == App(r.name, r.namespace)
    requires HasInventory(c, next)
    ensures Reaches(c, app, [id], next) <==>
            && !c.kustomization(app).kubeConfig && next != app
            && r.group == "kustomize.toolkit.fluxcd.io" && r.kind == "Kustomization"
  {
    assert [id][1..] == [];
    assert Ids(c, app) != {};
  }

  // ---------- A rank exists exactly without cycles ----------

  /** Along every path of followed Kustomizations the rank falls. */
  lemma {:induction false} RankFalls(c: Cluster, rank: App -> nat, app: App, path: seq<string>, target: App)
    requires WellFounded(c, rank, app) && Reaches(c, app, path, target)
    ensures WellFounded(c, rank, target) && rank(target) + |path| <= rank(app)
    decreases path
  {
    if path == [] {
    } else {
      BelowIsWellFounded(c, rank, app, path[0]);
      RankFalls(c, rank, Next(c, app, path[0]), path[1..], target);
    }
  }

  lemma {:induction false} PathsJoin(c: Cluster, app: App, path: seq<string>, mid: App, more: seq<string>, target: App)
    requires Reaches(c, app, path, mid) && Reaches(c, mid, more, target)
    ensures Reaches(c, app, path + more, target)
    decreases path
  {
    if path == [] {
      assert path + more == more;
    } else {
      PathsJoin(c, Next(c, app, path[0]), path[1..], mid, more, target);
      assert (path + more)[1..] == path[1..] + more;
    }
  }

  /** At least one step leads from `app` to `target`. */
  ghost predicate Leads(c: Cluster, app: App, target: App) {
    exists path :: path != [] && Reaches(c, app, path, target)
  }

  /** No Kustomization that can be reached leads back to itself. */
  ghost predicate Acyclic(c: Cluster, app: App) {
    forall path, target :: Reaches(c, app, path, target) ==> !Leads(c, target, target)
  }

  ghost predicate Closed(c: Cluster, apps: set<App>) {
    forall app, id :: app in apps && Follows(c, app, id) ==> Next(c, app, id) in apps
  }

  lemma {:induction false} ReachedAreIn(c: Cluster, apps: set<App>, app: App, path: seq<string>, target: App)
    requires Closed(c, apps) && app in apps && Reaches(c, app, path, target)
    ensures target in apps
    decreases path
  {
    if path == [] {
    } else {
      ReachedAreIn(c, apps, Next(c, app, path[0]), path[1..], target);
    }
  }

  /** The Kustomizations among `apps` that this one leads to. */
  ghost function LedTo(c: Cluster, apps: set<App>, app: App): set<App> {
    set target | target in apps && Leads(c, app, target)
  }

  lemma {:induction false} StepLosesTargets(c: Cluster, apps: set<App>, app: App, id: string)
    requires Closed(c, apps) && app in apps && Follows(c, app, id)
    requires !Leads(c, Next(c, app, id), Next(c, app, id))
    ensures LedTo(c, apps, Next(c, app, id)) < LedTo(c, apps, app)
  {
    var next := Next(c, app, id);
    assert [id][1..] == [] && Reaches(c, app, [id], next);
    forall target | target in LedTo(c, apps, next) ensures target in LedTo(c, apps, app) {
      var path :| path != [] && Reaches(c, next, path, target);
      PathsJoin(c, app, [id], next, path, target);
    }
    assert next in LedTo(c, apps, app) && next !in LedTo(c, apps, next);
  }

  lemma {:induction false} ProperSubsetSmaller<T>(a: set<T>, b: set<T>)
    requires a < b
    ensures |a| < |b|
  {
    var x :| x in b && x !in a;
    SubsetNotLarger(a, b - {x});
  }

  lemma {:induction false} SubsetNotLarger<T>(a: set<T>, b: set<T>)
    requires a <= b
    ensures |a| <= |b|
  {
    if a == {} {
    } else {
      var x :| x in a;
      SubsetNotLarger(a - {x}, b - {x});
    }
  }

  /**
   In a finite cluster the recursion has a rank to go by exactly if no Kustomization that can be
   reached leads back to itself; self-loops are not followed and do not count.
   */
  lemma {:induction false} WellFoundedIffAcyclic(c: Cluster, apps: set<App>, app: App)
    requires Closed(c, apps) && app in apps
    ensures (exists rank :: WellFounded(c, rank, app)) <==> Acyclic(c, app)
  {
    if rank :| WellFounded(c, rank, app) {
      forall path, target, loop | Reaches(c, app, path, target) && loop != []
        ensures !Reaches(c, target, loop, target)
      {
        RankFalls(c, rank, app, path, target);
        if Reaches(c, target, loop, target) {
          RankFalls(c, rank, target, loop, target);
        }
      }
    }
    if Acyclic(c, app) {
      var rank := (a: App) => |LedTo(c, apps, a)|;
      forall path, target, id | Reaches(c, app, path, target) && Follows(c, target, id)
        ensures rank(Next(c, target, id)) < rank(target)
      {
        ReachedAreIn(c, apps, app, path, target);
        assert [id][1..] == [] && Reaches(c, target, [id], Next(c, target, id));
        PathsJoin(c, app, path, target, [id], Next(c, target, id));
        StepLosesTargets(c, apps, target, id);
        ProperSubsetSmaller(LedTo(c, apps, Next(c, target, id)), LedTo(c, apps, target));
      }
      assert WellFounded(c, rank, app);
    }
  }

  // ---------- Flux's own ids ----------

  function DecodeObjMetadata(id: string, version: string): Option<Resource> {
    match ParseObjMetadata(id)
    case None => None
    case Some(m) => Some(Resource(m.name, m.namespace, m.group, m.kind, version))
  }

  /** What Flux printed into an inventory that can be reached is collected. */
  lemma {:induction false} PrintedIsCollected(c: Cluster, rank: App -> nat, app: App, path: seq<string>, target: App,
                                              m: ObjMetadata)
    requires WellFounded(c, rank, app) && c.decode == DecodeObjMetadata
    requires Reaches(c, app, path, target) && Plain(m.name) && PlainAround(m)
    requires Print(m) in Ids(c, target)
    ensures Resource(m.name, m.namespace, m.group, m.kind, Items(c, target).value[Print(m)])
         in All(c, rank, app).resources
  {
    ParseOfPrint(m);
    var r := Resource(m.name, m.namespace, m.group, m.kind, Items(c, target).value[Print(m)]);
    assert ResourceAt(c, target, Print(m)) == Some(r);
    assert Holds(c, target, Print(m), AResource(r));
    CollectedIffReachable(c, rank, app, AResource(r));
  }
}
