/**
 Selecting the children of an object among everything listed for the resource kinds its own
 kind may own, with the special case of volume claims made from a StatefulSet's templates.
 */
module ChildObjects {
  import opened Wrappers
  import opened Manifests
  import opened Gathering

  const STATEFUL_SET_KIND := "StatefulSet"
  const PERSISTENT_VOLUME_CLAIM_KIND := "PersistentVolumeClaim"
  const STATEFUL_SETS := "statefulsets"
  const PERSISTENT_VOLUME_CLAIMS := "persistentvolumeclaims"

  datatype Gvk = Gvk(group: string, version: string, kind: string)
  datatype Gvr = Gvr(group: string, version: string, resource: string)

  /** What listing a resource kind returns; an absent kind is not an error. */
  datatype Listing = Items(items: seq<Manifest>) | NotFound | ListError(message: string)

  datatype Parent = Parent(name: string, kind: string, apiVersion: string)

  /**
   The cluster: listings by resource kind, the owners of an object with inferred ones added,
   the volume-claim templates of a StatefulSet, and whether an object converts to a claim.
   */
  datatype Cluster = Cluster(
    list: Gvr -> Listing,
    owners: Manifest -> seq<OwnerReference>,
    claimTemplates: Manifest -> Option<seq<string>>,
    convertible: Manifest -> bool)

  datatype ChildError = KindUnknown | ListingFailed(message: string) | ConversionFailed

  /**
   The configured table of child kinds replaces the built-in one as a whole, provided that it
   is configured and not empty.
   */
  function ChildKinds(configText: string, configured: map<Gvk, seq<Gvr>>, builtIn: map<Gvk, seq<Gvr>>, parent: Gvk):
    Option<seq<Gvr>>
  {
    var table := if |configText| > 0 && |configured| > 0 then configured else builtIn;
    if parent in table then Some(table[parent]) else None
  }

  /** A configured table that is not empty counts alone, also for kinds it leaves out. */
  lemma {:induction false} OneTableDecides(configText: string, configured: map<Gvk, seq<Gvr>>,
                                           builtIn: map<Gvk, seq<Gvr>>, parent: Gvk, kinds: seq<Gvr>)
    ensures ChildKinds(configText, configured, builtIn, parent) == Some(kinds) <==>
            if configText != "" && configured != map[] then parent in configured && configured[parent] == kinds
            else parent in builtIn && builtIn[parent] == kinds
  {
    assert configured != map[] ==> |configured| > 0;
  }

  // ---------- What each listed item contributes ----------

  predicate IsDeferred(parent: Parent, kind: Gvr) {
    parent.kind == STATEFUL_SET_KIND && kind.resource == PERSISTENT_VOLUME_CLAIMS
  }

  predicate IsOwner(parent: Parent, ref: OwnerReference) {
    ref.name == parent.name && ref.kind == parent.kind && ref.apiVersion == parent.apiVersion
  }

  function OwnerCount(parent: Parent, refs: seq<OwnerReference>): nat {
    if refs == [] then 0
    else OwnerCount(parent, refs[..|refs| - 1]) + if IsOwner(parent, refs[|refs| - 1]) then 1 else 0
  }

  /** The one reference that makes an item a child of the parent: name, kind and version together. */
  function ParentRef(parent: Parent): OwnerReference {
    OwnerReference(parent.name, parent.kind, parent.apiVersion)
  }

  /** What is counted are the occurrences of exactly that reference. */
  lemma {:induction false} OwnerCountIs(parent: Parent, refs: seq<OwnerReference>)
    ensures OwnerCount(parent, refs) == multiset(refs)[OwnerReference(parent.name, parent.kind, parent.apiVersion)]
  {
    if refs == [] {
    } else {
      var n := |refs| - 1;
      OwnerCountIs(parent, refs[..n]);
      assert refs == refs[..n] + [refs[n]];
    }
  }

  function Repeat(m: Manifest, n: nat): seq<Manifest> {
    seq(n, i => m)
  }

  /** The item as it is returned: its owner references replaced by the resolved ones. */
  function Adopted(c: Cluster, item: Manifest): Manifest {
    item.(ownerReferences := Some(c.owners(item)))
  }

  /** The claim's name starts with a template's name and the StatefulSet's. */
  predicate Infers(templates: seq<string>, setName: string, claim: Manifest) {
    && claim.kind == PERSISTENT_VOLUME_CLAIM_KIND
    && exists i :: 0 <= i < |templates| && (templates[i] + "-" + setName + "-") <= claim.name
  }

  function InferredClaims(parent: Parent, templates: seq<string>, owner: Manifest, claims: seq<Manifest>):
    seq<Manifest>
  {
    if claims == [] then []
    else
      var last := claims[|claims| - 1];
      InferredClaims(parent, templates, owner, claims[..|claims| - 1]) +
      if Infers(templates, owner.name, last) && owner.name == parent.name then [last] else []
  }

  predicate LooksAtClaims(c: Cluster, kind: Gvr, item: Manifest) {
    kind.resource == STATEFUL_SETS && c.claimTemplates(item).Some?
  }

  function ItemChildren(c: Cluster, parent: Parent, kind: Gvr, claims: seq<Manifest>, item: Manifest): seq<Manifest> {
    if IsDeferred(parent, kind) then []
    else
      (if LooksAtClaims(c, kind, item) then InferredClaims(parent, c.claimTemplates(item).value, item, claims)
       else []) +
      Repeat(Adopted(c, item), OwnerCount(parent, c.owners(item)))
  }

  function ItemRule(c: Cluster, parent: Parent, kind: Gvr, claims: seq<Manifest>): Manifest -> seq<Manifest> {
    item => ItemChildren(c, parent, kind, claims, item)
  }

  function Listed(c: Cluster, kind: Gvr): seq<Manifest> {
    var listing := c.list(kind);
    if listing.Items? then listing.items else []
  }

  /** The volume claims put aside under the first `g` kinds. */
  function Claims(c: Cluster, parent: Parent, kinds: seq<Gvr>, g: nat): seq<Manifest>
    requires g <= |kinds|
  {
    if g == 0 then []
    else
      Claims(c, parent, kinds, g - 1) +
      if IsDeferred(parent, kinds[g - 1]) then Listed(c, kinds[g - 1]) else []
  }

  /** The children listed under kind `g`. */
  function KindChildren(c: Cluster, parent: Parent, kinds: seq<Gvr>, g: nat): seq<Manifest>
    requires g < |kinds|
  {
    FlatMap(ItemRule(c, parent, kinds[g], Claims(c, parent, kinds, g)), Listed(c, kinds[g]))
  }

  /** The children by kind, in the order of the table. */
  function ByKind(c: Cluster, parent: Parent, kinds: seq<Gvr>): (segments: seq<seq<Manifest>>)
    ensures |segments| == |kinds|
  {
    seq(|kinds|, g requires 0 <= g < |kinds| => KindChildren(c, parent, kinds, g))
  }

  function Children(c: Cluster, parent: Parent, kinds: seq<Gvr>): seq<Manifest> {
    Joined(ByKind(c, parent, kinds), |kinds|)
  }

  /** What visiting kind `g` adds: nothing for a deferred one. */
  lemma {:induction false} KindAdds(c: Cluster, parent: Parent, kinds: seq<Gvr>, g: nat)
    requires g < |kinds|
    ensures var added := ByKind(c, parent, kinds)[g];
            if IsDeferred(parent, kinds[g]) then added == []
            else added == FlatMap(ItemRule(c, parent, kinds[g], Claims(c, parent, kinds, g)), Listed(c, kinds[g]))
  {
    if IsDeferred(parent, kinds[g]) {
      DeferredAddNothing(c, parent, kinds[g], Claims(c, parent, kinds, g), Listed(c, kinds[g]));
    }
  }

  predicate AnyLooksAtClaims(c: Cluster, kind: Gvr, items: seq<Manifest>) {
    exists i :: 0 <= i < |items| && LooksAtClaims(c, kind, items[i])
  }

  predicate AllConvertible(c: Cluster, claims: seq<Manifest>) {
    forall j :: 0 <= j < |claims| ==> c.convertible(claims[j])
  }

  /** Going through kind `g` fails: it cannot be listed, or a claim put aside cannot be read. */
  predicate KindFails(c: Cluster, parent: Parent, kinds: seq<Gvr>, g: nat)
    requires g < |kinds|
  {
    || c.list(kinds[g]).ListError?
    || (&& !IsDeferred(parent, kinds[g])
        && AnyLooksAtClaims(c, kinds[g], Listed(c, kinds[g]))
        && !AllConvertible(c, Claims(c, parent, kinds, g)))
  }

  // ---------- The nested loops ----------

  method GetChildObjects(c: Cluster, parent: Parent, childKinds: Option<seq<Gvr>>)
    returns (r: Result<seq<Manifest>, ChildError>)
    ensures r == Err(KindUnknown) <==> childKinds.None?
    ensures childKinds.Some? ==>
              && (r.Ok? <==> forall g :: 0 <= g < |childKinds.value| ==> !KindFails(c, parent, childKinds.value, g))
              && (r.Ok? ==> r.value == Children(c, parent, childKinds.value))
  {
    if childKinds.None? {
      return Err(KindUnknown);
    }
    var kinds := childKinds.value;
    var claims: seq<Manifest> := [];
    var manifests: seq<Manifest> := [];
    ghost var segments := ByKind(c, parent, kinds);
    for g := 0 to |kinds|
      invariant claims == Claims(c, parent, kinds, g)
      invariant manifests == Joined(segments, g)
      invariant forall k :: 0 <= k < g ==> !KindFails(c, parent, kinds, k)
    {
      KindAdds(c, parent, kinds, g);
      var kind := kinds[g];
      var listing := c.list(kind);
      if listing.ListError? {
        assert KindFails(c, parent, kinds, g);
        return Err(ListingFailed(listing.message));
      }
      var items := if listing.Items? then listing.items else [];
      if parent.kind == STATEFUL_SET_KIND && kind.resource == PERSISTENT_VOLUME_CLAIMS {
        claims := claims + items;
      } else {
        var chosen := GetKindChildren(c, parent, kind, claims, items);
        if chosen.Err? {
          assert KindFails(c, parent, kinds, g);
          return Err(chosen.error);
        }
        manifests := manifests + chosen.value;
      }
    }
    return Ok(manifests);
  }

  /**
   The children of an object while a tree is built: none for a kind outside the table, so an
   unknown kind is never an error here.
   */
  method ListChildren(c: Cluster, parent: Parent, gvk: Gvk, configText: string, configured: map<Gvk, seq<Gvr>>,
                      builtIn: map<Gvk, seq<Gvr>>)
    returns (r: Result<seq<Manifest>, ChildError>)
    ensures r != Err(KindUnknown)
    ensures var kinds := ChildKinds(configText, configured, builtIn, gvk);
            if kinds.None? then r == Ok([])
            else && (r.Ok? <==> forall g :: 0 <= g < |kinds.value| ==> !KindFails(c, parent, kinds.value, g))
                 && (r.Ok? ==> r.value == Children(c, parent, kinds.value))
  {
    var kinds := ChildKinds(configText, configured, builtIn, gvk);
    if kinds.None? {
      return Ok([]);
    }
    r := GetChildObjects(c, parent, kinds);
  }

  lemma {:induction false} DeferredAddNothing(c: Cluster, parent: Parent, kind: Gvr, claims: seq<Manifest>,
                                              items: seq<Manifest>)
    requires IsDeferred(parent, kind)
    ensures FlatMap(ItemRule(c, parent, kind, claims), items) == []
  {
    if items == [] {
    } else {
      DeferredAddNothing(c, parent, kind, claims, items[..|items| - 1]);
    }
  }

  /** The loop over one kind's items. */
  method GetKindChildren(c: Cluster, parent: Parent, kind: Gvr, claims: seq<Manifest>, items: seq<Manifest>)
    returns (r: Result<seq<Manifest>, ChildError>)
    requires !IsDeferred(parent, kind)
    ensures r.Err? <==> AnyLooksAtClaims(c, kind, items) && !AllConvertible(c, claims)
    ensures r.Err? ==> r.error == ConversionFailed
    ensures r.Ok? ==> r.value == FlatMap(ItemRule(c, parent, kind, claims), items)
  {
    var manifests: seq<Manifest> := [];
    for i := 0 to |items|
      invariant manifests == FlatMap(ItemRule(c, parent, kind, claims), items[..i])
      invariant AnyLooksAtClaims(c, kind, items[..i]) ==> AllConvertible(c, claims)
    {
      var item := items[i];
      FlatMapStep(ItemRule(c, parent, kind, claims), items, i);
      assert items[..i + 1] == items[..i] + [item];
      var inferred: seq<Manifest> := [];
      if kind.resource == STATEFUL_SETS && c.claimTemplates(item).Some? {
        assert LooksAtClaims(c, kind, items[i]);
        var ok;
        ok, inferred := GetInferredClaims(c, parent, c.claimTemplates(item).value, item, claims);
        if !ok {
          return Err(ConversionFailed);
        }
      }
      var owned := GetOwnedCopies(c, parent, item);
      manifests := manifests + (inferred + owned);
    }
    assert items[..|items|] == items;
    return Ok(manifests);
  }

  /** The loop over the claims put aside. */
  method GetInferredClaims(c: Cluster, parent: Parent, templates: seq<string>, owner: Manifest, claims: seq<Manifest>)
    returns (ok: bool, inferred: seq<Manifest>)
    ensures ok <==> AllConvertible(c, claims)
    ensures ok ==> inferred == InferredClaims(parent, templates, owner, claims)
  {
    inferred := [];
    for j := 0 to |claims|
      invariant inferred == InferredClaims(parent, templates, owner, claims[..j])
      invariant AllConvertible(c, claims[..j])
    {
      assert claims[..j + 1][..j] == claims[..j];
      if !c.convertible(claims[j]) {
        return false, [];
      }
      if Infers(templates, owner.name, claims[j]) && owner.name == parent.name {
        inferred := inferred + [claims[j]];
      }
    }
    assert claims[..|claims|] == claims;
    ok := true;
  }

  /** The loop over an item's resolved owner references. */
  method GetOwnedCopies(c: Cluster, parent: Parent, item: Manifest) returns (owned: seq<Manifest>)
    ensures owned == Repeat(Adopted(c, item), OwnerCount(parent, c.owners(item)))
  {
    owned := [];
    var owners := c.owners(item);
    for k := 0 to |owners|
      invariant owned == Repeat(Adopted(c, item), OwnerCount(parent, owners[..k]))
    {
      assert owners[..k + 1][..k] == owners[..k];
      if owners[k].name == parent.name && owners[k].kind == parent.kind && owners[k].apiVersion == parent.apiVersion {
        owned := owned + [Adopted(c, item)];
      }
    }
    assert owners[..|owners|] == owners;
  }

  // ---------- Exactly which objects are selected ----------

  /** Item `i` of kind `g` names the parent among its owners. */
  predicate OwnedAt(c: Cluster, parent: Parent, kinds: seq<Gvr>, g: nat, i: nat)
    requires g < |kinds| && i < |Listed(c, kinds[g])|
  {
    && !(parent.kind == "StatefulSet" && kinds[g].resource == "persistentvolumeclaims")
    && ParentRef(parent) in c.owners(Listed(c, kinds[g])[i])
  }

  predicate IsOwned(c: Cluster, parent: Parent, kinds: seq<Gvr>, m: Manifest) {
    exists g: nat, i: nat ::
      && g < |kinds| && i < |Listed(c, kinds[g])|
      && OwnedAt(c, parent, kinds, g, i)
      && m == Adopted(c, Listed(c, kinds[g])[i])
  }

  /** Item `i` of kind `g` is the StatefulSet of the parent's name and infers this claim. */
  predicate InfersAt(c: Cluster, parent: Parent, kinds: seq<Gvr>, g: nat, i: nat, m: Manifest)
    requires g < |kinds| && i < |Listed(c, kinds[g])|
  {
    var owner := Listed(c, kinds[g])[i];
    && kinds[g].resource == "statefulsets" && owner.name == parent.name
    && m.kind == "PersistentVolumeClaim"
    && c.claimTemplates(owner).Some?
    && var templates := c.claimTemplates(owner).value;
       exists t :: 0 <= t < |templates| && (templates[t] + "-" + parent.name + "-") <= m.name
  }

  /** A claim of a StatefulSet parent, listed under a kind before the StatefulSets. */
  predicate IsInferred(c: Cluster, parent: Parent, kinds: seq<Gvr>, m: Manifest) {
    exists g: nat, i: nat ::
      && g < |kinds| && i < |Listed(c, kinds[g])|
      && InfersAt(c, parent, kinds, g, i, m)
      && ListedEarlier(c, parent, kinds, g, m)
  }

  predicate ListedEarlier(c: Cluster, parent: Parent, kinds: seq<Gvr>, g: nat, m: Manifest)
    requires g <= |kinds|
  {
    && parent.kind == "StatefulSet"
    && exists h: nat :: h < g && kinds[h].resource == "persistentvolumeclaims" && m in Listed(c, kinds[h])
  }

  lemma {:induction false} ClaimsAre(c: Cluster, parent: Parent, kinds: seq<Gvr>, g: nat, m: Manifest)
    requires g <= |kinds|
    ensures m in Claims(c, parent, kinds, g) <==> ListedEarlier(c, parent, kinds, g, m)
  {
    if g == 0 {
    } else {
      ClaimsAre(c, parent, kinds, g - 1, m);
    }
  }

  lemma {:induction false} InferredClaimsAre(parent: Parent, templates: seq<string>, owner: Manifest,
                                             claims: seq<Manifest>, m: Manifest)
    ensures m in InferredClaims(parent, templates, owner, claims) <==>
            m in claims && Infers(templates, owner.name, m) && owner.name == parent.name
  {
    if claims == [] {
    } else {
      var n := |claims| - 1;
      InferredClaimsAre(parent, templates, owner, claims[..n], m);
      assert claims == claims[..n] + [claims[n]];
    }
  }

  predicate ItemGives(c: Cluster, parent: Parent, kind: Gvr, claims: seq<Manifest>, item: Manifest, m: Manifest) {
    && !IsDeferred(parent, kind)
    && (|| (m == Adopted(c, item) && OwnerCount(parent, c.owners(item)) > 0)
        || (&& LooksAtClaims(c, kind, item) && item.name == parent.name
            && m in claims && Infers(c.claimTemplates(item).value, item.name, m)))
  }

  lemma {:induction false} ItemChildrenAre(c: Cluster, parent: Parent, kind: Gvr, claims: seq<Manifest>,
                                           item: Manifest, m: Manifest)
    ensures m in ItemChildren(c, parent, kind, claims, item) <==> ItemGives(c, parent, kind, claims, item, m)
  {
    if LooksAtClaims(c, kind, item) {
      InferredClaimsAre(parent, c.claimTemplates(item).value, item, claims, m);
    }
    var owned := Repeat(Adopted(c, item), OwnerCount(parent, c.owners(item)));
    assert m in owned <==> m == Adopted(c, item) && |owned| > 0 by {
      if |owned| > 0 {
        assert owned[0] == Adopted(c, item);
      }
    }
  }

  /** What an item gives, by the kinds, names and references it is given for. */
  lemma {:induction false} GivenIsSelected(c: Cluster, parent: Parent, kinds: seq<Gvr>, g: nat, i: nat, m: Manifest)
    requires g < |kinds| && i < |Listed(c, kinds[g])|
    ensures ItemGives(c, parent, kinds[g], Claims(c, parent, kinds, g), Listed(c, kinds[g])[i], m) <==>
            Selects(c, parent, kinds, g, i, m)
  {
    ClaimsAre(c, parent, kinds, g, m);
    OwnerCountIs(parent, c.owners(Listed(c, kinds[g])[i]));
  }

  lemma {:induction false} KindGives(c: Cluster, parent: Parent, kinds: seq<Gvr>, g: nat, m: Manifest)
    requires g < |kinds|
    ensures m in KindChildren(c, parent, kinds, g) <==>
            exists i: nat :: i < |Listed(c, kinds[g])| && Selects(c, parent, kinds, g, i, m)
  {
    var items, claims := Listed(c, kinds[g]), Claims(c, parent, kinds, g);
    var rule := ItemRule(c, parent, kinds[g], claims);
    InFlatMap(rule, items, m);
    ClaimsAre(c, parent, kinds, g, m);
    forall i: nat | i < |items| ensures m in rule(items[i]) <==> Selects(c, parent, kinds, g, i, m) {
      ItemChildrenAre(c, parent, kinds[g], claims, items[i], m);
      OwnerCountIs(parent, c.owners(items[i]));
      GivenIsSelected(c, parent, kinds, g, i, m);
    }
  }

  lemma {:induction false} ChildIsSelected(c: Cluster, parent: Parent, kinds: seq<Gvr>, m: Manifest)
    ensures m in Children(c, parent, kinds) <==>
            exists g: nat, i: nat :: g < |kinds| && i < |Listed(c, kinds[g])| && Selects(c, parent, kinds, g, i, m)
  {
    var segments := ByKind(c, parent, kinds);
    InJoined(segments, |kinds|, m);
    forall g: nat | g < |kinds|
      ensures m in segments[g] <==> exists i: nat :: i < |Listed(c, kinds[g])| && Selects(c, parent, kinds, g, i, m)
    {
      KindGives(c, parent, kinds, g, m);
    }
  }

  /**
   An object is selected exactly if it names the parent among its owners, or is a claim the
   StatefulSet of the parent's name infers and that was listed before the StatefulSets.
   */
  lemma {:induction false} SelectedIff(c: Cluster, parent: Parent, kinds: seq<Gvr>, m: Manifest)
    ensures m in Children(c, parent, kinds) <==>
            IsOwned(c, parent, kinds, m) || IsInferred(c, parent, kinds, m)
  {
    ChildIsSelected(c, parent, kinds, m);
    if IsOwned(c, parent, kinds, m) {
      var g: nat, i: nat :| g < |kinds| && i < |Listed(c, kinds[g])|
        && OwnedAt(c, parent, kinds, g, i) && m == Adopted(c, Listed(c, kinds[g])[i]);
      assert Selects(c, parent, kinds, g, i, m);
    }
    if IsInferred(c, parent, kinds, m) {
      var g: nat, i: nat :| g < |kinds| && i < |Listed(c, kinds[g])|
        && InfersAt(c, parent, kinds, g, i, m) && ListedEarlier(c, parent, kinds, g, m);
      assert Selects(c, parent, kinds, g, i, m);
    }
  }

  predicate Selects(c: Cluster, parent: Parent, kinds: seq<Gvr>, g: nat, i: nat, m: Manifest)
    requires g < |kinds| && i < |Listed(c, kinds[g])|
  {
    || (OwnedAt(c, parent, kinds, g, i) && m == Adopted(c, Listed(c, kinds[g])[i]))
    || (InfersAt(c, parent, kinds, g, i, m) && ListedEarlier(c, parent, kinds, g, m))
  }

  /** A kind that is absent from the cluster contributes nothing. */
  lemma {:induction false} AbsentKindGivesNone(c: Cluster, parent: Parent, kinds: seq<Gvr>, g: nat)
    requires g < |kinds| && c.list(kinds[g]).NotFound?
    ensures KindChildren(c, parent, kinds, g) == []
  {
  }

  /** Children come in the order of the kinds. */
  lemma {:induction false} ChildrenInKindOrder(c: Cluster, parent: Parent, kinds: seq<Gvr>, g: nat)
    requires g < |kinds|
    ensures Joined(ByKind(c, parent, kinds), g) + KindChildren(c, parent, kinds, g) <= Children(c, parent, kinds)
  {
    JoinedInOrder(ByKind(c, parent, kinds), g, |kinds|);
  }

  /** Each matching owner reference yields one occurrence: how often an owned item is returned. */
  lemma {:induction false} OncePerOwner(c: Cluster, parent: Parent, kind: Gvr, claims: seq<Manifest>, item: Manifest)
    requires !IsDeferred(parent, kind) && kind.resource != STATEFUL_SETS
    ensures multiset(ItemChildren(c, parent, kind, claims, item))
         == multiset{}[Adopted(c, item) := multiset(c.owners(item))[ParentRef(parent)]]
  {
    OwnerCountIs(parent, c.owners(item));
    RepeatCount(Adopted(c, item), OwnerCount(parent, c.owners(item)));
  }

  lemma {:induction false} RepeatCount(m: Manifest, n: nat)
    ensures multiset(Repeat(m, n)) == multiset{}[m := n]
  {
    if n == 0 {
    } else {
      RepeatCount(m, n - 1);
      assert Repeat(m, n) == Repeat(m, n - 1) + [m];
    }
  }

  // ---------- How often each object is returned ----------

  lemma {:induction false} InferredCount(parent: Parent, templates: seq<string>, owner: Manifest,
                                         claims: seq<Manifest>, m: Manifest)
    ensures multiset(InferredClaims(parent, templates, owner, claims))[m] ==
              if Infers(templates, owner.name, m) && owner.name == parent.name then multiset(claims)[m] else 0
  {
    if claims == [] {
    } else {
      var n := |claims| - 1;
      InferredCount(parent, templates, owner, claims[..n], m);
      assert claims == claims[..n] + [claims[n]];
    }
  }

  /** How often a claim was listed before kind `g`, under kinds whose items are put aside. */
  function ClaimCount(c: Cluster, parent: Parent, kinds: seq<Gvr>, g: nat, m: Manifest): nat
    requires g <= |kinds|
  {
    if g == 0 then 0
    else
      ClaimCount(c, parent, kinds, g - 1, m) +
      if IsDeferred(parent, kinds[g - 1]) then multiset(Listed(c, kinds[g - 1]))[m] else 0
  }

  lemma {:induction false} ClaimsCounted(c: Cluster, parent: Parent, kinds: seq<Gvr>, g: nat, m: Manifest)
    requires g <= |kinds|
    ensures multiset(Claims(c, parent, kinds, g))[m] == ClaimCount(c, parent, kinds, g, m)
  {
    if g == 0 {
    } else {
      ClaimsCounted(c, parent, kinds, g - 1, m);
    }
  }

  /** How often one listed item of kind `g` gives an object: as itself, and as a claim it infers. */
  function ItemGivesTimes(c: Cluster, parent: Parent, kinds: seq<Gvr>, g: nat, item: Manifest, m: Manifest): nat
    requires g < |kinds|
  {
    if parent.kind == STATEFUL_SET_KIND && kinds[g].resource == PERSISTENT_VOLUME_CLAIMS then 0
    else
      (if m == item.(ownerReferences := Some(c.owners(item))) then multiset(c.owners(item))[ParentRef(parent)] else 0) +
      if kinds[g].resource == STATEFUL_SETS && item.name == parent.name
         && c.claimTemplates(item).Some? && Infers(c.claimTemplates(item).value, item.name, m)
      then ClaimCount(c, parent, kinds, g, m) else 0
  }

  lemma {:induction false} ItemCounted(c: Cluster, parent: Parent, kinds: seq<Gvr>, g: nat, item: Manifest, m: Manifest)
    requires g < |kinds|
    ensures multiset(ItemChildren(c, parent, kinds[g], Claims(c, parent, kinds, g), item))[m]
         == ItemGivesTimes(c, parent, kinds, g, item, m)
  {
    var claims := Claims(c, parent, kinds, g);
    OwnerCountIs(parent, c.owners(item));
    ClaimsCounted(c, parent, kinds, g, m);
    RepeatCount(Adopted(c, item), OwnerCount(parent, c.owners(item)));
    if LooksAtClaims(c, kinds[g], item) {
      InferredCount(parent, c.claimTemplates(item).value, item, claims, m);
    }
  }

  function TimesOf(c: Cluster, parent: Parent, kinds: seq<Gvr>, g: nat, m: Manifest): nat
    requires g < |kinds|
  {
    SumOver(item => ItemGivesTimes(c, parent, kinds, g, item, m), Listed(c, kinds[g]))
  }

  lemma {:induction false} KindCounted(c: Cluster, parent: Parent, kinds: seq<Gvr>, g: nat, m: Manifest)
    requires g < |kinds|
    ensures multiset(KindChildren(c, parent, kinds, g))[m] == TimesOf(c, parent, kinds, g, m)
  {
    var rule := ItemRule(c, parent, kinds[g], Claims(c, parent, kinds, g));
    forall item ensures multiset(rule(item))[m] == ItemGivesTimes(c, parent, kinds, g, item, m) {
      ItemCounted(c, parent, kinds, g, item, m);
    }
    CountInFlatMap(rule, item => ItemGivesTimes(c, parent, kinds, g, item, m), Listed(c, kinds[g]), m);
  }

  /** Over the first `n` kinds together. */
  function TimesUpTo(c: Cluster, parent: Parent, kinds: seq<Gvr>, n: nat, m: Manifest): nat
    requires n <= |kinds|
  {
    if n == 0 then 0 else TimesUpTo(c, parent, kinds, n - 1, m) + TimesOf(c, parent, kinds, n - 1, m)
  }

  lemma {:induction false} CountedUpTo(c: Cluster, parent: Parent, kinds: seq<Gvr>, segments: seq<seq<Manifest>>,
                                       n: nat, m: Manifest)
    requires n <= |kinds| == |segments|
    requires forall g: nat :: g < |kinds| ==> multiset(segments[g])[m] == TimesOf(c, parent, kinds, g, m)
    ensures multiset(Joined(segments, n))[m] == TimesUpTo(c, parent, kinds, n, m)
  {
    if n == 0 {
    } else {
      CountedUpTo(c, parent, kinds, segments, n - 1, m);
    }
  }

  /**
   How often each object is among the children: over all kinds and listed items, once for every
   owner reference of the item that matches, and, under a StatefulSet of the parent's name that
   infers it, as often as it was listed as a claim before.
   */
  lemma {:induction false} ChildMultiplicity(c: Cluster, parent: Parent, kinds: seq<Gvr>, m: Manifest)
    ensures multiset(Children(c, parent, kinds))[m] == TimesUpTo(c, parent, kinds, |kinds|, m)
  {
    var segments := ByKind(c, parent, kinds);
    forall g: nat | g < |kinds| ensures multiset(segments[g])[m] == TimesOf(c, parent, kinds, g, m) {
      KindCounted(c, parent, kinds, g, m);
    }
    CountedUpTo(c, parent, kinds, segments, |kinds|, m);
  }
}
