/**
 The string keys of the helm-release cache.  The informer's handlers and the request
 path build them in two different functions; a release is found only if they agree.
 */
module ReleaseKey {
  import opened Decimal
  import opened Fields

  datatype ReleaseId = ReleaseId(namespace: string, name: string, cluster: int)

  /** Namespace and name, as a release's identifier inside one cluster. */
  function UniqueReleaseIdentifier(namespace: string, name: string): string {
    namespace + "_" + name
  }

  /** The key the informer's handlers write under. */
  function WriterKey(r: ReleaseId): string {
    UniqueReleaseIdentifier(r.namespace, r.name) + "_" + Itoa(r.cluster)
  }

  /** The key a request reads with; its cluster id has passed through an `int32`. */
  function ReaderKey(namespace: string, name: string, cluster32: int): string {
    namespace + "_" + name + "_" + Itoa(cluster32)
  }

  /** When two keys collide, for all inputs: same cluster and same joined identifier. */
  lemma {:induction false} KeysCollide(a: ReleaseId, b: ReleaseId)
    ensures WriterKey(a) == WriterKey(b) <==>
            && a.cluster == b.cluster
            && UniqueReleaseIdentifier(a.namespace, a.name) == UniqueReleaseIdentifier(b.namespace, b.name)
  {
    LastFieldUnique(UniqueReleaseIdentifier(a.namespace, a.name), Itoa(a.cluster),
                    UniqueReleaseIdentifier(b.namespace, b.name), Itoa(b.cluster));
    ItoaInjective(a.cluster, b.cluster);
  }

  /** Keys identify releases as soon as the namespaces hold no underscore. */
  lemma {:induction false} KeysInjective(a: ReleaseId, b: ReleaseId)
    requires '_' !in a.namespace && '_' !in b.namespace
    ensures WriterKey(a) == WriterKey(b) <==> a == b
  {
    KeysCollide(a, b);
    FirstFieldUnique(a.namespace, a.name, b.namespace, b.name);
  }

  /** With underscores in a namespace two releases can share a key. */
  lemma {:induction false} UnderscoresCollide()
    ensures exists a: ReleaseId, b: ReleaseId :: a != b && WriterKey(a) == WriterKey(b)
  {
    var a, b := ReleaseId("a_b", "c", 1), ReleaseId("a", "b_c", 1);
    assert UniqueReleaseIdentifier("a_b", "c") == "a_b_c" == UniqueReleaseIdentifier("a", "b_c");
    assert WriterKey(a) == WriterKey(b);
  }

  /** A request finds what the informer wrote exactly when the cluster id survives `int32`. */
  lemma {:induction false} ReaderMatchesWriter(r: ReleaseId)
    ensures ReaderKey(r.namespace, r.name, ToInt32(r.cluster)) == WriterKey(r) <==>
            -0x8000_0000 <= r.cluster < 0x8000_0000
  {
    var id := UniqueReleaseIdentifier(r.namespace, r.name);
    LastFieldUnique(id, Itoa(ToInt32(r.cluster)), id, Itoa(r.cluster));
    ItoaInjective(ToInt32(r.cluster), r.cluster);
  }
}
