/** Kubernetes manifests as far as the program looks into them. */
module Manifests {
  import opened Wrappers

  const HIBERNATE_REPLICA_ANNOTATION := "hibernator.devtron.ai/replicas"
  const HOOK_ANNOTATION := "helm.sh/hook"

  datatype OwnerReference = OwnerReference(name: string, kind: string, apiVersion: string)

  /** The field `spec.replicas`, which may be absent or hold something else than an integer. */
  datatype Replicas = NoReplicas | NotAnInteger | Count(n: int)

  /** `None` stands for Go's nil where the program tells nil from empty. */
  datatype Manifest = Manifest(
    group: string, version: string, kind: string, namespace: string, name: string, uid: string,
    labels: map<string, string>,
    annotations: Option<map<string, string>>,
    ownerReferences: Option<seq<OwnerReference>>,
    replicas: Replicas)

  datatype HealthStatus = HealthStatus(status: string, message: string)

  /** An annotation's value, or "" when it is missing. */
  function Annotation(m: Manifest, key: string): string {
    if m.annotations.Some? && key in m.annotations.value then m.annotations.value[key] else ""
  }

  function CanBeHibernated(m: Manifest): bool {
    m.ownerReferences.None? && m.replicas.Count?
  }

  /** Absent or unreadable replicas count as zero here. */
  function IsHibernated(m: Manifest): bool {
    && m.ownerReferences.None?
    && m.annotations.Some? && HIBERNATE_REPLICA_ANNOTATION in m.annotations.value
    && m.annotations.value[HIBERNATE_REPLICA_ANNOTATION] != "0"
    && (m.replicas.Count? ==> m.replicas.n == 0)
  }
}
