# Kubelink in Dafny

A Dafny model of the parts of kubelink that hold its own logic, between the Helm and
Kubernetes clients it is plumbed together from. Clusters, the database and Helm are maps and
functions that may fail; everything the program does with their answers is modelled branch
by branch, and proved against specifications that do not mention the loops.

- **Release cache** (`ReleaseKey`, `ReleaseCache`, `InformerLifecycle`, `K8sInformer`). One
  informer per cluster watches Helm's release secrets and keeps a map of release details.
  Several secrets (revisions) share one cache key, and the update handler stores the object
  as it was before the update. `ReleaseCache` says what one generation of an informer does to
  the cache; `InformerLifecycle` is the state machine of starts, syncs, stops and deliveries
  over all clusters; `K8sInformer` is the object itself, method by method.
- **Chart repository lock** (`ChartRepositoryLock`). A lock per repository name in a growing
  map that is guarded by another lock, as a protocol of any number of interleaved requests.
- **Resource tree** (`Manifests`, `ChildObjects`, `ResourceTree`, `WorkerPool`,
  `WorkerPoolProgress`, `Gathering`, `PodAge`). Child selection, the recursive tree, the same
  tree built with a worker pool, and the unchecked lookups that later rely on every owner
  being in the tree.
- **Manifest fetch** (`ManifestFetch`, `ReleaseHealth`). The batched loop that fills an array
  by index, and what a failed fetch makes of the release's health.
- **Hibernation and health** (`Decimal`, `Hibernation`, `AppHealth`). Scaling to zero and
  back, where the only memory is an annotation written by a JSON patch (sections 4.1 and 4.3
  of RFC 6902), and the application status derived from it.
- **Flux** (`Fields`, `InventoryId`, `Kustomization`). Inventory ids, whose printer is fixed
  by Flux, and the recursive collection over Kustomizations.
- **Pod summary** (`PodInfo`). Reason, restarts and readiness of a pod.

`dafny verify dfyconfig.toml` checks everything. All lemmas carry `{:induction false}`: each
proof is exactly the one written down.

## Where the code departs from the obvious claim

Each of these is proved, with the exact condition under which the obvious claim does hold.

- Deleting one revision uncaches the release also where another revision is live
  (`DeletionCompleteness`); replacing a revision by a newer one therefore uncaches a live
  release until its next update (`SupersedingUncaches`), and a resync repairs it
  (`ResyncRestoresAgreement`).
- A deletion that arrives as a tombstone leaves a dead entry behind (`SoundStep`).
- The cached content lags one version behind (`CacheLagsByOneVersion`).
- A sync whose restart fails leaves the old details being served (`FailedSyncKeepsServing`).
- Namespaces with underscores make release keys collide (`UnderscoresCollide`); a cluster id
  beyond 32 bits is never found (`ReaderMatchesWriter`).
- Asking the worker pool for its error takes the error away. A tree built with the pool can
  be reported complete with nodes missing (`BatchedReportsErrorsIff`, `FaithfulIff`), and two
  failing tasks can leave it hanging (`CanStickIff`); both depend on the number of workers.
- `isPodNew` crashes for a pod whose ReplicaSet is a root (`CrashesIff`), and on filtered
  lists where what it looks up is gone (`CrashesOnAnyListIff`).
- The manifest loop does not end for a batch size of zero or less (`LoopEndsIff`).
- Scaling down an object that still has an annotated count loses that count
  (`ConservedIff`), and every patch drops all other annotations (`HibernatePatchApplied`).
- A Flux id whose name part has a literal colon does not survive (`PrintOfParse`).
- A child Kustomization without a response, or a Helm release without a name, makes the call
  at hand succeed with nothing, so that resources are missing without a word; a success is
  complete exactly if all below is clean (`GetKsAppResourceAndFluxHrList`).

## Model

| member | source | states |
|---|---|---|
| `ReleaseKey.KeysCollide` | pkg/k8sInformer/K8sInformer.go:501-503 | for all namespaces, names and cluster ids: two releases share a cache key iff they are in the same cluster and their `namespace_name` strings agree |
| `ReleaseKey.KeysInjective` | pkg/k8sInformer/constants.go:28-30 | namespaces without underscores make the key injective, whatever the release names hold |
| `ReleaseKey.UnderscoresCollide` | pkg/k8sInformer/constants.go:28-30 | without that condition two different releases do share a key |
| `ReleaseKey.ReaderMatchesWriter` | pkg/service/helmApplicationService/utils.go:25-27 | the key a request reads with is the key the informer wrote iff the cluster id survives the conversion to `int32` |
| `Decimal.AtoiOfItoa` | pkg/service/helmApplicationService/helmAppService.go:406-408 | what the program prints it reads back: parsing a printed 64-bit integer succeeds with that integer |
| `Decimal.ItoaInjective` | pkg/k8sInformer/K8sInformer.go:501-503 | different cluster ids print differently |
| `ReleaseCache.SoundStep` | pkg/k8sInformer/K8sInformer.go:422-494 | if every cached key belongs to a live secret, one event keeps it so iff the event is not a tombstone deletion of the last live revision of a cached release |
| `ReleaseCache.SoundRun` | pkg/k8sInformer/K8sInformer.go:422-494 | over every run of additions, updates and deletions, however many revisions share a key, every cached key belongs to a secret that is still live |
| `ReleaseCache.DeletionCompleteness` | pkg/k8sInformer/K8sInformer.go:479-493 | a deletion leaves all live releases cached iff no other live revision shares its key |
| `ReleaseCache.SupersedingUncaches` | pkg/k8sInformer/K8sInformer.go:414-418 | from any cache: after a new revision arrives and the one before drops out, the release is live and uncached; the next update of the new revision caches it as it was before that update |
| `ReleaseCache.ResyncRestoresAgreement` | pkg/k8sInformer/K8sInformer.go:419-478 | once all secrets live at the start have been updated again, in any order and with other arrivals in between, the cached keys are exactly the live ones |
| `ReleaseCache.VersionsEndLive` | pkg/k8sInformer/K8sInformer.go:451-453 | the versions delivered of a secret end in the live one, and there are none iff it is not live |
| `ReleaseCache.LastWriterDecides` | pkg/k8sInformer/K8sInformer.go:422-494 | after any run of events from any cache, however many revisions share a key: a key is cached iff the last event to affect it is no deletion, and then with the detail of the secret that event carried |
| `ReleaseCache.UnaffectedStays` | pkg/k8sInformer/K8sInformer.go:422-494 | a key that no event of a run affects stands as it was; a tombstone affects none |
| `ReleaseCache.CacheLagsByOneVersion` | pkg/k8sInformer/K8sInformer.go:451-477 | for a release with one revision the entry is that of version max(0, n - 1) after n updates, so from the first update on it is one behind, because the old object is stored |
| `ReleaseCache.WellKeyedStep` | pkg/k8sInformer/K8sInformer.go:422-494 | every event keeps each entry under the key of the release it describes |
| `ReleaseCache.HitIdentifiesLikeMiss` | pkg/service/helmApplicationService/helmAppService.go:1769-1794 | a cache hit, however stale, has the application id, name, namespace and cluster of the detail that a miss would build from Helm |
| `ReleaseCache.DetailsShowRelease` | pkg/k8sInformer/K8sInformer.go:434-445 | a cached detail shows the release's own chart, icon, time, name, namespace and cluster under the id `cluster|namespace|name`; the detail of a miss adds the chart version and nothing else |
| `ReleaseCache.OnlyHelmSecretsCount` | pkg/k8sInformer/K8sInformer.go:427-429 | secrets of another type are ignored; Helm's are stored, or evicted, under their key |
| `InformerLifecycle.StartKeepsChannelsSafe` | pkg/k8sInformer/K8sInformer.go:377-499 | starting, refused or not, keeps: channels closed at most once, and each channel either closed or the recorded one of its cluster |
| `InformerLifecycle.StopKeepsChannelsSafe` | pkg/k8sInformer/K8sInformer.go:368-375 | stopping never closes a closed channel and keeps the same invariant |
| `InformerLifecycle.DeliverKeepsInv` | pkg/k8sInformer/K8sInformer.go:422-494 | delivering to a running informer never writes to an absent inner map and keeps the whole invariant, cache soundness included |
| `InformerLifecycle.RunsAreSafe` | pkg/k8sInformer/K8sInformer.go:348-499 | no run of starts, syncs, removals and deliveries over all clusters panics, and every run keeps the invariant |
| `InformerLifecycle.OneOpenChannelPerCluster` | pkg/k8sInformer/K8sInformer.go:368-375 | in every reachable state two open channels of one cluster are the same channel, and it is the recorded one |
| `InformerLifecycle.StepsAreLocal` | pkg/k8sInformer/K8sInformer.go:377-499 | a step for one cluster changes no other cluster's cache, channel, captured record or view |
| `InformerLifecycle.RefusedStartChangesNothing` | pkg/k8sInformer/K8sInformer.go:379-408 | a start succeeds iff the cluster is found, has no recorded channel and its client can be made; otherwise it changes nothing |
| `InformerLifecycle.FailedSyncKeepsServing` | pkg/k8sInformer/K8sInformer.go:348-366 | a sync whose restart fails leaves the cluster without an informer but with the details it had; it does so iff the second lookup or the client fails |
| `InformerLifecycle.UnknownSyncChangesNothing` | pkg/k8sInformer/K8sInformer.go:350-354 | a sync, or a removal, of a cluster that cannot be looked up changes nothing |
| `InformerLifecycle.GenerationIsItsEvents` | pkg/k8sInformer/K8sInformer.go:410-498 | between two starts of its informer a cluster's cache is its own deliveries' doing alone, whatever other clusters do meanwhile |
| `InformerLifecycle.ResyncInAnyRun` | pkg/k8sInformer/K8sInformer.go:419-478 | from any reachable state and among any steps of other clusters, a completed resync makes a cluster's cached keys exactly its live keys |
| `InformerLifecycle.LagInAnyRun` | pkg/k8sInformer/K8sInformer.go:451-477 | the one-version lag in the same generality, counted from a fresh start |
| `InformerLifecycle.ReachableEntriesMatchKeys` | pkg/k8sInformer/K8sInformer.go:434-448 | in every reachable state each entry's namespace, name and cluster are the ones its key encodes |
| `K8sInformer.K8sInformer.StartInformerAndPopulateCache` | pkg/k8sInformer/K8sInformer.go:377-499 | the method takes exactly the lifecycle's start step, with the same refusals |
| `K8sInformer.K8sInformer.StopInformer` | pkg/k8sInformer/K8sInformer.go:368-375 | the method takes the stop step, and panics iff the recorded channel is closed already |
| `K8sInformer.K8sInformer.SyncInformer` | pkg/k8sInformer/K8sInformer.go:348-366 | the method takes the sync step |
| `K8sInformer.K8sInformer.OnStateChange` | pkg/k8sInformer/K8sInformer.go:128-149 | an update syncs, a delete of an inactive cluster stops, everything else changes nothing |
| `K8sInformer.K8sInformer.HandleSecretEvent` | pkg/k8sInformer/K8sInformer.go:422-494 | the handlers, in place, have the effect the cache theorems are about |
| `K8sInformer.K8sInformer.GetAllReleaseByClusterId` | pkg/k8sInformer/K8sInformer.go:505-513 | every cached detail of the cluster exactly once, in some order, and nothing else |
| `InformerLifecycle.HitsAreLive` | pkg/k8sInformer/K8sInformer.go:515-522 | in every reachable state, a release that is found under its key has a secret under that key among those the cluster's informer last held, and of that very release when namespaces hold no underscore |
| `K8sInformer.K8sInformer.CheckReleaseExists` | pkg/k8sInformer/K8sInformer.go:515-522 | whatever run led to the state, a release said to exist has a secret under its key among those the cluster's informer last held |
| `K8sInformer.K8sInformer.GetReleaseDetails` | pkg/service/helmApplicationService/helmAppService.go:1769-1794 | a cached entry wins over Helm; a miss turns into Helm's error, a not-found error, or the live release's detail |
| `ChartRepositoryLock.ChartRepositoryLocker.GetLockBy` | internals/lock/ChartRepositoryLockUtil.go:47-59 | finds the name's mutex or records a new one, changing no other entry, and keeps mutexes distinct |
| `ChartRepositoryLock.RunKeepsInv` | internals/lock/ChartRepositoryLockUtil.go:37-59 | every interleaving of any number of requests keeps the lock invariant, and no mutex is unlocked while it is not locked |
| `ChartRepositoryLock.MutualExclusion` | internals/lock/ChartRepositoryLockUtil.go:37-40 | at most one request is between Lock and Unlock of a repository name |
| `ChartRepositoryLock.UnlockReleasesOwnMutex` | internals/lock/ChartRepositoryLockUtil.go:42-45 | each Unlock, which looks its mutex up anew, releases the very mutex its own Lock took, and that one is held |
| `ChartRepositoryLock.LocksOnlyGrow` | internals/lock/ChartRepositoryLockUtil.go:47-59 | the map only grows and never remaps a name, over any continuation of any run |
| `ChartRepositoryLock.NamesHaveOwnMutex` | internals/lock/ChartRepositoryLockUtil.go:47-59 | in every reachable state two names with one mutex are one name |
| `ChartRepositoryLock.RunsConsumeTheWork` | pkg/service/HelmAppServiceWrapper.go:255-258 | every step of every run lowers one global measure by one |
| `ChartRepositoryLock.NeverStuck` | pkg/service/HelmAppServiceWrapper.go:255-258 | in every reachable state some request can step iff some request is unfinished |
| `ChartRepositoryLock.MaximalRunsFinish` | pkg/service/HelmAppServiceWrapper.go:255-258 | a run is maximal iff it finished all requests, and iff it has as many steps as the requests have work |
| `ResourceTree.BuildLevel` | pkg/service/commonHelmService/commonHelmService.go:211-242 | one level's nodes and the child requests, or an error iff some object's children cannot be listed |
| `ResourceTree.BuildNodes` | pkg/service/commonHelmService/commonHelmService.go:211-252 | succeeds iff all children anywhere below can be listed; then the nodes are exactly the unfolded ownership forest level by level, each health status at its node's index; otherwise the error is the first one, on the level itself or else below it subtree by subtree |
| `ResourceTree.BuildChildNodes` | pkg/service/commonHelmService/commonHelmService.go:255-268 | the requests' subtrees one after the other, or the first error among them |
| `ResourceTree.Unfold` | pkg/service/commonHelmService/commonHelmService.go:206-211 | a well-founded ownership relation unfolds every object into a finite tree, so the recursion has an end |
| `ResourceTree.LayeredIsTheForest` | pkg/service/commonHelmService/commonHelmService.go:211-252 | the nodes built are a permutation of the forest's preorder flattening: each occurrence once, with its owning occurrence as only parent, none at roots |
| `ResourceTree.LayeredParentsFirst` | pkg/service/commonHelmService/commonHelmService.go:343-345 | every node has at most one parent reference, and its parent stands at a smaller index |
| `ResourceTree.BuildChildNodesInBatch` | pkg/service/commonHelmService/commonHelmService.go:273-299 | for every interleaving of the pool: its error, or the subtrees in the order the pool gathered them |
| `ResourceTree.BuildNodesWithWorkers` | pkg/service/commonHelmService/commonHelmService.go:211-252 | the level with a pool below it comes to exactly the batched result the theorems below are about |
| `ResourceTree.BatchedRefinesSequential` | pkg/service/commonHelmService/commonHelmService.go:273-299 | whatever order the workers take, a forest without errors comes out as a permutation of the sequential result, roots first, healths at their nodes' indexes, parents before children |
| `ResourceTree.BatchedReportsErrorsIff` | pkg/service/commonHelmService/commonHelmService.go:289-293 | for every number of workers, the pool's verdict equals the sequential one in every interleaving iff no child request fails, or: with one worker, an odd number fails after the last that does not; with more, all fail and they are an odd number |
| `ResourceTree.BatchedHangsIff` | pkg/service/commonHelmService/commonHelmService.go:289-293 | a batched build can hang for ever iff at least two child requests fail and there are three workers or more, or two and the last request fails and not all of an odd number do |
| `WorkerPool.FaithfulIff` | vendor/github.com/devtron-labs/common-lib/workerPool/workerpool.go:47-113 | for every number of workers, the pool has the outcome of a sequential loop in every interleaving iff no task fails, or: with one worker, an odd number fails after the last success; with more, all fail and they are an odd number |
| `WorkerPool.ReachableInv` | vendor/github.com/gammazero/workerpool/workerpool.go:165-241 | in every reachable state tasks were handed out in submission order to no more workers than there are; one worker leaves the channel as the tasks relay it; when all tasks fail the channel is full iff an odd number is done |
| `WorkerPool.SuccessesAreGathered` | vendor/github.com/devtron-labs/common-lib/workerPool/workerpool.go:71-83 | while no task fails, exactly the finished tasks' results have been gathered, each once |
| `WorkerPool.OnlySuccessesAreGathered` | vendor/github.com/devtron-labs/common-lib/workerPool/workerpool.go:58-67 | no failed or skipped task ever contributes a result |
| `WorkerPool.OneAfterTheOther` | vendor/github.com/devtron-labs/common-lib/workerPool/workerpool.go:99-112 | every pool can run its tasks one after the other, and then reports an error iff an odd number fails after the last success |
| `WorkerPool.HeldSuccessHidesFailures` | vendor/github.com/devtron-labs/common-lib/workerPool/workerpool.go:58-60 | with two workers or more, any task that succeeds can be held back until all others are done, and then the pool reports success whatever failed |
| `WorkerPoolProgress.OneFailureNeverSticks` | vendor/github.com/devtron-labs/common-lib/workerPool/workerpool.go:108-112 | with at most one failing task no reachable state of the pool is stuck |
| `WorkerPoolProgress.CanStickIff` | vendor/github.com/devtron-labs/common-lib/workerPool/workerpool.go:108-112 | for every number of workers, when the pool can hang for ever: one, never; two, iff at least two tasks fail, the last submitted among them, unless all fail and they are an odd number; three or more, iff at least two tasks fail |
| `WorkerPoolProgress.MaximalRunsComplete` | vendor/github.com/devtron-labs/common-lib/workerPool/workerpool.go:85-89 | no run has more than four actions a task, and unless the pool can hang, a run that cannot go on has finished every task |
| `PodAge.GetExtraNodeInfoMappings` | pkg/service/commonHelmService/commonHelmService.go:714-732 | the loop builds the maps that the next four rows describe |
| `PodAge.MappedNames` | pkg/service/commonHelmService/commonHelmService.go:714-732 | exactly the names of Rollouts and the UIDs of StatefulSets and DaemonSets among the nodes are mapped |
| `PodAge.MappedDeployments` | pkg/service/commonHelmService/commonHelmService.go:714-732 | a Deployment's name is mapped iff one is listed, and to the pod hash of the last one listed |
| `PodAge.MappedRollouts` | pkg/service/commonHelmService/commonHelmService.go:714-732 | the same for Rollouts |
| `PodAge.MappedSets` | pkg/service/commonHelmService/commonHelmService.go:714-732 | a UID is mapped to the update revision and labels of the first StatefulSet or DaemonSet listed with it |
| `PodAge.GetMatchingNode` | pkg/service/commonHelmService/commonHelmService.go:733-740 | the first node of that kind and name, or none |
| `PodAge.FirstMatchFound` | pkg/service/commonHelmService/commonHelmService.go:733-740 | a match is found iff one exists, and what is found is one |
| `PodAge.IsPodNew` | pkg/service/commonHelmService/commonHelmService.go:568-635 | the branches and the loop decide as the next rows say, each failed lookup being a crash |
| `PodAge.DeploymentPodIsNewIff` | pkg/service/commonHelmService/commonHelmService.go:591-609 | a Deployment's pod is new iff the hash of the first ReplicaSet of its owner's name equals the pod hash of the last Deployment of the name listed; an error if the hash cannot be had |
| `PodAge.UnlistedDeploymentPod` | pkg/service/commonHelmService/commonHelmService.go:592-609 | with no such Deployment listed, iff that hash is empty |
| `PodAge.RolloutPodIsNewIff` | pkg/service/commonHelmService/commonHelmService.go:610-618 | a Rollout's pod is new iff its ReplicaSet is labelled with the pod hash of the last Rollout of the name listed |
| `PodAge.StatefulPodIsNewIff` | pkg/service/commonHelmService/commonHelmService.go:575-578 | a StatefulSet's pod is new iff it is labelled with the update revision of the first set with the owner's UID |
| `PodAge.DaemonPodIsNewIff` | pkg/service/commonHelmService/commonHelmService.go:622-633 | a DaemonSet's pod is new iff a ControllerRevision of the set is listed and the first set with the owner's UID and the pod carry the same revision label |
| `PodAge.OtherPods` | pkg/service/commonHelmService/commonHelmService.go:581-634 | a Job's pod is always new; below other kinds, below other ReplicaSets, and below a DaemonSet without a listed revision never |
| `PodAge.FirstMatchIs` | pkg/service/commonHelmService/commonHelmService.go:733-740 | what is found is the first node of the kind and name |
| `PodAge.CrashesIff` | pkg/service/commonHelmService/commonHelmService.go:568-635 | on every parent-closed node list the decision for an owned pod crashes iff its owner is a ReplicaSet and the first ReplicaSet of that name is a root |
| `PodAge.CrashesOnAnyListIff` | pkg/service/commonHelmService/commonHelmService.go:568-635 | on any list and for any pod, filtered lists included, it crashes iff the pod has no owner; or its StatefulSet is not listed; or its DaemonSet is not although a revision of it is; or of its ReplicaSet's name none is listed, or the first has no owner or an unlisted Rollout as owner |
| `PodAge.StatefulPodSafeIff` | pkg/service/commonHelmService/commonHelmService.go:575-578 | the StatefulSet case alone: it crashes iff no set with the owner's UID is listed |
| `PodAge.SequentialTreeIsSafe` | pkg/service/commonHelmService/commonHelmService.go:568-635 | on every sequentially built tree with no ReplicaSet root no owned pod crashes |
| `PodAge.BatchedTreeIsSafe` | pkg/service/commonHelmService/commonHelmService.go:568-635 | nor on any tree built with a pool, in any interleaving, even one that lost nodes |
| `PodAge.UpdateHookInfoForChildNodes` | pkg/service/commonHelmService/commonHelmService.go:695-713 | hook marks pass, in place, to exactly the nodes whose first owner was a hook before the call, with that owner's type, and no further |
| `PodAge.MarksComeFromOwners` | pkg/service/commonHelmService/commonHelmService.go:695-713 | the mark is that of the last hook with the first owner's UID; without an owner, or without such a hook, a node stays as it was |
| `ChildObjects.GetChildObjects` | pkg/service/commonHelmService/k8sService.go:136-214 | fails iff the kind is unknown, a listing fails, or a volume claim that must be looked at cannot be converted, and the unknown kind has its own error; otherwise returns the specified children |
| `ChildObjects.ListChildren` | pkg/service/commonHelmService/commonHelmService.go:312-325 | while a tree is built an object of a kind outside the parent-child table simply has no children, so an unknown kind is never an error there; otherwise the specified children or one of the listing errors |
| `ChildObjects.OneTableDecides` | pkg/service/commonHelmService/k8sService.go:98-113 | a configured table that is not empty counts alone, also for kinds it leaves out; otherwise the built-in one does |
| `ChildObjects.SelectedIff` | pkg/service/commonHelmService/k8sService.go:136-214 | an object is returned iff it names the parent among its owners, or is a claim inferred by the StatefulSet of the parent's name and listed under an earlier kind |
| `ChildObjects.OwnerCountIs` | pkg/service/commonHelmService/k8sService.go:202-207 | what counts as owner is exactly the reference with the parent's name, kind and version, as often as it occurs |
| `ChildObjects.ChildrenInKindOrder` | pkg/service/commonHelmService/k8sService.go:150-212 | the children come in the order of the kinds |
| `ChildObjects.AbsentKindGivesNone` | pkg/service/commonHelmService/k8sService.go:156-170 | a resource kind the cluster does not have contributes nothing |
| `ChildObjects.ChildMultiplicity` | pkg/service/commonHelmService/k8sService.go:136-214 | how often any object is returned: over all kinds and listed items, once for each owner reference that matches, plus, under a StatefulSet of the parent's name that infers it, as often as it was listed as a claim before |
| `ChildObjects.OncePerOwner` | pkg/service/commonHelmService/k8sService.go:202-207 | an item of a kind other than StatefulSets gives itself once for each matching owner reference, and nothing else |
| `ManifestFetch.GetDesiredOrLiveManifests` | pkg/service/commonHelmService/commonHelmService.go:151-177 | for every completion order inside the batches: slot k holds the fetch of manifest k, each manifest is fetched exactly once, and no fetch stores its result before one of an earlier batch |
| `ManifestFetch.FetchBatch` | pkg/service/commonHelmService/commonHelmService.go:163-172 | one batch fills its own slots, in any order, and touches no other |
| `ManifestFetch.LoopEndsIff` | pkg/service/commonHelmService/commonHelmService.go:157-174 | the outer loop ends iff there is nothing to fetch or the batch size is positive |
| `ReleaseHealth.BuildReleaseHealth` | pkg/service/commonHelmService/commonHelmService.go:80-99 | from the fetch to the status, for every order of fetches and workers: the roots come first, one for each manifest in order, hook marks do not touch them, and the status is that of the nodes |
| `ReleaseHealth.RootHealth` | pkg/service/commonHelmService/commonHelmService.go:347-362 | a root shows Missing for a 404, Unknown for any other failed fetch, and its own kind's health for a manifest that was found |
| `ReleaseHealth.RootShows` | pkg/service/commonHelmService/commonHelmService.go:303-345 | and the kind, name, labels, namespace (or the release's), hook mark and scalability of the manifest it was built from |
| `ReleaseHealth.BelowShow` | pkg/service/commonHelmService/commonHelmService.go:317-369 | owned nodes show their live object's health, and never hibernation |
| `ReleaseHealth.FailedFetchShows` | pkg/util/HelmServiceUtil.go:80-117 | a release with a manifest, not a hook, that could not be fetched is never reported healthy or hibernated, fully or partially, not even where a pool lost nodes |
| `ReleaseHealth.UnknownShows` | pkg/util/HelmServiceUtil.go:99-104 | if the failure was not a 404 it is reported Unknown |
| `ReleaseHealth.MissingShows` | pkg/util/HelmServiceUtil.go:99-104 | if it was, and no node is degraded or unknown, Missing |
| `Hibernation.Scaler.ScaleObjects` | pkg/service/helmApplicationService/helmAppService.go:346-435 | one status for each object, in order and about that object: success iff its turn changed the cluster, which is iff it was found, could be scaled that way and met no trouble, and then without an error message; failures do not stop the batch |
| `Hibernation.StatusTells` | pkg/service/helmApplicationService/helmAppService.go:357-431 | the same for one object, and a successful scale-down leaves it at zero |
| `Hibernation.FailureTells` | pkg/service/helmApplicationService/helmAppService.go:392-417 | an object that cannot be scaled that way is left with the reason: no replicas field, already scaled down, already scaled up |
| `Hibernation.TroubleTells` | pkg/service/helmApplicationService/helmAppService.go:370-426 | trouble with the fetch or the patch is told as it was met |
| `Hibernation.HibernatePatchApplied` | pkg/service/helmApplicationService/helmAppService.go:70 | the patch fails as a whole iff there is no replicas field; otherwise it sets the count and replaces all annotations |
| `Hibernation.PatchMovesCount` | pkg/service/helmApplicationService/helmAppService.go:390-418 | a patch moves the count between replicas and annotation, loses none of what it moves, and leaves it in one place |
| `Hibernation.ConservedIff` | pkg/service/helmApplicationService/helmAppService.go:346-435 | replicas plus annotated count stays the same over every run of batches, with any failures and duplicates, iff one of the two was zero at the start |
| `Hibernation.RunsCarry` | pkg/service/helmApplicationService/helmAppService.go:346-435 | an object whose count is in one place keeps the count, and keeps it in one place, over every run |
| `Hibernation.DownThenUp` | pkg/service/helmApplicationService/helmAppService.go:392-418 | scaling down and up again restores the replicas of any object that has some, whatever was annotated; its other annotations are gone |
| `Hibernation.NoReplicasNoChange` | pkg/service/helmApplicationService/helmAppService.go:393-401 | an object without a replicas field is never changed and never reported as scaled |
| `Hibernation.HibernatedIffAtZero` | pkg/cache/utils.go:177-195 | while the count is in one place, an ownerless scalable object shows as hibernated iff it is at zero replicas |
| `AppHealth.BuildAppHealthStatus` | pkg/util/HelmServiceUtil.go:80-117 | the loop finds the status described without it: hibernated, partially hibernated, or the worst of the nodes |
| `AppHealth.OrderDoesNotMatter` | pkg/util/HelmServiceUtil.go:80-117 | permuting the nodes leaves the application's status unchanged |
| `AppHealth.WorstIsUnique` | vendor/github.com/devtron-labs/common-lib/utils/k8s/health/health.go:75-77 | two statuses that are both the worst of the nodes are equal |
| `AppHealth.WorstWins` | vendor/github.com/devtron-labs/common-lib/utils/k8s/health/health.go:45-52 | in the order Healthy, Suspended, Progressing, Missing, Degraded, Unknown the worst status of a node that counts wins |
| `AppHealth.UnhealthyShows` | pkg/util/HelmServiceUtil.go:99-114 | a node worse than healthy keeps an application from being reported healthy or hibernated |
| `AppHealth.GetAppStatusOnBasisOfHealthyNonHealthy` | pkg/util/HelmServiceUtil.go:119-133 | healthy iff nothing is worse than healthy; otherwise the first status that is |
| `AppHealth.HealthReportsHibernation` | pkg/util/HelmServiceUtil.go:80-117 | healthy ownerless roots beside hooks of any health and healthy nodes that cannot be hibernated, in any order: the status is Hibernated, Partially Hibernated or Healthy as all, some or none of the scalable roots are at zero; Healthy if none is scalable |
| `AppHealth.BystandersHaveNoSay` | pkg/util/HelmServiceUtil.go:87-104 | hooks, and healthy nodes that cannot be hibernated, change nothing about an application that is healthy without them |
| `AppHealth.RunsAreReported` | pkg/service/helmApplicationService/helmAppService.go:346-435 | after any run of batches, whatever failed and whatever hooks and healthy owned nodes stand beside, the status says which of the roots scalable by then are left at zero; scalable roots stay scalable |
| `InventoryId.ParseOfPrint` | pkg/service/fluxService/utils.go:111-145 | parsing undoes printing, for all underscore-free fields, empty ones and names with colons included |
| `InventoryId.ParsesIff` | pkg/service/fluxService/utils.go:111-145 | an id parses iff it has at least three underscores and every maximal run of underscores in its name part is even |
| `InventoryId.PrintOfParse` | pkg/service/fluxService/utils.go:111-145 | printing a parsed id gives it back iff its name part holds no literal colon |
| `InventoryId.CutsIff` | pkg/service/fluxService/utils.go:112-131 | the three cuts succeed iff the id has three underscores |
| `InventoryId.DecodesPlainIff` | pkg/service/fluxService/utils.go:132-137 | decoding leaves no underscore iff all runs are even |
| `InventoryId.ParseInventoryObjects` | pkg/service/fluxService/utils.go:180-202 | succeeds iff every entry is well formed; then exactly the ids present are mapped, each to the version of its last entry |
| `Kustomization.DecodeItems` | pkg/service/fluxService/helper.go:57-65 | for every iteration order of the map: all ids decoded, each once, or nothing iff one cannot be |
| `Kustomization.FetchInventoryList` | pkg/service/fluxService/helper.go:51-83 | succeeds iff the entries are there, well formed and all decodable; then it lists the inventory's resources, each once |
| `Kustomization.GetKsAppResourceAndFluxHrList` | pkg/service/fluxService/fluxApplicationService.go:423-494 | for every iteration order: without errors below the call succeeds, and where an error cannot be avoided it fails; a success is the one bag `Got` of resources and Helm releases, in which a call that meets a child without a response or a nameless Helm release contributes nothing; so it is complete iff all below is clean, and otherwise has strictly fewer resources and invents none; the releases are those of the returned HelmRelease resources, one each and in their order |
| `Kustomization.SuccessAgainstAll` | pkg/service/fluxService/fluxApplicationService.go:434-492 | the same comparison for the bags themselves: where a call can succeed, what it collects is everything if all below is clean, and strictly less if not |
| `Kustomization.CollectChildren` | pkg/service/fluxService/fluxApplicationService.go:431-494 | the loop gives up only on a lookup in vain, fails only on an error, and else has collected every item |
| `Kustomization.CollectChild` | pkg/service/fluxService/fluxApplicationService.go:434-492 | one child makes the call give up with nothing iff its lookup has no answer or no name; fails it only on an error; and else contributes itself, its Helm release, and what its own collection got, unless it is the parent itself or the parent has a kubeConfig |
| `Kustomization.TakeOut` | pkg/service/fluxService/helper.go:57-65 | the bag does not depend on which item is taken first |
| `Kustomization.CollectedIffReachable` | pkg/service/fluxService/fluxApplicationService.go:423-494 | as sets, the resources to collect are exactly those in inventories reachable through Kustomizations without kubeConfig, and the Helm releases exactly those the cluster answers for HelmRelease objects in them |
| `Kustomization.GotIfReachable` | pkg/service/fluxService/fluxApplicationService.go:423-494 | where no call below gives up, that is also what a success returns, with all multiplicities |
| `Kustomization.KubeConfigStops` | pkg/service/fluxService/fluxApplicationService.go:454 | from a Kustomization with a kubeConfig nothing is reached but its own inventory |
| `Kustomization.OthersAreFollowed` | pkg/service/fluxService/fluxApplicationService.go:441-488 | an inventory item is followed iff it is a Flux Kustomization other than the parent, and the parent has no kubeConfig |
| `Kustomization.BelowIsWellFounded` | pkg/service/fluxService/fluxApplicationService.go:477-479 | what the recursion needs of the graph below a Kustomization holds below each one it follows |
| `Kustomization.WellFoundedIffAcyclic` | pkg/service/fluxService/fluxApplicationService.go:441-443 | in a finite cluster the rank that the recursion goes by exists iff no Kustomization that can be reached leads back to itself by followed ones; a self-loop is not followed |
| `Kustomization.RankFalls` | pkg/service/fluxService/fluxApplicationService.go:441-443 | along every path of followed Kustomizations the rank falls by at least its length |
| `Kustomization.PrintedIsCollected` | pkg/service/fluxService/utils.go:163-177 | whatever Flux printed into a reachable inventory is in the collection with its own fields and version |
| `PodInfo.Summarise` | pkg/util/argo/ArgoUtils.go:35-110 | the two loops compute a summary that fits the declarative reading, by first blocking init container or lowest deciding container |
| `PodInfo.OneSummary` | pkg/util/argo/ArgoUtils.go:35-110 | that reading determines the summary: no two fit one pod |
| `PodInfo.ScanInitContainers` | pkg/util/argo/ArgoUtils.go:44-73 | the upward loop blocks iff some init container did not succeed; restarts then count the prefix through the first such one |
| `PodInfo.ReadContainers` | pkg/util/argo/ArgoUtils.go:75-97 | the downward loop leaves the reason of the lowest container that sets one |
| `PodInfo.ScanContainers` | pkg/util/argo/ArgoUtils.go:74-103 | the downward loop and what follows it: restarts of all, the set of ready containers counted, the reason of the lowest container that sets one, Completed turned into Running iff some container is ready |
| `PodInfo.ReadyBounded` | pkg/util/argo/ArgoUtils.go:92-95 | ready never exceeds the number of statuses, and is zero while an init container blocks |
| `PodInfo.BlockedReasons` | pkg/util/argo/ArgoUtils.go:49-71 | the reason a blocking init container gives, case by case |
| `PodInfo.DecidedReasons` | pkg/util/argo/ArgoUtils.go:82-102 | the reason the deciding container gives, case by case, Completed becoming Running beside a ready container |
| `PodInfo.QuietReasons` | pkg/util/argo/ArgoUtils.go:39-42 | without containers the status reason shows, or else the phase |
| `PodInfo.DeletedReasons` | pkg/util/argo/ArgoUtils.go:105-110 | a pod being deleted is Terminating, or Unknown if its node is lost |
| `PodInfo.BlockedCounts` | pkg/util/argo/ArgoUtils.go:45-47 | while an init container blocks, its restarts and those before it count, and nothing is ready |
| `PodInfo.OneContainerMore` | pkg/util/argo/ArgoUtils.go:75-96 | a further container of an initialised pod adds its restarts, and one to the ready ones iff it runs, is ready, does not wait with a reason and has not terminated |
| `PodInfo.BlockedHidesContainers` | pkg/util/argo/ArgoUtils.go:74 | while an init container blocks, the containers' statuses cannot influence the summary |
| `PodInfo.CompletedMeansNoneReady` | pkg/util/argo/ArgoUtils.go:99-102 | no pod is summarised as Completed while a container counts as ready |

## Left out

- Informer surroundings: releases are assumed to decode (the handlers go on with a nil release
  otherwise), no event arrives after a stop, the repository answers with the cluster asked for,
  and starts, stops and syncs are single steps, although `informerStopper` has no mutex.
- InformerLifecycle.RunsAreSafe: deliveries are without tombstones; `ReleaseCache.SoundStep`
  says exactly what a tombstone does.
- ReleaseCache.HitIdentifiesLikeMiss: the cluster's name is taken not to change after its informer
  was started, and namespaces hold no underscore, as Kubernetes demands of them.
- The second informer, for cluster-modify secrets, and starting the informers of all clusters:
  only the starts, syncs and stops they cause are modelled.
- The comparison of errors with a freshly made error in `OnStateChange`: it decides logging only.
- Stop channels are numbers with a log of closes; the map of mutexes in the class holds objects,
  in the interleaved protocol numbers.
- ChartRepositoryLock.MutualExclusion: a handler's work is one step, and a handler holds one
  repository lock, as all four do; panics inside a handler are not modelled.
- WorkerPool.FaithfulIff: a task that panics, which the pool swallows, is not modelled; idle workers
  that stop and start again are not told from waiting ones.
- ResourceTree.BuildNodes: takes a finite unfolding of the ownership relation, which `Unfold` gives for
  every well-founded one; children, health rules and pod-template hashes are functions of the
  manifest; ports, timestamps and resource versions are left out.
- The batch size of the worker pool, clamped to at least one when the pool is made.
- The branch of `filterNodes` that assigns to a nil map, and the plain label filter beside it.
- ChildObjects.SelectedIff: resolving owner references, which adds inferred owners, is a function
  of the listed object.
- The copy of the batched manifest fetch in `helmAppService.go`, which has the same loop.
- Hibernation.ConservedIff: other writers to the same objects during a run, and a live manifest
  that changes between the fetch and the patch, are not modelled.
- AppHealth.WorstIsUnique: health codes outside the ranked ones count as healthy, as the rank table
  has them.
- Kustomization.GetKsAppResourceAndFluxHrList: the cluster's answers do not change during the
  collection; where errors and missing answers both occur the map's iteration order decides
  between failing and giving up, so neither outcome is promised.
- Kustomization.CollectedIffReachable: holds for any decoder of ids; `PrintedIsCollected` is about Flux's own.
- PodInfo.Summarise: the list of info items made from the summary, and reading the pod from an
  unstructured object.
- Integer wrap-around of loop counters and restart sums.
- Helm operations, OCI registries, chart packaging, NATS, gRPC adapters, error-message mapping,
  docker-image and port extraction, Flux status and column extraction: foreign libraries, I/O
  and single-branch maps.
