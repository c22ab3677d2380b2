# Drain, ring and client of the distributed-cache operator

A Dafny model of the operator's coordinated pod removal: the reconcile passes that annotate doomed
pods, hold or lower the StatefulSet and publish the ring ConfigMap; the deletion passes that end with
the release of the drain finalizer; and the clients that poll the ring and route keys by consistent
hashing. `dafny verify dfyconfig.toml` checks all of it.

## How the model is put together

- `Names`, `Pods`, `Sorting`: pod names and ordinals, eligibility, ring membership.
- `HashRing`, `CacheClient`: the 128-vnode ring, bisection with wrap-around, the polling client.
  SHA-1 is an arbitrary function from strings to 32-bit points. `sort.Slice` is not stable, so
  results are stated for every arrangement of ties (`Sorting.IsSortOf`, `HashRing.Resolves`).
- `ApiServer`: the API objects, and what each reconcile method does to them as a function.
- `Reconciler`: those methods as imperative code over mutable fields, with failing requests, proved
  against `ApiServer`; a whole `Reconcile` call is proved to be a sequence of protocol steps.
- `Protocol`: the state machine. The operator, the clients and an environment take turns. The
  environment edits and deletes the custom resource, creates, changes, terminates and removes pods,
  scribbles unreadable annotations, edits the ring by hand, collects garbage and lets time pass.
  A pass works on the resource as it read it, may be cut at any point, and a write may take effect
  although the operator sees an error.
- `Invariants`, `Versions`, `DrainSafety`, `Contract`, `Deletion`, `Status`, `Progress`, `Disruption`: what
  holds in every state of every run. `Scenarios` builds runs step by step; `GraceBound` proves the
  contract's grace period exact, and `Limits` shows where three other promises end. `Quota`: the cell quota.

Time is in nanoseconds. "Clean" runs are those in which nobody edits the ring ConfigMap by hand and no
`int64` version is about to wrap; `Versions.ShortRunsCount` shows that the second part holds for at
least 2^63 - 1 steps.

## What the code gives, and where it differs from its documentation

- Publishing before terminating (DESIGN.md:303-306) is not unconditional: grace counts from the
  annotation and a releasing pass lowers the StatefulSet before it republishes.
  `Limits.CutPassesSkipPublication` is a run that lowers over a pod still in the ring;
  `DrainSafety.OfferedIffUnpublished` says exactly when that happens.
- A client in its first poll needs three poll intervals, not two: that poll may take a whole interval
  and the ticker starts only after it. `GraceBound.GraceIsExact` gives the exact grace period for
  every poll interval, publication delay, kind of client and number of missed polls.
- The default grace of 30 s is said to allow two missed polls (DESIGN.md:350-354). It does not allow
  one. `GraceBound.DefaultGraceCovers`: it covers exactly the clients that are past their first poll,
  miss none, and see the new ring published within nine seconds.
- The last ring before a teardown is empty only if no pod became eligible between the deletion pass's
  listing and its farewell. `Limits.LastRingCanOffer` is a run where one did; `Deletion.LastRing` has
  the exact condition.
- Available and Progressing are called independent (api/v1alpha1/distributedcache_types.go:122-125);
  `Status.ConditionsAgreeIff` shows they are each other's negation unless the ring outgrows the request,
  which pods created during a pass can bring about (`Limits.RingOutgrowsRequest`).
- A rolling update's extra pod fits the cell quota only from four replicas on (DESIGN.md:514-519).

## Model

| member | source | states |
|---|---|---|
| Names.OrdinalRoundTrip | internal/controller/ring.go:137-147 | parsing a printed pod name returns its ordinal, for every cache name, exactly while the ordinal fits an int64 |
| Names.OrdinalIff | internal/controller/ring.go:137-147 | a name has ordinal k exactly when it ends in a dash and a decimal number, perhaps after a plus sign, whose digits have the value k and fit an int64 |
| Names.DecimalText | internal/controller/distributedcache_controller.go:716-719 | a printed ordinal consists of digits that have its value, without a leading zero |
| Names.DoomedIffOrdinal | internal/controller/distributedcache_controller.go:716-719 | a name is in the printed doomed set exactly when it is the set's own name with an ordinal in [desired, current) |
| Names.CollectDoomed | internal/controller/distributedcache_controller.go:716-719 | the printing loop collects exactly the doomed names |
| Pods.IsReady | internal/controller/ring.go:125-132 | a pod is ready exactly when its first Ready condition is true |
| Pods.ComputeMembers | internal/controller/ring.go:83-120 | an ordinal-sorted permutation of exactly the names of pods that are running, not terminating, without annotation, with a true first Ready condition and an ordinal; the unique one when ordinals are distinct |
| Pods.MembersUnique | internal/controller/ring.go:113-119 | with distinct ordinals every sort gives the same strictly increasing list |
| Pods.MembersIgnoreListOrder | internal/controller/ring.go:83-120 | membership does not depend on the order in which pods are listed |
| HashRing.CollectVNodes | internal/cacheclient/client.go:142-150 | entry 128 m + i is the hash of the text "member#i", owned by member m |
| HashRing.SortPlaces | internal/cacheclient/client.go:152-156 | the index sort is a permutation of all places in hash order |
| HashRing.BuildRing | internal/cacheclient/client.go:141-169 | the resolved ring is sorted, has 128 entries per member, holds every member at the hashes of its 128 labels and nothing else, under the published version |
| HashRing.PlacedAt | internal/cacheclient/client.go:144-149 | for each i below 128 a resolved ring has a member m at the hash of "m#i" |
| HashRing.PlaceOf | internal/cacheclient/client.go:144-149 | every entry of a resolved ring is the hash of "m#i" for its owner m and some i below 128 |
| HashRing.LabelsDiffer | internal/cacheclient/client.go:146 | the labels of one member are pairwise different |
| HashRing.Search | internal/cacheclient/client.go:186-195 | bisection finds the first hash at or after the point, wrapping to the first of all; nothing exactly for an empty ring |
| HashRing.AnswerOwns | internal/cacheclient/client.go:184-197 | whatever a resolved ring answers owns a virtual node at the least clockwise distance modulo 2^32, ties included |
| HashRing.OwnsByLabel | internal/cacheclient/client.go:141-197 | a pod owns a key exactly when the hash of one of its 128 labels is at least as near, clockwise modulo 2^32, as that of any label of any member |
| HashRing.SingleOwnersIff | internal/cacheclient/client.go:156-195 | every key has one possible owner exactly when no point is shared by two members |
| HashRing.RemovalKeepsSurvivors | internal/cacheclient/client.go:141-197 | removing members leaves every key of a survivor where it was |
| HashRing.AdditionMovesOnlyToNew | internal/cacheclient/client.go:141-197 | adding a member moves keys only to it |
| HashRing.MemberOrderIrrelevant | internal/cacheclient/client.go:141-169 | lookups depend only on the set of members |
| HashRing.MembersAnswer | internal/cacheclient/client.go:141-197 | under some hash every member of a ring is the answer of a lookup |
| CacheClient.Client.constructor | internal/cacheclient/client.go:76-86 | a new client holds no ring; a zero poll interval becomes ten seconds |
| CacheClient.Client.PollOnce | internal/cacheclient/client.go:114-136 | after a successful poll the loaded version is the one read, higher or lower than before; an equal version is skipped; any error leaves everything as it was |
| CacheClient.Client.Lookup | internal/cacheclient/client.go:184-197 | a lookup fails exactly without members and otherwise names the owner of a nearest virtual node of the loaded ring |
| CacheClient.Client.RingVersion | internal/cacheclient/client.go:201-207 | the loaded version, or zero |
| ApiServer.CellsCollideByName | internal/controller/distributedcache_controller.go:90-95 | isolated caches share a cell exactly when they share a name |
| ApiServer.CrossNamespaceIff | internal/controller/distributedcache_controller.go:90-102 | owned objects live in another namespace exactly for an isolated cache outside its own cell |
| ApiServer.WriteThrough | internal/controller/distributedcache_controller.go:598-686 | after a successful publication the payload decodes to the returned ring, except exactly when the old payload was unreadable and no pod is eligible |
| ApiServer.PublishIdempotent | internal/controller/distributedcache_controller.go:629-640 | a second publication writes nothing and returns the same ring |
| Reconciler.Cluster.MarkDoomed | internal/controller/distributedcache_controller.go:729-767 | up to the first refused update every doomed pod without a well-formed timestamp gets the current second; every other pod stays exactly as it was; the verdict |
| Reconciler.Cluster.DrainScaleDown | internal/controller/distributedcache_controller.go:688-770 | only pods with an ordinal between request and count are touched, all of them carry a timestamp afterwards, survivors stay exactly as they were; the verdict, and exactly when it fails |
| Reconciler.Cluster.ReconcileStatefulSet | internal/controller/distributedcache_controller.go:508-521 | the replica count written, holding the current one while a drain is pending |
| Reconciler.Cluster.ReconcileRing | internal/controller/distributedcache_controller.go:598-686 | stored ring and returned ring, for every outcome of the requests |
| Reconciler.Cluster.MarkEvery | internal/controller/distributedcache_controller.go:793-819 | up to the first refused update every pod without annotation gets the current second, and no other pod changes; the verdict |
| Reconciler.Cluster.DeleteCellNamespace | internal/controller/distributedcache_controller.go:871-904 | done exactly when the cell is gone; a live cell starts to terminate |
| Reconciler.Cluster.DrainForDeletion | internal/controller/distributedcache_controller.go:782-819 | the drain phase is one protocol step, complete exactly when every listed pod had aged |
| Reconciler.Cluster.SayFarewell | internal/controller/distributedcache_controller.go:821-831 | the best-effort republication is one protocol step |
| Reconciler.Cluster.FinishDeletion | internal/controller/distributedcache_controller.go:833-858 | fails exactly on a failed request it needs; otherwise releases the resource exactly when no cell is left, and asks to be run again in two seconds if not |
| Reconciler.Cluster.ReconcileDeletion | internal/controller/distributedcache_controller.go:772-858 | a deletion pass is a sequence of protocol steps; exactly when it fails; it releases exactly when every pod it listed had aged and no cell is left, and otherwise asks to be run again in two seconds |
| Reconciler.Cluster.DrainPhase | internal/controller/distributedcache_controller.go:168-173 | the drain is one protocol step, and fails exactly on a failed read or a refused update it needed |
| Reconciler.Cluster.ScalePhase | internal/controller/distributedcache_controller.go:175-179 | the StatefulSet write is one protocol step |
| Reconciler.Cluster.DrainAndScale | internal/controller/distributedcache_controller.go:168-179 | drain then scale, with the count at the request exactly when the drain was complete |
| Reconciler.Cluster.PublishAndReport | internal/controller/distributedcache_controller.go:181-199 | the ring the pods call for is stored and its conditions reported; exactly when it fails, and then the conditions stay |
| Reconciler.Cluster.Place | internal/controller/distributedcache_controller.go:152-166 | cell then Service as protocol steps; fails exactly when an isolated cell's request fails or both attempts at the Service do |
| Reconciler.Cluster.Serve | internal/controller/distributedcache_controller.go:168-199 | drain, scale and publish: exactly when they fail, and pods, count, ring and conditions when they do not |
| Reconciler.Cluster.ReconcileLive | internal/controller/distributedcache_controller.go:152-210 | fails exactly when a request it needs fails or its cell is being torn down; otherwise exactly cell, drain, scale, publish, with the resulting pods, count, ring, conditions and requeue time |
| Reconciler.Cluster.Reconcile | internal/controller/distributedcache_controller.go:122-211 | any pass, with any faults, is a sequence of protocol steps ending idle; exactly when it fails; without error exactly the planned steps, the resulting objects and the requeue time |
| Reconciler.HealthyPass | internal/controller/distributedcache_controller.go:122-211 | without failing requests a pass fails only on a live resource whose cell is being torn down |
| Reconciler.HealthyPassInRun | internal/controller/distributedcache_controller.go:122-211 | which no state of a run is, so there it never fails |
| Protocol.PerformContinuesRun | internal/controller/distributedcache_controller.go:122-211 | such a sequence continues a run, so results about runs apply to passes |
| Invariants.RunInv | internal/controller/distributedcache_controller.go:141-186 | in every state: pod identities, the finalizer guard, pods beyond the count on their way out, and what the pass under way may rely on |
| Versions.ShortRunsCount | internal/controller/distributedcache_controller.go:629-634 | versions count publications, so none is left to wrap within 2^63 - 1 steps |
| Versions.RingMovesForward | internal/controller/distributedcache_controller.go:611-640 | a published ring is only replaced by one of a higher version, or collected for good |
| Versions.VersionDeterminesMembers | internal/controller/distributedcache_controller.go:629-634 | versions never decrease, and equal versions mean equal members |
| Versions.SkipIsSound | internal/cacheclient/client.go:128-134 | after every successful poll the client holds exactly the ring it read |
| Versions.SnapshotsNeverRegress | internal/cacheclient/client.go:184-207 | under any interleaving a later lookup sees the same ring or one of a higher version |
| Versions.SnapshotsWereHeld | internal/cacheclient/client.go:128-134 | every snapshot is one ring the ConfigMap held |
| DrainSafety.MarksAreStable | internal/controller/distributedcache_controller.go:733-767 | a well-formed timestamp on an instance never changes, and an annotated instance never re-enters the ring |
| DrainSafety.MarkOrigin | internal/controller/distributedcache_controller.go:742-761 | every well-formed timestamp was written, as that moment's second, by a deletion loop or by a scale-down loop that removes the pod's ordinal, which found none |
| DrainSafety.DrainTouches | internal/controller/distributedcache_controller.go:733-767 | a scale-down loop, cut or not, writes timestamps only on pods with an ordinal between request and count and changes nothing else |
| DrainSafety.SurvivorsUnmarked | internal/controller/distributedcache_controller.go:735-737 | in a run without deletion, a pod whose ordinal every request exceeds never gets a timestamp |
| DrainSafety.MarkedOnce | internal/controller/distributedcache_controller.go:733-767 | exactly one step of a run writes an instance's timestamp, however often passes are retried |
| DrainSafety.PublishedMembers | internal/controller/ring.go:83-120 | a published ring holds, each once and in ordinal order, exactly the pods that were running, ready, not terminating and unannotated at its publication |
| DrainSafety.ExcludedSince | internal/controller/ring.go:90-111 | from the first publication after its annotation, every ring leaves an instance out while it exists |
| DrainSafety.LoweringPass | internal/controller/distributedcache_controller.go:517-521 | only a pass with a complete drain lowers the StatefulSet, to the request it read, over pods that have aged |
| DrainSafety.LoweringIsSafe | internal/controller/distributedcache_controller.go:168-186 | every pod lowered over was marked a grace period ago and left out of every ring since the first publication after that |
| DrainSafety.OfferedIffUnpublished | internal/controller/distributedcache_controller.go:168-186 | an annotated instance is still in the stored ring exactly when it was at the annotation and nothing has been published since |
| Contract.ClearAfter | internal/cacheclient/client.go:91-136 | three poll intervals after a publication, two for a ticking client, and one more for each missed poll, the client holds a ring without the drained pod |
| Contract.AgedPodIsClear | internal/controller/distributedcache_controller.go:763-766 | a pod past a grace that covers those intervals, the publication delay and a second is unknown to the client |
| Contract.AgedPodIsOut | internal/controller/distributedcache_controller.go:763-766 | a pod past a grace that covers the publication delay and a second is in no ring |
| Contract.DrainContract | internal/controller/distributedcache_controller.go:688-770 | when the StatefulSet is lowered over a pod, and while that instance exists, no client's lookup answers with it for any key, however many polls fail, as long as the grace makes up for them |
| Deletion.FinalizerGuards | internal/controller/distributedcache_controller.go:141-158 | whatever has been created, the resource carries the finalizer |
| Deletion.NoDrainSkipped | internal/controller/distributedcache_controller.go:778-858 | the resource disappears only before anything exists, or by a release after every listed pod aged and the cell is gone |
| Deletion.FarewellMembers | internal/controller/distributedcache_controller.go:797-826 | a deletion pass publishes no pod it listed; its ring is empty exactly when no later pod is eligible |
| Deletion.LastRing | internal/controller/distributedcache_controller.go:772-846 | when teardown begins the ring is the one its pass's farewell left; if that write went through, it is empty exactly when no pod that appeared after the listing was eligible |
| Deletion.TeardownAged | internal/controller/distributedcache_controller.go:828-852 | teardown begins only over pods that have aged |
| Deletion.DeletionContract | internal/controller/distributedcache_controller.go:772-858 | when teardown begins, no client's lookup answers with a pod the pass listed, under the same account of missed polls |
| Deletion.DeletionWaitsForUnreadable | internal/controller/distributedcache_controller.go:811-815 | deletion never completes while an instance with an unreadable timestamp exists |
| Status.MembersBelowRequest | internal/controller/distributedcache_controller.go:716-769 | ring members are below the request exactly when no pod created during the pass is eligible above it, and then at most as many |
| Status.RingBound | internal/controller/distributedcache_controller.go:181-193 | without pods created during a pass its ring has at most as many members as replicas requested |
| Status.ReportedConditions | internal/controller/distributedcache_controller.go:906-951 | at a publication: Available exactly when the ring has at least the requested members, Progressing exactly when it has not that many, and which reason is given when |
| Status.ConditionsAgreeIff | internal/controller/distributedcache_controller.go:906-951 | the ring is never reported unpublished; Available is the negation of Progressing exactly when the ring is within the request |
| Status.AvailableIffSteady | internal/controller/distributedcache_controller.go:918-950 | after a pass without pod creation Available holds exactly when Progressing does not |
| Progress.NoFutureMarks | internal/controller/distributedcache_controller.go:742-761 | no timestamp lies in the future |
| Progress.DrainCompletes | internal/controller/distributedcache_controller.go:729-769 | a grace period after a full drain loop the next full loop is complete |
| Progress.DeletionCompletes | internal/controller/distributedcache_controller.go:793-819 | a grace period after a full deletion loop that met no unreadable timestamp, and without pods created since, the next full loop is complete |
| Progress.CountMoves | internal/controller/distributedcache_controller.go:517-521 | while the request stays, the count stays where it was until it becomes the request, and then stays there |
| Progress.FullPassScales | internal/controller/distributedcache_controller.go:168-179 | the write of a full pass sets the request when the drain was complete and holds a larger count otherwise |
| Progress.ScaleDownBounded | internal/controller/distributedcache_controller.go:201-203 | full passes two seconds apart bring the StatefulSet to the request within max(1, ceil(grace / 2)) + 1 passes |
| Disruption.OnlyLeaversLoseKeys | internal/cacheclient/client.go:141-197 | over a drain, a client that moves to the new ring keeps a key exactly when its owner is still eligible |
| GraceBound.TooShort | internal/cacheclient/client.go:91-136 | for every smaller grace a run in which a client still routes to the pod when the StatefulSet is lowered |
| GraceBound.GraceIsExact | internal/controller/distributedcache_controller.go:763-766 | such a run exists exactly when the grace is below three poll intervals (two for a client past its first poll), one per missed poll, the publication delay and a second |
| GraceBound.DefaultGraceCovers | DESIGN.md:348-354 | the default grace covers exactly clients past their first poll that miss no poll, with a publication within nine seconds |
| Limits.CutPassesSkipPublication | internal/controller/distributedcache_controller.go:168-186 | a run that lowers the StatefulSet over a pod the ring still offers |
| Limits.RingOutgrowsRequest | internal/controller/distributedcache_controller.go:181-193 | a run whose ring is larger than the request, so that Available and Progressing are both reported |
| Limits.LastRingCanOffer | internal/controller/distributedcache_controller.go:797-826 | a run whose last ring before teardown offers a pod |
| Quota.MemoryCapFits | internal/controller/distributedcache_controller.go:326-332 | the memory cap fits exactly r + floor(r / 4) pods |
| Quota.RolloutHeadroom | internal/controller/distributedcache_controller.go:341-359 | both caps admit an extra pod exactly from four replicas on |

## Left out

- Contract.DrainContract: assumes what the source does not control: a ring published within `delay` of the annotation, missed polls that cost at most `lost`, no scheduling delay in the client's loop, a wall clock that does not go back.
- Progress.ScaleDownBounded: assumes that the request stays and that no doomed pod is created anew during the scale-down.
- Reconciler.Cluster.DeleteCellNamespace: does not model a NotFound answer to the delete, because in the model nobody else removes the cell between the read and the delete.
- Status.RingBound: assumes no pod is created between the pass's drain listing and its publication; `Status.MembersBelowRequest` has the exact condition.
- Interleaving inside one reconcile method: each method is one step, and no pod is created between the drain listing and the StatefulSet write; several operators and stale informer caches are not modelled.
- Other hands: nobody else writes, changes or removes a well-formed drain annotation, scales or deletes the StatefulSet, or deletes the cell.
- Poll intervals that differ between the clients of one cache: all share the interval in `Config`.
- Sorting in place: `sort.Slice` is modelled on sequences, and everything is stated for any sorted permutation.
- Unset replica counts: the resource's default and minimum make the request at least one; a StatefulSet always has a count.
- A second custom resource of the same name while the first one's objects are still being collected.
- Finalizers and owner references of other controllers, and pods of other owners under the same labels.
- Timestamps near the ends of the int64 range, where `time.Unix` itself overflows.
- JSON and timestamp text: a payload or annotation is absent, readable or unreadable.
- The Degraded and TenantIsolated conditions, events, logs, Services, NetworkPolicies, pod templates and labels: field assignments.
- The cache server, its LRU store and HTTP handlers, and the command-line programs.
- Memory quantities that are not whole bytes.
