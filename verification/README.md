# Verification of pvc-chonker

pvc-chonker grows Kubernetes PersistentVolumeClaims. Several actors change the same claims: an
expander that works through all of them in periodic cycles, a coordinator that raises the members
of a group to the group's largest request, an admission webhook that fills annotations from group
templates, and users. This project models these actors, in Dafny 4.11, and proves what they keep
together. `dafny verify dfyconfig.toml` checks it.

## How it is modelled

* `Kube`, `Text`: claims as plain values (bytes are integers, percentages exact rationals, times
  nanoseconds), and the Go string functions the code uses.
* `Annotations`, `Resolution`: configuration from annotations, policies and global defaults, and
  the decisions that read it. Library parsers and printers are function values in a `Codec`; where a
  result needs a print/parse round trip, the lemma says so.
* `Growth`: the size arithmetic, int64 wrap-around included.
* `JsonPointer`, `Webhook`: the patch path and the in-place path of the webhook.
* `Kubelet`, `Storage`: the two caches, their concurrent filling, and the single-claim scan.
* `ApiServer`: versioned objects. An update carrying a stale version is refused, and any update may
  be refused. This is the assumption the model makes about its environment; what the API server
  answers is an input of every method that asks it.
* `Expander`, `Cycle`: one claim through the guard chain and one whole cycle as methods of a class
  that updates its fields, and the worker pool with all its interleavings as a state machine.
* `Coordinator`: one group reconcile as methods of a class, and convergence under any pattern of
  refused updates.
* `Cluster`, with `Wakeup`, `Cooldown` and `Ceiling`: expander replicas, coordinator, informer with
  its pending notices, users and clock as one state machine. Every actor works on stored copies that
  may be stale; the three modules prove one whole-run property each.
* `Progress`: what the actors of that machine can get done.
* `PolicyStatus`: the policy controller, its watch mapping, queue and semaphore.
* `GroupLocks`: the table of per-group mutexes.

A method that updates state is proved against a function or predicate; what the source promises is
then proved about that function or about every run.

## Where the code and its documentation differ

The model follows the code; a lemma states each point for all inputs.

* The documented precedence of annotation, policy and global settings (`README.md:160-208`,
  `docs/guides/annotations.md:171-192`) fails both ways. Settings that an enabled claim leaves out fall
  through past the policy (`Resolution.AnnotatedFollowsPrecedenceIff`, `UnspecifiedSkipsPolicy`), and
  annotations of a claim that a policy configures are not read
  (`Resolution.PolicyFollowsPrecedenceIff`, `AnnotationLosesToPolicy`).
* A claim annotated "false" (`docs/ADVANCED_FEATURES.md:229-245`) still resolves and is still expanded,
  with global settings and without a cooldown (`Expander.DisabledPvcExpandsIff`). So are the claims of
  a policy with `enabled: false` (`README.md:304`), with the policy's settings
  (`Expander.EnabledIsNotRead`, `Expander.PolicySaysNoExpandsAlike`).
* The cooldown (`README.md:314`) does not apply to claims managed by a policy
  (`Resolution.CooldownGuardsIff`, `Expander.PolicyManagedExpandsInCooldown`).
* The maximum size (`README.md:316`) does not bind the coordinator
  (`Coordinator.CoordinationRespectsLimitsIff`); `Ceiling.RequestsStayBelowCeiling` says when the
  requests of a group stay bounded all the same. Nor does it bind an expansion whose arithmetic
  overflows (`Growth.WithinMaxSizeIff`, `Growth.HugeStepPassesMaxSize`).
* "New size must be larger than current size" (`docs/guides/annotations.md:168`) is not checked. It
  fails when the amount asked for stays within the whole GiBs the volume has, as with a zero
  increase and minimum step, and when the padding overflows (`Growth.NewSizeGrowsIff`,
  `Growth.ZeroStepDoesNotGrow`). An expansion may also lower a request the coordinator raised
  (`Growth.ExpansionLowersIff`).
* Only the patch path of the webhook honours "false" (`Webhook.PathsAgreeIff`,
  `Webhook.OptOutIsIgnoredInPlace`).
* The comment at `internal/controller/pvcgroup_controller.go:59` says the mutex is cleaned up after
  unlock; the deferred calls run in the other order (`GroupLocks.DeletionSplitsIff`). It takes two
  concurrent reconciles of one group to do harm (`GroupLocks.TwoReconcilesSplit`), which a work queue
  that hands out each key to one worker at a time never starts
  (`GroupLocks.QueuedReconcilesNeverSplit`).

## Model

| member | source | states |
|---|---|---|
| Wakeup.NoMissedWakeup | internal/controller/pvcgroup_controller.go:39-190 | in every interleaving, a group that is not queued, not in flight and named by no pending notice, and whose members the informer shows as they are, has all members at one request, and its status has the true count and that request |
| Wakeup.RunsStayAwake | internal/controller/pvcgroup_controller.go:159-190 | the invariant behind it: at rest a group is levelled up to undelivered changes, and a reconcile in flight holds the current listing unless another one is due |
| Wakeup.UnwokenMembersStay | internal/controller/pvcgroup_controller.go:167-190 | a watch event that names no group g, from the old or the new object, leaves g's membership alone |
| Progress.WakesIff | internal/controller/pvcgroup_controller.go:167-190 | a watch event names exactly the group in the claim's annotation, in its namespace |
| Progress.ChangeReachesTheQueue | internal/controller/pvcgroup_controller.go:159-190 | a change the informer has not seen reaches it, and then the groups that the old and the new claim name are queued |
| Progress.CoordinationGoesThrough | internal/controller/pvcgroup_controller.go:39-119 | a queued group whose members the informer shows as they are can be reconciled to one request and a status that reports them |
| Progress.ExpansionGoesThrough | internal/controller/persistentvolumeclaim_controller.go:152-352 | a claim that passes every guard can be expanded: its new size and the stamp of now are stored, and nothing else of any claim changes |
| Progress.GuardsPassIff | internal/controller/persistentvolumeclaim_controller.go:163-184 | a copy is let through exactly when it is Bound, in file-system mode, not resizing, and out of its cooldown |
| Cooldown.ExpansionsAreSpaced | internal/controller/persistentvolumeclaim_controller.go:180-184 | any two successful expansions of a claim with constant annotated cooldown are stamped more than the cooldown less one second apart, over all runs with stale copies, coordinator writes and several replicas, while the clock shows dates RFC 3339 can write |
| Cooldown.WindowIsBounded | pkg/annotations/annotations.go:180-188 | n + 1 expansions span at least n times that distance |
| Cooldown.RunsStayPaced | internal/controller/persistentvolumeclaim_controller.go:323-352 | the invariant behind it: the stored object carries the last stamp, and a worker whose copy is still current read it |
| Cooldown.StampSurvives | internal/controller/pvcgroup_controller.go:142-146 | no step but an expansion of the claim changes its stamp; a coordinator update carries the stamp it read |
| Ceiling.RequestsStayBelowCeiling | internal/controller/pvcgroup_controller.go:121-147 | if members start and are edited at or below M and each resolves to a non-zero max-size of at most M, no interleaving leaves a member's request above M |
| Ceiling.RunsStayCapped | internal/controller/persistentvolumeclaim_controller.go:331-345 | the invariant behind it: no version ever stored for a member is above M, and workers with a current copy know a limit |
| Cluster.VersionedStep | internal/controller/persistentvolumeclaim_controller.go:341-345 | every copy that an informer, a worker or a reconcile holds is a version the API server stored, and stays one |
| Cluster.CurrencyComesFromBefore | internal/controller/pvcgroup_controller.go:143-146 | a copy that a writer can still send has not been overtaken: any accepted write to its object outdates it |
| Coordinator.ConvergesToInitialMaximum | internal/controller/pvcgroup_controller.go:76-109 | after one completed reconcile all members equal the initial maximum, exactly as many writes were made as members lagged, and further reconciles write nothing |
| Coordinator.WritesPlusLagAreConserved | internal/controller/pvcgroup_controller.go:131-156 | under any pattern of refusals and retries, writes made plus members still lagging is constant, and the target never moves |
| Coordinator.RoundShrinksLag | internal/controller/pvcgroup_controller.go:131-156 | a reconcile keeps membership and maximum; each write takes one member out of the lag |
| Coordinator.RoundOnlyRaisesMembers | internal/controller/pvcgroup_controller.go:134-146 | coordinator writes never lower a request, never touch a non-member, and change nothing but the request |
| Coordinator.NothingLagsIff | internal/controller/pvcgroup_controller.go:121-140 | nothing lags exactly when all members make one common non-negative request |
| Coordinator.CoordinationRespectsLimitsIff | internal/controller/pvcgroup_controller.go:121-146 | coordination leaves every member within its own max-size exactly when no member requested more than any member's max-size to begin with, and none is negative |
| Coordinator.CoordinationExceedsIff | internal/controller/pvcgroup_controller.go:134-146 | a member ends above its own max-size exactly when the initial maximum is above it |
| Coordinator.MemberPushedPastItsLimit | internal/controller/pvcgroup_controller.go:134-146 | for instance 1 GiB with max-size 2 GiB beside a member of 3 GiB |
| Coordinator.PVCGroupReconciler.CalculateLargestSize | internal/controller/pvcgroup_controller.go:121-129 | the loop finds the largest request of the members, or zero |
| Coordinator.PVCGroupReconciler.CoordinatePVCSizes | internal/controller/pvcgroup_controller.go:131-156 | exactly the members below the target are raised to it, stopping at the first whose update is refused; it succeeds exactly when none is, and nothing else changes |
| Coordinator.PVCGroupReconciler.SelectMembers | internal/controller/pvcgroup_controller.go:76-92 | the filter keeps exactly the members, each annotated with the group and with enabled "true" |
| Coordinator.PVCGroupReconciler.Reconcile | internal/controller/pvcgroup_controller.go:55-119 | one reconcile is one convergence round; it is retried exactly on a failed read, a refused update of a lagging member or a refused status update, ends without the group exactly when that is gone, publishes only on completion, and leaves claims that are not enabled alone |
| Coordinator.MembersAre | internal/controller/pvcgroup_controller.go:79-88 | members are exactly the claims of the group's namespace annotated with its name and with enabled "true" |
| Coordinator.StatusReportsMembers | internal/controller/pvcgroup_controller.go:94-101 | the status counts exactly these claims and gives the largest of their requests, or keeps the size when there is none |
| Cycle.PoolIsBounded | internal/controller/persistentvolumeclaim_controller.go:130-143 | in every schedule at most MaxParallel claims are inside the reconcile |
| Cycle.EntersIff | internal/controller/persistentvolumeclaim_controller.go:130-138 | a waiting goroutine gets in exactly while fewer than MaxParallel are inside |
| Cycle.AnyCycleRuns | internal/controller/persistentvolumeclaim_controller.go:87-143 | between cycles a cycle over any claims can begin, with empty caches, and be brought to its end |
| Cycle.FailedCycleOnlyClears | internal/controller/persistentvolumeclaim_controller.go:87-117 | a cycle whose list or metrics fetch fails leaves empty caches and touches nothing else |
| Cycle.StepFollowsReconcile | internal/controller/persistentvolumeclaim_controller.go:157-240 | resolution, guards and expansion do to a worker of any interleaving what they do to a single reconcile |
| Cycle.EffectiveParallel | internal/controller/persistentvolumeclaim_controller.go:53-56 | a positive setting is kept, any other becomes 4, so the pool has a slot |
| Cycle.ClearNeverOverlapsWorkers | internal/controller/persistentvolumeclaim_controller.go:87 | the cache is cleared only when every worker of the cycle before is done |
| Cycle.NeverStuck | internal/controller/persistentvolumeclaim_controller.go:133-143 | some step is enabled in every reachable state of a running cycle |
| Cycle.StepsUseUpTheCycle | internal/controller/persistentvolumeclaim_controller.go:133-143 | every step decreases a measure, so every schedule ends |
| Cycle.ExitsAreFinal | internal/controller/persistentvolumeclaim_controller.go:152-264 | a claim that took its exit is not reconciled again in the cycle |
| Cycle.OutcomesAreAccounted | internal/controller/persistentvolumeclaim_controller.go:225-240 | in every reachable state threshold-reached is successes plus expansion failures plus workers inside the expansion; limit-reached stays within the failures and those workers; writes are successes, or none in dry run |
| Cycle.CycleSettles | internal/controller/persistentvolumeclaim_controller.go:152-264 | between cycles each managed claim has one exit, and every counter moved by the number of claims that took its exit |
| Cycle.CacheAnswersAreDirect | internal/controller/persistentvolumeclaim_controller.go:276-308 | under any interleaving a cached answer is yes exactly when the class says allowVolumeExpansion is true, failed lookups are not cached, only claims of such classes reach the expansion, and both maps have equal domains between lookups |
| Cycle.ClassStepIsDirect | internal/controller/persistentvolumeclaim_controller.go:281-307 | a worker passes only a class that allows expansion, refuses one that does only by its own failed lookup, and on a cache hit passes exactly when the class allows |
| Cycle.RefusalsAreDirect | internal/controller/persistentvolumeclaim_controller.go:286-292 | in every run a claim refused although its class allows expansion had its own lookup fail in that cycle |
| Cycle.CacheTruthStep | pkg/cache/storage.go:20-51 | every access of any worker to the two maps keeps each entry the class's own, and the domains equal but for the lookups between their two stores |
| Cycle.PassedAreCachedStep | internal/controller/persistentvolumeclaim_controller.go:276-308 | every step keeps the class of each worker that passed the class guard cached |
| Cycle.FsTypeAnswers | internal/controller/persistentvolumeclaim_controller.go:310-321 | a worker past the class guard gets its class's true file-system type, or the "ext4" fallback while another lookup of that class is between its two stores |
| Cycle.RunsKeepInvariant | internal/controller/persistentvolumeclaim_controller.go:78-150 | the conjunction of these invariants holds in every run |
| Expander.PersistentVolumeClaimReconciler.ReconcileAll | internal/controller/persistentvolumeclaim_controller.go:78-150 | a cycle reconciles each managed claim once, to the end that the API server's answers and the clock determine, and touches no other; a failed list or metrics fetch changes no claim |
| Expander.ManagedIsExact | internal/controller/persistentvolumeclaim_controller.go:99-105 | the workers get every listed claim that resolves, once, and no other |
| Expander.SettleAllBalances | internal/controller/persistentvolumeclaim_controller.go:225-240 | over a cycle the crossings are the expansions plus the failures, and writes are the expansions, or none in dry run |
| Expander.PersistentVolumeClaimReconciler.ReconcilePVC | internal/controller/persistentvolumeclaim_controller.go:152-264 | the end is determined by claim, classes, metrics, clock and answers; only an expansion writes, and exactly size and stamp; a claim with a resize of volume or file system under way is not tried; only Bound file-system claims of classes that allow expansion get past the class |
| Expander.EarlyGuardsMean | internal/controller/persistentvolumeclaim_controller.go:157-172 | a managed claim is not eligible exactly when it is not Bound or not in file-system mode, and refused exactly when its class does not allow expansion or could not be fetched |
| Expander.LateGuardsMean | internal/controller/persistentvolumeclaim_controller.go:174-223 | resizing, cooldown, missing metrics and threshold each end the reconcile exactly under their condition on the claim, in that order |
| Expander.SettleMoves | internal/controller/persistentvolumeclaim_controller.go:168-240 | each end of a reconcile moves exactly its counters |
| Expander.PersistentVolumeClaimReconciler.ExpandPVC | internal/controller/persistentvolumeclaim_controller.go:323-352 | outside dry run an acceptable size is written exactly when the copy is current and the server does not refuse; the write changes size and stamp alone; dry run writes nothing |
| Expander.PersistentVolumeClaimReconciler.IsStorageClassExpandable | internal/controller/persistentvolumeclaim_controller.go:276-308 | the answer is yes exactly when the class says allowVolumeExpansion is true; it fails exactly on a miss that cannot be fetched, and then leaves the cache as it was |
| Expander.PersistentVolumeClaimReconciler.GetFilesystemType | internal/controller/persistentvolumeclaim_controller.go:310-321 | "unknown" without a class, the true type once cached, "ext4" otherwise |
| Storage.FsTypeMeans | internal/controller/persistentvolumeclaim_controller.go:298-305 | the parameter "fsType" wins over "csi.storage.k8s.io/fstype", and "ext4" stands in for both |
| Expander.ThresholdInBytes | internal/controller/persistentvolumeclaim_controller.go:200-218 | on consistent samples the threshold is reached exactly when the bytes or the inodes used make up the configured share |
| Expander.DisabledPvcExpandsIff | internal/controller/persistentvolumeclaim_controller.go:157-264 | a claim annotated "false", eligible and of an expandable class, is expanded exactly when it is not resizing, has metrics at a global threshold, and the global settings give an accepted size; its stamp has no say |
| Expander.DisabledPvcExpandsInCooldown | internal/controller/persistentvolumeclaim_controller.go:157-161 | for instance 10 GiB to 11 GiB for a claim annotated "False" and stamped this second |
| Expander.EnabledIsNotRead | internal/controller/persistentvolumeclaim_controller.go:157-264 | how a reconcile may end does not depend on the enabled flag of the configuration |
| Expander.PolicySaysNoExpandsAlike | pkg/annotations/policy.go:66-67 | the claims of a policy with `enabled: false` are expanded like those of any other |
| Expander.PolicyManagedExpandsInCooldown | pkg/annotations/policy.go:65-76 | for instance 10 GiB to 11 GiB for a policy-managed claim stamped this second |
| Growth.NewSizeIsExactIffFits | pkg/annotations/annotations.go:142-178 | the new size is the least GiB multiple at or above what was asked for exactly when that is at most 2^63 - 2^30 (and not a GiB or more below zero) |
| Growth.PercentIncreaseIs | pkg/annotations/annotations.go:147-157 | a number and a percent sign, spaces around or not, is that share of the size cut off to whole bytes, and an error when the number does not parse |
| Growth.WholePercentIncreaseIs | pkg/annotations/annotations.go:150-157 | a whole percentage p of a size is size * p / 100 |
| Growth.QuantityIncreaseIs | pkg/annotations/annotations.go:158-164 | any other increase is the quantity it parses to, or an error |
| Growth.AskedIs | pkg/annotations/annotations.go:166-172 | the amount asked for is the size plus the larger of increase and minimum step |
| Growth.NewSizeByPercent | pkg/annotations/annotations.go:142-178 | by a whole percentage the new size is the least GiB multiple at or above the size with its share or the minimum step added |
| Growth.TenPercentMore | pkg/annotations/annotations.go:142-178 | 100 GiB by "10%" are 110 GiB |
| Growth.NewSizeGrowsIff | pkg/annotations/annotations.go:142-178 | the new size is above the current one exactly when the padding does not overflow and more is asked for than the whole GiBs of the current size |
| Growth.ZeroStepDoesNotGrow | pkg/annotations/annotations.go:166-175 | an increase and minimum step of zero leave 10 GiB at 10 GiB, without any overflow |
| Growth.HugeStepPassesMaxSize | pkg/annotations/annotations.go:171-195 | an increase of "8Ei" overflows to a negative size, which passes a max-size of 2 GiB and lowers the request |
| Growth.NewSizeOrder | pkg/annotations/annotations.go:142-178 | new sizes are ordered as the wrapped amounts; so with a steady int64 increase a larger volume never gets a smaller one unless the padding overflows for it alone, and then it gets one of zero or less |
| Growth.SteepDecreaseShrinks | pkg/annotations/annotations.go:150-169 | an increase of -200 % with a negative minimum step is not steady: 3 GiB get less than 1 GiB |
| Growth.ExpansionsAreBounded | internal/controller/persistentvolumeclaim_controller.go:323-334 | with max-size M and a positive minimum step at most 1 + (M - c0)/GiB resizes complete, and none from above M, overflow included |
| Growth.WithinMaxSizeIff | internal/controller/persistentvolumeclaim_controller.go:326-334 | an expansion passes max-size exactly when there is none, the amount asked for fits the largest GiB multiple within it, or the padding overflows; for a negative max-size, when the wrapped amount rounds to no more; otherwise the limit is the reason |
| Growth.RefusalIsStickyIff | pkg/annotations/annotations.go:190-195 | once max-size refuses, it refuses at a larger capacity exactly while the amount is beyond it; with a steady int64 increase, until the padding overflows |
| Growth.GrowthCompounds | pkg/annotations/annotations.go:150-175 | n chained expansions by p percent from a GiB multiple c0 reach at least c0 * ((100+p)/100)^n despite truncation, while the percentages of the sizes are int64 values |
| Growth.ChainStepByPercent | pkg/annotations/annotations.go:150-175 | each step of a chain by p percent reaches what is asked for and less than a GiB more |
| Growth.ExpansionLowersIff | internal/controller/persistentvolumeclaim_controller.go:325-342 | an expansion lowers a positive request exactly when the padding overflows or the request is above the size rounded from the status capacity; without overflow that takes a capacity that lags behind the request |
| Resolution.EndToEndPrecedence | internal/webhook/pvcgroup_webhook.go:128-221 | webhook then resolution takes each of the six settings from the first of annotation, template (if the claim has an existing group) and global, whatever the policies; only an unreadable group refuses the claim |
| Resolution.ParseOfMerge | pkg/annotations/annotations.go:53-140 | parsing merged annotations succeeds exactly when the first-supplied values parse |
| Resolution.PoliciesIgnoredIff | pkg/annotations/policy.go:24-63 | no policy can influence the result exactly when the annotations decide on their own |
| Resolution.AnnotatedFollowsPrecedenceIff | pkg/annotations/policy.go:41-44 | a claim whose annotations parse resolves by the documented precedence annotation, policy, global exactly when every setting it does not annotate is the policy's and the global one alike |
| Resolution.PolicyFollowsPrecedenceIff | pkg/annotations/policy.go:46-62 | a claim that a policy configures has the settings of the documented precedence exactly when each annotated setting reads as the policy's, and its stamp reads |
| Resolution.DisabledFollowsPrecedenceIff | pkg/annotations/policy.go:25-39 | a claim annotated "false" does exactly when annotations and policy say nothing but what is global |
| Resolution.UnspecifiedSkipsPolicy | pkg/annotations/policy.go:41-44 | for instance an enabled claim without a threshold gets the global 80 %, not the policy's 75 % |
| Resolution.AnnotationLosesToPolicy | pkg/annotations/policy.go:57-59 | for instance a claim annotated only with a threshold of 90 % gets the policy's 75 % |
| Resolution.PolicyResultIgnoresAnnotations | pkg/annotations/policy.go:46-62 | when a policy is consulted nothing of the annotations is mixed in |
| Resolution.FirstMatchIsFirst | pkg/annotations/policy.go:51-62 | the policy found is the first that matches; an invalid selector before it stops the search with an error |
| Resolution.PolicyMeansItsAnnotations | pkg/annotations/policy.go:65-113 | a policy configures as its template's annotations would, exactly when its thresholds parse |
| Resolution.PolicyMeansItsReadableSettings | pkg/annotations/policy.go:65-113 | every policy configures as annotations with its readable settings would: a threshold that does not parse leaves the global one |
| Resolution.ResolvesIff | pkg/annotations/policy.go:24-63 | a claim is managed exactly when it is disabled, its annotations configure it, or the policies list and have a match before any invalid selector |
| Resolution.ParsesIff | pkg/annotations/annotations.go:64-137 | annotations configure a claim exactly when enabled is "true", in capitals or not, and all values in effect parse |
| Resolution.DisabledIff | pkg/annotations/policy.go:25-28 | "false", in capitals or not, disables, and nothing else does |
| Resolution.PercentageIs | pkg/annotations/annotations.go:222-247 | a percentage reads as p exactly when its text parses to p and p is between 0 and 100 |
| Resolution.CooldownGuardsIff | pkg/annotations/policy.go:65-76 | after a stamp the cooldown guard stops a claim exactly while the cooldown lasts and annotations that parse configure it |
| Resolution.StampStartsCooldown | pkg/annotations/annotations.go:180-220 | stamping an expansion changes no other setting and keeps the claim in cooldown until exactly one cooldown after the stamped second |
| Annotations.NewGlobalConfig | pkg/annotations/annotations.go:249-287 | defaults replace unset and unusable flags, and the increase returned always parses |
| Webhook.PathsAgreeIff | internal/webhook/pvcgroup_webhook.go:20-221 | in any map order the patch path and the in-place path leave the same annotations, exactly unless the claim opted out while its group would change it or cannot be read |
| Webhook.OptOutIsIgnoredInPlace | internal/webhook/pvcgroup_webhook.go:182-217 | for instance a claim annotated "false" gets its group's threshold in place, and not by patch |
| Webhook.PatchesPerformMerge | internal/webhook/pvcgroup_webhook.go:89-99 | in any map order the add patches (section 4.1 of RFC 6902) perform the merge in which existing annotations win |
| Webhook.Handle | internal/webhook/pvcgroup_webhook.go:48-124 | unless enabled is exactly "false", applying the response leaves what the in-place path leaves, in whatever order the map is visited; a claim annotated "false" is allowed as it is; only an unreadable group is an error; a patch is never empty |
| Webhook.Respond | internal/webhook/pvcgroup_webhook.go:48-124 | the answer in each case, with one add patch for each missing annotation, in map order |
| Webhook.Default | internal/webhook/pvcgroup_webhook.go:182-221 | the in-place loop leaves the merge, and an unreadable group leaves the claim alone |
| Webhook.DefaultedMeans | internal/webhook/pvcgroup_webhook.go:189-217 | without a group name nothing is added, an unknown group adds nothing, a known one everything the claim does not have, and an unreadable one is an error |
| Webhook.GetTemplateAnnotations | internal/webhook/pvcgroup_webhook.go:128-172 | exactly the template's settings the claim does not have |
| Webhook.RenderedSettings | internal/webhook/pvcgroup_webhook.go:135-169 | each setting is rendered under its own key, and nothing else is |
| Webhook.DefaultIsIdempotent | internal/webhook/pvcgroup_webhook.go:182-221 | admitting a claim again changes nothing |
| Webhook.FirstSupplierWins | internal/webhook/pvcgroup_webhook.go:213-217 | over any sequence of admissions with changing templates each key keeps its first supplier's value |
| JsonPointer.EscapeIsOnePass | internal/webhook/pvcgroup_webhook.go:174-179 | the two replacement passes equal a one-pass character map |
| JsonPointer.EscapeHasNoSlash | internal/webhook/pvcgroup_webhook.go:174-179 | an escaped key has no slash |
| JsonPointer.UnescapeInvertsEscape | internal/webhook/pvcgroup_webhook.go:174-179 | the unescape order of section 4 of RFC 6901 inverts the escape for every string |
| JsonPointer.EscapeIsInjective | internal/webhook/pvcgroup_webhook.go:174-179 | different keys escape differently |
| JsonPointer.PathNamesItsKey | internal/webhook/pvcgroup_webhook.go:93-99 | a patch path names exactly the annotation it was built for |
| Kubelet.FillIsConfluentIff | pkg/kubelet/cache.go:99-184 | every interleaving of all setter calls ends in the same cache exactly when the nodes agree on the last value each reports for a field of a claim |
| Kubelet.FillHoldsTheSampled | pkg/kubelet/cache.go:149-184 | every interleaving leaves exactly the sampled claims in the cache |
| Kubelet.SameReportIsConfluent | pkg/kubelet/cache.go:124-125 | behind a custom kubelet URL, where all nodes load one report, the schedule leaves no trace even if a series is repeated |
| Kubelet.LatestOfNodeIsReachable | pkg/kubelet/cache.go:99-118 | each node's last value is what some schedule leaves |
| Kubelet.FetchAllNodeMetrics | pkg/kubelet/cache.go:99-118 | the concurrent fetch makes an interleaving of the nodes' calls and fails exactly when the list is missing or empty or a node fails |
| Kubelet.GetAllVolumeMetrics | pkg/kubelet/cache.go:84-97 | with agreeing last values the result is that of fetching the nodes one after the other |
| Kubelet.MetricsCache.FetchNode | pkg/kubelet/cache.go:149-184 | one node's four family loops, in order |
| Kubelet.MetricsCache.SetField | pkg/kubelet/cache.go:247-285 | a setter changes one field of one record and creates the record when missing |
| Kubelet.MetricsCache.CalculateUsagePercentages | pkg/kubelet/cache.go:287-301 | derived values are computed in every record, once |
| Kubelet.CacheHoldsLatest | pkg/kubelet/cache.go:247-285 | after any calls the cache holds exactly the sampled keys with the last value of each field |
| Kubelet.CacheKeyIsInjective | pkg/kubelet/cache.go:221-223 | namespaces without a slash keep distinct claims apart |
| Kubelet.BulkRefinesScanIff | pkg/kubelet/cache.go:287-301 | cache and scan give the same record exactly when the claim is not mentioned or its last values satisfy 0 < available <= capacity and, if inodes are reported, used <= total |
| Kubelet.ConsistentRecordsBalance | pkg/kubelet/cache.go:287-301 | then used + available = capacity, free + used = total inodes exactly when used <= total, and percentages lie in [0,100] |
| Kubelet.ParseVolumeMetrics | pkg/kubelet/metrics.go:48-112 | the scan keeps the last value of each field of the claim and derives the rest, or finds nothing |
| Kubelet.ScanMeans | pkg/kubelet/metrics.go:76-112 | the scan finds nothing exactly without a capacity or a free size, and clamps used bytes and inodes |
| Kubelet.ScanReadsTheLast | pkg/kubelet/metrics.go:51-74 | the value of a field is that of its last line |
| Kubelet.BulkMeans | pkg/kubelet/cache.go:287-301 | the bulk path keeps the values as they are: where there is a capacity, used and available make it up, and likewise for inodes |
| Kubelet.NodeCallsAre | pkg/kubelet/cache.go:149-184 | exactly the samples with both a name and a namespace are recorded |
| PolicyStatus.StatusIsRightAtRest | internal/controller/pvcpolicy_controller.go:34-122 | if the mapping's list calls succeed, a policy that nothing will wake and that is not in flight has a valid selector and counts exactly its matching claims |
| PolicyStatus.InvalidSelectorNeverRests | internal/controller/pvcpolicy_controller.go:52-56 | in every run, list failures included, a policy with an invalid selector is due or in flight with nothing counted |
| PolicyStatus.FailedListLeavesStaleIff | internal/controller/pvcpolicy_controller.go:97-101 | when the mapping's list call fails for a change of a claim, a policy at rest is left with a wrong count exactly when the change makes the claim match or stop matching |
| PolicyStatus.FailedListPublishesStaleIff | internal/controller/pvcpolicy_controller.go:58-69 | a reconcile that had already counted then publishes a wrong count under exactly the same condition |
| PolicyStatus.FailedListBeforeCountingIsHarmless | internal/controller/pvcpolicy_controller.go:41-69 | a reconcile that had not listed the claims yet publishes the right count all the same |
| PolicyStatus.FailedListLeavesStaleStatus | internal/controller/pvcpolicy_controller.go:97-101 | for every policy and matching claim there is a run that ends at rest with a wrong count |
| PolicyStatus.MappingNamesCounters | internal/controller/pvcpolicy_controller.go:103-121 | the mapping names exactly the policies whose reconcile counts the claim |
| PolicyStatus.CountMatching | internal/controller/pvcpolicy_controller.go:58-63 | the loop counts the matching claims of the namespace |
| PolicyStatus.FindPVCPoliciesForPVC | internal/controller/pvcpolicy_controller.go:89-122 | the loop requests exactly the woken policies, and none when the list call fails |
| PolicyStatus.PVCPolicyReconciler.Reconcile | internal/controller/pvcpolicy_controller.go:41-75 | an update publishes the number of claims of the namespace that the selector matches; a retry follows exactly a failed read, a refused update or an invalid selector |
| PolicyStatus.SlotsAreBounded | internal/controller/pvcpolicy_controller.go:37-39 | at most ten reconciles are past the semaphore |
| PolicyStatus.EntersIff | internal/controller/pvcpolicy_controller.go:37-39 | a blocked reconcile gets in exactly while fewer than ten are past the semaphore |
| PolicyStatus.FailureRequeues | internal/controller/pvcpolicy_controller.go:47-72 | an error at any point past the semaphore puts the policy back on the queue |
| GroupLocks.GroupsAreExclusive | internal/controller/pvcgroup_controller.go:42-61 | while no reconcile of a key finds its group gone, all its reconciles use one mutex and at most one is between lock and unlock |
| GroupLocks.LoadsOrStores | internal/controller/pvcgroup_controller.go:43-45 | a reconcile loads the mutex of its key if there is one, and stores a new one if not |
| GroupLocks.HolderReleases | internal/controller/pvcgroup_controller.go:51-61 | every holder can come to release its mutex |
| GroupLocks.BlockedOnlyBySameKey | internal/controller/pvcgroup_controller.go:42-53 | a waiting reconcile is blocked exactly by one of the same key that holds its mutex, in all runs |
| GroupLocks.DeletionSplitsIff | internal/controller/pvcgroup_controller.go:53-60 | after a deletion two reconciles of the group can come to work at once exactly when another one had loaded a mutex and not finished |
| GroupLocks.TwoReconcilesSplit | internal/controller/pvcgroup_controller.go:53-60 | for instance two reconciles load one mutex, the first locks, finds the group gone and deletes |
| GroupLocks.QueuedReconcilesNeverSplit | internal/controller/pvcgroup_controller.go:159-165 | a work queue, which starts a reconcile of a key only when none is under way, rules that out |
| GroupLocks.LockKeyIsInjective | internal/controller/pvcgroup_controller.go:43 | groups of namespaces without a slash have lock keys of their own |

## Left out

* HTTP, node proxy and kubelet fetching, URL validation, Prometheus text and the line pattern: the
  model starts from parsed samples; the scan's error for a value that does not fit int64 goes with them.
* The syntax of quantities, durations, times and floating point numbers: a `Codec` stands for the
  parsers and printers. `TimesRoundTrip` (years 1 to 9998) and `PrintingRoundTrips` (int64 values)
  are explicit hypotheses, as is the parse result of a literal where a lemma has one.
* IEEE rounding, NaN and infinities: percentages and percentage increases are exact rationals.
* Converting an out-of-range float to int64 gives the least int64, as on amd64; Go leaves it open.
* Label selector internals: a selector is a match predicate with a validity flag.
* A nil annotation or label map is the empty map, and a claim without a storage request is not
  modelled (writing to its nil request map would panic).
* int32 wrap-around of member and match counts.
* Resizing by the storage driver: capacity and conditions change through arbitrary edits of the object.
* Logging, events, gauges and response times; only the counters named above are kept.
* Admission decoding and response building beyond the patch list.
* `cmd/main.go`, CRD generation, scheme registration, `pkg/utils/sanitize.go`, `internal/providers`,
  leader election, manifests and scripts.
- Cluster.VersionedStep: the informer shows each claim's versions in an order that moves forward, but
  groups as they are. The class, metrics and threshold guards may let any claim pass or drop it, and
  a failed policy list drops it.
- Cycle.RunsKeepInvariant: resolution and metrics of a worker are arbitrary, so the invariant covers
  more runs than the code has; classes change only between cycles.
- Expander.PersistentVolumeClaimReconciler.ReconcileAll: runs the reconciles one after the other; their interleavings
  are the subject of `Cycle`.
- PolicyStatus.StatusIsRightAtRest: reads come from the informer's cache, and a status update succeeds
  or is refused without regard to versions.
- Kubelet.FetchAllNodeMetrics: a node that fails makes no calls, and cancelling the others is not
  modelled, because the cache is dropped then.
