# kubeEP event pre-scaling, modelled in Dafny

kubeEP pre-scales Kubernetes clusters on Google Kubernetes Engine (GKE) ahead
of planned traffic events. A user registers an event: a time window on a
cluster, plus the Horizontal Pod Autoscalers (HPAs) to raise during it. About
an hour before the start, a one-minute cron executes the event:

- it matches the event's scheduled HPA targets against the live HPAs;
- it works out each node pool's capacity, minus daemon-set overhead;
- it adds up the pods, CPU and memory every workload will request on each pool;
- it raises each pool's autoscaling maximum by the node-bound sizing rule;
- it writes the new HPA bounds;
- it marks the targets SUCCESS and the event PRESCALED, or the event FAILED.

Shortly before the start the event is WATCHING. Every 30 seconds until its end
the watcher records node counts per pool and one status row per target. After
the end the event is SUCCESS.

The project models that core. Each Go source file becomes one module:

- Data are datatypes.
- Tables, caches and registries become classes whose methods update `seq` or `map` fields.
- Loops become methods proved against specification functions.
- Cloud APIs, Kubernetes, Redis, the database and the clock are inputs: replies
  in a `Gateway`, and per-key reply functions.

| module | models |
|---|---|
| `Common`, `Strings` | Go `(value, error)` results, the status enumerations, `strings.Split`/`Join`/`ReplaceAll` |
| `Matcher` | internal/pkg/util/k8s.go: pod-to-pool matching and the node-name parser |
| `Capacity` | internal/cron/gcp.go: per-pool capacity after daemon sets and the node-bound sizing rule |
| `HpaApi` | internal/usecase/cluster.go: HPA version dispatch, listings, batch update, scale-target resolution |
| `Targets` | internal/usecase/scheduled_hpa_config.go: the scheduled-HPA-config table |
| `Events`, `CronEvents` | internal/repository/event.go, internal/usecase/event.go: the events table, due windows, the status helpers of internal/cron/cron.go |
| `HpaPartition`, `Demand`, `NodePools`, `Engine` | internal/cron/gcp.go: `execGCPEvent` from the HPA partition to the final status |
| `Naming` | GKE cluster names, GCP resource paths, HPA cache keys, the `name\|namespace` key |
| `GcpCustomAuth` | internal/pkg/k8s/auth/gcp_custom/gcp_custom.go: credential registry and conditional transport |
| `GkeCluster` | internal/usecase/gcp_cluster.go: cluster listing, registration, client guard, node listing |
| `HpaCache` | internal/repository/k8s_hpa.go: the Redis cache policy of the HPA repository |
| `GormUuid` | internal/pkg/gorm/datatype/uuid.go: the UUID column's `Scan`, `GetUUID`, `SetUUID` |
| `CronWatch` | internal/cron/cron.go: `watchNodePool`, `watchHPA`, `watchEvent`, `Start` |
| `EventHandler` | internal/handler/event.go: `RegisterEvents`, `UpdateEvent` |
| `GcpHandler` | internal/handler/gcp.go: datacenter registration, cluster listing, cluster registration |

## Model

| member | source | states |
|---|---|---|
| Strings.Split | internal/cron/gcp.go:201-204 | at least one piece, and no piece contains the separator |
| Strings.SplitJoin | internal/cron/cron.go:272-276 | splitting a join of separator-free pieces gives the pieces back |
| Strings.JoinSplit | internal/cron/cron.go:272-276 | joining the pieces of a split gives the string back |
| Strings.ReplaceAll | internal/pkg/util/k8s.go:14 | `strings.ReplaceAll` for a non-empty pattern, left to right over non-overlapping occurrences; `ReplaceAllWithoutOccurrence` states that a string without the pattern is kept |
| Matcher.MatchNodeSelectorTerms | internal/pkg/util/k8s.go:29-32 | true iff some term admits the labels; an error iff no term admits and some term is malformed; false otherwise |
| Matcher.CheckPodNodePoolMatch | internal/pkg/util/k8s.go:19-41 | an error (`InvalidNodeSelector`) iff the required affinity is malformed; true iff the selector matches and the affinity admits the labels |
| Matcher.UnconstrainedPodMatchesEveryPool | internal/pkg/util/k8s.go:24-39 | an empty selector with no affinity matches every label set |
| Matcher.StripHashSuffix | internal/pkg/util/k8s.go:15-16 | removes a trailing `-<8 [a-z0-9]>-<4 [a-z0-9]>` and otherwise leaves the name unchanged |
| Matcher.NodePoolNameRoundTrip | internal/pkg/util/k8s.go:13-17 | a GKE node name `gke-<project>-<pool>-<h8>-<h4>` parses back to its pool |
| Matcher.ParseGcpNodePoolByNodeName | internal/pkg/util/k8s.go:13-17 | every copy of `gke-<project>-` removed, then the hash suffix; `NodePoolNameRoundTrip` states what it recovers |
| Capacity.SumContainerRequests | internal/cron/gcp.go:238-247 | the loop over containers returns the pod's total request |
| Capacity.ContainerWithinTotal | internal/cron/gcp.go:238-247 | each container's request is at most the pod's total |
| Capacity.DaemonSetOverhead | internal/cron/gcp.go:326-356 | an error iff some daemon set's matcher errs; the overhead counts at most every daemon set |
| Capacity.OverheadWithinAllDaemonSets | internal/cron/gcp.go:326-356 | a node's overhead never exceeds what all daemon sets request |
| Capacity.MatchDaemonSets | internal/cron/gcp.go:330-356 | the daemon-set loop computes `DaemonSetOverhead` |
| Capacity.PodMaximumIgnoresDaemonSets | internal/cron/gcp.go:373-383 | available pods lose the matched daemon sets, while the pod maximum is per-node pods times the node maximum with no deduction |
| Capacity.Unfulfilled | internal/cron/gcp.go:824-846 | zero iff the request fits the maximum; otherwise maximum plus unfulfilled is the request |
| Capacity.NeededNodes | internal/cron/gcp.go:851-853 | the least node count whose capacity covers the unfulfilled part (the ceiling) |
| Capacity.MaxNeeded | internal/cron/gcp.go:868-874 | at least each dimension's need and equal to one of them |
| Capacity.NewMaxNeverDecreases | internal/cron/gcp.go:876-880 | the new pool bound is never below the old one |
| Capacity.NewMaxCoversRequest | internal/cron/gcp.go:876-880 | the nodes added cover every dimension's unfulfilled request |
| Capacity.HeadroomKeepsBound | internal/cron/gcp.go:878 | with nothing unfulfilled and the pool below its maximum the bound is unchanged |
| Capacity.SaturatedPoolGrows | internal/cron/gcp.go:878-879 | a pool already at its maximum gains at least the margin of 5 |
| Capacity.ThirtyPodsPerNodeExample | internal/cron/gcp.go:373-383 | a worked pool's capacity figures |
| HpaApi.ParseVersion | internal/usecase/cluster.go:227-236 | a version is recognised only by its exact name |
| HpaApi.VersionNameRoundTrip | internal/constant/k8s_hpa.go:5-10 | every supported version's name parses back to it |
| HpaApi.AutoscalingV2IsUnknown | internal/usecase/cluster.go:227-236 | "autoscaling/v2" is not a supported listing version |
| HpaApi.FirstAutoscalingGroup | internal/usecase/cluster.go:110-130 | the index of the first group named "autoscaling", or none when no group has that name |
| HpaApi.GetLatestHpaApiVersion | internal/usecase/cluster.go:110-130 | the discovery error; a panic exactly when there is no "autoscaling" group or it lists no version (`Versions[-1]`); otherwise the last version of the first "autoscaling" group |
| HpaApi.SimpleAll | internal/usecase/cluster.go:253-305 | one `SimpleHPAData` per HPA, in order, tagged with the namespace listed under |
| HpaApi.GetAllHpaInCluster | internal/usecase/cluster.go:206-307 | the namespace error, or the collection over the namespaces in order |
| HpaApi.UnknownVersionFails | internal/usecase/cluster.go:227-236 | an unsupported version fails with `HPAVersionUnknown` as soon as there is a namespace |
| HpaApi.CollectSimpleEntries | internal/usecase/cluster.go:253-305 | every collected entry copies name, namespace, replicas and target from a listed HPA |
| HpaApi.TagAll | internal/usecase/cluster.go:339-384 | each listed object is tagged with the version used |
| HpaApi.CollectObjects | internal/usecase/cluster.go:339-384 | every collected object is tagged with the version used |
| HpaApi.GetAllK8sHpaObjectInCluster | internal/usecase/cluster.go:309-395 | the namespace error, or the tagged objects of every namespace in order |
| HpaApi.Unversioned | internal/usecase/cluster.go:487-526 | the object sent has an empty resource version and is otherwise unchanged |
| HpaApi.WriteBatch | internal/usecase/cluster.go:474-533 | every write clears the resource version; the batch succeeds iff every write does |
| HpaApi.UpdateHpaK8sObjectBatch | internal/usecase/cluster.go:474-533 | the loop performs `WriteBatch` |
| HpaApi.BatchWritesEveryHpa | internal/usecase/cluster.go:474-533 | a batch of HPAs writes each one, in order, with its resource version cleared |
| HpaApi.NonHpaFailsBatch | internal/usecase/cluster.go:525-526 | an element that is not an HPA fails the batch |
| HpaApi.TargetGate | internal/usecase/cluster.go:556-578 | passes exactly apps/v1 Deployments; an untyped ref is `HPAVersionUnknown`, any other `TargetRefResolveError` |
| HpaApi.ResolveInMap | internal/usecase/cluster.go:535-580 | the gate's error, `DeploymentNotFound` for a missing key, else the stored Deployment |
| HpaApi.DeploymentMapKeys | internal/cron/gcp.go:424-428 | the map's keys are exactly the Deployments' name/namespace keys |
| HpaApi.DeploymentMapKeepsLast | internal/cron/gcp.go:424-428 | a Deployment no later one shares a key with is the entry under its key |
| HpaApi.DeploymentMap | internal/cron/gcp.go:424-428 | the Deployments by name and namespace, a later one replacing an earlier one; `DeploymentMapKeys` and `DeploymentMapKeepsLast` state it |
| HpaApi.DeploymentIndex.Resolve | internal/usecase/cluster.go:535-580 | the result of `ResolveInMap`; exactly the hit key is removed iff a delete key is given |
| HpaApi.ResolveScaleTargetRef | internal/usecase/cluster.go:582-620 | the same gate, then the fetch reply |
| HpaApi.SameGate | internal/usecase/cluster.go:556-619 | both resolvers reject exactly the same references with the same error |
| Targets.NewRows | internal/usecase/scheduled_hpa_config.go:42-69 | one PENDING row per target, in order, ids handed out consecutively |
| Targets.RowsOfEvent | internal/usecase/scheduled_hpa_config.go:75-103 | only live rows of the event, from the table |
| Targets.NewRowsAllOfEvent | internal/usecase/scheduled_hpa_config.go:42-69 | the rows registered for an event all belong to it |
| Targets.RegisterThenList | internal/usecase/scheduled_hpa_config.go:42-103 | listing after registering on an event without rows returns exactly the registered targets |
| Targets.ConfigTable.RegisterModifiedHpaConfigs | internal/usecase/scheduled_hpa_config.go:42-69 | an empty batch is refused with gorm's `empty slice found` and an insert error is returned, either way with the table unchanged; otherwise the rows gain `NewRows` and the ids come back in order |
| Targets.ConfigTable.ListScheduledHpaConfigByEventId | internal/usecase/scheduled_hpa_config.go:75-103 | the event's live targets in table order |
| Targets.ConfigTable.FindRow | internal/usecase/scheduled_hpa_config.go:112-127 | the position of the live row with the id, or none |
| Targets.ConfigTable.UpdateStatusMessage | internal/usecase/scheduled_hpa_config.go:112-127 | a missing row is "record not found"; otherwise only that row's status and message change |
| Targets.ConfigTable.DeletePermanentlyByEvent | internal/usecase/scheduled_hpa_config.go:71-73 | removes exactly the event's rows and keeps every other |
| HpaPartition.TargetMap | internal/cron/gcp.go:131-135 | keys are exactly the targets' name/namespace keys, each mapping to a target with that key |
| HpaPartition.TargetMapKeepsLast | internal/cron/gcp.go:131-135 | the target kept for a key is the last one with it |
| HpaPartition.PartitionOf | internal/cron/gcp.go:137-167 | selected and matched stay index-aligned; the leftover entries are entries of the target map |
| HpaPartition.PartitionSound | internal/cron/gcp.go:137-167 | an HPA is selected iff its key is a target; the leftover map is exactly the targets with no live HPA |
| HpaPartition.PartitionHpas | internal/cron/gcp.go:131-167 | the loops compute `PartitionOf` |
| HpaPartition.Retarget | internal/cron/gcp.go:451-461 | only min and max replicas are overwritten, with the target's values |
| HpaPartition.RetargetAll | internal/cron/gcp.go:451-461 | each selected HPA paired with its own target's bounds |
| HpaPartition.MarkMissingTargets | internal/cron/gcp.go:170-186 | every leftover target is saved FAILED with "hpa not found"; no other row changes |
| Demand.SelectedClaims | internal/cron/gcp.go:439-470 | a selected HPA claims its target with the requested maximum |
| Demand.UnselectedClaims | internal/cron/gcp.go:577-612 | an unselected HPA claims its target with its own current maximum |
| Demand.ResolveClaims | internal/cron/gcp.go:468-500 | the map left only loses keys; a success resolves one Deployment per claim |
| Demand.ResolveClaimsFailsAfter | internal/cron/gcp.go:468-500 | once a claim fails, the whole resolution fails with that claim's error |
| Demand.ResolveClaimsLeaves | internal/cron/gcp.go:468-500 | a successful resolution leaves exactly the Deployments no claim names |
| Demand.ResolveClaimsLeft | internal/cron/gcp.go:468-500 | a key stays in the map iff it was there and no claim names it, with its Deployment unchanged |
| Demand.ResolveClaimsDistinct | internal/cron/gcp.go:468-500 | when every claim resolves, no two claims name the same Deployment |
| Demand.SharedDeploymentFails | internal/cron/gcp.go:468-500 | two claims on one Deployment fail the run, the second finding it deleted |
| Demand.ResolveWorkloads | internal/cron/gcp.go:439-640 | the loops compute `ResolveClaims` and leave the map with the unclaimed Deployments |
| Demand.ReplicasOf | internal/cron/gcp.go:715-730 | `Spec.Replicas`, or `MinimumPod` (1) when unset |
| Demand.RemainingOf | internal/cron/gcp.go:709-712 | the Deployments left in the map, each key once |
| Demand.RemainingCoversLeft | internal/cron/gcp.go:709-712 | every Deployment left in the map is visited |
| Demand.RemainingWorkloads | internal/cron/gcp.go:715-730 | one workload per Deployment with its replica count |
| Demand.CollectRemaining | internal/cron/gcp.go:709-779 | the loop over the remaining Deployments computes their workloads |
| Demand.Share | internal/cron/gcp.go:505-548 | replicas pods, and per-replica CPU and memory times replicas |
| Demand.ShareOn | internal/cron/gcp.go:505-548 | a pool that admits the workload gets its share; any other pool gets nothing |
| Demand.DemandAppend | internal/cron/gcp.go:505-779 | a pool's demand over two workload lists is the sum of both |
| Demand.UnadmittedAddsNothing | internal/cron/gcp.go:505-548 | a workload a pool does not admit adds nothing to that pool |
| Demand.AdmittedAddsShare | internal/cron/gcp.go:505-548 | a workload a pool admits adds exactly its share to that pool |
| Demand.UnconstrainedCountsEverywhere | internal/cron/gcp.go:505-548 | a workload with no selector and no affinity adds its share to every pool |
| Demand.RequestLedger.AddWorkload | internal/cron/gcp.go:505-548 | fails iff some pool's matcher errs, changing nothing; otherwise each pool gains `ShareOn` |
| Demand.MatchingPools | internal/cron/gcp.go:508-533 | fails iff the matcher errs on some pool, always with the invalid-selector error; otherwise gives exactly the pools whose labels admit the workload |
| Demand.RequestLedger.AddAll | internal/cron/gcp.go:505-779 | fails iff some workload is unplaceable; otherwise each pool's demand is `PoolDemand` |
| NodePools.LoadPool | internal/cron/gcp.go:299-397 | crashes iff the pool's autoscaling or node configuration is missing; completes only when its nodes could be listed, carrying the capacity figures |
| NodePools.Loads | internal/cron/gcp.go:299-397 | one loader result per pool, in order |
| NodePools.GatherPanics | internal/cron/gcp.go:401-404 | the wait crashes iff some loader crashed |
| NodePools.LoadAllPanics | internal/cron/gcp.go:281-404 | loading crashes iff some pool is unreadable |
| NodePools.GatherDoneNames | internal/cron/gcp.go:401-404 | a completed wait holds exactly the pools' names |
| NodePools.GatherDoneValue | internal/cron/gcp.go:401-404 | each pool's entry is its loader's result |
| NodePools.GatherFailsFirst | internal/cron/gcp.go:401-404 | a failed wait reports an error some loader returned |
| NodePools.LoadPools | internal/cron/gcp.go:281-404 | the loop and wait compute `LoadAll` |
| NodePools.Settling | internal/cron/gcp.go:912-933 | the first reply that ends the loop, or none while every reply is RUNNING |
| NodePools.PollEndsAtSettlingReply | internal/cron/gcp.go:912-933 | success iff a DONE without error comes before any other settling reply; never a crash |
| NodePools.PollAsWritten | internal/cron/gcp.go:912-921 | as written: a settling call error is a crash; `FailedPollCrashes` states it |
| NodePools.Poll | internal/cron/gcp.go:911-933 | corrected: a settling call error is returned; `PollEndsAtSettlingReply` states it |
| NodePools.PollAsWrittenDiffersOnlyOnCallError | internal/cron/gcp.go:912-921 | the loop as written and the corrected one differ exactly when the settling reply is a call error |
| NodePools.FailedPollCrashes | internal/cron/gcp.go:912-921 | a failing `GetOperation` crashes the loop as written |
| NodePools.PollOperationAsWritten | internal/cron/gcp.go:911-933 | the loop as written computes `PollAsWritten` |
| NodePools.PollOperation | internal/cron/gcp.go:911-933 | the corrected loop computes `Poll` |
| NodePools.SizedMaxNode | internal/cron/gcp.go:824-882 | never below the old maximum; equals the sizing rule on a sizable pool |
| NodePools.CallOf | internal/cron/gcp.go:884-905 | the request carries the new bound, the pool's other autoscaling settings and the node-pool path |
| NodePools.PoolResize | internal/cron/gcp.go:896-933 | corrected, over `NodePools.Poll` (a failed `GetOperation` is returned, see Findings): the call's error, or the poll's outcome on the operation it started |
| NodePools.ResizePool | internal/cron/gcp.go:884-933 | corrected, over `NodePools.Poll` (a failed `GetOperation` is returned, see Findings): one pool's goroutine sends `CallOf` and ends as `PoolResize` |
| NodePools.Combine | internal/cron/gcp.go:937-940 | the errgroup wait over the pools' outcomes; `CombineSound` states it |
| NodePools.CombineSound | internal/cron/gcp.go:937-940 | the resize succeeds iff every pool's does; crashes iff some pool's does; a failure is some pool's |
| NodePools.InitialRow | internal/cron/gcp.go:288-296 | the pool's row starts at its autoscaling maximum, or 0 without autoscaling |
| NodePools.InitialRows | internal/cron/gcp.go:281-296 | one row per pool, in order |
| NodePools.ResizedRows | internal/cron/gcp.go:882 | each row's maximum is replaced by the new bound |
| NodePools.ResizedRowsMatchCalls | internal/cron/gcp.go:882-905 | each recorded maximum equals the maximum sent to GKE |
| NodePools.Resizes | internal/cron/gcp.go:896-933 | corrected, over `NodePools.Poll` (a failed `GetOperation` is returned, see Findings): one resize outcome per pool, in order |
| NodePools.ResizePools | internal/cron/gcp.go:810-940 | corrected, over `NodePools.Poll` (a failed `GetOperation` is returned, see Findings): the loop computes every bound and call and `Combine` of the resizes |
| Events.FindWatchedEvent | internal/repository/event.go:76-82 | exactly the live WATCHING rows whose end has passed |
| Events.FindDue | internal/repository/event.go:151-172 | exactly the live rows of the status starting within `minute + 1` minutes |
| Events.StartedEventStillDue | internal/repository/event.go:151-172 | the window has no lower bound |
| Events.DueWindowEdge | internal/repository/event.go:151-172 | the window's far edge is exclusive |
| Events.DueJoined | internal/repository/event.go:90-149 | due rows with a live cluster and datacenter, joined with both, and each such row is present |
| Events.PendingEventsAreDue | internal/usecase/event.go:219-251 | every event handed to the executor is PENDING, due, and carries its cluster's name and provider |
| Events.UpdateEventRoundTrip | internal/usecase/event.go:133-147 | reading back a saved event gives the saved values, with the time of the save as its update time |
| Events.Saved | internal/usecase/event.go:133-147 | gorm's `Save`: the saved row is in the table; with a row of its id, the length is kept and exactly the rows of that id are replaced; without one, the row is appended |
| Events.SavedTwice | internal/usecase/event.go:133-147 | saving the same event twice leaves what the second save alone would |
| Events.GetAllPrescaledEvent10MinBeforeStart | internal/usecase/event.go:253-285 | the query error, or the live PRESCALED rows due within 56 minutes, without cluster name or provider |
| Events.ScanRows | internal/repository/event.go:125-146 | every row, or the first scan error and no partial result |
| Events.EventTable.RegisterEvents | internal/usecase/event.go:56-70 | an insert error changes nothing; otherwise one PENDING row with the next id |
| Events.EventTable.UpdateEvent | internal/usecase/event.go:133-147 | a save error changes nothing; otherwise the table is `Saved` of the row, stamped with the time of the save (under a fresh id when it has none) |
| Events.EventTable.DeleteEvent | internal/repository/event.go:72-74 | a soft delete stamping the live row with that id |
| Events.EventTable.FinishAllWatchedEvent | internal/repository/event.go:84-88 | exactly the watched events past their end become SUCCESS; every change is a lifecycle step |
| Events.EventTable.FindDueWithClusterData | internal/repository/event.go:90-149 | corrected: the query error is returned; otherwise the scanned joined rows |
| Events.EventTable.FindDueWithClusterDataAsWritten | internal/repository/event.go:100-123 | as written: a failed query panics on the deferred close of its nil rows, and only then; otherwise the scanned joined rows |
| Events.EventTable.GetAllPendingExecutableEvent | internal/usecase/event.go:219-251 | the query error, or the pending events due within 61 minutes with their cluster data |
| Events.EventTable.GetAllPendingExecutableEventAsWritten | internal/usecase/event.go:219-251 | over the query as written: panics iff the query fails; otherwise the pending events due within 61 minutes, or the scan error |
| Events.NoneWatchedOver | internal/repository/event.go:76-82 | with no watched event past its end nothing is found |
| Events.FinishedAreFound | internal/repository/event.go:76-82 | a row is found iff it is live, WATCHING and past its end |
| CronEvents.Event.Data | internal/cron/cron.go:60-77 | the event's current status and message over its other fields |
| CronEvents.HandleExecEventError | internal/cron/cron.go:60-68 | FAILED with the message; a successful save stamped with the time of the save leaves the event's earlier row is replaced by the saved one (or it is appended) and every other row stays, as `Events.Saved` says; a failed one changes nothing |
| CronEvents.HandleWatchEvent | internal/cron/cron.go:70-77 | only the message changes; the status stays; a successful save leaves the event's earlier row is replaced by the saved one (or it is appended) and every other row stays, as `Events.Saved` says; a failed one changes nothing |
| CronEvents.SaveWithStatus | internal/cron/gcp.go:78-84 | the status is set and the message kept; a successful save leaves the event's earlier row is replaced by the saved one (or it is appended) and every other row stays, as `Events.Saved` says; a failed one changes nothing |
| Naming.ParseGkeClusterName | internal/cron/gcp.go:201-204 | parses iff the name has at least four `_` pieces |
| Naming.ClusterNameRoundTrip | internal/usecase/gcp_cluster.go:144-149 | `gke_<project>_<name>_<location>` parses back when the parts have no `_` |
| Naming.UnderscoreInNameShiftsLocation | internal/cron/gcp.go:201-204 | an underscore in a cluster's name shifts the location it parses to |
| Naming.ClustersParentSegments | internal/repository/gcp_cluster.go:53 | the listing parent is `projects/<project>/locations/-` |
| Naming.ClusterPathAsWritten | internal/repository/gcp_cluster.go:65-70 | as written: `projects/<p>/locations/<l>/cluster/<c>`; `ClusterPathAsWrittenMisnamed` states its defect |
| Naming.ClusterPath | internal/repository/gcp_cluster.go:65-70 | corrected: `projects/<p>/locations/<l>/clusters/<c>`; `ClusterPathIsNodePoolParent` states it |
| Naming.NodePoolPath | internal/repository/gcp_cluster.go:84-91 | `projects/<p>/locations/<l>/clusters/<c>/nodePools/<n>`; `NodePoolPathSegments` and `NodePoolPathInjective` state it |
| Naming.OperationPath | internal/repository/gcp_cluster.go:102-107 | `projects/<p>/locations/<l>/operations/<o>`; `OperationPathSegments` states it |
| Naming.ListKey | internal/repository/k8s_hpa.go:103-288 | the list key of each version, which updates write too; `ListKeyInjective` and `KeyFamiliesDisjoint` state it |
| Naming.ObjectKey | internal/repository/k8s_hpa.go:315-397 | the single-object key of each version; `KeyFamiliesDisjoint` states it |
| Naming.NodePoolPathSegments | internal/repository/gcp_cluster.go:84-91 | the node-pool name has its eight segments |
| Naming.NodePoolPathInjective | internal/repository/gcp_cluster.go:84-91 | distinct pools have distinct names |
| Naming.OperationPathSegments | internal/repository/gcp_cluster.go:102-107 | the operation name has its six segments |
| Naming.ClusterPathIsNodePoolParent | internal/repository/gcp_cluster.go:65-91 | the corrected cluster name is the parent of its node pools' names |
| Naming.ClusterPathAsWrittenMisnamed | internal/repository/gcp_cluster.go:65-70 | the cluster name as written is not the resource's name, nor its pools' parent |
| Naming.KeyFamiliesDisjoint | internal/repository/k8s_hpa.go:103-397 | list keys and object keys never collide, nor do keys of different versions |
| Naming.ListKeyInjective | internal/repository/k8s_hpa.go:103-288 | distinct cluster/namespace pairs have distinct list keys |
| Naming.SplitNameNsKey | internal/cron/cron.go:272-276 | splits iff the key has a `\|` |
| Naming.NameNsKeyRoundTrip | internal/cron/cron.go:272-276 | `name\|namespace` splits back when the name has no `\|` |
| GcpCustomAuth.ProviderFor | internal/pkg/k8s/auth/gcp_custom/gcp_custom.go:46-60 | a provider iff the configured name is registered, else "credentials not found" |
| GcpCustomAuth.RegisterThenProvide | internal/pkg/k8s/auth/gcp_custom/gcp_custom.go:25-60 | a registered credential is the one a provider for its name uses |
| GcpCustomAuth.RegisterKeepsOtherNames | internal/pkg/k8s/auth/gcp_custom/gcp_custom.go:25-30 | registering a name leaves every other name's provider unchanged |
| GcpCustomAuth.Registry.RegisterGoogleCredentials | internal/pkg/k8s/auth/gcp_custom/gcp_custom.go:25-30 | later registrations overwrite earlier ones |
| GcpCustomAuth.Registry.NewGcpCustomAuthProvider | internal/pkg/k8s/auth/gcp_custom/gcp_custom.go:46-60 | `ProviderFor` the registry's credentials; `RegisterThenProvide` states it |
| GcpCustomAuth.ConditionalTransport.RoundTrip | internal/pkg/k8s/auth/gcp_custom/gcp_custom.go:80-97 | a request that already carries authorization goes to the base transport unchanged; any other goes through the OAuth transport, and a 401 reply persists an empty token cache; nothing else is persisted |
| GkeCluster.GetAllClustersInGcpProject | internal/usecase/gcp_cluster.go:130-161 | the listing error, or one entry per listed cluster in order |
| GkeCluster.ListedClusterNamesParse | internal/usecase/gcp_cluster.go:144-156 | every listed name parses back into project, name and location; the endpoint gets "https://" |
| GkeCluster.RecordsOf | internal/usecase/gcp_cluster.go:163-196 | one row per cluster, ids handed out in order |
| GkeCluster.ClusterTable.RegisterClusters | internal/usecase/gcp_cluster.go:163-196 | an empty batch is refused with `empty slice found`, and an insert error returned, either way with nothing stored and no entry touched; otherwise rows are appended and each entry receives its row's id |
| GkeCluster.GetKubernetesClusterClient | internal/usecase/gcp_cluster.go:216-237 | `DatacenterMismatch` if the cluster is not on GCP, else the error of building the client (certificate decoding, client configuration, `NewForConfig`); a client exactly when neither, and it authenticates through the custom GCP auth provider |
| GkeCluster.ClientUsesRegisteredCredentials | internal/usecase/gcp_cluster.go:216-237 | the provider a client's configuration asks for is the credential registered under the datacenter's name |
| GkeCluster.NodePoolSelectorSplits | internal/usecase/gcp_cluster.go:246-249 | the selector names the node-pool label and the pool |
| GkeCluster.NodePoolSelector | internal/usecase/gcp_cluster.go:246-249 | `<node-pool label>=<pool>`; `NodePoolSelectorSplits` states it |
| GkeCluster.GetNodesFromGcpNodePool | internal/usecase/gcp_cluster.go:239-260 | the listing error, "no existing node found" on an empty pool, or the nodes |
| HpaCache.Visible | internal/repository/k8s_hpa.go:104-118 | an entry is visible iff present and not expired |
| HpaCache.ListResult | internal/repository/k8s_hpa.go:104-118 | without a fresh cached entry the live reply is returned |
| HpaCache.ObjectResult | internal/repository/k8s_hpa.go:315-340 | corrected (as written the cache is never served, see `HpaCache.K8sHpa.GetHpaAsWritten`): without a fresh cached entry the live reply is returned |
| HpaCache.StoreAfterList | internal/repository/k8s_hpa.go:97-139 | a served read keeps the cache; a miss caches the listing (or the error sentinel) under that key only |
| HpaCache.StoreAfterGet | internal/repository/k8s_hpa.go:308-347 | corrected (as written the cache is never served, see `HpaCache.K8sHpa.GetHpaAsWritten`): a served read keeps the cache; a miss caches the object (or the "hpa error" sentinel) under that key only |
| HpaCache.ListThenListWithinTtl | internal/repository/k8s_hpa.go:97-139 | a second listing within the TTL is served from the cache |
| HpaCache.FailedListIsNegativelyCached | internal/repository/k8s_hpa.go:97-139 | a failed listing is answered with `HPAListError` within the TTL |
| HpaCache.ExpiredListAsksApi | internal/repository/k8s_hpa.go:97-139 | after expiry the API is asked again |
| HpaCache.GetThenGetWithinTtl | internal/repository/k8s_hpa.go:308-347 | corrected (as written the cache is never served, see `HpaCache.K8sHpa.GetHpaAsWritten`): a second read within the TTL is served from the cache; a failure is answered with `HPAError` |
| HpaCache.CacheNeverServedAsWritten | internal/repository/k8s_hpa.go:104-118 | as written, a fresh listing and a fresh sentinel are both ignored |
| HpaCache.K8sHpa.GetAllHpaAsWritten | internal/repository/k8s_hpa.go:97-139 | as written: the reply of the read as written, and the entry rewritten with the live reply on every call |
| HpaCache.K8sHpa.GetAllHpa | internal/repository/k8s_hpa.go:97-227 | the corrected read-through policy |
| HpaCache.K8sHpa.GetHpa | internal/repository/k8s_hpa.go:308-429 | corrected (as written the cache is never served, see `HpaCache.K8sHpa.GetHpaAsWritten`): the read-through policy for single objects |
| HpaCache.K8sHpa.GetHpaAsWritten | internal/repository/k8s_hpa.go:308-429 | as written: the API's reply, and the entry rewritten with it (or with the "hpa error" sentinel) on every call |
| HpaCache.ObjectResultAsWritten | internal/repository/k8s_hpa.go:316-329 | as written: the live reply, whatever the cache holds |
| HpaCache.ObjectCacheNeverServedAsWritten | internal/repository/k8s_hpa.go:316-329 | as written, a fresh cached object and a fresh sentinel are both ignored, where the corrected read serves them |
| HpaCache.K8sHpa.UpdateHpa | internal/repository/k8s_hpa.go:229-306 | the API's reply; a success overwrites the list key with the object |
| GormUuid.HexDigitValue | internal/pkg/gorm/datatype/uuid.go:28-65 | every hexadecimal digit reads back as its value |
| GormUuid.DecodeHexOf | internal/pkg/gorm/datatype/uuid.go:28-65 | decoding the hex of bytes gives the bytes |
| GormUuid.Format | internal/pkg/gorm/datatype/uuid.go:44-52 | the canonical text is 36 characters |
| GormUuid.Parse | internal/pkg/gorm/datatype/uuid.go:44-52 | a length other than 36 is an invalid-length error; every error is a length or format error |
| GormUuid.ParseFormat | internal/pkg/gorm/datatype/uuid.go:44-52 | printing a UUID and parsing the text gives it back |
| GormUuid.TextOfBytes | internal/pkg/gorm/datatype/uuid.go:53-60 | a byte slice read as text, byte by byte |
| GormUuid.Scanned | internal/pkg/gorm/datatype/uuid.go:28-65 | nil keeps the value; 16 bytes are taken as is; other types fail; an error keeps the value |
| GormUuid.ScanErrorsArePrefixed | internal/pkg/gorm/datatype/uuid.go:28-65 | every error starts with "Scan: " |
| GormUuid.ScanFormatted | internal/pkg/gorm/datatype/uuid.go:28-65 | the canonical text, as a string or as 36 bytes, scans to the UUID |
| GormUuid.ScanRejectsShortText | internal/pkg/gorm/datatype/uuid.go:44-52 | text shorter than 36 characters is rejected with a length error and the value kept (the 32-hex form is admitted under Left out) |
| GormUuid.UuidColumn.SetUuid | internal/pkg/gorm/datatype/uuid.go:20-26 | `GetUUID` afterwards returns the id set |
| GormUuid.UuidColumn.GetUuid | internal/pkg/gorm/datatype/uuid.go:20-22 | the stored id; `SetUuid` states that it returns the id set |
| GormUuid.UuidColumn.Scan | internal/pkg/gorm/datatype/uuid.go:28-65 | the value and error are `Scanned` of the old value |
| Engine.ClientsFor | internal/cron/gcp.go:29-74 | `DatacenterMismatch` for non-GCP; otherwise the first Google client error or the Kubernetes client's build error; a client, authenticated by the datacenter's name, iff none fails |
| Engine.ClientSignsWithDatacenterCredential | internal/cron/gcp.go:60-67 | the client signs with the credential just registered |
| Engine.GetAllGcpClient | internal/cron/gcp.go:29-74 | computes `ClientsFor`; registers the credential once the three Google clients are built, so also when the Kubernetes client then fails |
| Engine.ClientFailureKeepsCredential | internal/cron/gcp.go:60-67 | a Kubernetes client that cannot be built fails the lookups with its error, and the datacenter's credential stays registered |
| Engine.Lookups | internal/cron/gcp.go:86-129 | the cluster, its clients, the targets and the HPA objects in order, the first failure being the run's error; `LookupPhase` computes it |
| Engine.SplitOf | internal/cron/gcp.go:131-167 | the partition keeps selected and matched index-aligned |
| Engine.PoolStage | internal/cron/gcp.go:196-404 | an unparsable cluster name crashes; on success the coordinates parse from the name and every loaded pool is readable |
| Engine.PoolPhase | internal/cron/gcp.go:196-404 | computes `PoolStage` |
| Engine.PoolLabels | internal/cron/gcp.go:305-325 | each loaded pool's sample-node labels |
| Engine.DemandStage | internal/cron/gcp.go:409-801 | on success every pool has an entry; failure is an error outcome |
| Engine.DemandPhase | internal/cron/gcp.go:409-801 | computes `DemandStage` |
| Engine.BoundsOf | internal/cron/gcp.go:812-882 | each pool's bound by the sizing rule |
| Engine.CallsOf | internal/cron/gcp.go:884-905 | each pool's autoscaling request with its bound |
| Engine.Retargeted | internal/cron/gcp.go:451-461 | each selected HPA with its target's bounds |
| Engine.SavedBeforeFailure | internal/cron/gcp.go:956-973 | the index of the first target whose SUCCESS save fails |
| Engine.Finish | internal/cron/gcp.go:942-980 | the last steps end FAILED or PRESCALED; an empty batch of pool rows fails with gorm's "empty slice found", so PRESCALED needs at least one created row and keeps them |
| Engine.Exec | internal/cron/gcp.go:76-983 | corrected, over `NodePools.Poll` (a failed `GetOperation` is returned, see Findings): `execGCPEvent`: no target is saved SUCCESS when the lookups fail, and never more than the matched targets; a cluster without node pools fails on the empty row batch (`ScaledRunHasPools`) |
| Engine.SucceededRows | internal/cron/gcp.go:956-973 | the rows after the SUCCESS saves |
| Engine.MarkedRows | internal/cron/gcp.go:170-186 | the rows after the "hpa not found" saves |
| Engine.Conclude | internal/cron/gcp.go:975-982 | FAILED with the message, PRESCALED keeping it, or unchanged; a save leaves the event's earlier row is replaced by the saved one (or it is appended) and every other row stays, as `Events.Saved` says |
| Engine.SavedBeforeFailureIs | internal/cron/gcp.go:956-973 | the first failing save is where the loop stops |
| Engine.SaveSuccesses | internal/cron/gcp.go:956-973 | saves SUCCESS in order up to the first failure, which it reports |
| Engine.SaveOne | internal/cron/gcp.go:956-973 | one SUCCESS save: its error is the target's save error; a success extends the saved prefix by that target |
| Engine.FinishPhase | internal/cron/gcp.go:942-980 | computes `Finish` (including the empty-batch failure) and its row updates |
| Engine.ExecResize | internal/cron/gcp.go:804-980 | corrected, over `NodePools.Poll` (a failed `GetOperation` is returned, see Findings): computes `Resized`; the event's status and message follow its outcome; a final save leaves the event's earlier row is replaced by the saved one (or it is appended) and every other row stays, as `Events.Saved` says |
| Engine.Resized | internal/cron/gcp.go:804-980 | corrected, over `NodePools.Poll` (a failed `GetOperation` is returned, see Findings): never saves more targets than were matched and always starts |
| Engine.ExecPools | internal/cron/gcp.go:409-980 | corrected, over `NodePools.Poll` (a failed `GetOperation` is returned, see Findings): computes `AfterPools`; a final save leaves the event's earlier row is replaced by the saved one (or it is appended) and every other row stays, as `Events.Saved` says |
| Engine.AfterPools | internal/cron/gcp.go:409-980 | corrected, over `NodePools.Poll` (a failed `GetOperation` is returned, see Findings): never saves more targets than were matched and always starts |
| Engine.ExecSelected | internal/cron/gcp.go:170-980 | corrected, over `NodePools.Poll` (a failed `GetOperation` is returned, see Findings): computes `Selected`; a final save leaves the event's earlier row is replaced by the saved one (or it is appended) and every other row stays, as `Events.Saved` says |
| Engine.Selected | internal/cron/gcp.go:170-980 | corrected, over `NodePools.Poll` (a failed `GetOperation` is returned, see Findings): never saves more targets than were matched and always starts |
| Engine.LookupPhase | internal/cron/gcp.go:86-129 | computes the lookups; registers the credential exactly when the cluster is found and its Google clients are built |
| Engine.ExecGcpEvent | internal/cron/gcp.go:76-983 | corrected, over `NodePools.Poll` (a failed `GetOperation` is returned, see Findings): performs `Exec`: the event's status is `StatusAfter` of the outcome, its message the failure's or unchanged; once started, the table holds the event's last successful save in place of its earlier row, every other row unchanged |
| Engine.FinishCompletes | internal/cron/gcp.go:942-980 | a PRESCALED finish wrote every selected HPA and saved every target as SUCCESS |
| Engine.ScaledRunCompletes | internal/cron/gcp.go:76-983 | a PRESCALED run selected an HPA, wrote each with its target's bounds, and saved every target SUCCESS |
| Engine.PlainRunKeepsBounds | internal/cron/gcp.go:86-89 | without calculation no pool is resized and each pool is recorded at its current maximum |
| Engine.ScaledRunResizedEveryPool | internal/cron/gcp.go:804-940 | a PRESCALED calculation run resized every pool, and each row holds the bound sent, never below the old maximum |
| Engine.ScaledRunHasPools | internal/cron/gcp.go:274-296 | a PRESCALED run found a cluster with at least one node pool and stored one row per pool; `db.Create` at gcp.go:943 refuses the empty batch |
| Engine.NoSelectionFails | internal/cron/gcp.go:188-191 | no live HPA for any target fails with "no hpa exist" before pool work |
| Engine.NotStartedIffExecutingUnsaved | internal/cron/gcp.go:78-84 | the run stops at once iff EXECUTING cannot be saved |
| CronWatch.PoolsOfNodes | internal/cron/cron.go:97-106 | each node's pool label value, in order |
| CronWatch.Occurrences | internal/cron/cron.go:97-106 | the count is zero iff the pool is absent |
| CronWatch.NodeCountsAreOccurrences | internal/cron/cron.go:97-106 | the counts hold exactly the pools seen, each with its number of nodes |
| CronWatch.CountNodes | internal/cron/cron.go:97-106 | the counting loop computes `NodeCounts` |
| CronWatch.StatusRows | internal/cron/cron.go:108-116 | one row per pool: tick time, count, and the pool's updated-node-pool id |
| CronWatch.WatchNodePool | internal/cron/cron.go:79-131 | the rows are `StatusRows` over an enumeration of the counted pools |
| CronWatch.DistinctOnce | internal/cron/cron.go:108-116 | each pool appears once in the enumeration |
| CronWatch.CoveredAll | internal/cron/cron.go:97-116 | an enumeration covers every node |
| CronWatch.TotalIsCovered | internal/cron/cron.go:97-116 | the rows' counts add up to the nodes covered |
| CronWatch.NodeRowsCountEveryNode | internal/cron/cron.go:97-116 | the rows' node counts sum to the number of listed nodes |
| CronWatch.UpdatedNodePoolIds | internal/cron/cron.go:332-335 | keys are exactly the stored pools' names |
| CronWatch.UpdatedIdIsLast | internal/cron/cron.go:332-335 | the id kept for a pool is its last row's |
| CronWatch.CollectUpdatedNodePoolIds | internal/cron/cron.go:332-335 | the loop computes `UpdatedNodePoolIds` |
| CronWatch.ScaleTargetsKeys | internal/cron/cron.go:233-265 | a key has a scale target iff a target names it and a live HPA has it |
| CronWatch.CollectScaleTargets | internal/cron/cron.go:233-265 | the nested loop computes `ScaleTargets` |
| CronWatch.DeploymentPods | internal/cron/cron.go:268-325 | none iff some reference fails to resolve; otherwise the same keys with each Deployment's pod counts |
| CronWatch.LoadDeploymentPods | internal/cron/cron.go:268-325 | the per-target loads compute `DeploymentPods` |
| CronWatch.HpaStatusRows | internal/cron/cron.go:151-168 | one row per target, in order, with its Deployment's counts (zero counts when missing) |
| CronWatch.WatchHpaAsWritten | internal/cron/cron.go:151-168 | as written: crashes iff some target has no entry; otherwise `HpaStatusRows` |
| CronWatch.MissingHpaCrashesWatch | internal/cron/cron.go:151-168 | a target without a live HPA crashes the tick as written |
| CronWatch.MissingHpaExample | internal/cron/cron.go:151-168 | one target, no live HPA: the crash, and the corrected zero-count row |
| CronWatch.WatchHpa | internal/cron/cron.go:133-185 | no rows when the Deployments cannot be loaded; otherwise `HpaStatusRows` |
| CronWatch.CorrectedAgreesWhenAllListed | internal/cron/cron.go:151-168 | the correction changes nothing when every target has a live HPA |
| CronWatch.TicksUntil | internal/cron/cron.go:338-352 | the ticks up to the end, stopping at the first later one |
| CronWatch.TakeSample | internal/cron/cron.go:342-348 | corrected, over `CronWatch.WatchHpa` (a target without a live HPA gets a zero-count row, see Findings): one tick's node and HPA samples |
| CronWatch.WatchLoop | internal/cron/cron.go:338-352 | corrected, over `CronWatch.WatchHpa` (a target without a live HPA gets a zero-count row, see Findings): one sample per tick up to the end |
| CronWatch.WatchRun | internal/cron/cron.go:187-354 | corrected, over `CronWatch.WatchHpa` (a target without a live HPA gets a zero-count row, see Findings): unwatched iff WATCHING cannot be saved; watching needs a GCP cluster; ticks stay within the end; every sampled key is a target |
| CronWatch.WatchEvent | internal/cron/cron.go:187-354 | corrected, over `CronWatch.WatchHpa` (a target without a live HPA gets a zero-count row, see Findings): performs `WatchRun`: WATCHING is set first, a setup error only sets the message; once WATCHING is saved the table holds the event's last successful save in place of its earlier row, every other row unchanged |
| CronWatch.WatchLookups | internal/cron/cron.go:197-334 | once WATCHING is saved, the cluster, client, targets, HPAs and stored pools are looked up as `WatchRun` says; the credential is registered once the Google clients are built |
| CronWatch.WatchedHpaRowsCoverTargets | internal/cron/cron.go:133-185 | corrected, over `CronWatch.WatchHpa` (a target without a live HPA gets a zero-count row, see Findings): at every tick whose Deployments can be read, one HPA row per live target of the event, in order, carrying that target's id |
| CronWatch.GcpEvents | internal/cron/cron.go:374-381 | exactly the GCP events, in order |
| CronWatch.DispatchTick | internal/cron/cron.go:365-399 | corrected: executes the GCP pending events and watches every prescaled one; a query error dispatches nothing |
| CronWatch.DispatchTickAsWritten | internal/cron/cron.go:364-383 | as written: the process crashes iff the pending query panics; otherwise the tick dispatches as `DispatchTick` does |
| EventHandler.CalculateFlag | internal/handler/event.go:67-70 | an absent flag means true |
| EventHandler.AsTargets | internal/handler/event.go:125-134 | one target per config, copying name, namespace and replicas |
| EventHandler.AsTarget | internal/handler/event.go:125-134 | the target copies the config's name, namespace and replica bounds |
| EventHandler.LiveConfigs | internal/handler/event.go:115-134 | a config is kept iff a live HPA has its name and namespace |
| EventHandler.AllLiveKeepsRequest | internal/handler/event.go:115-134 | when every config names a live HPA, all are kept in order |
| EventHandler.FilterLiveConfigs | internal/handler/event.go:115-134 | the nested loop computes `LiveConfigs` |
| EventHandler.NewEvent | internal/handler/event.go:100-108 | the event carries the request's name, times, cluster and flag |
| EventHandler.RegisterReply | internal/handler/event.go:55-145 | accepted iff well-formed, neither start nor end past, the client lookup, the HPA listing and the event insert succeed, some config names a live HPA, and the config insert succeeds; a malformed or past request is an invalid body |
| EventHandler.NoLiveTargetRefused | internal/handler/event.go:115-139 | a timely, well-formed request none of whose configs names a live HPA is refused with `empty slice found` |
| EventHandler.NoLiveConfigs | internal/handler/event.go:115-133 | configs none of which names a live HPA keep nothing |
| EventHandler.RegisterEvents | internal/handler/event.go:55-145 | the reply is `RegisterReply`; a refused request stores nothing; otherwise the event and its live configs are stored; a timely, well-formed request on a GCP cluster whose credential parses leaves that credential registered whatever the reply |
| EventHandler.ClientError | internal/handler/base.go:66-105 | no error iff the cluster is found on GCP, its credential parses and the client builds; another provider is `DatacenterTypeNotFound` |
| EventHandler.GetClusterKubernetesClient | internal/handler/base.go:66-105 | the error is `ClientError`; the credential is registered before the client is built, so also when the build fails |
| EventHandler.UpdateCheckAsWritten | internal/handler/event.go:186-200 | as written: crashes iff a well-formed request has no event id |
| EventHandler.UpdateCheck | internal/handler/event.go:186-200 | never crashes; passes iff well-formed and an id is given |
| EventHandler.MissingEventIdCrashes | internal/entity/request/event.go:27 | a request without `event_id` crashes the server as written |
| EventHandler.UpdateCheckAgreesWithId | internal/handler/event.go:186-200 | both checks agree whenever an id is given |
| EventHandler.StoredEvent | internal/usecase/event.go:90-107 | the live row with the id, or none when there is none |
| EventHandler.UpdatedEvent | internal/handler/event.go:203-214 | name and times replaced; the flag only when given; the rest kept |
| EventHandler.UpdateReply | internal/handler/event.go:184-249 | accepted iff the check passes and the event exists; a missing event is `EventNotExist` |
| EventHandler.FindEvent | internal/usecase/event.go:90-107 | computes `StoredEvent` |
| EventHandler.UpdateEvent | internal/handler/event.go:184-249 | a refusal stores nothing; an acceptance replaces the event (stamped with the time of the save) and its configs, and keeps other events' configs |
| EventHandler.SaveUpdatedEvent | internal/handler/event.go:216-222 | the save error, then the delete error; a failure leaves the table; otherwise exactly the event's row is replaced |
| EventHandler.ReplaceConfigs | internal/handler/event.go:220-243 | the event's targets deleted and the new ones registered; an empty batch or an insert error restores the table |
| GcpHandler.DatacenterReplyAsWritten | internal/handler/gcp.go:49-81 | as written: refused iff parsing fails; otherwise the id whatever the save did |
| GcpHandler.DatacenterReplyOf | internal/handler/gcp.go:49-81 | registered iff parsing and the save succeed |
| GcpHandler.FindDatacenter | internal/handler/gcp.go:97-106 | the temporary store first, then the table; "record not found" iff in neither |
| GcpHandler.RegisterDatacenter | internal/handler/gcp.go:49-81 | the reply is `DatacenterReplyOf`; only a registered datacenter is stored, in the store named |
| GcpHandler.RegisteredDatacenterIsFound | internal/handler/gcp.go:49-106 | a registered datacenter is found again under its id in its store |
| GcpHandler.DroppedSaveErrorExample | internal/handler/gcp.go:70-80 | a failed save still announces an id that is never found |
| GcpHandler.CloudClusters | internal/handler/gcp.go:107-123 | the credential, client or listing error, or the project's clusters |
| GcpHandler.Listing | internal/handler/gcp.go:129-146 | one listed entry per cloud cluster, in order, with no id |
| GcpHandler.ClustersReplyOf | internal/handler/gcp.go:83-146 | listed iff the datacenter is found and the cloud calls succeed; flagged temporary iff Redis had it |
| GcpHandler.GetClustersByDatacenterId | internal/handler/gcp.go:83-146 | computes `ClustersReplyOf` |
| GcpHandler.LocalNames | internal/handler/gcp.go:190-196 | exactly the names of the clusters stored under the datacenter |
| GcpHandler.FirstNamed | internal/handler/gcp.go:206-213 | the first listed cluster with the name, or none iff none has it |
| GcpHandler.Selection | internal/handler/gcp.go:198-218 | succeeds iff every name is new and listed; picks each name's first listed cluster, in order |
| GcpHandler.FirstRejectionDecides | internal/handler/gcp.go:198-218 | the first rejected name decides the error, "already exist" before "not found" |
| GcpHandler.FirstNamedIsFirst | internal/handler/gcp.go:206-213 | the first index carrying the name is the one found |
| GcpHandler.FindCluster | internal/handler/gcp.go:205-213 | the loop computes `FirstNamed` |
| GcpHandler.SelectClusters | internal/handler/gcp.go:198-218 | the loops compute `Selection` |
| GcpHandler.Stamped | internal/handler/gcp.go:222-235 | succeeds iff every listed cluster gets a Kubernetes client and reports a version; each gets its version |
| GcpHandler.StampKeepsIdentity | internal/handler/gcp.go:234 | stamping changes only the HPA API version |
| GcpHandler.StampVersions | internal/handler/gcp.go:222-235 | the loop stamps the shared objects in place |
| GcpHandler.RequestedDatacenter | internal/handler/gcp.go:164-172 | only the store the flag names is asked |
| GcpHandler.PlanOf | internal/handler/gcp.go:164-218 | a plan holds the requested datacenter, its clusters and a successful selection |
| GcpHandler.Picked | internal/handler/gcp.go:203-218 | the chosen clusters, in the order of the names |
| GcpHandler.WithIds | internal/usecase/gcp_cluster.go:163-196 | ids handed out consecutively, everything else kept |
| GcpHandler.RegistrationReplyOf | internal/handler/gcp.go:149-271 | a success lists one new cluster per requested name, in order, with consecutive ids, and at least one; an empty request is refused by the insert |
| GcpHandler.ClientFailureRefusesRegistration | internal/handler/gcp.go:223-231 | a Kubernetes client that cannot be built for any listed GCP cluster, chosen or not, refuses the registration |
| GcpHandler.RegisterClusterWithDatacenter | internal/handler/gcp.go:149-271 | the reply is `RegistrationReplyOf`; credentials stay registered once selected; the datacenter copy and rows are written together or not at all, so an empty request persists nothing |
| GcpHandler.SaveRegistration | internal/handler/gcp.go:239-253 | the transaction: a temporary datacenter's save error, then an empty batch, then the insert error refuse with nothing written; otherwise both are written and the clusters listed with their ids |
| GcpHandler.EmptyRegistrationRefused | internal/handler/gcp.go:198-253 | a request naming no cluster, which validation lets through, is refused with `empty slice found` |
| GcpHandler.Listed | internal/handler/gcp.go:260-271 | one reply entry per saved cluster, with its id |
| GcpHandler.StampAndPick | internal/handler/gcp.go:220-235 | the stamped objects picked by the selection |
| GcpHandler.RegisteringTwiceIsRefused | internal/handler/gcp.go:198-203 | repeating a successful registration is refused: its first name already exists |

## Left out

- Concurrency: goroutines, errgroups and mutexes become sequential loops. Where `errgroup` reports the first error in time, the model reports one loader's error. Where work runs in pool or listing order, the first one in that order.
- Floating point: CPU and memory are natural millicores and bytes, and ceilings are integer ceiling divisions.
- NodePools.SizedMaxNode: a pool whose per-node availability is zero or negative in some dimension is not sized and keeps its bound. In Go, a zero availability divides in floating point (the pod count too is converted first), giving +Inf, or NaN when nothing is unfulfilled, and the `int32` conversion of either is implementation-defined. A negative availability gives a negative need in that dimension, which the maximum of the three may or may not hide.
- Replica counts, node counts and maxima are unbounded naturals, with no int32 truncation and no negative values.
- Timers, `time.Sleep` and ticker drift are left out. Ticks are an input sequence, and a finite sequence of poll replies stands for the loop's unbounded polling.
- Context cancellation is left out: the goroutines' swallowing of errors after cancellation is not modelled.
- Database transactions become restoring the table on the paths where Go returns without `Commit`. The error of `tx.Commit()` is ignored at internal/handler/event.go:141, 245 and 347 and internal/handler/gcp.go:253; EventHandler.RegisterEvents, EventHandler.UpdateEvent and GcpHandler.RegisterClusterWithDatacenter treat the commit as always succeeding, so they do not capture a success reply over a rolled-back transaction. Logging-only errors, such as failed status-row inserts in the watcher, are dropped.
- Go map iteration order is unspecified. The watcher's rows are stated for some enumeration of the pools, which is existentially quantified.
- A non-GCP cluster in `watchEvent` uses a nil client. The model records this as `NilClientCrash` and does not continue.
- Request parsing and struct validation are reduced to `WellFormed`: the end is not before the start and there is at least one config. Required pointer fields are modelled as present.
- EventHandler.UpdatedEvent: `ExecuteConfigAt` and `WatchingAt` are not part of the event model.
- The `name|namespace` key is modelled as a `NameNs` pair. The string round trip is proved in `Naming` for names without `|`.
- Naming.ParseGkeClusterName: names containing `_` are shown to misparse (`UnderscoreInNameShiftsLocation`) rather than corrected. GKE forbids `_` in cluster names.
- Matcher: node selectors are key/value maps rather than parsed selector strings, `matchFields` in node-selector terms is left out, and the integers of `Gt`/`Lt` have no 64-bit range check. All six operators are modelled.
- Matcher.WellFormed: `labels.NewRequirement` also checks that the key is a valid qualified name and that `In`/`NotIn` values are valid label values; the model checks neither. Pods read from a cluster have passed the same validation in the API server.
- GormUuid.Parse, GormUuid.ScanRejectsShortText: the alternative textual forms (32 hex digits, braces, `urn:uuid:`) are rejected by the model's `Parse`, and every wrong length is a length error where google/uuid may report a format error. Only the canonical RFC 4122 form is modelled.
- GcpHandler.StampOne: the reply of `GetLatestHPAAPIVersion` is the parameter `latest`, not tied to `HpaApi.GetLatestHpaApiVersion`; its panic on a discovery reply without an autoscaling version would end the request, which the registration reply does not model.
- JSON marshalling of cache entries is represented by tagged datatypes, not bytes. Redis expiry is an explicit `expiresAt` time, and Redis errors other than a missing key are left out.
- The GKE, Kubernetes and discovery API replies are inputs. The credential parse error ignored at internal/cron/gcp.go:42-45 is modelled by the client-creation reply.
- Duplicate pool names and duplicate scheduled targets for one key keep the last entry, as the Go maps do. Their consequences beyond that are not analysed.
- GcpHandler.RegisterClusterWithDatacenter: a name requested twice inserts two rows in the model. What gorm does with the same pointer twice is not modelled.
- The datacenter's service-account metadata and the JSON credentials format are opaque strings.
- The remaining-Deployment pass at internal/cron/gcp.go:709 runs after every HPA claim has deleted its Deployment. In Go the loop ranges over the map while the claim goroutines started at internal/cron/gcp.go:468-473 still delete from it, which is a data race with no defined order.
- `Start` at internal/cron/cron.go:385-398 asks for `GetAllPrescaledEvent`, which the event use-case interface at internal/usecase/event.go:28 does not declare. The model uses `GetAllPrescaledEvent10MinBeforeStart` (`Events.GetAllPrescaledEvent10MinBeforeStart`) for it.
- The event listing, detail and deletion handlers of internal/handler/event.go are only request plumbing over the modelled tables, so they have no model of their own.
- Events.EventTable.FindDueWithClusterData: `rows.Err()` is never checked after the `rows.Next()` loop (internal/repository/event.go:126-149), so an iteration error ends the listing early and silently. The model scans every row.
- Engine.ExecGcpEvent, CronWatch.WatchEvent: every save of the event in one run is stamped with one time, `saveClock`, not with the clock at each save.
- Events.EventTable.UpdateEvent: when `Save` falls back to inserting a row, gorm would also stamp a zero creation time; the model keeps the given one.
- NodePools.PoolResize: built on the corrected `NodePools.Poll`. As written, a failed `GetOperation` crashes the process (see Findings).
- NodePools.ResizePool: built on the corrected `NodePools.Poll`; the crash as written is not modelled here.
- NodePools.Resizes: built on the corrected `NodePools.Poll`; the crash as written is not modelled here.
- NodePools.ResizePools: built on the corrected `NodePools.Poll`; the crash as written is not modelled here.
- Engine.Exec: built on the corrected `NodePools.Poll`; a run whose `GetOperation` fails ends as a FAILED event, where the process as written crashes.
- Engine.Resized: built on the corrected `NodePools.Poll`; the crash as written is not modelled here.
- Engine.AfterPools: built on the corrected `NodePools.Poll`; the crash as written is not modelled here.
- Engine.Selected: built on the corrected `NodePools.Poll`; the crash as written is not modelled here.
- Engine.ExecResize: built on the corrected `NodePools.Poll`; the crash as written is not modelled here.
- Engine.ExecPools: built on the corrected `NodePools.Poll`; the crash as written is not modelled here.
- Engine.ExecSelected: built on the corrected `NodePools.Poll`; the crash as written is not modelled here.
- Engine.ExecGcpEvent: built on the corrected `NodePools.Poll`; the crash as written is not modelled here.
- CronWatch.TakeSample: built on the corrected `CronWatch.WatchHpa`. As written, a target without a live HPA crashes the process at the first tick (see Findings).
- CronWatch.WatchLoop: built on the corrected `CronWatch.WatchHpa`; the crash as written is not modelled here.
- CronWatch.WatchRun: built on the corrected `CronWatch.WatchHpa`; the crash as written is not modelled here.
- CronWatch.WatchEvent: built on the corrected `CronWatch.WatchHpa`; the crash as written is not modelled here.
- CronWatch.WatchedHpaRowsCoverTargets: built on the corrected `CronWatch.WatchHpa`; the crash as written is not modelled here.
- Matcher.MatchNodeSelectorTerms: the text of the error for malformed terms is the Kubernetes helper library's own aggregated selector error, passed on at internal/pkg/util/k8s.go:29-32. It is not modelled: every malformed term yields the one error `InvalidNodeSelector`.
- Engine.PoolStage, Engine.PoolPhase: the GKE cluster is fetched under the corrected `Naming.ClusterPath`. As written, Go asks for `Naming.ClusterPathAsWritten` (see Findings), which names no cluster.

## Findings

| source | as written | input that shows it | evidently intended | confidence | as-written member | corrected member |
|---|---|---|---|---|---|---|
| internal/cron/gcp.go:912-921 | the poll loop reads `opData.OperationData` before checking `err` | `GetOperation` fails while the operation is RUNNING (`[Running, CallError("deadline exceeded")]`) | return the call's error | high, not executed | NodePools.FailedPollCrashes | NodePools.PollOperation |
| internal/cron/cron.go:158-165 | `watchHPA` dereferences the Deployment entry of every target | one target with no live HPA | a zero-count row, or skipping the target | high, not executed | CronWatch.MissingHpaCrashesWatch | CronWatch.WatchHpa |
| internal/repository/k8s_hpa.go:104-118 | the cache is read only inside `Err() != nil`, where `Bytes()` returns the same error | a fresh cached listing under the key | serve the cached listing or sentinel | medium (depends on go-redis returning the command error from `Bytes`), not executed | HpaCache.CacheNeverServedAsWritten | HpaCache.K8sHpa.GetAllHpa |
| internal/repository/k8s_hpa.go:316-329 | the single-object getters (also at 357-370 and 398-411) read the cache only inside `Err() != nil`; were the branch entered, `Unmarshal` would run on a nil `*HorizontalPodAutoscaler` | a fresh cached object under the key | serve the cached object or the "hpa error" sentinel | medium (depends on go-redis returning the command error from `Bytes`), not executed | HpaCache.ObjectCacheNeverServedAsWritten | HpaCache.K8sHpa.GetHpa |
| internal/repository/gcp_cluster.go:65-70 | the cluster resource name uses `cluster/` | any project, location and cluster | `projects/<p>/locations/<l>/clusters/<c>` | high, not executed | Naming.ClusterPathAsWrittenMisnamed | Naming.ClusterPathIsNodePoolParent |
| internal/entity/request/event.go:27 | the event-id tag reads `validator:"required"`, so validation lets a missing id through to the dereference at internal/handler/event.go:198 | an update request without `event_id` | refuse it as an invalid body | high, not executed | EventHandler.MissingEventIdCrashes | EventHandler.UpdateCheck |
| internal/repository/event.go:100-123 | `defer rows.Close()` is registered before `err` is checked, so a failed query closes nil rows and panics; the goroutine of `Start` at internal/cron/cron.go:366 does not recover, so the process ends | the pending-events query fails (the database is unreachable) | return the query error, which `Start` logs | high (depends on gorm returning nil rows with the error), not executed | CronWatch.DispatchTickAsWritten | CronWatch.DispatchTick |
| internal/handler/gcp.go:70-80 | `RegisterDatacenter` ignores the save error and replies with the id | Redis or the database rejects the save | refuse the request with the save error | high, not executed | GcpHandler.DroppedSaveErrorExample | GcpHandler.RegisterDatacenter |
