/** internal/cron/gcp.go, `execGCPEvent` as a whole: one PENDING event is
    marked EXECUTING, its targets are matched against the live HPAs of its GKE
    cluster, the node pools' autoscaling bounds are raised to hold what the
    workloads may ask for (calculation mode), the HPAs are rewritten, and the
    event ends PRESCALED or FAILED.

    Every reply of the outside world (database, Kubernetes, GKE) is a field
    of a `Gateway`. The run is specified by `Exec`, a function of the event,
    the stored targets and the gateway; the method `ExecGcpEvent` performs it
    step by step on the event, the two tables and the credential registry. */
module Engine {
  import opened Common
  import Events
  import opened CronEvents
  import opened Targets
  import opened HpaApi
  import opened HpaPartition
  import opened Capacity
  import opened Matcher
  import opened Demand
  import opened Naming
  import opened GkeCluster
  import opened GcpCustomAuth
  import opened NodePools

  /** The message of an event none of whose targets has a live HPA. */
  const NoHpaExist: string := "no hpa exist"

  // ---------------------------------------------------------------- clients

  /** The cluster as `GetClusterAndDatacenterDataByClusterID` returns it:
      its GKE data (the provider is its datacenter's) and its datacenter's name. */
  datatype ClusterInfo = ClusterInfo(data: GcpClusterData, datacenterName: string)

  /** What the client constructors answer: the credential decoded from the
      datacenter, the errors of the cluster-manager, instance-group-manager
      and instance-template clients, and the error of building the
      Kubernetes client (`k8sClient.GetClient`). */
  datatype ClientReplies = ClientReplies(
    credential: Credential, clusterClientErr: Option<string>,
    igmClientErr: Option<string>, templatesClientErr: Option<string>,
    kubernetesClientErr: Option<string>)

  /** The cluster is a GCP one and its three Google clients were built: the
      point from which `getAllGCPClient` has registered the credential. */
  predicate GoogleClientsBuilt(info: ClusterInfo, replies: ClientReplies)
  {
    info.data.datacenter == GcpProvider && replies.clusterClientErr.None?
    && replies.igmClientErr.None? && replies.templatesClientErr.None?
  }

  /** `getAllGCPClient`: a non-GCP datacenter is refused; the first failing
      Google client stops it; otherwise the Kubernetes client of the cluster,
      authenticated under the datacenter's name, or the error building it. */
  function ClientsFor(info: ClusterInfo, replies: ClientReplies): (r: Result<ClientCredentials>)
    ensures info.data.datacenter != GcpProvider ==> r == Err(DatacenterMismatch)
    ensures r.Ok? <==> GoogleClientsBuilt(info, replies) && replies.kubernetesClientErr.None?
    ensures r.Err? && info.data.datacenter == GcpProvider ==>
              Some(r.msg) in [replies.clusterClientErr, replies.igmClientErr, replies.templatesClientErr,
                              replies.kubernetesClientErr]
    ensures r.Ok? ==> r.value.authProvider.name == AuthName
                      && ConfiguredName(r.value.authProvider.config) == info.datacenterName
                      && r.value.serverEndpoint == info.data.serverEndpoint
  {
    if info.data.datacenter != GcpProvider then Err(DatacenterMismatch)
    else if replies.clusterClientErr.Some? then Err(replies.clusterClientErr.value)
    else if replies.igmClientErr.Some? then Err(replies.igmClientErr.value)
    else if replies.templatesClientErr.Some? then Err(replies.templatesClientErr.value)
    else GetKubernetesClusterClient(info.datacenterName, info.data, replies.kubernetesClientErr)
  }

  /** The Kubernetes client handed out signs its requests with the credential
      just registered for the datacenter, whatever the registry held before. */
  lemma ClientSignsWithDatacenterCredential(credentials: map<string, Credential>, info: ClusterInfo, replies: ClientReplies)
    requires ClientsFor(info, replies).Ok?
    ensures ProviderFor(credentials[info.datacenterName := replies.credential], ClientsFor(info, replies).value.authProvider.config)
            == Ok(Provider(replies.credential.tokenSource))
  {
    ClientUsesRegisteredCredentials(credentials, info.datacenterName, replies.credential, info.data);
  }

  /** `getAllGCPClient` with its one side effect: the credential is registered
      under the datacenter's name once the Google clients are built, before
      the Kubernetes client is, so a failure of the latter leaves it
      registered. */
  method GetAllGcpClient(registry: Registry, info: ClusterInfo, replies: ClientReplies) returns (r: Result<ClientCredentials>)
    modifies registry
    ensures r == ClientsFor(info, replies)
    ensures registry.credentials == if GoogleClientsBuilt(info, replies)
                                    then old(registry.credentials)[info.datacenterName := replies.credential]
                                    else old(registry.credentials)
  {
    if info.data.datacenter != GcpProvider {
      return Err(DatacenterMismatch);
    }
    if replies.clusterClientErr.Some? {
      return Err(replies.clusterClientErr.value);
    }
    if replies.igmClientErr.Some? {
      return Err(replies.igmClientErr.value);
    }
    if replies.templatesClientErr.Some? {
      return Err(replies.templatesClientErr.value);
    }
    registry.RegisterGoogleCredentials(info.datacenterName, replies.credential);
    r := GetKubernetesClusterClient(info.datacenterName, info.data, replies.kubernetesClientErr);
  }

  // ---------------------------------------------------------------- the outside world

  /** The replies of everything the executor calls, in the order it calls them. */
  datatype Gateway = Gateway(
    executingSaveErr: Option<string>,          // saving the event as EXECUTING
    cluster: Result<ClusterInfo>,               // the cluster and its datacenter
    clients: ClientReplies,
    targetsErr: Option<string>,                 // listing the event's targets
    namespaces: Result<seq<string>>,            // listing the cluster's namespaces
    hpaLists: ListReplies,                      // listing HPAs per version and namespace
    markSaveErr: Id -> Option<string>,          // saving a target as "hpa not found"
    clusterObject: string -> Result<seq<PoolSpec>>, // the GKE cluster by resource name: its node pools
    daemonSets: Result<seq<DaemonSetData>>,
    nodes: NodeLister,
    deployments: Result<seq<Deployment>>,
    setAutoscaling: Resizer,
    poll: Poller,
    createErr: Option<string>,                  // inserting the UpdatedNodePool rows
    hpaWrites: UpdateReplies,
    successSaveErr: Id -> Option<string>,       // saving a target as SUCCESS
    failSaveErr: Option<string>,                // saving the event as FAILED
    prescaledSaveErr: Option<string>,           // saving the event as PRESCALED
    saveClock: Events.Time)                     // the time gorm stamps on the event's saves

  /** How a run ends. `NotStarted`: EXECUTING could not be saved and nothing
      else happened. `Panicked`: a nil dereference or an index out of range.
      `Blocked`: some GKE operation never settles, so the run is still waiting. */
  datatype Outcome = NotStarted(err: string) | FailedWith(msg: string) | Panicked | Blocked | Scaled

  /** A phase either hands a value to the next one or ends the run. */
  datatype Stage<T> = Go(value: T) | Stop(outcome: Outcome)

  // ---------------------------------------------------------------- lookups and selection

  /** What the lookups yield: the cluster, its client, the event's targets and
      the cluster's HPA objects. */
  datatype Context = Context(info: ClusterInfo, client: ClientCredentials, targets: seq<TargetData>, objects: seq<HpaObjectData>)

  /** `GetAllK8sHPAObjectInCluster` with the cluster's latest HPA version. */
  function HpaObjects(info: ClusterInfo, namespaces: Result<seq<string>>, lists: ListReplies): Result<seq<HpaObjectData>>
  {
    if namespaces.Err? then Err(namespaces.msg)
    else CollectObjects(info.data.latestHpaApiVersion, namespaces.value, lists)
  }

  /** The lookups in order; the first failure is the run's error. */
  function Lookups(eventId: Id, rows: seq<ConfigRow>, g: Gateway): Result<Context>
  {
    match g.cluster
    case Err(m) => Err(m)
    case Ok(info) =>
      match ClientsFor(info, g.clients)
      case Err(m) => Err(m)
      case Ok(client) =>
        if g.targetsErr.Some? then Err(g.targetsErr.value)
        else
          match HpaObjects(info, g.namespaces, g.hpaLists)
          case Err(m) => Err(m)
          case Ok(objects) => Ok(Context(info, client, ToTargets(RowsOfEvent(rows, eventId)), objects))
  }

  /** The partition of the live HPAs by the event's targets. */
  function SplitOf(cx: Context): (s: Split)
    ensures |s.selected| == |s.matched|
  {
    PartitionOf(TargetMap(cx.targets), cx.objects)
  }

  // ---------------------------------------------------------------- node pools

  /** The cluster as the node-pool phases see it: where it is, its pools and
      (calculation mode) their capacity by name. */
  datatype Cluster = Cluster(coords: GkeCoordinates, pools: seq<PoolSpec>, loaded: map<string, PoolResources>)

  /** The cluster name is split, the GKE cluster fetched, and in calculation
      mode the daemon sets listed and every pool loaded. */
  function PoolStage(clusterName: string, calculate: bool, g: Gateway): (r: Stage<Cluster>)
    ensures ParseGkeClusterName(clusterName).None? ==> r == Stop(Panicked)
    ensures r.Stop? ==> r.outcome.Panicked? || r.outcome.FailedWith?
    ensures r.Go? ==> ParseGkeClusterName(clusterName) == Some(r.value.coords)
                      && g.clusterObject(ClusterPath(r.value.coords.project, r.value.coords.location, r.value.coords.name))
                         == Ok(r.value.pools)
    ensures r.Go? && calculate ==> forall i :: 0 <= i < |r.value.pools| ==>
              Readable(r.value.pools[i]) && r.value.pools[i].name in r.value.loaded
    ensures r.Go? && calculate ==> g.daemonSets.Ok? && LoadAll(r.value.pools, g.daemonSets.value, g.nodes) == Done(r.value.loaded)
  {
    match ParseGkeClusterName(clusterName)
    case None => Stop(Panicked)
    case Some(c) =>
      match g.clusterObject(ClusterPath(c.project, c.location, c.name))
      case Err(m) => Stop(FailedWith(m))
      case Ok(pools) =>
        if !calculate then Go(Cluster(c, pools, map[]))
        else if g.daemonSets.Err? then Stop(FailedWith(g.daemonSets.msg))
        else
          match LoadAll(pools, g.daemonSets.value, g.nodes)
          case Panic => Stop(Panicked)
          case Fail(m) => Stop(FailedWith(m))
          case Done(loaded) =>
            LoadAllDone(pools, g.daemonSets.value, g.nodes);
            Go(Cluster(c, pools, loaded))
  }

  /** The phase computing `PoolStage`. */
  method PoolPhase(clusterName: string, calculate: bool, g: Gateway) returns (r: Stage<Cluster>)
    ensures r == PoolStage(clusterName, calculate, g)
  {
    var c := ParseGkeClusterName(clusterName);
    if c.None? {
      return Stop(Panicked);
    }
    var coords := c.value;
    var pools := g.clusterObject(ClusterPath(coords.project, coords.location, coords.name));
    if pools.Err? {
      return Stop(FailedWith(pools.msg));
    }
    if !calculate {
      return Go(Cluster(coords, pools.value, map[]));
    }
    if g.daemonSets.Err? {
      return Stop(FailedWith(g.daemonSets.msg));
    }
    var loaded := LoadPools(pools.value, g.daemonSets.value, g.nodes);
    match loaded {
    case Panic => r := Stop(Panicked);
    case Fail(m) => r := Stop(FailedWith(m));
    case Done(m) => r := Go(Cluster(coords, pools.value, m));
    }
  }

  // ---------------------------------------------------------------- requested resources

  /** The claims of the two HPA passes: the selected HPAs, then the others. */
  function Claims(s: Split): (r: seq<Claim>)
    requires |s.selected| == |s.matched|
    ensures |r| == |s.selected| + |s.unselected|
  {
    SelectedClaims(s.selected, s.matched) + UnselectedClaims(s.unselected)
  }

  /** Each loaded pool's sample-node labels. */
  function PoolLabels(loaded: map<string, PoolResources>): (m: map<string, Labels>)
    ensures m.Keys == loaded.Keys
    ensures forall n :: n in m ==> m[n] == loaded[n].nodeLabels
  {
    map n | n in loaded :: loaded[n].nodeLabels
  }

  /** Every pool's demand from the given workloads; a pool without capacity
      data asks nothing. */
  function DemandMap(cl: Cluster, ws: seq<Workload>): (m: map<string, Requested>)
    ensures forall i :: 0 <= i < |cl.pools| ==> cl.pools[i].name in m
  {
    map n | n in Names(cl.pools) :: if n in cl.loaded then PoolDemand(cl.loaded[n].nodeLabels, ws) else NothingRequested
  }

  /** Calculation mode: the deployments are listed, the HPAs' targets resolved
      (and taken out of the map), the remaining deployments added, and every
      workload matched against every pool. */
  function DemandStage(s: Split, cl: Cluster, g: Gateway): (r: Stage<map<string, Requested>>)
    requires |s.selected| == |s.matched|
    ensures r.Go? ==> forall i :: 0 <= i < |cl.pools| ==> cl.pools[i].name in r.value
    ensures r.Stop? ==> r.outcome.FailedWith?
  {
    match g.deployments
    case Err(m) => Stop(FailedWith(m))
    case Ok(ds) =>
      var resolved := ResolveClaims(Claims(s), DeploymentMap(ds));
      match resolved.0
      case Err(m) => Stop(FailedWith(m))
      case Ok(ws) =>
        var all := ws + RemainingWorkloads(RemainingOf(ds, resolved.1));
        if Unplaceable(PoolLabels(cl.loaded), all) then Stop(FailedWith(InvalidNodeSelector))
        else Go(DemandMap(cl, all))
  }

  /** The phase computing `DemandStage`, on a fresh deployments map and a
      fresh ledger of requested resources. */
  method DemandPhase(s: Split, cl: Cluster, g: Gateway) returns (r: Stage<map<string, Requested>>)
    requires |s.selected| == |s.matched|
    ensures r == DemandStage(s, cl, g)
  {
    if g.deployments.Err? {
      return Stop(FailedWith(g.deployments.msg));
    }
    var ds := g.deployments.value;
    var index := new DeploymentIndex(ds);
    var resolved := ResolveWorkloads(index, Claims(s));
    if resolved.Err? {
      return Stop(FailedWith(resolved.msg));
    }
    var remaining := CollectRemaining(ds, index);
    var all := resolved.value + remaining;
    var ledger := new RequestLedger(Names(cl.pools));
    var err := ledger.AddAll(PoolLabels(cl.loaded), all);
    if err.Some? {
      return Stop(FailedWith(err.value));
    }
    assert ledger.requested == DemandMap(cl, all);
    r := Go(ledger.requested);
  }

  // ---------------------------------------------------------------- resizing

  /** Every pool's new bound. */
  function BoundsOf(cl: Cluster, req: map<string, Requested>): (b: seq<nat>)
    requires forall i :: 0 <= i < |cl.pools| ==>
               cl.pools[i].autoscaling.Some? && cl.pools[i].name in req && cl.pools[i].name in cl.loaded
    ensures |b| == |cl.pools|
    ensures forall i :: 0 <= i < |cl.pools| ==> b[i] == PoolBound(cl.pools[i], req, cl.loaded)
  {
    seq(|cl.pools|, i requires 0 <= i < |cl.pools| => PoolBound(cl.pools[i], req, cl.loaded))
  }

  /** Every pool's `SetNodePoolAutoscaling` request. */
  function CallsOf(cl: Cluster, bounds: seq<nat>): (r: seq<ResizeCall>)
    requires |bounds| == |cl.pools| && forall i :: 0 <= i < |cl.pools| ==> cl.pools[i].autoscaling.Some?
    ensures |r| == |cl.pools|
    ensures forall i :: 0 <= i < |cl.pools| ==> r[i] == CallOf(cl.pools[i], cl.coords, bounds[i])
  {
    seq(|cl.pools|, i requires 0 <= i < |cl.pools| => CallOf(cl.pools[i], cl.coords, bounds[i]))
  }

  // ---------------------------------------------------------------- bookkeeping

  /** The selected HPAs as they are written back, each with its target's
      minimum and maximum. */
  function Retargeted(s: Split): (r: seq<ApiObject>)
    requires |s.selected| == |s.matched|
    ensures |r| == |s.selected|
    ensures forall i :: 0 <= i < |r| ==> r[i] == HpaObject(Retarget(s.selected[i], s.matched[i]))
  {
    seq(|s.selected|, i requires 0 <= i < |s.selected| => HpaObject(Retarget(s.selected[i], s.matched[i])))
  }

  /** What `UpdateScheduledHPAConfigStatusMessage` reports for a target id:
      the save's error for a live row, "record not found" otherwise. */
  function SaveError(rows: seq<ConfigRow>, id: Id, saveErr: Id -> Option<string>): Option<string>
  {
    if exists j :: 0 <= j < |rows| && rows[j].id == id && !rows[j].deleted then saveErr(id) else Some(RecordNotFound)
  }

  /** How many targets, in order, are saved as SUCCESS before the first save
      that fails. */
  function SavedBeforeFailure(ts: seq<TargetData>, rows: seq<ConfigRow>, saveErr: Id -> Option<string>): (k: nat)
    ensures k <= |ts|
    ensures forall j :: 0 <= j < k ==> SaveError(rows, ts[j].id, saveErr).None?
    ensures k < |ts| ==> SaveError(rows, ts[k].id, saveErr).Some?
    decreases |ts|
  {
    if |ts| == 0 then 0
    else if SaveError(rows, ts[0].id, saveErr).Some? then 0
    else 1 + SavedBeforeFailure(ts[1..], rows, saveErr)
  }

  /** The event's message when a target's SUCCESS cannot be saved. */
  function SaveFailureMessage(t: TargetData, err: string): string
  {
    "Error Update HPA " + t.name + " Namespace " + t.namespace + " : " + err
  }

  /** A run: how it ends, the resize requests sent to GKE, the UpdatedNodePool
      rows stored, the HPAs written to Kubernetes, and how many selected
      targets were saved as SUCCESS. */
  datatype Run = Run(outcome: Outcome, calls: seq<ResizeCall>, created: seq<UpdatedNodePool>, written: seq<Hpa>, saved: nat)

  function Ended(o: Outcome, calls: seq<ResizeCall>): Run { Run(o, calls, [], [], 0) }

  /** The last steps: the rows are stored (gorm refuses an empty batch, so a
      cluster without node pools fails here), the HPAs written, the targets
      saved as SUCCESS one by one. */
  function Finish(rows: seq<ConfigRow>, s: Split, created: seq<UpdatedNodePool>, calls: seq<ResizeCall>, g: Gateway): (r: Run)
    requires |s.selected| == |s.matched|
    ensures r.saved <= |s.matched|
    ensures r.outcome.FailedWith? || r.outcome.Scaled?
    ensures r.calls == calls
    ensures r.outcome.Scaled? ==> |created| > 0 && r.created == created
    ensures |created| == 0 ==> r == Ended(FailedWith(EmptySliceFound), calls)
  {
    if |created| == 0 then Ended(FailedWith(EmptySliceFound), calls)
    else if g.createErr.Some? then Ended(FailedWith(g.createErr.value), calls)
    else
      var w := WriteBatch(Retargeted(s), g.hpaWrites);
      if w.1.Some? then Run(FailedWith(w.1.value), calls, created, w.0, 0)
      else
        var k := SavedBeforeFailure(s.matched, rows, g.successSaveErr);
        if k < |s.matched| then
          Run(FailedWith(SaveFailureMessage(s.matched[k], SaveError(rows, s.matched[k].id, g.successSaveErr).value)),
              calls, created, w.0, k)
        else Run(Scaled, calls, created, w.0, k)
  }

  /** How a resize that did not succeed ends the run. */
  function ResizeEnd(out: PollOutcome): Outcome
  {
    match out
    case Crashed => Panicked
    case StillRunning => Blocked
    case OpFailed(m) => FailedWith(m)
    case CallFailed(m) => FailedWith(m)
    case Succeeded => Scaled
  }

  /** Every pool can be given a new bound. */
  predicate Resizable(cl: Cluster, req: map<string, Requested>)
  {
    forall i :: 0 <= i < |cl.pools| ==>
      cl.pools[i].autoscaling.Some? && cl.pools[i].name in req && cl.pools[i].name in cl.loaded
  }

  /** The resize of every pool, then the last steps. */
  function Resized(eventId: Id, rows: seq<ConfigRow>, s: Split, cl: Cluster, req: map<string, Requested>, g: Gateway): (r: Run)
    requires |s.selected| == |s.matched| && Resizable(cl, req)
    ensures r.saved <= |s.matched|
    ensures !r.outcome.NotStarted?
  {
    var bounds := BoundsOf(cl, req);
    var calls := CallsOf(cl, bounds);
    var out := Combine(Resizes(cl.pools, cl.coords, bounds, g.setAutoscaling, g.poll));
    if out.Succeeded? then Finish(rows, s, ResizedRows(InitialRows(cl.pools, eventId), bounds), calls, g)
    else Ended(ResizeEnd(out), calls)
  }

  /** Calculation mode after the pools are loaded: demand, then the resize. */
  function Calculated(eventId: Id, rows: seq<ConfigRow>, s: Split, cl: Cluster, g: Gateway): (r: Run)
    requires |s.selected| == |s.matched|
    requires forall i :: 0 <= i < |cl.pools| ==> Readable(cl.pools[i]) && cl.pools[i].name in cl.loaded
    ensures r.saved <= |s.matched|
    ensures !r.outcome.NotStarted?
  {
    match DemandStage(s, cl, g)
    case Stop(o) => Ended(o, [])
    case Go(req) =>
      assert Resizable(cl, req) by {
        forall i | 0 <= i < |cl.pools| ensures cl.pools[i].autoscaling.Some? {
          assert Readable(cl.pools[i]);
        }
      }
      Resized(eventId, rows, s, cl, req, g)
  }

  /** The run once the pools are known. */
  function AfterPools(eventId: Id, calculate: bool, rows: seq<ConfigRow>, s: Split, cl: Cluster, g: Gateway): (r: Run)
    requires |s.selected| == |s.matched|
    requires calculate ==> forall i :: 0 <= i < |cl.pools| ==> Readable(cl.pools[i]) && cl.pools[i].name in cl.loaded
    ensures r.saved <= |s.matched|
    ensures !r.outcome.NotStarted?
  {
    if calculate then Calculated(eventId, rows, s, cl, g)
    else Finish(rows, s, InitialRows(cl.pools, eventId), [], g)
  }

  /** The run once the lookups succeeded. */
  function Selected(eventId: Id, calculate: bool, rows: seq<ConfigRow>, cx: Context, g: Gateway): (r: Run)
    ensures r.saved <= |SplitOf(cx).matched|
    ensures !r.outcome.NotStarted?
  {
    var s := SplitOf(cx);
    if |s.selected| == 0 then Ended(FailedWith(NoHpaExist), [])
    else
      match PoolStage(cx.info.data.name, calculate, g)
      case Stop(o) => Ended(o, [])
      case Go(cl) => AfterPools(eventId, calculate, rows, s, cl, g)
  }

  /** The lookups' result, when the run gets that far. */
  function ExecContext(d: Events.EventData, rows: seq<ConfigRow>, g: Gateway): Option<Context>
  {
    if g.executingSaveErr.Some? then None
    else
      match Lookups(d.id, rows, g)
      case Err(_) => None
      case Ok(cx) => Some(cx)
  }

  /** `execGCPEvent`. */
  function Exec(d: Events.EventData, rows: seq<ConfigRow>, g: Gateway): (r: Run)
    ensures ExecContext(d, rows, g).None? ==> r.saved == 0
    ensures ExecContext(d, rows, g).Some? ==> r.saved <= |SplitOf(ExecContext(d, rows, g).value).matched|
  {
    if g.executingSaveErr.Some? then Ended(NotStarted(g.executingSaveErr.value), [])
    else
      match Lookups(d.id, rows, g)
      case Err(m) => Ended(FailedWith(m), [])
      case Ok(cx) => Selected(d.id, d.calculateNodePool, rows, cx, g)
  }

  // ---------------------------------------------------------------- the target table

  /** A target row after the SUCCESS saves of the given ids. */
  function SuccessRow(row: ConfigRow, ids: set<Id>, saveErr: Id -> Option<string>): ConfigRow
  {
    if row.id in ids && !row.deleted && saveErr(row.id).None? then row.(status := UpdateSuccess, message := "")
    else row
  }

  function SucceededRows(rows: seq<ConfigRow>, ids: set<Id>, saveErr: Id -> Option<string>): (r: seq<ConfigRow>)
    ensures |r| == |rows|
    ensures forall j :: 0 <= j < |rows| ==> r[j] == SuccessRow(rows[j], ids, saveErr)
  {
    seq(|rows|, j requires 0 <= j < |rows| => SuccessRow(rows[j], ids, saveErr))
  }

  function MarkedRows(rows: seq<ConfigRow>, missing: map<NameNs, TargetData>, saveErr: Id -> Option<string>): (r: seq<ConfigRow>)
    ensures |r| == |rows|
    ensures forall j :: 0 <= j < |rows| ==> r[j] == Marked(rows[j], IdsOf(missing, missing.Keys), saveErr)
  {
    seq(|rows|, j requires 0 <= j < |rows| => Marked(rows[j], IdsOf(missing, missing.Keys), saveErr))
  }

  function IdsIn(ts: seq<TargetData>): set<Id>
  {
    set t | t in ts :: t.id
  }

  /** The target table at the end of a run that got past the lookups. */
  function TargetsAfter(rows: seq<ConfigRow>, s: Split, saved: nat, g: Gateway): seq<ConfigRow>
    requires saved <= |s.matched|
  {
    SucceededRows(MarkedRows(rows, s.missing, g.markSaveErr), IdsIn(s.matched[..saved]), g.successSaveErr)
  }

  /** Ids and deletion marks of the rows are as they were. */
  predicate SameRows(rows: seq<ConfigRow>, rows0: seq<ConfigRow>)
  {
    |rows| == |rows0| && forall j :: 0 <= j < |rows| ==> rows[j].id == rows0[j].id && rows[j].deleted == rows0[j].deleted
  }

  lemma SameRowsSaveError(rows: seq<ConfigRow>, rows0: seq<ConfigRow>, id: Id, saveErr: Id -> Option<string>)
    requires SameRows(rows, rows0)
    ensures SaveError(rows, id, saveErr) == SaveError(rows0, id, saveErr)
  {
    if exists j :: 0 <= j < |rows0| && rows0[j].id == id && !rows0[j].deleted {
      var j :| 0 <= j < |rows0| && rows0[j].id == id && !rows0[j].deleted;
      assert rows[j].id == id && !rows[j].deleted;
    }
  }

  // ---------------------------------------------------------------- the executor

  /** The end of a run: a failure marks the event FAILED with its message and
      saves it; a success marks it PRESCALED and saves it (a failed save is
      only logged); any other ending leaves the event as it is. */
  method Conclude(events: Events.EventTable, e: Event, o: Outcome, g: Gateway)
    requires events.Valid()
    modifies events, e
    ensures events.Valid()
    ensures o.FailedWith? ==> e.status == Failed && e.message == o.msg
                              && SavedAs(events.rows, old(events.rows), e.Data(), g.saveClock, g.failSaveErr)
    ensures o.Scaled? ==> e.status == Prescaled && e.message == old(e.message)
                             && SavedAs(events.rows, old(events.rows), e.Data(), g.saveClock, g.prescaledSaveErr)
    ensures !o.FailedWith? && !o.Scaled? ==> e.status == old(e.status) && e.message == old(e.message)
                                                && events.rows == old(events.rows)
  {
    if o.FailedWith? {
      HandleExecEventError(events, e, o.msg, g.saveClock, g.failSaveErr);
    } else if o.Scaled? {
      var err := SaveWithStatus(events, e, Prescaled, g.saveClock, g.prescaledSaveErr);
    }
  }

  /** A SUCCESS save of one more target on rows already saved for `ids`. */
  lemma SuccessStep(start: seq<ConfigRow>, rows: seq<ConfigRow>, next: seq<ConfigRow>, ids: set<Id>, id: Id,
                    saveErr: Id -> Option<string>)
    requires rows == SucceededRows(start, ids, saveErr) && |next| == |rows|
    requires forall j :: 0 <= j < |rows| ==>
               next[j] == if rows[j].id == id && !rows[j].deleted && saveErr(id).None?
                          then rows[j].(status := UpdateSuccess, message := "") else rows[j]
    ensures next == SucceededRows(start, ids + {id}, saveErr)
  {
    forall j | 0 <= j < |rows|
      ensures next[j] == SuccessRow(start[j], ids + {id}, saveErr)
    {
    }
  }

  lemma IdsInSnoc(ts: seq<TargetData>, i: nat)
    requires i < |ts|
    ensures IdsIn(ts[..i + 1]) == IdsIn(ts[..i]) + {ts[i].id}
  {
    assert ts[..i + 1] == ts[..i] + [ts[i]];
  }

  /** `SavedBeforeFailure` is the first index whose save fails. */
  lemma {:induction false} SavedBeforeFailureIs(ts: seq<TargetData>, rows: seq<ConfigRow>, saveErr: Id -> Option<string>, k: nat)
    requires k <= |ts|
    requires forall j :: 0 <= j < k ==> SaveError(rows, ts[j].id, saveErr).None?
    requires k < |ts| ==> SaveError(rows, ts[k].id, saveErr).Some?
    ensures SavedBeforeFailure(ts, rows, saveErr) == k
    decreases |ts|
  {
    if |ts| > 0 && k > 0 {
      SavedBeforeFailureIs(ts[1..], rows, saveErr, k - 1);
    }
  }

  /** The SUCCESS loop: the targets are saved in order until a save fails;
      `k` is how many were saved and `err` the failure, if any. */
  method SaveSuccesses(configs: ConfigTable, ghost rows0: seq<ConfigRow>, ts: seq<TargetData>, saveErr: Id -> Option<string>)
    returns (k: nat, err: Option<string>)
    requires configs.Valid() && SameRows(configs.rows, rows0)
    modifies configs
    ensures k == SavedBeforeFailure(ts, rows0, saveErr)
    ensures err == if k < |ts| then SaveError(rows0, ts[k].id, saveErr) else None
    ensures configs.Valid()
    ensures configs.rows == SucceededRows(old(configs.rows), IdsIn(ts[..k]), saveErr)
  {
    ghost var start := configs.rows;
    assert IdsIn(ts[..0]) == {};
    assert start == SucceededRows(start, {}, saveErr);
    k := 0;
    while k < |ts|
      invariant 0 <= k <= |ts|
      invariant configs.Valid() && SameRows(configs.rows, rows0)
      invariant configs.rows == SucceededRows(start, IdsIn(ts[..k]), saveErr)
      invariant forall j :: 0 <= j < k ==> SaveError(rows0, ts[j].id, saveErr).None?
    {
      err := SaveOne(configs, rows0, start, ts, k, saveErr);
      if err.Some? {
        SavedBeforeFailureIs(ts, rows0, saveErr, k);
        return;
      }
      k := k + 1;
    }
    SavedBeforeFailureIs(ts, rows0, saveErr, k);
    err := None;
  }

  /** One turn of the SUCCESS loop: target `k` is saved as SUCCESS. */
  method SaveOne(configs: ConfigTable, ghost rows0: seq<ConfigRow>, ghost start: seq<ConfigRow>, ts: seq<TargetData>, k: nat,
                 saveErr: Id -> Option<string>) returns (err: Option<string>)
    requires configs.Valid() && SameRows(configs.rows, rows0) && k < |ts|
    requires configs.rows == SucceededRows(start, IdsIn(ts[..k]), saveErr)
    modifies configs
    ensures configs.Valid()
    ensures err == SaveError(rows0, ts[k].id, saveErr)
    ensures err.Some? ==> configs.rows == old(configs.rows)
    ensures err.None? ==> SameRows(configs.rows, rows0) && configs.rows == SucceededRows(start, IdsIn(ts[..k + 1]), saveErr)
  {
    var t := ts[k];
    SameRowsSaveError(configs.rows, rows0, t.id, saveErr);
    ghost var before := configs.rows;
    err := configs.UpdateStatusMessage(t.id, UpdateSuccess, "", saveErr(t.id));
    if err.None? {
      SuccessStep(start, before, configs.rows, IdsIn(ts[..k]), t.id, saveErr);
      IdsInSnoc(ts, k);
    }
  }

  /** The last steps on the target table: the HPA batch is written, then each
      selected target is saved as SUCCESS until a save fails. */
  method FinishPhase(configs: ConfigTable, ghost rows0: seq<ConfigRow>, s: Split, created: seq<UpdatedNodePool>,
                     calls: seq<ResizeCall>, g: Gateway) returns (run: Run)
    requires configs.Valid() && |s.selected| == |s.matched| && SameRows(configs.rows, rows0)
    modifies configs
    ensures run == Finish(rows0, s, created, calls, g)
    ensures configs.Valid()
    ensures configs.rows == SucceededRows(old(configs.rows), IdsIn(s.matched[..run.saved]), g.successSaveErr)
  {
    assert IdsIn(s.matched[..0]) == {};
    assert configs.rows == SucceededRows(configs.rows, {}, g.successSaveErr);
    if |created| == 0 {
      return Ended(FailedWith(EmptySliceFound), calls);
    }
    if g.createErr.Some? {
      return Ended(FailedWith(g.createErr.value), calls);
    }
    var written, err := UpdateHpaK8sObjectBatch(Retargeted(s), g.hpaWrites);
    if err.Some? {
      return Run(FailedWith(err.value), calls, created, written, 0);
    }
    var k, saveErr := SaveSuccesses(configs, rows0, s.matched, g.successSaveErr);
    if saveErr.Some? {
      run := Run(FailedWith(SaveFailureMessage(s.matched[k], saveErr.value)), calls, created, written, k);
    } else {
      run := Run(Scaled, calls, created, written, k);
    }
  }

  /** The registry after a run: the datacenter's credential is registered
      once all Google clients were built, whether or not the Kubernetes
      client then is. */
  function CredentialsAfter(credentials: map<string, Credential>, g: Gateway): map<string, Credential>
  {
    if g.executingSaveErr.None? && g.cluster.Ok? && GoogleClientsBuilt(g.cluster.value, g.clients)
    then credentials[g.cluster.value.datacenterName := g.clients.credential]
    else credentials
  }

  /** A Kubernetes client that cannot be built fails the lookups, yet the
      datacenter's credential stays registered. */
  lemma ClientFailureKeepsCredential(eventId: Id, rows: seq<ConfigRow>, credentials: map<string, Credential>, g: Gateway)
    requires g.executingSaveErr.None? && g.cluster.Ok? && GoogleClientsBuilt(g.cluster.value, g.clients)
    requires g.clients.kubernetesClientErr.Some?
    ensures Lookups(eventId, rows, g) == Err(g.clients.kubernetesClientErr.value)
    ensures CredentialsAfter(credentials, g)[g.cluster.value.datacenterName] == g.clients.credential
  {
  }

  /** The event's status after a run: FAILED or PRESCALED when the run
      concluded, EXECUTING otherwise (in memory, even when that save failed). */
  function StatusAfter(o: Outcome): EventStatus
  {
    match o
    case FailedWith(_) => Failed
    case Scaled => Prescaled
    case _ => Executing
  }

  /** The reply to the last save of the event a run makes. */
  function LastSave(o: Outcome, g: Gateway): Option<string>
  {
    match o
    case FailedWith(_) => g.failSaveErr
    case Scaled => g.prescaledSaveErr
    case _ => g.executingSaveErr
  }

  /** The event as its last successful save of a started run stored it: the
      final one when that save succeeded, otherwise the EXECUTING one. */
  function LastSaved(d: Events.EventData, final: Events.EventData, o: Outcome, g: Gateway): Events.EventData
  {
    if LastSave(o, g).None? then final else d.(status := Executing)
  }

  /** The resize and the last steps. */
  method ExecResize(e: Event, events: Events.EventTable, configs: ConfigTable, ghost rows0: seq<ConfigRow>,
                    s: Split, cl: Cluster, req: map<string, Requested>, g: Gateway) returns (run: Run)
    requires events.Valid() && configs.Valid() && SameRows(configs.rows, rows0)
    requires |s.selected| == |s.matched| && Resizable(cl, req)
    modifies e, events, configs
    ensures run == Resized(e.base.id, rows0, s, cl, req, g)
    ensures events.Valid() && configs.Valid()
    ensures e.status == if run.outcome.FailedWith? then Failed else if run.outcome.Scaled? then Prescaled else old(e.status)
    ensures e.message == if run.outcome.FailedWith? then run.outcome.msg else old(e.message)
    ensures !run.outcome.FailedWith? && !run.outcome.Scaled? ==> events.rows == old(events.rows)
    ensures run.outcome.FailedWith? || run.outcome.Scaled? ==>
              SavedAs(events.rows, old(events.rows), e.Data(), g.saveClock, LastSave(run.outcome, g))
    ensures configs.rows == SucceededRows(old(configs.rows), IdsIn(s.matched[..run.saved]), g.successSaveErr)
  {
    var bounds, calls, out := ResizePools(cl.pools, cl.coords, req, cl.loaded, g.setAutoscaling, g.poll);
    assert bounds == BoundsOf(cl, req);
    assert calls == CallsOf(cl, bounds);
    ghost var expected := Resized(e.base.id, rows0, s, cl, req, g);
    if out.Succeeded? {
      var created := ResizedRows(InitialRows(cl.pools, e.base.id), bounds);
      assert expected == Finish(rows0, s, created, calls, g);
      run := FinishPhase(configs, rows0, s, created, calls, g);
    } else {
      NothingSucceeded(configs.rows, s.matched, g.successSaveErr);
      run := Ended(ResizeEnd(out), calls);
    }
    Conclude(events, e, run.outcome, g);
  }

  /** The run once the pools are known: the demand and the resize in
      calculation mode, then the last steps. */
  method ExecPools(e: Event, events: Events.EventTable, configs: ConfigTable, ghost rows0: seq<ConfigRow>,
                   s: Split, cl: Cluster, g: Gateway) returns (run: Run)
    requires events.Valid() && configs.Valid() && SameRows(configs.rows, rows0)
    requires |s.selected| == |s.matched|
    requires e.base.calculateNodePool ==>
               forall i :: 0 <= i < |cl.pools| ==> Readable(cl.pools[i]) && cl.pools[i].name in cl.loaded
    modifies e, events, configs
    ensures run == AfterPools(e.base.id, e.base.calculateNodePool, rows0, s, cl, g)
    ensures events.Valid() && configs.Valid()
    ensures e.status == if run.outcome.FailedWith? then Failed else if run.outcome.Scaled? then Prescaled else old(e.status)
    ensures e.message == if run.outcome.FailedWith? then run.outcome.msg else old(e.message)
    ensures !run.outcome.FailedWith? && !run.outcome.Scaled? ==> events.rows == old(events.rows)
    ensures run.outcome.FailedWith? || run.outcome.Scaled? ==>
              SavedAs(events.rows, old(events.rows), e.Data(), g.saveClock, LastSave(run.outcome, g))
    ensures configs.rows == SucceededRows(old(configs.rows), IdsIn(s.matched[..run.saved]), g.successSaveErr)
  {
    if !e.base.calculateNodePool {
      run := FinishPhase(configs, rows0, s, InitialRows(cl.pools, e.base.id), [], g);
      Conclude(events, e, run.outcome, g);
      return;
    }
    var demand := DemandPhase(s, cl, g);
    if demand.Stop? {
      NothingSucceeded(configs.rows, s.matched, g.successSaveErr);
      run := Ended(demand.outcome, []);
      Conclude(events, e, run.outcome, g);
      return;
    }
    assert Resizable(cl, demand.value) by {
      forall i | 0 <= i < |cl.pools| ensures cl.pools[i].autoscaling.Some? {
        assert Readable(cl.pools[i]);
      }
    }
    run := ExecResize(e, events, configs, rows0, s, cl, demand.value, g);
  }

  /** A run after the lookups: the live HPAs are split, the targets without
      one are marked, and the run goes on with the pools. */
  method ExecSelected(e: Event, events: Events.EventTable, configs: ConfigTable, cx: Context, g: Gateway)
    returns (run: Run)
    requires events.Valid() && configs.Valid()
    modifies e, events, configs
    ensures run == Selected(e.base.id, e.base.calculateNodePool, old(configs.rows), cx, g)
    ensures events.Valid() && configs.Valid()
    ensures e.status == if run.outcome.FailedWith? then Failed else if run.outcome.Scaled? then Prescaled else old(e.status)
    ensures e.message == if run.outcome.FailedWith? then run.outcome.msg else old(e.message)
    ensures !run.outcome.FailedWith? && !run.outcome.Scaled? ==> events.rows == old(events.rows)
    ensures run.outcome.FailedWith? || run.outcome.Scaled? ==>
              SavedAs(events.rows, old(events.rows), e.Data(), g.saveClock, LastSave(run.outcome, g))
    ensures configs.rows == TargetsAfter(old(configs.rows), SplitOf(cx), run.saved, g)
  {
    ghost var rows0 := configs.rows;
    var s := PartitionHpas(cx.targets, cx.objects);
    MarkMissingTargets(configs, s.missing, g.markSaveErr);
    ghost var marked := configs.rows;
    assert marked == MarkedRows(rows0, s.missing, g.markSaveErr);
    NothingSucceeded(marked, s.matched, g.successSaveErr);
    if |s.selected| == 0 {
      run := Ended(FailedWith(NoHpaExist), []);
      Conclude(events, e, run.outcome, g);
      return;
    }
    var cl := PoolPhase(cx.info.data.name, e.base.calculateNodePool, g);
    if cl.Stop? {
      run := Ended(cl.outcome, []);
      Conclude(events, e, run.outcome, g);
      return;
    }
    run := ExecPools(e, events, configs, rows0, s, cl.value, g);
  }

  lemma NothingSucceeded(rows: seq<ConfigRow>, ts: seq<TargetData>, saveErr: Id -> Option<string>)
    ensures SucceededRows(rows, IdsIn(ts[..0]), saveErr) == rows
  {
    assert IdsIn(ts[..0]) == {};
  }

  /** The lookups: the cluster, its clients (which registers the
      credential), the event's targets and the cluster's HPAs. */
  method LookupPhase(registry: Registry, configs: ConfigTable, eventId: Id, g: Gateway) returns (r: Result<Context>)
    modifies registry
    ensures r == Lookups(eventId, configs.rows, g)
    ensures registry.credentials ==
              if g.cluster.Ok? && GoogleClientsBuilt(g.cluster.value, g.clients)
              then old(registry.credentials)[g.cluster.value.datacenterName := g.clients.credential]
              else old(registry.credentials)
  {
    if g.cluster.Err? {
      return Err(g.cluster.msg);
    }
    var info := g.cluster.value;
    var client := GetAllGcpClient(registry, info, g.clients);
    if client.Err? {
      return Err(client.msg);
    }
    if g.targetsErr.Some? {
      return Err(g.targetsErr.value);
    }
    var targets := configs.ListScheduledHpaConfigByEventId(eventId);
    var objects := GetAllK8sHpaObjectInCluster(info.data.latestHpaApiVersion, g.namespaces, g.hpaLists);
    if objects.Err? {
      return Err(objects.msg);
    }
    r := Ok(Context(info, client.value, targets, objects.value));
  }

  /** `execGCPEvent`: the event is saved as EXECUTING (a failed save ends the
      run untouched), the lookups are made, and the run goes on as
      `ExecSelected`. */
  method ExecGcpEvent(e: Event, events: Events.EventTable, configs: ConfigTable, registry: Registry, g: Gateway)
    returns (run: Run)
    requires events.Valid() && configs.Valid()
    modifies e, events, configs, registry
    ensures run == Exec(old(e.Data()), old(configs.rows), g)
    ensures events.Valid() && configs.Valid()
    ensures e.status == StatusAfter(run.outcome)
    ensures e.message == if run.outcome.FailedWith? then run.outcome.msg else old(e.message)
    ensures run.outcome.NotStarted? ==> events.rows == old(events.rows)
    ensures e.base.id != NilId && !run.outcome.NotStarted? ==>
              events.rows == Events.Saved(old(events.rows), Events.RowOf(LastSaved(old(e.Data()), e.Data(), run.outcome, g), g.saveClock))
    ensures registry.credentials == CredentialsAfter(old(registry.credentials), g)
    ensures ExecContext(old(e.Data()), old(configs.rows), g).None? ==> configs.rows == old(configs.rows)
    ensures ExecContext(old(e.Data()), old(configs.rows), g).Some? ==>
              configs.rows == TargetsAfter(old(configs.rows), SplitOf(ExecContext(old(e.Data()), old(configs.rows), g).value), run.saved, g)
  {
    ghost var d := e.Data();
    var err := SaveWithStatus(events, e, Executing, g.saveClock, g.executingSaveErr);
    if err.Some? {
      return Ended(NotStarted(err.value), []);
    }
    ghost var executing := events.rows;
    var cx := LookupPhase(registry, configs, e.base.id, g);
    if cx.Err? {
      run := Ended(FailedWith(cx.msg), []);
      Conclude(events, e, run.outcome, g);
    } else {
      assert ExecContext(d, configs.rows, g) == Some(cx.value);
      run := ExecSelected(e, events, configs, cx.value, g);
    }
    if e.base.id != NilId && LastSave(run.outcome, g).None? && (run.outcome.FailedWith? || run.outcome.Scaled?) {
      Events.SavedTwice(old(events.rows), Events.RowOf(d.(status := Executing), g.saveClock), Events.RowOf(e.Data(), g.saveClock));
    }
  }

  // ---------------------------------------------------------------- what a run promises

  /** The cluster as the run found it, when the run got that far. */
  function ClusterOf(d: Events.EventData, rows: seq<ConfigRow>, g: Gateway): Option<Cluster>
  {
    match ExecContext(d, rows, g)
    case None => None
    case Some(cx) =>
      if |SplitOf(cx).selected| == 0 then None
      else
        match PoolStage(cx.info.data.name, d.calculateNodePool, g)
        case Stop(_) => None
        case Go(cl) => Some(cl)
  }

  /** Every selected HPA was written with its target's bounds and every
      target was saved as SUCCESS. */
  predicate Completed(r: Run, s: Split, rows: seq<ConfigRow>, g: Gateway)
    requires |s.selected| == |s.matched|
  {
    && r.saved == |s.matched|
    && (forall j :: 0 <= j < |s.matched| ==> SaveError(rows, s.matched[j].id, g.successSaveErr).None?)
    && |r.written| == |s.selected|
    && (forall i :: 0 <= i < |s.selected| ==> r.written[i] == Unversioned(Retarget(s.selected[i], s.matched[i])))
  }

  lemma FinishCompletes(rows: seq<ConfigRow>, s: Split, created: seq<UpdatedNodePool>, calls: seq<ResizeCall>, g: Gateway)
    requires |s.selected| == |s.matched|
    requires Finish(rows, s, created, calls, g).outcome.Scaled?
    ensures Completed(Finish(rows, s, created, calls, g), s, rows, g)
  {
    var hs := RetargetAll(s.selected, s.matched);
    BatchWritesEveryHpa(hs, g.hpaWrites);
    assert Retargeted(s) == seq(|hs|, k requires 0 <= k < |hs| => HpaObject(hs[k]));
  }

  /** A run that ends PRESCALED got past the lookups, selected at least one
      HPA, wrote every selected HPA with its target's minimum and maximum
      (and its resource version cleared), and saved every target as SUCCESS. */
  lemma ScaledRunCompletes(d: Events.EventData, rows: seq<ConfigRow>, g: Gateway)
    requires Exec(d, rows, g).outcome.Scaled?
    ensures ExecContext(d, rows, g).Some? && ClusterOf(d, rows, g).Some?
    ensures |SplitOf(ExecContext(d, rows, g).value).selected| > 0
    ensures Completed(Exec(d, rows, g), SplitOf(ExecContext(d, rows, g).value), rows, g)
  {
    var cx := ExecContext(d, rows, g).value;
    assert Exec(d, rows, g) == Selected(d.id, d.calculateNodePool, rows, cx, g);
    SelectedCompletes(d.id, d.calculateNodePool, rows, cx, g);
  }

  lemma SelectedCompletes(eventId: Id, calculate: bool, rows: seq<ConfigRow>, cx: Context, g: Gateway)
    requires Selected(eventId, calculate, rows, cx, g).outcome.Scaled?
    ensures |SplitOf(cx).selected| > 0 && PoolStage(cx.info.data.name, calculate, g).Go?
    ensures Completed(Selected(eventId, calculate, rows, cx, g), SplitOf(cx), rows, g)
  {
    var s := SplitOf(cx);
    var cl := PoolStage(cx.info.data.name, calculate, g).value;
    assert Selected(eventId, calculate, rows, cx, g) == AfterPools(eventId, calculate, rows, s, cl, g);
    if calculate {
      assert AfterPools(eventId, calculate, rows, s, cl, g) == Calculated(eventId, rows, s, cl, g);
      CalculatedCompletes(eventId, rows, s, cl, g);
    } else {
      FinishCompletes(rows, s, InitialRows(cl.pools, eventId), [], g);
    }
  }

  lemma CalculatedCompletes(eventId: Id, rows: seq<ConfigRow>, s: Split, cl: Cluster, g: Gateway)
    requires |s.selected| == |s.matched|
    requires forall i :: 0 <= i < |cl.pools| ==> Readable(cl.pools[i]) && cl.pools[i].name in cl.loaded
    requires Calculated(eventId, rows, s, cl, g).outcome.Scaled?
    ensures Completed(Calculated(eventId, rows, s, cl, g), s, rows, g)
  {
    var req := DemandStage(s, cl, g).value;
    assert Resizable(cl, req) by {
      forall i | 0 <= i < |cl.pools| ensures cl.pools[i].autoscaling.Some? {
        assert Readable(cl.pools[i]);
      }
    }
    assert Calculated(eventId, rows, s, cl, g) == Resized(eventId, rows, s, cl, req, g);
    ResizedCompletes(eventId, rows, s, cl, req, g);
  }

  lemma ResizedCompletes(eventId: Id, rows: seq<ConfigRow>, s: Split, cl: Cluster, req: map<string, Requested>, g: Gateway)
    requires |s.selected| == |s.matched| && Resizable(cl, req)
    requires Resized(eventId, rows, s, cl, req, g).outcome.Scaled?
    ensures Completed(Resized(eventId, rows, s, cl, req, g), s, rows, g)
  {
    var bounds := BoundsOf(cl, req);
    FinishCompletes(rows, s, ResizedRows(InitialRows(cl.pools, eventId), bounds), CallsOf(cl, bounds), g);
  }

  /** Without node-pool calculation no pool is resized, and a run that ends
      PRESCALED records every pool with its current autoscaling maximum. */
  lemma PlainRunKeepsBounds(d: Events.EventData, rows: seq<ConfigRow>, g: Gateway)
    requires !d.calculateNodePool
    ensures Exec(d, rows, g).calls == []
    ensures Exec(d, rows, g).outcome.Scaled? ==>
              ClusterOf(d, rows, g).Some? && Exec(d, rows, g).created == InitialRows(ClusterOf(d, rows, g).value.pools, d.id)
  {
    if ClusterOf(d, rows, g).Some? {
      var cx := ExecContext(d, rows, g).value;
      var cl := ClusterOf(d, rows, g).value;
      assert Exec(d, rows, g) == Finish(rows, SplitOf(cx), InitialRows(cl.pools, d.id), [], g);
    }
  }

  /** In calculation mode a run that ends PRESCALED asked GKE to resize every
      pool of the cluster, in pool order, each resize succeeded, and the row
      recorded for each pool holds the maximum sent, which is never below the
      pool's previous maximum. */
  lemma ScaledRunResizedEveryPool(d: Events.EventData, rows: seq<ConfigRow>, g: Gateway)
    requires d.calculateNodePool && Exec(d, rows, g).outcome.Scaled?
    ensures ClusterOf(d, rows, g).Some?
    ensures var cl := ClusterOf(d, rows, g).value; var r := Exec(d, rows, g);
            |r.calls| == |cl.pools| && |r.created| == |cl.pools|
            && forall i :: 0 <= i < |cl.pools| ==>
                 && cl.pools[i].autoscaling.Some?
                 && r.calls[i] == CallOf(cl.pools[i], cl.coords, r.calls[i].autoscaling.maxNodeCount)
                 && PoolResize(cl.pools[i], cl.coords, r.calls[i].autoscaling.maxNodeCount, g.setAutoscaling, g.poll).Succeeded?
                 && r.created[i].poolName == cl.pools[i].name && r.created[i].eventId == d.id
                 && r.created[i].maxNode == r.calls[i].autoscaling.maxNodeCount
                 && r.created[i].maxNode >= cl.pools[i].autoscaling.value.maxNodeCount
  {
    var cx := ExecContext(d, rows, g).value;
    var s := SplitOf(cx);
    var cl := ClusterOf(d, rows, g).value;
    var req := DemandStage(s, cl, g).value;
    assert Resizable(cl, req) by {
      forall i | 0 <= i < |cl.pools| ensures cl.pools[i].autoscaling.Some? {
        assert Readable(cl.pools[i]);
      }
    }
    var bounds := BoundsOf(cl, req);
    var calls := CallsOf(cl, bounds);
    var outs := Resizes(cl.pools, cl.coords, bounds, g.setAutoscaling, g.poll);
    assert Combine(outs).Succeeded?;
    CombineSound(outs);
    ResizedRowsMatchCalls(cl.pools, d.id, bounds, calls, cl.coords, req, cl.loaded);
    assert Exec(d, rows, g) == Finish(rows, s, ResizedRows(InitialRows(cl.pools, d.id), bounds), calls, g);
  }

  /** A run that ends PRESCALED found a cluster with at least one node pool
      and stored one UpdatedNodePool row per pool: a cluster without pools
      fails on the empty batch. */
  lemma ScaledRunHasPools(d: Events.EventData, rows: seq<ConfigRow>, g: Gateway)
    requires Exec(d, rows, g).outcome.Scaled?
    ensures ClusterOf(d, rows, g).Some?
    ensures |ClusterOf(d, rows, g).value.pools| > 0
    ensures |Exec(d, rows, g).created| == |ClusterOf(d, rows, g).value.pools|
  {
    if d.calculateNodePool {
      ScaledRunResizedEveryPool(d, rows, g);
    } else {
      PlainRunKeepsBounds(d, rows, g);
    }
    var cx := ExecContext(d, rows, g).value;
    var s := SplitOf(cx);
    var r := Exec(d, rows, g);
    assert r == Finish(rows, s, r.created, r.calls, g) by {
      assert r == Selected(d.id, d.calculateNodePool, rows, cx, g);
    }
  }

  /** A run that finds no live HPA for any target fails with "no hpa exist"
      before the cluster's pools are even fetched. */
  lemma NoSelectionFails(d: Events.EventData, rows: seq<ConfigRow>, g: Gateway)
    requires ExecContext(d, rows, g).Some? && |SplitOf(ExecContext(d, rows, g).value).selected| == 0
    ensures Exec(d, rows, g) == Run(FailedWith(NoHpaExist), [], [], [], 0)
  {
  }

  /** The run stops before anything else exactly when EXECUTING cannot be
      saved. */
  lemma NotStartedIffExecutingUnsaved(d: Events.EventData, rows: seq<ConfigRow>, g: Gateway)
    ensures Exec(d, rows, g).outcome.NotStarted? <==> g.executingSaveErr.Some?
  {
  }
}
