/** internal/handler/gcp.go: registering a GCP datacenter (temporarily, in
    the one-hour Redis store, or permanently), listing the GKE clusters a
    datacenter's service account can see, and registering chosen clusters
    under a datacenter with the HPA API version each one serves. */
module GcpHandler {
  import opened Common
  import opened GcpCustomAuth
  import opened GkeCluster
  import Targets

  /** What the handlers keep of a datacenter: its name and the raw
      service-account key. */
  datatype DatacenterRecord = DatacenterRecord(name: string, credentials: string)

  /** `google.Credentials` as far as the handlers use it. */
  datatype GoogleCredentials = GoogleCredentials(credential: Credential, projectId: string)

  /** The two datacenter stores: Redis entries `datacenter_<id>` (which
      expire after an hour; expiry is not modelled) and the `datacenters`
      table. */
  class DatacenterStore {
    var temporary: map<Id, DatacenterRecord>
    var persistent: map<Id, DatacenterRecord>

    constructor ()
      ensures temporary == map[] && persistent == map[]
    {
      temporary := map[];
      persistent := map[];
    }
  }

  /** The error of a Redis `GET` on a missing key; its text is not part of
      this model. */
  const TemporaryDatacenterMissing: string := "TemporaryDatacenterMissing"

  // ---------------------------------------------------------------- RegisterDatacenter

  datatype DatacenterReply = DatacenterRegistered(id: Id, isTemporary: bool) | DatacenterRefused(err: string)

  /** `RegisterDatacenter` as written: a body, validation or key-parsing
      error is refused, but the error of the save itself is dropped and the
      reply announces the id whatever happened to it. */
  function DatacenterReplyAsWritten(parseErr: Option<string>, savedId: Id, isTemporary: bool, saveErr: Option<string>): (r: DatacenterReply)
    ensures r.DatacenterRefused? <==> parseErr.Some?
    ensures r.DatacenterRegistered? ==> r.id == savedId && r.isTemporary == isTemporary
  {
    if parseErr.Some? then DatacenterRefused(parseErr.value) else DatacenterRegistered(savedId, isTemporary)
  }

  /** `RegisterDatacenter` with the save error reported: an id is announced
      only when it was stored. */
  function DatacenterReplyOf(parseErr: Option<string>, savedId: Id, isTemporary: bool, saveErr: Option<string>): (r: DatacenterReply)
    ensures r.DatacenterRegistered? <==> parseErr.None? && saveErr.None?
    ensures r.DatacenterRefused? ==> r.err == if parseErr.Some? then parseErr.value else saveErr.value
    ensures r.DatacenterRegistered? ==> r == DatacenterReplyAsWritten(parseErr, savedId, isTemporary, saveErr)
  {
    if parseErr.Some? then DatacenterRefused(parseErr.value)
    else if saveErr.Some? then DatacenterRefused(saveErr.value)
    else DatacenterRegistered(savedId, isTemporary)
  }

  /** The datacenter a lookup found and which store it came from. */
  datatype Found = Found(record: DatacenterRecord, isTemporary: bool)

  /** The lookup of `GetClustersByDatacenterID`: the temporary store first,
      the table only when Redis has nothing under the id. */
  function FindDatacenter(temporary: map<Id, DatacenterRecord>, persistent: map<Id, DatacenterRecord>, id: Id): (r: Result<Found>)
    ensures r.Err? <==> id !in temporary && id !in persistent
    ensures r.Err? ==> r.msg == Targets.RecordNotFound
    ensures r.Ok? ==> r.value.isTemporary == (id in temporary)
    ensures r.Ok? && r.value.isTemporary ==> r.value.record == temporary[id]
    ensures r.Ok? && !r.value.isTemporary ==> r.value.record == persistent[id]
  {
    if id in temporary then Ok(Found(temporary[id], true))
    else if id in persistent then Ok(Found(persistent[id], false))
    else Err(Targets.RecordNotFound)
  }

  /** `RegisterDatacenter`. The datacenter is stored in the store the
      request names; a refused request stores nothing. */
  method RegisterDatacenter(store: DatacenterStore, dc: DatacenterRecord, isTemporary: bool,
                            parseErr: Option<string>, savedId: Id, saveErr: Option<string>)
    returns (reply: DatacenterReply)
    modifies store
    ensures reply == DatacenterReplyOf(parseErr, savedId, isTemporary, saveErr)
    ensures store.temporary == if reply.DatacenterRegistered? && isTemporary then old(store.temporary)[savedId := dc] else old(store.temporary)
    ensures store.persistent == if reply.DatacenterRegistered? && !isTemporary then old(store.persistent)[savedId := dc] else old(store.persistent)
  {
    if parseErr.Some? {
      return DatacenterRefused(parseErr.value);
    }
    if saveErr.Some? {
      return DatacenterRefused(saveErr.value);
    }
    if isTemporary {
      store.temporary := store.temporary[savedId := dc];
    } else {
      store.persistent := store.persistent[savedId := dc];
    }
    reply := DatacenterRegistered(savedId, isTemporary);
  }

  /** A registered datacenter is found again under the announced id, in the
      store it was registered in (a permanent one only while Redis holds no
      temporary datacenter under the same id). */
  lemma RegisteredDatacenterIsFound(temporary: map<Id, DatacenterRecord>, persistent: map<Id, DatacenterRecord>,
                                    dc: DatacenterRecord, parseErr: Option<string>, savedId: Id, isTemporary: bool, saveErr: Option<string>)
    requires DatacenterReplyOf(parseErr, savedId, isTemporary, saveErr).DatacenterRegistered?
    requires !isTemporary ==> savedId !in temporary
    ensures var t := if isTemporary then temporary[savedId := dc] else temporary;
            var p := if isTemporary then persistent else persistent[savedId := dc];
            FindDatacenter(t, p, savedId) == Ok(Found(dc, isTemporary))
  {
  }

  /** The reply as written announces an id that was never stored when the
      save fails: looking it up afterwards finds nothing. */
  lemma DroppedSaveErrorExample()
    ensures DatacenterReplyAsWritten(None, 7, true, Some("connection refused")) == DatacenterRegistered(7, true)
    ensures DatacenterReplyOf(None, 7, true, Some("connection refused")) == DatacenterRefused("connection refused")
    ensures FindDatacenter(map[], map[], 7).Err?
  {
  }

  // ---------------------------------------------------------------- GetClustersByDatacenterID

  /** One entry of a cluster listing; `id` is `NilId` where the response
      carries none. */
  datatype ListedCluster = ListedCluster(id: Id, name: string, datacenterName: string, location: string)

  datatype ClustersReply = Clusters(clusters: seq<ListedCluster>, isTemporary: bool) | ClustersRefused(err: string)

  /** The replies of the Google APIs behind a cluster listing: the
      credentials parsed from a stored key, the error of opening the GKE
      client, and the project's listing. */
  datatype GoogleReplies = GoogleReplies(
    parseCredentials: string -> Result<GoogleCredentials>,
    clientErr: Option<string>,
    listing: Result<seq<ApiCluster>>)

  /** The GKE clusters of a datacenter's project, or the first error met. */
  function CloudClusters(dc: DatacenterRecord, g: GoogleReplies): (r: Result<seq<GcpClusterData>>)
    ensures r.Ok? <==> g.parseCredentials(dc.credentials).Ok? && g.clientErr.None? && g.listing.Ok?
    ensures r.Ok? ==> r == GetAllClustersInGcpProject(g.parseCredentials(dc.credentials).value.projectId, g.listing)
  {
    var google := g.parseCredentials(dc.credentials);
    if google.Err? then Err(google.msg)
    else if g.clientErr.Some? then Err(g.clientErr.value)
    else GetAllClustersInGcpProject(google.value.projectId, g.listing)
  }

  /** The listing entries: each cluster's name and location, under the
      datacenter's name. */
  function Listing(cs: seq<GcpClusterData>, datacenterName: string): (r: seq<ListedCluster>)
    ensures |r| == |cs|
    ensures forall k :: 0 <= k < |cs| ==> r[k] == ListedCluster(NilId, cs[k].name, datacenterName, cs[k].location)
  {
    seq(|cs|, k requires 0 <= k < |cs| => ListedCluster(NilId, cs[k].name, datacenterName, cs[k].location))
  }

  function ClustersReplyOf(temporary: map<Id, DatacenterRecord>, persistent: map<Id, DatacenterRecord>, id: Id, g: GoogleReplies): (r: ClustersReply)
    ensures r.Clusters? <==> FindDatacenter(temporary, persistent, id).Ok?
                             && CloudClusters(FindDatacenter(temporary, persistent, id).value.record, g).Ok?
    ensures r.Clusters? ==> r.isTemporary == (id in temporary)
    ensures r.Clusters? ==> |r.clusters| == |g.listing.value|
    ensures r.Clusters? ==> forall k :: 0 <= k < |r.clusters| ==> r.clusters[k].location == g.listing.value[k].location
  {
    var found := FindDatacenter(temporary, persistent, id);
    if found.Err? then ClustersRefused(found.msg)
    else
      var cloud := CloudClusters(found.value.record, g);
      if cloud.Err? then ClustersRefused(cloud.msg)
      else Clusters(Listing(cloud.value, found.value.record.name), found.value.isTemporary)
  }

  /** `GetClustersByDatacenterID`. */
  method GetClustersByDatacenterId(store: DatacenterStore, id: Id, g: GoogleReplies) returns (reply: ClustersReply)
    ensures reply == ClustersReplyOf(store.temporary, store.persistent, id, g)
  {
    var isTemporary := true;
    var data: DatacenterRecord;
    if id in store.temporary {
      data := store.temporary[id];
    } else {
      isTemporary := false;
      if id !in store.persistent {
        return ClustersRefused(Targets.RecordNotFound);
      }
      data := store.persistent[id];
    }
    var cloud := CloudClusters(data, g);
    if cloud.Err? {
      return ClustersRefused(cloud.msg);
    }
    var listed: seq<ListedCluster> := [];
    for i := 0 to |cloud.value|
      invariant listed == Listing(cloud.value[..i], data.name)
    {
      assert cloud.value[..i + 1] == cloud.value[..i] + [cloud.value[i]];
      listed := listed + [ListedCluster(NilId, cloud.value[i].name, data.name, cloud.value[i].location)];
    }
    assert cloud.value[..|cloud.value|] == cloud.value;
    reply := Clusters(listed, isTemporary);
  }

  // ---------------------------------------------------------------- choosing the clusters

  /** The cluster names already registered under a datacenter. */
  function LocalNames(rows: seq<ClusterRecord>, datacenterId: Id): (r: set<string>)
    ensures forall n :: n in r <==> exists k :: 0 <= k < |rows| && rows[k].datacenterId == datacenterId && rows[k].name == n
  {
    set k | 0 <= k < |rows| && rows[k].datacenterId == datacenterId :: rows[k].name
  }

  /** The first cloud cluster with the name, if any. */
  function FirstNamed(cloud: seq<GcpClusterData>, name: string): (r: Option<nat>)
    ensures r.Some? ==> r.value < |cloud| && cloud[r.value].name == name
                        && forall j :: 0 <= j < r.value ==> cloud[j].name != name
    ensures r.None? <==> forall j :: 0 <= j < |cloud| ==> cloud[j].name != name
  {
    if |cloud| == 0 then None
    else if cloud[0].name == name then Some(0)
    else match FirstNamed(cloud[1..], name)
      case None => None
      case Some(j) => Some(j + 1)
  }

  /** A requested name can be registered: it is not local yet and the
      project has a cluster of that name. */
  predicate Selectable(name: string, local: set<string>, cloud: seq<GcpClusterData>)
  {
    name !in local && FirstNamed(cloud, name).Some?
  }

  /** The error a name that cannot be registered gets: being registered
      already is checked before being listed. */
  function Rejection(name: string, local: set<string>): string
  {
    if name in local then ClusterExists(name) else ClusterNotFound(name)
  }

  /** The clusters chosen by the requested names, as indices into the
      listing: the first matching cluster for each name, in request order;
      the first name that cannot be registered decides the error. */
  function Selection(names: seq<string>, local: set<string>, cloud: seq<GcpClusterData>): (r: Result<seq<nat>>)
    ensures r.Ok? <==> forall k :: 0 <= k < |names| ==> Selectable(names[k], local, cloud)
    ensures r.Ok? ==> |r.value| == |names|
    ensures r.Ok? ==> forall k :: 0 <= k < |names| ==> Some(r.value[k]) == FirstNamed(cloud, names[k])
    decreases |names|
  {
    if |names| == 0 then Ok([])
    else
      var front := Selection(names[..|names| - 1], local, cloud);
      var name := names[|names| - 1];
      if front.Err? then front
      else if name in local then Err(ClusterExists(name))
      else match FirstNamed(cloud, name)
        case None => Err(ClusterNotFound(name))
        case Some(j) => Ok(front.value + [j])
  }

  /** The first name in request order that cannot be registered decides the
      error, whatever follows it. */
  lemma {:induction false} FirstRejectionDecides(names: seq<string>, local: set<string>, cloud: seq<GcpClusterData>, k: nat)
    requires k < |names|
    requires forall j :: 0 <= j < k ==> Selectable(names[j], local, cloud)
    requires !Selectable(names[k], local, cloud)
    ensures Selection(names, local, cloud) == Err(Rejection(names[k], local))
    decreases |names|
  {
    if k < |names| - 1 {
      var front := names[..|names| - 1];
      assert front[k] == names[k];
      FirstRejectionDecides(front, local, cloud, k);
    } else {
      var front := names[..|names| - 1];
      assert forall j :: 0 <= j < |front| ==> Selectable(front[j], local, cloud) by {
        forall j | 0 <= j < |front| ensures Selectable(front[j], local, cloud) {
          assert front[j] == names[j];
        }
      }
    }
  }

  /** The inner loop over the listing, stopping at the first match. */
  method FindCluster(cloud: seq<GcpClusterData>, name: string) returns (r: Option<nat>)
    ensures r == FirstNamed(cloud, name)
  {
    var i := 0;
    while i < |cloud|
      invariant 0 <= i <= |cloud|
      invariant forall j :: 0 <= j < i ==> cloud[j].name != name
    {
      if cloud[i].name == name {
        FirstNamedIsFirst(cloud, name, i);
        return Some(i);
      }
      i := i + 1;
    }
    r := None;
  }

  lemma {:induction false} FirstNamedIsFirst(cloud: seq<GcpClusterData>, name: string, i: nat)
    requires i < |cloud| && cloud[i].name == name
    requires forall j :: 0 <= j < i ==> cloud[j].name != name
    ensures FirstNamed(cloud, name) == Some(i)
    decreases i
  {
    if i > 0 {
      FirstNamedIsFirst(cloud[1..], name, i - 1);
    }
  }

  /** The selection loop of `RegisterClusterWithDatacenter`. */
  method SelectClusters(names: seq<string>, local: set<string>, cloud: seq<GcpClusterData>) returns (r: Result<seq<nat>>)
    ensures r == Selection(names, local, cloud)
  {
    var chosen: seq<nat> := [];
    for i := 0 to |names|
      invariant Selection(names[..i], local, cloud) == Ok(chosen)
    {
      assert names[..i + 1][..i] == names[..i];
      if names[i] in local {
        r := Err(ClusterExists(names[i]));
        assert Selection(names[..i + 1], local, cloud) == r;
        SelectionOfPrefix(names, local, cloud, i + 1);
        return;
      }
      var found := FindCluster(cloud, names[i]);
      if found.None? {
        r := Err(ClusterNotFound(names[i]));
        assert Selection(names[..i + 1], local, cloud) == r;
        SelectionOfPrefix(names, local, cloud, i + 1);
        return;
      }
      chosen := chosen + [found.value];
    }
    assert names[..|names|] == names;
    r := Ok(chosen);
  }

  /** An error of a prefix is the error of the whole request. */
  lemma {:induction false} SelectionOfPrefix(names: seq<string>, local: set<string>, cloud: seq<GcpClusterData>, n: nat)
    requires n <= |names|
    requires Selection(names[..n], local, cloud).Err?
    ensures Selection(names, local, cloud) == Selection(names[..n], local, cloud)
    decreases |names| - n
  {
    if n < |names| {
      assert names[..n + 1][..n] == names[..n];
      SelectionOfPrefix(names, local, cloud, n + 1);
    } else {
      assert names[..n] == names;
    }
  }

  // ---------------------------------------------------------------- latest HPA API versions

  /** One cluster stamped with the HPA API version its API server reports
      through a client authenticated as the datacenter; `build` is the reply
      of building that client. */
  function StampOne(datacenterName: string, build: GcpClusterData -> Option<string>, latest: ClientCredentials -> Result<string>, c: GcpClusterData): Result<GcpClusterData>
  {
    var client := GetKubernetesClusterClient(datacenterName, c, build(c));
    if client.Err? then Err(client.msg)
    else
      var version := latest(client.value);
      if version.Err? then Err(version.msg)
      else Ok(c.(latestHpaApiVersion := version.value))
  }

  /** Every listed cluster stamped in listing order, or the first error. */
  function Stamped(cs: seq<GcpClusterData>, datacenterName: string, build: GcpClusterData -> Option<string>, latest: ClientCredentials -> Result<string>): (r: Result<seq<GcpClusterData>>)
    ensures r.Ok? <==> forall k :: 0 <= k < |cs| ==> StampOne(datacenterName, build, latest, cs[k]).Ok?
    ensures r.Ok? ==> |r.value| == |cs|
    ensures r.Ok? ==> forall k :: 0 <= k < |cs| ==> r.value[k] == StampOne(datacenterName, build, latest, cs[k]).value
    decreases |cs|
  {
    if |cs| == 0 then Ok([])
    else
      var front := Stamped(cs[..|cs| - 1], datacenterName, build, latest);
      var last := StampOne(datacenterName, build, latest, cs[|cs| - 1]);
      if front.Err? then front
      else if last.Err? then Err(last.msg)
      else Ok(front.value + [last.value])
  }

  /** Stamping changes a cluster's HPA API version and nothing else. */
  lemma StampKeepsIdentity(datacenterName: string, build: GcpClusterData -> Option<string>, latest: ClientCredentials -> Result<string>, c: GcpClusterData)
    requires StampOne(datacenterName, build, latest, c).Ok?
    ensures StampOne(datacenterName, build, latest, c).value.(latestHpaApiVersion := c.latestHpaApiVersion) == c
  {
  }

  /** The version loop: each cluster object of the listing is stamped in
      place. The objects are shared with the selection, which therefore sees
      the stamped versions. */
  method StampVersions(objs: array<GcpClusterData>, datacenterName: string, build: GcpClusterData -> Option<string>, latest: ClientCredentials -> Result<string>)
    returns (err: Option<string>)
    modifies objs
    ensures err.None? <==> Stamped(old(objs[..]), datacenterName, build, latest).Ok?
    ensures err.Some? ==> Stamped(old(objs[..]), datacenterName, build, latest) == Err(err.value)
    ensures err.None? ==> objs[..] == Stamped(old(objs[..]), datacenterName, build, latest).value
  {
    ghost var before := objs[..];
    for i := 0 to objs.Length
      invariant Stamped(before[..i], datacenterName, build, latest) == Ok(objs[..i])
      invariant objs[i..] == before[i..]
    {
      assert before[..i + 1][..i] == before[..i];
      assert objs[i] == before[i];
      var client := GetKubernetesClusterClient(datacenterName, objs[i], build(objs[i]));
      if client.Err? {
        StampedOfPrefix(before, datacenterName, build, latest, i + 1);
        assert before[..objs.Length] == before;
        return Some(client.msg);
      }
      var version := latest(client.value);
      if version.Err? {
        StampedOfPrefix(before, datacenterName, build, latest, i + 1);
        assert before[..objs.Length] == before;
        return Some(version.msg);
      }
      objs[i] := objs[i].(latestHpaApiVersion := version.value);
      assert objs[..i + 1] == objs[..i] + [objs[i]];
      assert objs[i + 1..] == before[i + 1..];
    }
    assert before[..objs.Length] == before;
    assert objs[..objs.Length] == objs[..];
    err := None;
  }

  /** An error of a prefix is the error of the whole listing. */
  lemma {:induction false} StampedOfPrefix(cs: seq<GcpClusterData>, datacenterName: string, build: GcpClusterData -> Option<string>, latest: ClientCredentials -> Result<string>, n: nat)
    requires n <= |cs|
    requires Stamped(cs[..n], datacenterName, build, latest).Err?
    ensures Stamped(cs, datacenterName, build, latest) == Stamped(cs[..n], datacenterName, build, latest)
    decreases |cs| - n
  {
    if n < |cs| {
      assert cs[..n + 1][..n] == cs[..n];
      StampedOfPrefix(cs, datacenterName, build, latest, n + 1);
    } else {
      assert cs[..n] == cs;
    }
  }

  // ---------------------------------------------------------------- RegisterClusterWithDatacenter

  /** `GCPRegisterClusterData`. */
  datatype ClusterRequest = ClusterRequest(datacenterId: Id, isTemporary: bool, names: seq<string>)

  /** The replies of everything outside the handler that registration
      depends on. */
  datatype RegistrationGateway = RegistrationGateway(
    google: GoogleReplies,
    localErr: Option<string>,
    build: GcpClusterData -> Option<string>,       // building a cluster's Kubernetes client
    latest: ClientCredentials -> Result<string>,
    saveDatacenterErr: Option<string>,
    insertErr: Option<string>)

  /** The datacenter a registration request names: only the store the
      request's flag points to is asked. */
  function RequestedDatacenter(req: ClusterRequest, temporary: map<Id, DatacenterRecord>, persistent: map<Id, DatacenterRecord>): (r: Result<DatacenterRecord>)
    ensures r.Ok? <==> req.datacenterId in (if req.isTemporary then temporary else persistent)
    ensures r.Ok? ==> r.value == (if req.isTemporary then temporary else persistent)[req.datacenterId]
  {
    if req.isTemporary then
      (if req.datacenterId in temporary then Ok(temporary[req.datacenterId]) else Err(TemporaryDatacenterMissing))
    else
      (if req.datacenterId in persistent then Ok(persistent[req.datacenterId]) else Err(Targets.RecordNotFound))
  }

  /** What registration has settled once the selection succeeded: the
      datacenter, its credentials, the project's clusters and the chosen
      indices into them. */
  datatype Plan = Plan(dc: DatacenterRecord, google: GoogleCredentials, cloud: seq<GcpClusterData>, chosen: seq<nat>)

  predicate PlanWellFormed(p: Plan)
  {
    forall k :: 0 <= k < |p.chosen| ==> p.chosen[k] < |p.cloud|
  }

  /** Everything up to the selection; an error here leaves every store as it
      was. */
  function PlanOf(req: ClusterRequest, temporary: map<Id, DatacenterRecord>, persistent: map<Id, DatacenterRecord>,
                  rows: seq<ClusterRecord>, g: RegistrationGateway): (r: Result<Plan>)
    ensures r.Ok? ==> PlanWellFormed(r.value)
    ensures r.Ok? ==> RequestedDatacenter(req, temporary, persistent) == Ok(r.value.dc)
    ensures r.Ok? ==> Ok(r.value.cloud) == CloudClusters(r.value.dc, g.google) && g.localErr.None?
    ensures r.Ok? ==> Selection(req.names, LocalNames(rows, req.datacenterId), r.value.cloud) == Ok(r.value.chosen)
  {
    var dc := RequestedDatacenter(req, temporary, persistent);
    if dc.Err? then Err(dc.msg)
    else
      var cloud := CloudClusters(dc.value, g.google);
      if cloud.Err? then Err(cloud.msg)
      else if g.localErr.Some? then Err(g.localErr.value)
      else
        var chosen := Selection(req.names, LocalNames(rows, req.datacenterId), cloud.value);
        if chosen.Err? then Err(chosen.msg)
        else Ok(Plan(dc.value, g.google.parseCredentials(dc.value.credentials).value, cloud.value, chosen.value))
  }

  /** The chosen entries of a listing, in request order. */
  function Picked(cs: seq<GcpClusterData>, chosen: seq<nat>): (r: seq<GcpClusterData>)
    requires forall k :: 0 <= k < |chosen| ==> chosen[k] < |cs|
    ensures |r| == |chosen|
    ensures forall k :: 0 <= k < |chosen| ==> r[k] == cs[chosen[k]]
  {
    seq(|chosen|, k requires 0 <= k < |chosen| => cs[chosen[k]])
  }

  /** The chosen clusters, stamped, with the ids the insert hands out. */
  function WithIds(cs: seq<GcpClusterData>, firstId: Id): (r: seq<GcpClusterData>)
    ensures |r| == |cs|
    ensures forall k :: 0 <= k < |cs| ==> r[k] == cs[k].(id := firstId + k)
  {
    seq(|cs|, k requires 0 <= k < |cs| => cs[k].(id := firstId + k))
  }

  datatype RegistrationReply = Registered(clusters: seq<ListedCluster>) | RegistrationRefused(err: string)

  /** The stamped clusters a plan registers. */
  function PlannedClusters(p: Plan, g: RegistrationGateway): Result<seq<GcpClusterData>>
    requires PlanWellFormed(p)
  {
    var stamped := Stamped(p.cloud, p.dc.name, g.build, g.latest);
    if stamped.Err? then Err(stamped.msg) else Ok(Picked(stamped.value, p.chosen))
  }

  /** `RegisterClusterWithDatacenter`'s reply. After the plan, every listed
      cluster (chosen or not) must report its HPA API version; then, in one
      transaction, a temporary datacenter is saved permanently and the
      chosen clusters are inserted. */
  function RegistrationReplyOf(req: ClusterRequest, temporary: map<Id, DatacenterRecord>, persistent: map<Id, DatacenterRecord>,
                               rows: seq<ClusterRecord>, nextId: Id, g: RegistrationGateway): (r: RegistrationReply)
    ensures r.Registered? ==> PlanOf(req, temporary, persistent, rows, g).Ok?
    ensures r.Registered? ==> |r.clusters| == |req.names| > 0
    ensures r.Registered? ==> forall k :: 0 <= k < |req.names| ==>
              r.clusters[k].name == req.names[k] && r.clusters[k].id == nextId + k
              && req.names[k] !in LocalNames(rows, req.datacenterId)
  {
    var plan := PlanOf(req, temporary, persistent, rows, g);
    if plan.Err? then RegistrationRefused(plan.msg)
    else
      var planned := PlannedClusters(plan.value, g);
      if planned.Err? then RegistrationRefused(planned.msg)
      else if req.isTemporary && g.saveDatacenterErr.Some? then RegistrationRefused(g.saveDatacenterErr.value)
      else if |req.names| == 0 then RegistrationRefused(EmptySliceFound)
      else if g.insertErr.Some? then RegistrationRefused(g.insertErr.value)
      else
        Registered(Listed(WithIds(planned.value, nextId), plan.value.dc.name))
  }

  /** A Kubernetes client that cannot be built for any listed cluster,
      chosen or not, refuses the whole registration. */
  lemma ClientFailureRefusesRegistration(req: ClusterRequest, temporary: map<Id, DatacenterRecord>, persistent: map<Id, DatacenterRecord>,
                                         rows: seq<ClusterRecord>, nextId: Id, g: RegistrationGateway, k: nat)
    requires PlanOf(req, temporary, persistent, rows, g).Ok?
    requires k < |PlanOf(req, temporary, persistent, rows, g).value.cloud|
    requires PlanOf(req, temporary, persistent, rows, g).value.cloud[k].datacenter == GcpProvider
    requires g.build(PlanOf(req, temporary, persistent, rows, g).value.cloud[k]).Some?
    ensures RegistrationReplyOf(req, temporary, persistent, rows, nextId, g).RegistrationRefused?
  {
    var p := PlanOf(req, temporary, persistent, rows, g).value;
    assert StampOne(p.dc.name, g.build, g.latest, p.cloud[k]).Err?;
  }

  /** A request naming no cluster passes validation (`required` rejects only
      a missing list) but is never registered: gorm refuses the empty batch,
      so a temporary datacenter is not saved either. */
  lemma EmptyRegistrationRefused(req: ClusterRequest, temporary: map<Id, DatacenterRecord>, persistent: map<Id, DatacenterRecord>,
                                 rows: seq<ClusterRecord>, nextId: Id, g: RegistrationGateway)
    requires |req.names| == 0
    requires PlanOf(req, temporary, persistent, rows, g).Ok?
    requires PlannedClusters(PlanOf(req, temporary, persistent, rows, g).value, g).Ok?
    requires !req.isTemporary || g.saveDatacenterErr.None?
    ensures RegistrationReplyOf(req, temporary, persistent, rows, nextId, g) == RegistrationRefused(EmptySliceFound)
  {
  }

  /** The response entries of registered clusters: id, name and location
      under the datacenter's name. */
  function Listed(saved: seq<GcpClusterData>, datacenterName: string): (r: seq<ListedCluster>)
    ensures |r| == |saved|
    ensures forall k :: 0 <= k < |saved| ==> r[k] == ListedCluster(saved[k].id, saved[k].name, datacenterName, saved[k].location)
  {
    seq(|saved|, k requires 0 <= k < |saved| => ListedCluster(saved[k].id, saved[k].name, datacenterName, saved[k].location))
  }

  /** The rows a successful registration inserts. */
  function RegisteredRows(req: ClusterRequest, temporary: map<Id, DatacenterRecord>, persistent: map<Id, DatacenterRecord>,
                          rows: seq<ClusterRecord>, nextId: Id, g: RegistrationGateway): seq<ClusterRecord>
    requires RegistrationReplyOf(req, temporary, persistent, rows, nextId, g).Registered?
  {
    var plan := PlanOf(req, temporary, persistent, rows, g).value;
    RecordsOf(PlannedClusters(plan, g).value, req.datacenterId, nextId)
  }

  /** `RegisterClusterWithDatacenter`. The datacenter's credentials are
      registered as soon as the selection succeeded and stay registered
      whatever follows; the permanent copy of a temporary datacenter and the
      cluster rows are written together or not at all. */
  method RegisterClusterWithDatacenter(store: DatacenterStore, table: ClusterTable, registry: Registry,
                                       req: ClusterRequest, g: RegistrationGateway)
    returns (reply: RegistrationReply)
    requires table.Valid()
    modifies store, table, registry
    ensures table.Valid()
    ensures reply == RegistrationReplyOf(req, old(store.temporary), old(store.persistent), old(table.rows), old(table.nextId), g)
    ensures var plan := PlanOf(req, old(store.temporary), old(store.persistent), old(table.rows), g);
            registry.credentials == if plan.Ok? then old(registry.credentials)[plan.value.dc.name := plan.value.google.credential]
                                    else old(registry.credentials)
    ensures store.temporary == old(store.temporary)
    ensures store.persistent == if reply.Registered? && req.isTemporary
                                then old(store.persistent)[req.datacenterId := old(store.temporary)[req.datacenterId]]
                                else old(store.persistent)
    ensures table.rows == if reply.Registered?
                          then old(table.rows) + RegisteredRows(req, old(store.temporary), old(store.persistent), old(table.rows), old(table.nextId), g)
                          else old(table.rows)
  {
    var plan := PlanOf(req, store.temporary, store.persistent, table.rows, g);
    if plan.Err? {
      return RegistrationRefused(plan.msg);
    }
    var p := plan.value;
    registry.RegisterGoogleCredentials(p.dc.name, p.google.credential);
    var planned := StampAndPick(p, g);
    if planned.Err? {
      return RegistrationRefused(planned.msg);
    }
    reply := SaveRegistration(store, table, req, p.dc, planned.value, g);
  }

  /** The transaction of `RegisterClusterWithDatacenter`: a temporary
      datacenter is saved permanently and the chosen clusters are inserted,
      both or neither. */
  method SaveRegistration(store: DatacenterStore, table: ClusterTable, req: ClusterRequest, dc: DatacenterRecord,
                          clusters: seq<GcpClusterData>, g: RegistrationGateway)
    returns (reply: RegistrationReply)
    requires table.Valid()
    modifies store, table
    ensures table.Valid()
    ensures reply == if req.isTemporary && g.saveDatacenterErr.Some? then RegistrationRefused(g.saveDatacenterErr.value)
                     else if |clusters| == 0 then RegistrationRefused(EmptySliceFound)
                     else if g.insertErr.Some? then RegistrationRefused(g.insertErr.value)
                     else Registered(Listed(WithIds(clusters, old(table.nextId)), dc.name))
    ensures store.temporary == old(store.temporary)
    ensures store.persistent == if reply.Registered? && req.isTemporary
                                then old(store.persistent)[req.datacenterId := dc]
                                else old(store.persistent)
    ensures table.rows == if reply.Registered?
                          then old(table.rows) + RecordsOf(clusters, req.datacenterId, old(table.nextId))
                          else old(table.rows)
  {
    var list := new GcpClusterData[|clusters|](k requires 0 <= k < |clusters| => clusters[k]);
    assert list[..] == clusters;
    var persistentBefore := store.persistent;
    if req.isTemporary {
      if g.saveDatacenterErr.Some? {
        return RegistrationRefused(g.saveDatacenterErr.value);
      }
      store.persistent := store.persistent[req.datacenterId := dc];
    }
    ghost var firstId := table.nextId;
    var insertErr := table.RegisterClusters(req.datacenterId, list, g.insertErr);
    if insertErr.Some? {
      // the transaction is never committed
      store.persistent := persistentBefore;
      return RegistrationRefused(insertErr.value);
    }
    forall k | 0 <= k < list.Length
      ensures list[..][k] == WithIds(clusters, firstId)[k]
    {
    }
    assert list[..] == WithIds(clusters, firstId);
    reply := Registered(Listed(list[..], dc.name));
  }

  /** The version loop over the listing's objects followed by the
      selection's pointers into them. */
  method StampAndPick(p: Plan, g: RegistrationGateway) returns (r: Result<seq<GcpClusterData>>)
    requires PlanWellFormed(p)
    ensures r == PlannedClusters(p, g)
  {
    var objs := new GcpClusterData[|p.cloud|](k requires 0 <= k < |p.cloud| => p.cloud[k]);
    assert objs[..] == p.cloud;
    var err := StampVersions(objs, p.dc.name, g.build, g.latest);
    if err.Some? {
      return Err(err.value);
    }
    r := Ok(Picked(objs[..], p.chosen));
  }

  /** Registering the same request twice: the second one is refused with
      the first requested name, which is now registered already. */
  lemma RegisteringTwiceIsRefused(req: ClusterRequest, temporary: map<Id, DatacenterRecord>, persistent: map<Id, DatacenterRecord>,
                                  rows: seq<ClusterRecord>, nextId: Id, g: RegistrationGateway, nextId2: Id)
    requires RegistrationReplyOf(req, temporary, persistent, rows, nextId, g).Registered?
    requires |req.names| > 0
    ensures var persistent2 := if req.isTemporary then persistent[req.datacenterId := temporary[req.datacenterId]] else persistent;
            var rows2 := rows + RegisteredRows(req, temporary, persistent, rows, nextId, g);
            RegistrationReplyOf(req, temporary, persistent2, rows2, nextId2, g) == RegistrationRefused(ClusterExists(req.names[0]))
  {
    var plan := PlanOf(req, temporary, persistent, rows, g).value;
    var inserted := RegisteredRows(req, temporary, persistent, rows, nextId, g);
    var rows2 := rows + inserted;
    var stamped := Stamped(plan.cloud, plan.dc.name, g.build, g.latest).value;
    assert inserted[0] == RecordOf(stamped[plan.chosen[0]], req.datacenterId, nextId);
    assert rows2[|rows|] == inserted[0];
    assert stamped[plan.chosen[0]].name == plan.cloud[plan.chosen[0]].name;
    var local2 := LocalNames(rows2, req.datacenterId);
    assert req.names[0] in local2;
    FirstRejectionDecides(req.names, local2, plan.cloud, 0);
  }
}
