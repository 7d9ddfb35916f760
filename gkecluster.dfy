/** internal/usecase/gcp_cluster.go: listing the GKE clusters of a project
    under their local names, registering chosen clusters with a datacenter,
    the guard and auth configuration of the Kubernetes client, the node
    listing of one node pool, and the GKE calls the engine makes through it. */
module GkeCluster {
  import opened Common
  import opened Strings
  import opened Naming
  import opened GcpCustomAuth

  /** A cluster as the GKE API lists it. */
  datatype ApiCluster = ApiCluster(name: string, location: string, endpoint: string, caCertificate: string)

  /** `GCPClusterData`: a cluster as the use cases pass it around. */
  datatype GcpClusterData = GcpClusterData(
    id: Id, name: string, certificate: string, serverEndpoint: string,
    datacenter: string, latestHpaApiVersion: string, location: string)

  /** One listed cluster: the local name `gke_<project>_<name>_<location>`,
      the endpoint behind "https://", the GCP provider, the location copied. */
  function ClusterDataOf(project: string, c: ApiCluster): GcpClusterData
  {
    GcpClusterData(NilId, GkeClusterName(project, c.name, c.location), c.caCertificate,
                   "https://" + c.endpoint, GcpProvider, "", c.location)
  }

  /** `GetAllClustersInGCPProject`: the listing error, or one entry per listed
      cluster in listing order. */
  function GetAllClustersInGcpProject(project: string, listing: Result<seq<ApiCluster>>): (r: Result<seq<GcpClusterData>>)
    ensures listing.Err? ==> r == Err(listing.msg)
    ensures listing.Ok? ==> r.Ok? && |r.value| == |listing.value|
    ensures listing.Ok? ==> forall k :: 0 <= k < |r.value| ==> r.value[k] == ClusterDataOf(project, listing.value[k])
  {
    if listing.Err? then Err(listing.msg)
    else Ok(seq(|listing.value|, k requires 0 <= k < |listing.value| => ClusterDataOf(project, listing.value[k])))
  }

  /** Every listed cluster's local name splits back into the project, the
      cluster's name and its location, which the engine relies on. */
  lemma ListedClusterNamesParse(project: string, listing: seq<ApiCluster>, k: nat)
    requires k < |listing|
    requires '_' !in project && '_' !in listing[k].name && '_' !in listing[k].location
    ensures var d := GetAllClustersInGcpProject(project, Ok(listing)).value[k];
            ParseGkeClusterName(d.name) == Some(GkeCoordinates(project, listing[k].name, listing[k].location))
            && d.serverEndpoint == "https://" + listing[k].endpoint
            && d.datacenter == GcpProvider && d.location == listing[k].location
  {
    ClusterNameRoundTrip(project, listing[k].name, listing[k].location);
  }

  // ---------------------------------------------------------------- RegisterClusters

  /** A row of the `clusters` table; `location` is the JSON metadata. */
  datatype ClusterRecord = ClusterRecord(
    id: Id, datacenterId: Id, location: string, name: string, serverEndpoint: string,
    certificate: string, latestHpaApiVersion: string)

  function RecordOf(d: GcpClusterData, datacenterId: Id, id: Id): ClusterRecord
  {
    ClusterRecord(id, datacenterId, d.location, d.name, d.serverEndpoint, d.certificate, d.latestHpaApiVersion)
  }

  /** The rows inserted for a batch, ids handed out from `firstId` in order. */
  function RecordsOf(ds: seq<GcpClusterData>, datacenterId: Id, firstId: Id): (r: seq<ClusterRecord>)
    ensures |r| == |ds|
    ensures forall k :: 0 <= k < |ds| ==> r[k] == RecordOf(ds[k], datacenterId, firstId + k)
    decreases |ds|
  {
    if |ds| == 0 then [] else [RecordOf(ds[0], datacenterId, firstId)] + RecordsOf(ds[1..], datacenterId, firstId + 1)
  }

  class ClusterTable {
    var rows: seq<ClusterRecord>
    var nextId: Id

    ghost predicate Valid()
      reads this
    {
      nextId > 0 && forall k :: 0 <= k < |rows| ==> 0 < rows[k].id < nextId
    }

    constructor ()
      ensures Valid() && rows == []
    {
      rows := [];
      nextId := 1;
    }

    /** `RegisterClusters`: one row per cluster, in order, with the
        datacenter's id and the location as metadata; after the insert each
        caller entry receives its row's id and nothing else about it changes.
        An empty batch is refused by gorm's `Create`; a refused or failed
        insert stores nothing and touches no entry. */
    method RegisterClusters(datacenterId: Id, list: array<GcpClusterData>, insertErr: Option<string>)
      returns (err: Option<string>)
      requires Valid()
      modifies this, list
      ensures Valid()
      ensures err == if list.Length == 0 then Some(EmptySliceFound) else insertErr
      ensures err.Some? ==> rows == old(rows) && nextId == old(nextId) && list[..] == old(list[..])
      ensures err.None? ==> rows == old(rows) + RecordsOf(old(list[..]), datacenterId, old(nextId))
      ensures err.None? ==> forall k :: 0 <= k < list.Length ==> list[k] == old(list[k]).(id := old(nextId) + k)
    {
      var records := BuildRecords(datacenterId, list, nextId);
      if list.Length == 0 {
        return Some(EmptySliceFound);
      }
      if insertErr.Some? {
        return insertErr;
      }
      var first := nextId;
      rows := rows + records;
      nextId := nextId + |records|;
      AssignIds(list, first);
      err := None;
    }
  }

  /** The rows of one insert, built by the loop over the caller's entries. */
  method BuildRecords(datacenterId: Id, list: array<GcpClusterData>, firstId: Id) returns (records: seq<ClusterRecord>)
    ensures records == RecordsOf(list[..], datacenterId, firstId)
  {
    records := [];
    var i := 0;
    while i < list.Length
      invariant 0 <= i <= list.Length
      invariant records == RecordsOf(list[..i], datacenterId, firstId)
    {
      assert list[..i + 1] == list[..i] + [list[i]];
      RecordsOfAppend(list[..i], list[i], datacenterId, firstId);
      records := records + [RecordOf(list[i], datacenterId, firstId + i)];
      i := i + 1;
    }
    assert list[..] == list[..list.Length];
  }

  /** Writes each inserted row's id back into the caller's entry. */
  method AssignIds(list: array<GcpClusterData>, first: Id)
    modifies list
    ensures forall k :: 0 <= k < list.Length ==> list[k] == old(list[k]).(id := first + k)
  {
    var j := 0;
    while j < list.Length
      invariant 0 <= j <= list.Length
      invariant forall k :: 0 <= k < j ==> list[k] == old(list[k]).(id := first + k)
      invariant forall k :: j <= k < list.Length ==> list[k] == old(list[k])
    {
      list[j] := list[j].(id := first + j);
      j := j + 1;
    }
  }

  lemma RecordsOfAppend(ds: seq<GcpClusterData>, d: GcpClusterData, datacenterId: Id, firstId: Id)
    ensures RecordsOf(ds + [d], datacenterId, firstId) == RecordsOf(ds, datacenterId, firstId) + [RecordOf(d, datacenterId, firstId + |ds|)]
  {
    var whole := RecordsOf(ds + [d], datacenterId, firstId);
    var parts := RecordsOf(ds, datacenterId, firstId) + [RecordOf(d, datacenterId, firstId + |ds|)];
    forall k | 0 <= k < |whole|
      ensures whole[k] == parts[k]
    {
      assert (ds + [d])[k] == if k < |ds| then ds[k] else d;
    }
  }

  // ---------------------------------------------------------------- Kubernetes client

  datatype AuthProviderConfig = AuthProviderConfig(name: string, config: map<string, string>)

  /** The credentials `k8sClient.GetClient` is called with. */
  datatype ClientCredentials = ClientCredentials(
    certificate: string, name: string, serverEndpoint: string, authProvider: AuthProviderConfig)

  /** `GetKubernetesClusterClient`: only a GCP cluster gets a client; it
      authenticates through the "gcp_custom" provider with the credentials
      registered under `credentialsName`. `buildErr` is the reply of
      `k8sClient.GetClient` (decoding the base64 certificate, building the
      client configuration, `NewForConfig`), whose failure is the result. */
  function GetKubernetesClusterClient(credentialsName: string, d: GcpClusterData, buildErr: Option<string>): (r: Result<ClientCredentials>)
    ensures r.Err? <==> d.datacenter != GcpProvider || buildErr.Some?
    ensures d.datacenter != GcpProvider ==> r == Err(DatacenterMismatch)
    ensures d.datacenter == GcpProvider && buildErr.Some? ==> r == Err(buildErr.value)
    ensures r.Ok? ==> r.value.authProvider.name == AuthName
                      && ConfiguredName(r.value.authProvider.config) == credentialsName
                      && r.value.serverEndpoint == d.serverEndpoint && r.value.name == d.name
                      && r.value.certificate == d.certificate
  {
    if d.datacenter != GcpProvider then Err(DatacenterMismatch)
    else if buildErr.Some? then Err(buildErr.value)
    else
      Ok(ClientCredentials(d.certificate, d.name, d.serverEndpoint,
                           AuthProviderConfig(AuthName, map[CredentialsNameConfigKey := credentialsName])))
  }

  /** A client built for a GCP cluster after its datacenter's credentials
      were registered signs its requests with those credentials. */
  lemma ClientUsesRegisteredCredentials(registry: map<string, Credential>, credentialsName: string, c: Credential, d: GcpClusterData)
    requires d.datacenter == GcpProvider
    ensures var cfg := GetKubernetesClusterClient(credentialsName, d, None).value.authProvider.config;
            ProviderFor(registry[credentialsName := c], cfg) == Ok(Provider(c.tokenSource))
  {
    RegisterThenProvide(registry, credentialsName, c);
  }

  // ---------------------------------------------------------------- nodes of a pool

  /** `<label>=<pool>`: the label selector of a node pool's nodes. */
  function NodePoolSelector(pool: string): string
  {
    NodePoolLabel + "=" + pool
  }

  /** The selector names the GKE node-pool label and the pool, and nothing else. */
  lemma NodePoolSelectorSplits(pool: string)
    requires '=' !in pool
    ensures Split(NodePoolSelector(pool), '=') == [NodePoolLabel, pool]
  {
    SplitAtFirstSeparator(NodePoolLabel, '=', pool);
    SplitWithoutSeparator(pool, '=');
  }

  /** The node list API: its reply for each label selector. */
  type NodeLister = string -> Result<seq<Node>>

  /** `GetNodesFromGCPNodePool`: the pool's nodes, never an empty list: no
      node gives `NoExistingNode`. */
  function GetNodesFromGcpNodePool(pool: string, list: NodeLister): (r: Result<seq<Node>>)
    ensures list(NodePoolSelector(pool)).Err? ==> r == list(NodePoolSelector(pool))
    ensures list(NodePoolSelector(pool)).Ok? && |list(NodePoolSelector(pool)).value| == 0 ==> r == Err(NoExistingNode)
    ensures r.Ok? ==> |r.value| > 0 && r == list(NodePoolSelector(pool))
  {
    var reply := list(NodePoolSelector(pool));
    if reply.Err? then reply
    else if |reply.value| == 0 then Err(NoExistingNode)
    else reply
  }
}
