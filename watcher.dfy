/** internal/cron/cron.go, the watcher and the scheduler: a PRESCALED event
    is marked WATCHING, and every tick until its end the node count of every
    node pool and the pod counts behind every target are sampled; every
    minute the scheduler hands the due events to the executor and the
    watcher. */
module CronWatch {
  import opened Common
  import Events
  import opened CronEvents
  import opened Targets
  import opened HpaApi
  import opened HpaPartition
  import opened GcpCustomAuth
  import opened Engine

  type Time = Events.Time

  // ---------------------------------------------------------------- node pools

  /** A `node_pool_status` row: when it was sampled, how many nodes the pool
      had, and the `updated_node_pool` row of that pool (the nil id if the
      executor recorded none). */
  datatype NodePoolStatus = NodePoolStatus(createdAt: Time, nodeCount: nat, updatedNodePoolId: Id)

  /** The pool a node belongs to: its GKE node-pool label, "" when it has none. */
  function PoolOfNode(n: Node): string
  {
    if NodePoolLabel in n.labels then n.labels[NodePoolLabel] else ""
  }

  function PoolsOfNodes(nodes: seq<Node>): (r: seq<string>)
    ensures |r| == |nodes| && forall i :: 0 <= i < |nodes| ==> r[i] == PoolOfNode(nodes[i])
  {
    seq(|nodes|, i requires 0 <= i < |nodes| => PoolOfNode(nodes[i]))
  }

  /** How many of the pools listed are `p`. */
  function Occurrences(pools: seq<string>, p: string): (c: nat)
    ensures c <= |pools|
    ensures c == 0 <==> p !in pools
    decreases |pools|
  {
    if |pools| == 0 then 0
    else
      var front := pools[..|pools| - 1];
      assert forall q :: q in pools <==> q in front || q == pools[|pools| - 1];
      Occurrences(front, p) + if pools[|pools| - 1] == p then 1 else 0
  }

  /** `nodeCounts` after the counting loop over the first nodes. */
  function NodeCounts(pools: seq<string>): map<string, nat>
    decreases |pools|
  {
    if |pools| == 0 then map[]
    else
      var m := NodeCounts(pools[..|pools| - 1]);
      var p := pools[|pools| - 1];
      m[p := (if p in m then m[p] else 0) + 1]
  }

  /** The counts hold exactly the pools listed, each with its number of nodes. */
  lemma {:induction false} NodeCountsAreOccurrences(pools: seq<string>)
    ensures forall p :: p in NodeCounts(pools) <==> p in pools
    ensures forall p :: p in NodeCounts(pools) ==> NodeCounts(pools)[p] == Occurrences(pools, p)
    decreases |pools|
  {
    if |pools| > 0 {
      var front := pools[..|pools| - 1];
      NodeCountsAreOccurrences(front);
      assert forall q :: q in pools <==> q in front || q == pools[|pools| - 1];
    }
  }

  lemma NodeCountsSnoc(pools: seq<string>, p: string)
    ensures var m := NodeCounts(pools);
            NodeCounts(pools + [p]) == m[p := (if p in m then m[p] else 0) + 1]
  {
    assert (pools + [p])[..|pools|] == pools;
  }

  /** The counting loop: one more node for the pool of each node listed. */
  method CountNodes(nodes: seq<Node>) returns (counts: map<string, nat>)
    ensures counts == NodeCounts(PoolsOfNodes(nodes))
  {
    ghost var pools := PoolsOfNodes(nodes);
    counts := map[];
    var i := 0;
    while i < |nodes|
      invariant 0 <= i <= |nodes|
      invariant counts == NodeCounts(pools[..i])
    {
      assert pools[..i + 1][..i] == pools[..i];
      var pool := PoolOfNode(nodes[i]);
      assert pools[..i + 1] == pools[..i] + [pool];
      NodeCountsSnoc(pools[..i], pool);
      counts := counts[pool := (if pool in counts then counts[pool] else 0) + 1];
      i := i + 1;
    }
    assert pools[..|nodes|] == pools;
  }

  /** The id recorded for a pool, the nil id if none. */
  function IdFor(p: string, ids: map<string, Id>): Id
  {
    if p in ids then ids[p] else NilId
  }

  /** The rows written for the pools in the given order. */
  function StatusRows(order: seq<string>, counts: map<string, nat>, now: Time, ids: map<string, Id>): (r: seq<NodePoolStatus>)
    requires forall i :: 0 <= i < |order| ==> order[i] in counts
    ensures |r| == |order|
    ensures forall i :: 0 <= i < |order| ==> r[i] == NodePoolStatus(now, counts[order[i]], IdFor(order[i], ids))
  {
    seq(|order|, i requires 0 <= i < |order| => NodePoolStatus(now, counts[order[i]], IdFor(order[i], ids)))
  }

  predicate Distinct(s: seq<string>)
  {
    forall i, j :: 0 <= i < j < |s| ==> s[i] != s[j]
  }

  /** `order` lists each key of `m` exactly once. */
  ghost predicate Enumerates(order: seq<string>, m: map<string, nat>)
  {
    Distinct(order) && forall p :: p in order <==> p in m
  }

  /** `watchNodePool` once the nodes are listed: the nodes are counted per
      pool, and one row per pool is built while going over the counts (in
      whatever order the map yields its keys, which `order` records). */
  method WatchNodePool(nodes: seq<Node>, now: Time, ids: map<string, Id>)
    returns (rows: seq<NodePoolStatus>, ghost order: seq<string>)
    ensures Enumerates(order, NodeCounts(PoolsOfNodes(nodes)))
    ensures rows == StatusRows(order, NodeCounts(PoolsOfNodes(nodes)), now, ids)
  {
    var counts := CountNodes(nodes);
    var todo := counts.Keys;
    rows, order := [], [];
    while todo != {}
      invariant todo <= counts.Keys
      invariant Distinct(order)
      invariant forall p :: p in order <==> p in counts && p !in todo
      invariant rows == StatusRows(order, counts, now, ids)
      decreases |todo|
    {
      var p :| p in todo;
      rows := rows + [NodePoolStatus(now, counts[p], IdFor(p, ids))];
      order := order + [p];
      todo := todo - {p};
    }
  }

  function TotalNodes(rows: seq<NodePoolStatus>): nat
    decreases |rows|
  {
    if |rows| == 0 then 0 else TotalNodes(rows[..|rows| - 1]) + rows[|rows| - 1].nodeCount
  }

  /** How many of `pools` are one of the (distinct) pools of `order`. */
  function Covered(order: seq<string>, pools: seq<string>): nat
    decreases |order|
  {
    if |order| == 0 then 0 else Covered(order[..|order| - 1], pools) + Occurrences(pools, order[|order| - 1])
  }

  lemma {:induction false} CoveredSnoc(order: seq<string>, pools: seq<string>, x: string)
    ensures Covered(order, pools + [x]) == Covered(order, pools) + Occurrences(order, x)
    decreases |order|
  {
    if |order| > 0 {
      var front := order[..|order| - 1];
      CoveredSnoc(front, pools, x);
      assert (pools + [x])[..|pools|] == pools;
    }
  }

  lemma {:induction false} DistinctOnce(order: seq<string>, x: string)
    requires Distinct(order) && x in order
    ensures Occurrences(order, x) == 1
    decreases |order|
  {
    var front := order[..|order| - 1];
    if order[|order| - 1] == x {
      forall i | 0 <= i < |front|
        ensures front[i] != x
      {
        assert order[i] != order[|order| - 1];
      }
      assert x !in front;
    } else {
      assert x in front by {
        var i :| 0 <= i < |order| && order[i] == x;
        assert front[i] == x;
      }
      DistinctOnce(front, x);
    }
  }

  /** Every pool listed once in `order` covers all its nodes. */
  lemma {:induction false} CoveredAll(order: seq<string>, pools: seq<string>)
    requires Distinct(order) && forall p :: p in pools ==> p in order
    ensures Covered(order, pools) == |pools|
    decreases |pools|
  {
    if |pools| == 0 {
      CoveredNone(order, pools);
    } else {
      var front := pools[..|pools| - 1];
      var x := pools[|pools| - 1];
      assert pools == front + [x];
      CoveredAll(order, front);
      CoveredSnoc(order, front, x);
      DistinctOnce(order, x);
    }
  }

  lemma {:induction false} CoveredNone(order: seq<string>, pools: seq<string>)
    requires |pools| == 0
    ensures Covered(order, pools) == 0
    decreases |order|
  {
    if |order| > 0 {
      CoveredNone(order[..|order| - 1], pools);
    }
  }

  lemma {:induction false} TotalIsCovered(order: seq<string>, pools: seq<string>, now: Time, ids: map<string, Id>)
    requires forall i :: 0 <= i < |order| ==> order[i] in NodeCounts(pools)
    ensures TotalNodes(StatusRows(order, NodeCounts(pools), now, ids)) == Covered(order, pools)
    decreases |order|
  {
    if |order| > 0 {
      var front := order[..|order| - 1];
      TotalIsCovered(front, pools, now, ids);
      NodeCountsAreOccurrences(pools);
      assert StatusRows(order, NodeCounts(pools), now, ids)[..|order| - 1] == StatusRows(front, NodeCounts(pools), now, ids);
    }
  }

  /** The counts written add up to the number of nodes listed, whatever order
      the pools are visited in. */
  lemma NodeRowsCountEveryNode(nodes: seq<Node>, order: seq<string>, now: Time, ids: map<string, Id>)
    requires Enumerates(order, NodeCounts(PoolsOfNodes(nodes)))
    ensures TotalNodes(StatusRows(order, NodeCounts(PoolsOfNodes(nodes)), now, ids)) == |nodes|
  {
    NodeCountsAreOccurrences(PoolsOfNodes(nodes));
    TotalIsCovered(order, PoolsOfNodes(nodes), now, ids);
    CoveredAll(order, PoolsOfNodes(nodes));
  }

  /** An `updated_node_pool` row as the watcher reads it back. */
  datatype StoredNodePool = StoredNodePool(id: Id, poolName: string)

  /** `updatedNodePoolMap`: the id of each pool's row, a later row of the same
      pool replacing an earlier one. */
  function UpdatedNodePoolIds(stored: seq<StoredNodePool>): (m: map<string, Id>)
    ensures forall p :: p in m <==> exists i :: 0 <= i < |stored| && stored[i].poolName == p
    decreases |stored|
  {
    if |stored| == 0 then map[]
    else
      var front := stored[..|stored| - 1];
      var s := stored[|stored| - 1];
      assert forall i :: 0 <= i < |front| ==> front[i] == stored[i];
      UpdatedNodePoolIds(front)[s.poolName := s.id]
  }

  /** The id kept for a pool is that of its last row. */
  lemma {:induction false} UpdatedIdIsLast(stored: seq<StoredNodePool>, k: nat)
    requires k < |stored| && forall j :: k < j < |stored| ==> stored[j].poolName != stored[k].poolName
    ensures UpdatedNodePoolIds(stored)[stored[k].poolName] == stored[k].id
    decreases |stored|
  {
    if k < |stored| - 1 {
      var front := stored[..|stored| - 1];
      assert front[k] == stored[k];
      UpdatedIdIsLast(front, k);
    }
  }

  method CollectUpdatedNodePoolIds(stored: seq<StoredNodePool>) returns (m: map<string, Id>)
    ensures m == UpdatedNodePoolIds(stored)
  {
    m := map[];
    var i := 0;
    while i < |stored|
      invariant 0 <= i <= |stored|
      invariant m == UpdatedNodePoolIds(stored[..i])
    {
      assert stored[..i + 1][..i] == stored[..i];
      m := m[stored[i].poolName := stored[i].id];
      i := i + 1;
    }
    assert stored[..|stored|] == stored;
  }

  // ---------------------------------------------------------------- HPAs

  /** Some target names this key. */
  predicate Targeted(targets: seq<TargetData>, k: NameNs)
  {
    exists i :: 0 <= i < |targets| && TargetKey(targets[i]) == k
  }

  /** `mapHPAScaleTargetRef`: the scale target of every live HPA some target
      names. */
  function ScaleTargets(objects: seq<HpaObjectData>, targets: seq<TargetData>): (m: map<NameNs, ScaleTargetRef>)
    decreases |objects|
  {
    if |objects| == 0 then map[]
    else
      var m := ScaleTargets(objects[..|objects| - 1], targets);
      var o := objects[|objects| - 1].obj;
      if o.HpaObject? && Targeted(targets, HpaKey(o.hpa)) then m[HpaKey(o.hpa) := TargetOf(o.hpa)] else m
  }

  /** A key has a scale target iff a target names it and a live HPA has it. */
  lemma {:induction false} ScaleTargetsKeys(objects: seq<HpaObjectData>, targets: seq<TargetData>)
    ensures forall k :: k in ScaleTargets(objects, targets) <==> Targeted(targets, k) && Listed(objects, k)
    decreases |objects|
  {
    if |objects| > 0 {
      var front := objects[..|objects| - 1];
      ScaleTargetsKeys(front, targets);
      assert forall i :: 0 <= i < |front| ==> front[i] == objects[i];
      forall k | Listed(objects, k) && !Listed(front, k)
        ensures objects[|objects| - 1].obj.HpaObject? && HpaKey(objects[|objects| - 1].obj.hpa) == k
      {
        var i :| 0 <= i < |objects| && objects[i].obj.HpaObject? && HpaKey(objects[i].obj.hpa) == k;
        assert i == |objects| - 1;
      }
    }
  }

  /** The nested loop over the live HPAs and the targets. */
  method CollectScaleTargets(objects: seq<HpaObjectData>, targets: seq<TargetData>) returns (m: map<NameNs, ScaleTargetRef>)
    ensures m == ScaleTargets(objects, targets)
  {
    m := map[];
    var i := 0;
    while i < |objects|
      invariant 0 <= i <= |objects|
      invariant m == ScaleTargets(objects[..i], targets)
    {
      assert objects[..i + 1][..i] == objects[..i];
      var o := objects[i].obj;
      if o.HpaObject? {
        ghost var base := m;
        var j := 0;
        while j < |targets|
          invariant 0 <= j <= |targets|
          invariant m == if Targeted(targets[..j], HpaKey(o.hpa)) then base[HpaKey(o.hpa) := TargetOf(o.hpa)] else base
        {
          assert forall q :: 0 <= q < j ==> targets[..j + 1][q] == targets[..j][q];
          assert targets[..j + 1][j] == targets[j];
          if targets[j].name == o.hpa.name && targets[j].namespace == o.hpa.namespace {
            m := m[HpaKey(o.hpa) := TargetOf(o.hpa)];
          }
          j := j + 1;
        }
        assert targets[..|targets|] == targets;
      }
      i := i + 1;
    }
    assert objects[..|objects|] == objects;
  }

  /** `DeploymentPodData`: the replica counts of a deployment's status. */
  datatype PodCounts = PodCounts(replicas: int, availableReplicas: int, unavailableReplicas: int, readyReplicas: int)

  const NoPods: PodCounts := PodCounts(0, 0, 0, 0)

  function PodCountsOf(d: Deployment): PodCounts
  {
    PodCounts(d.status.replicas, d.status.availableReplicas, d.status.unavailableReplicas, d.status.readyReplicas)
  }

  /** Some scale target cannot be resolved. */
  predicate Unresolved(refs: map<NameNs, ScaleTargetRef>, fetch: DeploymentFetch)
  {
    exists k :: k in refs && ResolveScaleTargetRef(refs[k], k.namespace, fetch).Err?
  }

  /** `getAllDeploymentsFunc`: every scale target is fetched in the HPA's
      namespace; one failure voids the whole map. */
  function DeploymentPods(refs: map<NameNs, ScaleTargetRef>, fetch: DeploymentFetch): (r: Option<map<NameNs, PodCounts>>)
    ensures r.None? <==> Unresolved(refs, fetch)
    ensures r.Some? ==> r.value.Keys == refs.Keys
                        && forall k :: k in refs ==>
                             r.value[k] == PodCountsOf(ResolveScaleTargetRef(refs[k], k.namespace, fetch).value)
  {
    if Unresolved(refs, fetch) then None
    else Some(map k | k in refs :: PodCountsOf(ResolveScaleTargetRef(refs[k], k.namespace, fetch).value))
  }

  /** The goroutine per scale target, run one after another. */
  method LoadDeploymentPods(refs: map<NameNs, ScaleTargetRef>, fetch: DeploymentFetch) returns (r: Option<map<NameNs, PodCounts>>)
    ensures r == DeploymentPods(refs, fetch)
  {
    var data: map<NameNs, PodCounts> := map[];
    var failed := false;
    var todo := refs.Keys;
    while todo != {}
      invariant todo <= refs.Keys
      invariant data.Keys == refs.Keys - todo
      invariant forall k :: k in data && ResolveScaleTargetRef(refs[k], k.namespace, fetch).Ok? ==>
                              data[k] == PodCountsOf(ResolveScaleTargetRef(refs[k], k.namespace, fetch).value)
      invariant failed <==> exists k :: k in data && ResolveScaleTargetRef(refs[k], k.namespace, fetch).Err?
      decreases |todo|
    {
      var k :| k in todo;
      var res := ResolveScaleTargetRef(refs[k], k.namespace, fetch);
      if res.Err? {
        failed := true;
        data := data[k := NoPods];
      } else {
        data := data[k := PodCountsOf(res.value)];
      }
      todo := todo - {k};
    }
    if failed {
      return None;
    }
    assert data == map k | k in refs :: PodCountsOf(ResolveScaleTargetRef(refs[k], k.namespace, fetch).value);
    r := Some(data);
  }

  /** An `hpa_status` row. */
  datatype HpaStatus = HpaStatus(createdAt: Time, counts: PodCounts, scheduledHpaConfigId: Id)

  /** The rows `watchHPA` is evidently meant to write: one per target, in
      target order, with the pod counts of the deployment behind it (none
      when the target has no live HPA). */
  function HpaStatusRows(targets: seq<TargetData>, pods: map<NameNs, PodCounts>, now: Time): (r: seq<HpaStatus>)
    ensures |r| == |targets|
    ensures forall i :: 0 <= i < |targets| ==>
              r[i].createdAt == now && r[i].scheduledHpaConfigId == targets[i].id
              && r[i].counts == if TargetKey(targets[i]) in pods then pods[TargetKey(targets[i])] else NoPods
  {
    seq(|targets|, i requires 0 <= i < |targets| =>
      HpaStatus(now, if TargetKey(targets[i]) in pods then pods[TargetKey(targets[i])] else NoPods, targets[i].id))
  }

  /** `watchHPA` as written: `deploymentDataMap[key]` is a nil pointer for a
      target without a live HPA, and reading its replicas crashes the
      process (`None`). */
  function WatchHpaAsWritten(targets: seq<TargetData>, pods: map<NameNs, PodCounts>, now: Time): (r: Option<seq<HpaStatus>>)
    ensures r.None? <==> exists i :: 0 <= i < |targets| && TargetKey(targets[i]) !in pods
    ensures r.Some? ==> r.value == HpaStatusRows(targets, pods, now)
  {
    if exists i :: 0 <= i < |targets| && TargetKey(targets[i]) !in pods then None
    else Some(HpaStatusRows(targets, pods, now))
  }

  /** A target whose HPA is gone crashes the watcher as written: its key
      never reaches the deployments map. */
  lemma MissingHpaCrashesWatch(objects: seq<HpaObjectData>, targets: seq<TargetData>, fetch: DeploymentFetch, k: nat, now: Time)
    requires k < |targets| && !Listed(objects, TargetKey(targets[k]))
    requires DeploymentPods(ScaleTargets(objects, targets), fetch).Some?
    ensures WatchHpaAsWritten(targets, DeploymentPods(ScaleTargets(objects, targets), fetch).value, now).None?
  {
    ScaleTargetsKeys(objects, targets);
  }

  /** Two concrete inputs: an event with one target and no live HPA at all. */
  lemma MissingHpaExample(fetch: DeploymentFetch, now: Time)
    ensures var t := TargetData(1, "web", "shop", UpdateSuccess, "", Some(2), 10);
            WatchHpaAsWritten([t], DeploymentPods(ScaleTargets([], [t]), fetch).value, now).None?
            && HpaStatusRows([t], DeploymentPods(ScaleTargets([], [t]), fetch).value, now)
               == [HpaStatus(now, NoPods, 1)]
  {
    var t := TargetData(1, "web", "shop", UpdateSuccess, "", Some(2), 10);
    assert ScaleTargets([], [t]) == map[];
    assert DeploymentPods(map[], fetch) == Some(map[]);
    var pods: map<NameNs, PodCounts> := map[];
    assert TargetKey([t][0]) !in pods;
    var rows := HpaStatusRows([t], pods, now);
    assert rows[0] == HpaStatus(now, NoPods, 1);
    assert rows == [HpaStatus(now, NoPods, 1)];
  }

  /** The row loop of `watchHPA`, with the crash corrected: a target without
      pod data gets a row with no pods. Without pod data (a failed fetch)
      nothing is written. */
  method WatchHpa(targets: seq<TargetData>, pods: Option<map<NameNs, PodCounts>>, now: Time)
    returns (rows: Option<seq<HpaStatus>>)
    ensures pods.None? ==> rows.None?
    ensures pods.Some? ==> rows == Some(HpaStatusRows(targets, pods.value, now))
  {
    if pods.None? {
      return None;
    }
    var data := pods.value;
    var out: seq<HpaStatus> := [];
    var i := 0;
    while i < |targets|
      invariant 0 <= i <= |targets|
      invariant out == HpaStatusRows(targets[..i], data, now)
    {
      var key := TargetKey(targets[i]);
      var counts := if key in data then data[key] else NoPods;
      out := out + [HpaStatus(now, counts, targets[i].id)];
      i := i + 1;
    }
    assert targets[..|targets|] == targets;
    rows := Some(out);
  }

  /** Where `watchHPA` as written and the corrected rows agree: every target
      still has its HPA. */
  lemma CorrectedAgreesWhenAllListed(objects: seq<HpaObjectData>, targets: seq<TargetData>, fetch: DeploymentFetch, now: Time)
    requires forall i :: 0 <= i < |targets| ==> Listed(objects, TargetKey(targets[i]))
    requires DeploymentPods(ScaleTargets(objects, targets), fetch).Some?
    ensures var pods := DeploymentPods(ScaleTargets(objects, targets), fetch).value;
            WatchHpaAsWritten(targets, pods, now) == Some(HpaStatusRows(targets, pods, now))
  {
    ScaleTargetsKeys(objects, targets);
    forall i | 0 <= i < |targets|
      ensures TargetKey(targets[i]) in ScaleTargets(objects, targets)
    {
      assert Targeted(targets, TargetKey(targets[i]));
    }
  }

  // ---------------------------------------------------------------- the watch loop

  /** The ticks the loop samples: every tick up to the first one after the
      event's end. */
  function TicksUntil(ticks: seq<Time>, endTime: Time): (r: seq<Time>)
    ensures |r| <= |ticks| && r == ticks[..|r|]
    ensures forall i :: 0 <= i < |r| ==> r[i] <= endTime
    ensures |r| < |ticks| ==> ticks[|r|] > endTime
    decreases |ticks|
  {
    if |ticks| == 0 || ticks[0] > endTime then []
    else [ticks[0]] + TicksUntil(ticks[1..], endTime)
  }

  /** What one tick writes: the node-pool rows (none when the nodes cannot
      be listed) and the HPA rows (none when a deployment cannot be read). */
  datatype Sample = Sample(at: Time, pools: Option<seq<NodePoolStatus>>, hpas: Option<seq<HpaStatus>>)

  /** The replies of the cluster at each tick. */
  datatype LiveCluster = LiveCluster(nodes: Time -> Result<seq<Node>>, fetch: Time -> DeploymentFetch)

  /** What a tick's HPA sample is. */
  function HpaSample(targets: seq<TargetData>, refs: map<NameNs, ScaleTargetRef>, c: LiveCluster, now: Time): Option<seq<HpaStatus>>
  {
    match DeploymentPods(refs, c.fetch(now))
    case None => None
    case Some(pods) => Some(HpaStatusRows(targets, pods, now))
  }

  /** A tick's node-pool sample: none when the nodes cannot be listed,
      otherwise one row per pool, in some order, whose counts add up to the
      nodes listed. */
  ghost predicate PoolSample(rows: Option<seq<NodePoolStatus>>, c: LiveCluster, now: Time, ids: map<string, Id>)
  {
    (rows.None? <==> c.nodes(now).Err?)
    && (rows.Some? ==>
          var counts := NodeCounts(PoolsOfNodes(c.nodes(now).value));
          TotalNodes(rows.value) == |c.nodes(now).value|
          && exists order :: Enumerates(order, counts) && rows.value == StatusRows(order, counts, now, ids))
  }

  /** What one tick writes. */
  ghost predicate Sampled(s: Sample, now: Time, targets: seq<TargetData>, refs: map<NameNs, ScaleTargetRef>,
                          ids: map<string, Id>, c: LiveCluster)
  {
    s.at == now && PoolSample(s.pools, c, now, ids) && s.hpas == HpaSample(targets, refs, c, now)
  }

  /** One tick: `watchNodePool` and `watchHPA`. */
  method TakeSample(now: Time, targets: seq<TargetData>, refs: map<NameNs, ScaleTargetRef>, ids: map<string, Id>, c: LiveCluster)
    returns (s: Sample)
    ensures Sampled(s, now, targets, refs, ids, c)
  {
    var pools: Option<seq<NodePoolStatus>> := None;
    var nodes := c.nodes(now);
    if nodes.Ok? {
      var rows, order := WatchNodePool(nodes.value, now, ids);
      NodeRowsCountEveryNode(nodes.value, order, now, ids);
      pools := Some(rows);
    }
    var pods := LoadDeploymentPods(refs, c.fetch(now));
    var hpas := WatchHpa(targets, pods, now);
    s := Sample(now, pools, hpas);
  }

  /** The ticker loop: it returns at the first tick after `endTime`;
      otherwise it samples the node pools and the HPAs. */
  method WatchLoop(ticks: seq<Time>, endTime: Time, targets: seq<TargetData>, refs: map<NameNs, ScaleTargetRef>,
                   ids: map<string, Id>, c: LiveCluster)
    returns (samples: seq<Sample>)
    ensures |samples| == |TicksUntil(ticks, endTime)|
    ensures forall i :: 0 <= i < |samples| ==> Sampled(samples[i], ticks[i], targets, refs, ids, c)
  {
    samples := [];
    var i := 0;
    while i < |ticks|
      invariant 0 <= i <= |ticks|
      invariant forall j :: 0 <= j < i ==> ticks[j] <= endTime
      invariant |samples| == i
      invariant forall j :: 0 <= j < i ==> Sampled(samples[j], ticks[j], targets, refs, ids, c)
    {
      var now := ticks[i];
      if now > endTime {
        break;
      }
      var s := TakeSample(now, targets, refs, ids, c);
      samples := samples + [s];
      i := i + 1;
    }
    TicksUntilIs(ticks, endTime, i);
  }

  lemma {:induction false} TicksUntilIs(ticks: seq<Time>, endTime: Time, n: nat)
    requires n <= |ticks| && forall j :: 0 <= j < n ==> ticks[j] <= endTime
    requires n < |ticks| ==> ticks[n] > endTime
    ensures |TicksUntil(ticks, endTime)| == n
    decreases |ticks|
  {
    if n > 0 {
      TicksUntilIs(ticks[1..], endTime, n - 1);
    }
  }

  // ---------------------------------------------------------------- watchEvent

  /** The replies the watcher gets, in the order it asks for them. */
  datatype WatchGateway = WatchGateway(
    watchingSaveErr: Option<string>,            // saving the event as WATCHING
    cluster: Result<ClusterInfo>,
    clients: ClientReplies,
    targetsErr: Option<string>,
    namespaces: Result<seq<string>>,
    hpaLists: ListReplies,
    storedPools: Result<seq<StoredNodePool>>,   // the event's `updated_node_pool` rows
    messageSaveErr: Option<string>,             // saving a lookup error as the event's message
    ticks: seq<Time>,                           // the ticks of the 30-second ticker
    live: LiveCluster,
    saveClock: Time)                            // the time gorm stamps on the event's saves

  /** What the lookups give the watch loop: the event's targets, the scale
      target of each of their live HPAs, and the updated node pools' ids. */
  datatype Setup = Setup(targets: seq<TargetData>, refs: map<NameNs, ScaleTargetRef>, ids: map<string, Id>)

  /** How a watch ends. `Unwatched`: WATCHING could not be saved.
      `Abandoned`: a lookup failed and its error became the event's message
      (the event stays WATCHING). `NilClientCrash`: the cluster is not a GCP
      one, so no Kubernetes client was built and the first call through it
      crashes. `Watched`: the ticks sampled until the event's end. */
  datatype Watch = Unwatched(err: string) | Abandoned(msg: string) | NilClientCrash | Watched(setup: Setup, ticks: seq<Time>)

  /** `watchEvent` on an event and its targets' rows. */
  function WatchRun(d: Events.EventData, rows: seq<ConfigRow>, g: WatchGateway): (w: Watch)
    ensures w.Unwatched? <==> g.watchingSaveErr.Some?
    ensures w.Watched? ==> g.cluster.Ok? && g.cluster.value.data.datacenter == GcpProvider
                           && ClientsFor(g.cluster.value, g.clients).Ok? && g.storedPools.Ok?
    ensures w.Watched? ==> forall i :: 0 <= i < |w.ticks| ==> w.ticks[i] <= d.endTime
    ensures w.Watched? ==> forall k :: k in w.setup.refs ==> Targeted(w.setup.targets, k)
  {
    if g.watchingSaveErr.Some? then Unwatched(g.watchingSaveErr.value)
    else if g.cluster.Err? then Abandoned(g.cluster.msg)
    else
      var info := g.cluster.value;
      var gcp := info.data.datacenter == GcpProvider;
      if gcp && ClientsFor(info, g.clients).Err? then Abandoned(ClientsFor(info, g.clients).msg)
      else if g.targetsErr.Some? then Abandoned(g.targetsErr.value)
      else if !gcp then NilClientCrash
      else
        match HpaObjects(info, g.namespaces, g.hpaLists)
        case Err(m) => Abandoned(m)
        case Ok(objects) =>
          if g.storedPools.Err? then Abandoned(g.storedPools.msg)
          else
            var targets := ToTargets(RowsOfEvent(rows, d.id));
            ScaleTargetsKeys(objects, targets);
            Watched(Setup(targets, ScaleTargets(objects, targets), UpdatedNodePoolIds(g.storedPools.value)),
                    TicksUntil(g.ticks, d.endTime))
  }

  /** The datacenter credentials after a watch: the cluster's is registered
      once its Google clients are built, whether or not the Kubernetes client
      then is. */
  function WatchCredentialsAfter(credentials: map<string, Credential>, g: WatchGateway): map<string, Credential>
  {
    if g.watchingSaveErr.None? && g.cluster.Ok? && GoogleClientsBuilt(g.cluster.value, g.clients)
    then credentials[g.cluster.value.datacenterName := g.clients.credential]
    else credentials
  }

  /** `watchEvent`: the event is saved as WATCHING (a failed save ends the
      watch), the lookups are made (a failure is saved as the event's
      message), and every tick until the event's end samples the node pools
      and the HPAs. */
  method WatchEvent(e: Event, events: Events.EventTable, configs: ConfigTable, registry: Registry, g: WatchGateway)
    returns (w: Watch, samples: seq<Sample>)
    requires events.Valid()
    modifies e, events, registry
    ensures w == WatchRun(old(e.Data()), configs.rows, g)
    ensures events.Valid()
    ensures e.status == Watching
    ensures e.message == if w.Abandoned? then w.msg else old(e.message)
    ensures w.Unwatched? ==> events.rows == old(events.rows)
    ensures e.base.id != NilId && !w.Unwatched? ==>
              events.rows == Events.Saved(old(events.rows), Events.RowOf(
                               if w.Abandoned? && g.messageSaveErr.Some? then old(e.Data()).(status := Watching) else e.Data(),
                               g.saveClock))
    ensures registry.credentials == WatchCredentialsAfter(old(registry.credentials), g)
    ensures !w.Watched? ==> samples == []
    ensures w.Watched? ==>
              |samples| == |w.ticks|
              && forall i :: 0 <= i < |samples| ==>
                   Sampled(samples[i], w.ticks[i], w.setup.targets, w.setup.refs, w.setup.ids, g.live)
  {
    ghost var d := e.Data();
    samples := [];
    var err := SaveWithStatus(events, e, Watching, g.saveClock, g.watchingSaveErr);
    if err.Some? {
      return Unwatched(err.value), [];
    }
    w := WatchLookups(registry, configs, e.base.id, e.base.endTime, d, g);
    if w.Abandoned? {
      HandleWatchEvent(events, e, w.msg, g.saveClock, g.messageSaveErr);
      if e.base.id != NilId && g.messageSaveErr.None? {
        Events.SavedTwice(old(events.rows), Events.RowOf(d.(status := Watching), g.saveClock), Events.RowOf(e.Data(), g.saveClock));
      }
      return;
    }
    if w.Watched? {
      samples := WatchLoop(g.ticks, e.base.endTime, w.setup.targets, w.setup.refs, w.setup.ids, g.live);
    }
  }

  /** The lookups of `watchEvent` once the event is saved as WATCHING: the
      cluster, its clients (which registers the credential), the event's
      targets, the cluster's HPAs and the stored node pools. */
  method WatchLookups(registry: Registry, configs: ConfigTable, eventId: Id, endTime: int,
                      ghost d: Events.EventData, g: WatchGateway) returns (w: Watch)
    requires g.watchingSaveErr.None? && d.id == eventId && d.endTime == endTime
    modifies registry
    ensures w == WatchRun(d, configs.rows, g)
    ensures registry.credentials == WatchCredentialsAfter(old(registry.credentials), g)
  {
    if g.cluster.Err? {
      return Abandoned(g.cluster.msg);
    }
    var info := g.cluster.value;
    var gcp := info.data.datacenter == GcpProvider;
    if gcp {
      var client := GetAllGcpClient(registry, info, g.clients);
      if client.Err? {
        return Abandoned(client.msg);
      }
    }
    if g.targetsErr.Some? {
      return Abandoned(g.targetsErr.value);
    }
    var targets := configs.ListScheduledHpaConfigByEventId(eventId);
    if !gcp {
      return NilClientCrash;
    }
    var objects := GetAllK8sHpaObjectInCluster(info.data.latestHpaApiVersion, g.namespaces, g.hpaLists);
    if objects.Err? {
      return Abandoned(objects.msg);
    }
    var refs := CollectScaleTargets(objects.value, targets);
    if g.storedPools.Err? {
      return Abandoned(g.storedPools.msg);
    }
    var ids := CollectUpdatedNodePoolIds(g.storedPools.value);
    w := Watched(Setup(targets, refs, ids), TicksUntil(g.ticks, endTime));
  }

  /** Every HPA row a watch writes belongs to one of the event's live
      targets, and every live target gets a row at every tick whose
      deployments can all be read. */
  lemma WatchedHpaRowsCoverTargets(d: Events.EventData, rows: seq<ConfigRow>, g: WatchGateway, i: nat)
    requires WatchRun(d, rows, g).Watched? && i < |WatchRun(d, rows, g).ticks|
    requires DeploymentPods(WatchRun(d, rows, g).setup.refs, g.live.fetch(WatchRun(d, rows, g).ticks[i])).Some?
    ensures var w := WatchRun(d, rows, g);
            var hs := HpaSample(w.setup.targets, w.setup.refs, g.live, w.ticks[i]).value;
            |hs| == |RowsOfEvent(rows, d.id)|
            && forall k :: 0 <= k < |hs| ==>
                 hs[k].scheduledHpaConfigId == RowsOfEvent(rows, d.id)[k].id
                 && RowsOfEvent(rows, d.id)[k].eventId == d.id
  {
  }

  // ---------------------------------------------------------------- the scheduler

  /** The pending events `Start` hands to the executor: the GCP ones, in
      order; none at all when the query fails. */
  function GcpEvents(ds: seq<Events.EventData>): (r: seq<Events.EventData>)
    ensures |r| <= |ds|
    ensures forall x :: x in r <==> x in ds && x.cluster.provider == GcpProvider
    decreases |ds|
  {
    if |ds| == 0 then []
    else
      var front := ds[..|ds| - 1];
      var x := ds[|ds| - 1];
      assert forall y :: y in ds <==> y in front || y == x;
      GcpEvents(front) + if x.cluster.provider == GcpProvider then [x] else []
  }

  /** One minute tick of `Start`: the executable events are those of the
      pending query that run on GCP, the watched events all those of the
      prescaled query; a failed query starts nothing. */
  method DispatchTick(pending: Result<seq<Events.EventData>>, prescaled: Result<seq<Events.EventData>>)
    returns (execute: seq<Events.EventData>, watch: seq<Events.EventData>)
    ensures pending.Err? ==> execute == []
    ensures pending.Ok? ==> execute == GcpEvents(pending.value)
    ensures watch == if prescaled.Ok? then prescaled.value else []
  {
    execute, watch := [], [];
    if pending.Ok? && |pending.value| != 0 {
      var ds := pending.value;
      var i := 0;
      while i < |ds|
        invariant 0 <= i <= |ds|
        invariant execute == GcpEvents(ds[..i])
      {
        assert ds[..i + 1][..i] == ds[..i];
        if ds[i].cluster.provider == GcpProvider {
          execute := execute + [ds[i]];
        }
        i := i + 1;
      }
      assert ds[..|ds|] == ds;
    }
    if prescaled.Ok? {
      watch := prescaled.value;
    }
  }

  /** How one minute tick of `Start` ends as written. */
  datatype TickEnd = Dispatched(execute: seq<Events.EventData>, watch: seq<Events.EventData>) | ProcessCrashed

  /** One tick as written: the pending query runs in a goroutine with no
      `recover`, so its nil-rows panic (a failed query) ends the whole
      process, executions and watches in flight included; a query that
      returns dispatches as `DispatchTick` does. */
  method DispatchTickAsWritten(pending: Events.QueryEnd<seq<Events.EventData>>, prescaled: Result<seq<Events.EventData>>)
    returns (t: TickEnd)
    ensures t.ProcessCrashed? <==> pending.NilRowsPanic?
    ensures t.Dispatched? ==> t.execute == (if pending.result.Ok? then GcpEvents(pending.result.value) else [])
    ensures t.Dispatched? ==> t.watch == if prescaled.Ok? then prescaled.value else []
  {
    if pending.NilRowsPanic? {
      return ProcessCrashed;
    }
    var execute, watch := DispatchTick(pending.result, prescaled);
    t := Dispatched(execute, watch);
  }
}
