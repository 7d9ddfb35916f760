/** The capacity arithmetic of internal/cron/gcp.go: what one node pool can
    hold once its daemon sets are placed (NodePoolResourceData), what the
    workloads ask of it (NodePoolRequestedResourceData), and the rule that
    turns the gap into a new autoscaling bound.

    CPU is counted in millicores and memory in bytes. The source works on
    floating-point cores and bytes; a ceiling of a quotient does not depend on
    the unit both sides are measured in, so the node counts are the same. */
module Capacity {
  import opened Common
  import opened Matcher

  /** The scheduling-relevant part of a pod template: node selector, node
      affinity and the requests of its containers. */
  datatype PodSpec = PodSpec(nodeSelector: Labels, affinity: Option<NodeAffinity>, containers: seq<Requests>)

  /** DaemonSetData: a daemon set's placement constraint and the summed
      requests of one of its pods. */
  datatype DaemonSetData = DaemonSetData(
    name: string, namespace: string,
    nodeSelector: Labels, affinity: Option<NodeAffinity>, requested: Requests)

  /** NodePoolResourceData. */
  datatype PoolResources = PoolResources(
    maxAvailablePods: int, maxAvailableCpu: int, maxAvailableMemory: int,
    availableCpu: int, availableMemory: int, availablePods: int,
    currentNodeCount: nat, nodeLabels: Labels)

  /** NodePoolRequestedResourceData. */
  datatype Requested = Requested(pods: nat, cpu: nat, memory: nat)

  const NothingRequested: Requested := Requested(0, 0, 0)

  function Plus(a: Requested, b: Requested): Requested
  {
    Requested(a.pods + b.pods, a.cpu + b.cpu, a.memory + b.memory)
  }

  // ---- per-pod requests ----

  /** The requests of all containers of a pod, added up. */
  function TotalRequests(cs: seq<Requests>): Requests
    decreases |cs|
  {
    if |cs| == 0 then Requests(0, 0)
    else
      var front := TotalRequests(cs[..|cs| - 1]);
      Requests(front.cpu + cs[|cs| - 1].cpu, front.memory + cs[|cs| - 1].memory)
  }

  /** The container loop of the source (one per daemon set, HPA target and
      deployment). */
  method SumContainerRequests(cs: seq<Requests>) returns (total: Requests)
    ensures total == TotalRequests(cs)
  {
    var cpu: nat, memory: nat := 0, 0;
    var i := 0;
    while i < |cs|
      invariant 0 <= i <= |cs|
      invariant Requests(cpu, memory) == TotalRequests(cs[..i])
    {
      assert cs[..i + 1][..i] == cs[..i];
      cpu := cpu + cs[i].cpu;
      memory := memory + cs[i].memory;
      i := i + 1;
    }
    assert cs[..|cs|] == cs;
    total := Requests(cpu, memory);
  }

  /** Every container's request is part of the pod's total. */
  lemma {:induction false} ContainerWithinTotal(cs: seq<Requests>, k: nat)
    requires k < |cs|
    ensures cs[k].cpu <= TotalRequests(cs).cpu && cs[k].memory <= TotalRequests(cs).memory
    decreases |cs|
  {
    if k < |cs| - 1 {
      ContainerWithinTotal(cs[..|cs| - 1], k);
    }
  }

  /** The DaemonSetData recorded for one daemon set. */
  function DaemonSetDataOf(name: string, namespace: string, spec: PodSpec): DaemonSetData
  {
    DaemonSetData(name, namespace, spec.nodeSelector, spec.affinity, TotalRequests(spec.containers))
  }

  // ---- daemon-set overhead on one node ----

  /** What the daemon sets matching a node take from it. */
  datatype Overhead = Overhead(count: nat, cpu: nat, memory: nat)

  function MatchOf(labels: Labels, d: DaemonSetData): Result<bool>
  {
    CheckPodNodePoolMatch(labels, d.affinity, d.nodeSelector)
  }

  /** The overhead of the daemon sets matching `labels`, the first matcher
      error (in list order) winning. */
  function DaemonSetOverhead(labels: Labels, dss: seq<DaemonSetData>): (r: Result<Overhead>)
    ensures r.Err? <==> exists i :: 0 <= i < |dss| && MatchOf(labels, dss[i]).Err?
    ensures r.Ok? ==> r.value.count <= |dss|
    decreases |dss|
  {
    if |dss| == 0 then Ok(Overhead(0, 0, 0))
    else
      var front := dss[..|dss| - 1];
      var last := dss[|dss| - 1];
      var before := DaemonSetOverhead(labels, front);
      assert forall i :: 0 <= i < |front| ==> front[i] == dss[i];
      if before.Err? then before
      else match MatchOf(labels, last)
        case Err(e) => Err(e)
        case Ok(matches) =>
          if matches then
            Ok(Overhead(before.value.count + 1, before.value.cpu + last.requested.cpu,
                        before.value.memory + last.requested.memory))
          else before
  }

  /** The sum of every daemon set's requests, matched or not. */
  function AllDaemonSetRequests(dss: seq<DaemonSetData>): Requests
    decreases |dss|
  {
    if |dss| == 0 then Requests(0, 0)
    else
      var front := AllDaemonSetRequests(dss[..|dss| - 1]);
      Requests(front.cpu + dss[|dss| - 1].requested.cpu, front.memory + dss[|dss| - 1].requested.memory)
  }

  /** The overhead on a node never exceeds what all daemon sets request. */
  lemma {:induction false} OverheadWithinAllDaemonSets(labels: Labels, dss: seq<DaemonSetData>)
    requires DaemonSetOverhead(labels, dss).Ok?
    ensures DaemonSetOverhead(labels, dss).value.cpu <= AllDaemonSetRequests(dss).cpu
    ensures DaemonSetOverhead(labels, dss).value.memory <= AllDaemonSetRequests(dss).memory
    decreases |dss|
  {
    if |dss| > 0 {
      OverheadWithinAllDaemonSets(labels, dss[..|dss| - 1]);
    }
  }

  /** The daemon-set loop of one pool (gcp.go, inside the per-pool loader). */
  method MatchDaemonSets(labels: Labels, dss: seq<DaemonSetData>) returns (r: Result<Overhead>)
    ensures r == DaemonSetOverhead(labels, dss)
  {
    var count: nat, cpu: nat, memory: nat := 0, 0, 0;
    var i := 0;
    while i < |dss|
      invariant 0 <= i <= |dss|
      invariant DaemonSetOverhead(labels, dss[..i]) == Ok(Overhead(count, cpu, memory))
    {
      var m := MatchOf(labels, dss[i]);
      OverheadStep(labels, dss, i);
      if m.Err? {
        OverheadErrorPersists(labels, dss, i + 1);
        return Err(m.msg);
      }
      if m.value {
        count, cpu, memory := count + 1, cpu + dss[i].requested.cpu, memory + dss[i].requested.memory;
      }
      i := i + 1;
    }
    assert dss[..|dss|] == dss;
    r := Ok(Overhead(count, cpu, memory));
  }

  /** One more daemon set: its matcher error, or its share if it matches. */
  lemma OverheadStep(labels: Labels, dss: seq<DaemonSetData>, i: nat)
    requires i < |dss|
    requires DaemonSetOverhead(labels, dss[..i]).Ok?
    ensures var o := DaemonSetOverhead(labels, dss[..i]).value;
            DaemonSetOverhead(labels, dss[..i + 1]) ==
              match MatchOf(labels, dss[i])
              case Err(e) => Err(e)
              case Ok(matches) =>
                if matches then Ok(Overhead(o.count + 1, o.cpu + dss[i].requested.cpu, o.memory + dss[i].requested.memory))
                else Ok(o)
  {
    assert dss[..i + 1][..i] == dss[..i];
  }

  /** Once a prefix has failed, every longer prefix fails the same way. */
  lemma {:induction false} OverheadErrorPersists(labels: Labels, dss: seq<DaemonSetData>, k: nat)
    requires k <= |dss|
    requires DaemonSetOverhead(labels, dss[..k]).Err?
    ensures DaemonSetOverhead(labels, dss) == DaemonSetOverhead(labels, dss[..k])
    decreases |dss| - k
  {
    if k < |dss| {
      assert dss[..k + 1][..k] == dss[..k];
      OverheadErrorPersists(labels, dss, k + 1);
    } else {
      assert dss[..k] == dss;
    }
  }

  // ---- pool capacity ----

  /** The capacity of one pool, from its per-node pod limit, its autoscaling
      maximum, a sample node, its node count and the daemon-set overhead. */
  function PoolResourcesOf(maxPodsPerNode: nat, maxNode: nat, node: Node, nodeCount: nat, o: Overhead): PoolResources
  {
    var availableCpu := node.allocatable.cpu - o.cpu;
    var availableMemory := node.allocatable.memory - o.memory;
    PoolResources(
      maxAvailablePods := maxPodsPerNode * maxNode,
      maxAvailableCpu := availableCpu * maxNode,
      maxAvailableMemory := availableMemory * maxNode,
      availableCpu := availableCpu,
      availableMemory := availableMemory,
      availablePods := maxPodsPerNode - o.count,
      currentNodeCount := nodeCount,
      nodeLabels := node.labels)
  }

  /** The pod maximum counts the daemon-set pods as free: it is never below
      the per-node free slots times the node bound, and exceeds it by exactly
      the daemon-set pods of every node. */
  lemma PodMaximumIgnoresDaemonSets(maxPodsPerNode: nat, maxNode: nat, node: Node, nodeCount: nat, o: Overhead)
    ensures var r := PoolResourcesOf(maxPodsPerNode, maxNode, node, nodeCount, o);
            r.maxAvailablePods == r.availablePods * maxNode + o.count * maxNode
            && r.maxAvailablePods >= r.availablePods * maxNode
  {
    var r := PoolResourcesOf(maxPodsPerNode, maxNode, node, nodeCount, o);
    calc {
      r.availablePods * maxNode + o.count * maxNode;
      (maxPodsPerNode - o.count) * maxNode + o.count * maxNode;
      maxPodsPerNode * maxNode;
    }
  }

  // ---- sizing rule ----

  /** The part of a request that the current maximum does not cover. */
  function Unfulfilled(requested: int, maxAvailable: int): (u: nat)
    ensures u == 0 <==> requested <= maxAvailable
    ensures u > 0 ==> maxAvailable + u == requested
  {
    if requested > maxAvailable then requested - maxAvailable else 0
  }

  /** `ceil(unfulfilled / available)`: the fewest extra nodes, each offering
      `available`, that cover `unfulfilled`. */
  function NeededNodes(unfulfilled: nat, available: int): (n: nat)
    requires available > 0
    ensures available * n >= unfulfilled
    ensures n > 0 ==> available * (n - 1) < unfulfilled
  {
    var n := (unfulfilled + available - 1) / available;
    CeilingBounds(unfulfilled, available);
    n
  }

  lemma CeilingBounds(u: nat, a: int)
    requires a > 0
    ensures a * ((u + a - 1) / a) >= u
    ensures (u + a - 1) / a > 0 ==> a * ((u + a - 1) / a - 1) < u
  {
    var q := (u + a - 1) / a;
    var m := (u + a - 1) % a;
    assert u + a - 1 == a * q + m;
    assert 0 <= m < a;
  }

  /** The sizing rule is defined when every per-node availability is positive. */
  predicate Sizable(res: PoolResources)
  {
    res.availableCpu > 0 && res.availableMemory > 0 && res.availablePods > 0
  }

  function NeededForCpu(req: Requested, res: PoolResources): nat
    requires Sizable(res)
  {
    NeededNodes(Unfulfilled(req.cpu, res.maxAvailableCpu), res.availableCpu)
  }

  function NeededForMemory(req: Requested, res: PoolResources): nat
    requires Sizable(res)
  {
    NeededNodes(Unfulfilled(req.memory, res.maxAvailableMemory), res.availableMemory)
  }

  function NeededForPods(req: Requested, res: PoolResources): nat
    requires Sizable(res)
  {
    NeededNodes(Unfulfilled(req.pods, res.maxAvailablePods), res.availablePods)
  }

  /** `max(cpu, max(memory, pods))` of the per-dimension node counts. */
  function MaxNeeded(req: Requested, res: PoolResources): (n: nat)
    requires Sizable(res)
    ensures n >= NeededForCpu(req, res) && n >= NeededForMemory(req, res) && n >= NeededForPods(req, res)
    ensures n == NeededForCpu(req, res) || n == NeededForMemory(req, res) || n == NeededForPods(req, res)
  {
    var c, m, p := NeededForCpu(req, res), NeededForMemory(req, res), NeededForPods(req, res);
    var mp := if m >= p then m else p;
    if c >= mp then c else mp
  }

  /** Extra nodes added on top of the computed need whenever a pool is resized. */
  const SafetyMargin: nat := 5

  /** The new autoscaling maximum of a pool: grown by the need plus the margin
      when something is missing or the pool already runs at its maximum,
      unchanged otherwise. */
  function NewMaxNode(req: Requested, res: PoolResources, oldMax: int): int
    requires Sizable(res)
  {
    var needed := MaxNeeded(req, res);
    if needed > 0 || res.currentNodeCount == oldMax then oldMax + needed + SafetyMargin else oldMax
  }

  /** The bound never decreases. */
  lemma NewMaxNeverDecreases(req: Requested, res: PoolResources, oldMax: int)
    requires Sizable(res)
    ensures NewMaxNode(req, res, oldMax) >= oldMax
  {
  }

  /** Whatever the rule decides, the nodes it adds cover the request in every
      dimension: the current maximum plus the per-node availability of each
      added node reaches the requested amount. */
  lemma {:induction false} NewMaxCoversRequest(req: Requested, res: PoolResources, oldMax: int)
    requires Sizable(res)
    ensures var added := NewMaxNode(req, res, oldMax) - oldMax;
            res.maxAvailableCpu + res.availableCpu * added >= req.cpu
            && res.maxAvailableMemory + res.availableMemory * added >= req.memory
            && res.maxAvailablePods + res.availablePods * added >= req.pods
  {
    var added := NewMaxNode(req, res, oldMax) - oldMax;
    var n := MaxNeeded(req, res);
    assert added >= n;
    CoversDimension(req.cpu, res.maxAvailableCpu, res.availableCpu, NeededForCpu(req, res), added);
    CoversDimension(req.memory, res.maxAvailableMemory, res.availableMemory, NeededForMemory(req, res), added);
    CoversDimension(req.pods, res.maxAvailablePods, res.availablePods, NeededForPods(req, res), added);
  }

  lemma CoversDimension(requested: nat, maxAvailable: int, available: int, needed: nat, added: int)
    requires available > 0
    requires needed == NeededNodes(Unfulfilled(requested, maxAvailable), available)
    requires added >= needed
    ensures maxAvailable + available * added >= requested
  {
    var u := Unfulfilled(requested, maxAvailable);
    assert available * added >= available * needed;
  }

  /** Enough headroom in every dimension and a pool below its maximum: the
      bound stays as it is. */
  lemma {:induction false} HeadroomKeepsBound(req: Requested, res: PoolResources, oldMax: int)
    requires Sizable(res)
    requires req.cpu <= res.maxAvailableCpu && req.memory <= res.maxAvailableMemory
    requires req.pods <= res.maxAvailablePods
    requires res.currentNodeCount != oldMax
    ensures NewMaxNode(req, res, oldMax) == oldMax
  {
    assert NeededForCpu(req, res) == 0 && NeededForMemory(req, res) == 0 && NeededForPods(req, res) == 0;
  }

  /** A pool already running at its maximum always gains at least the margin. */
  lemma SaturatedPoolGrows(req: Requested, res: PoolResources, oldMax: int)
    requires Sizable(res)
    requires res.currentNodeCount == oldMax
    ensures NewMaxNode(req, res, oldMax) >= oldMax + SafetyMargin
  {
  }

  /** 30 pods per node, no daemon sets, a bound of 3 and 100 requested pods:
      90 pods fit, 10 are missing, one node covers them, and with the margin
      the bound becomes 9. */
  lemma {:induction false} ThirtyPodsPerNodeExample(node: Node)
    requires node.allocatable.cpu > 0 && node.allocatable.memory > 0
    ensures var res := PoolResourcesOf(30, 3, node, 2, Overhead(0, 0, 0));
            Sizable(res) && res.maxAvailablePods == 90
            && NewMaxNode(Requested(100, 0, 0), res, 3) == 9
  {
    var res := PoolResourcesOf(30, 3, node, 2, Overhead(0, 0, 0));
    var req := Requested(100, 0, 0);
    assert Unfulfilled(req.pods, res.maxAvailablePods) == 10;
    assert NeededForPods(req, res) == 1;
    assert NeededForCpu(req, res) == 0;
    assert NeededForMemory(req, res) == 0;
  }
}
