/** internal/cron/gcp.go, the requested-resource phase of `execGCPEvent`
    (calculation mode only): every selected HPA, every unselected HPA and
    every Deployment no HPA claimed is a workload; each workload adds its
    replica count and its per-replica requests times that count to every
    node pool whose sample node its pod template admits.

    Go runs one goroutine per workload and reports whichever error comes
    first in time; the model resolves the HPA targets in order (selected,
    then unselected) and then adds the workloads in order, so of several
    failures it reports the first resolution error, else the matcher error. */
module Demand {
  import opened Common
  import opened Matcher
  import opened Capacity
  import opened HpaApi
  import opened Targets

  /** An HPA's claim on a Deployment: its scale-target reference, the
      namespace it is resolved in and the replica count it may reach. */
  datatype Claim = Claim(ref: ScaleTargetRef, namespace: string, replicas: nat)

  /** A workload the node pools must hold. */
  datatype Workload = Workload(replicas: nat, spec: PodSpec)

  /** A selected HPA claims its target with the requested maximum, resolved
      in the target's namespace. */
  function SelectedClaims(selected: seq<Hpa>, matched: seq<TargetData>): (r: seq<Claim>)
    requires |selected| == |matched|
    ensures |r| == |selected|
    ensures forall i :: 0 <= i < |r| ==> r[i] == Claim(TargetOf(selected[i]), matched[i].namespace, matched[i].maxReplicas)
  {
    seq(|selected|, i requires 0 <= i < |selected| => Claim(TargetOf(selected[i]), matched[i].namespace, matched[i].maxReplicas))
  }

  /** An unselected HPA claims its target with its own current maximum. */
  function UnselectedClaims(hs: seq<Hpa>): (r: seq<Claim>)
    ensures |r| == |hs|
    ensures forall i :: 0 <= i < |r| ==> r[i] == Claim(TargetOf(hs[i]), hs[i].namespace, hs[i].maxReplicas)
  {
    seq(|hs|, i requires 0 <= i < |hs| => Claim(TargetOf(hs[i]), hs[i].namespace, hs[i].maxReplicas))
  }

  /** The map key a claim is looked up (and deleted) under. */
  function ClaimKey(c: Claim): NameNs
    requires TargetGate(c.ref).Ok?
  {
    NameNs(TargetGate(c.ref).value, c.namespace)
  }

  /** Resolving claims in order against the deployments map, deleting each
      hit: the workloads or the first failure, and the map that is left. */
  function ResolveClaims(claims: seq<Claim>, m: map<NameNs, Deployment>): (r: (Result<seq<Workload>>, map<NameNs, Deployment>))
    ensures r.1.Keys <= m.Keys
    ensures r.0.Ok? ==> |r.0.value| == |claims|
    decreases |claims|
  {
    if |claims| == 0 then (Ok([]), m)
    else
      var front := ResolveClaims(claims[..|claims| - 1], m);
      var c := claims[|claims| - 1];
      if front.0.Err? then front
      else
        match ResolveInMap(c.ref, c.namespace, front.1)
        case Err(e) => (Err(e), front.1)
        case Ok(d) => (Ok(front.0.value + [Workload(c.replicas, d.spec)]), front.1 - {ClaimKey(c)})
  }

  /** Once a claim fails, the whole resolution fails with that claim's error. */
  lemma {:induction false} ResolveClaimsFailsAfter(claims: seq<Claim>, m: map<NameNs, Deployment>, n: nat)
    requires n <= |claims| && ResolveClaims(claims[..n], m).0.Err?
    ensures ResolveClaims(claims, m).0 == ResolveClaims(claims[..n], m).0
    decreases |claims| - n
  {
    if n < |claims| {
      assert claims[..n + 1][..n] == claims[..n];
      ResolveClaimsFailsAfter(claims, m, n + 1);
    } else {
      assert claims[..n] == claims;
    }
  }

  /** One more resolved claim: the prefix resolved, the last claim's key was
      still in the map left by the prefix and is deleted from it. */
  lemma ResolveClaimsStep(claims: seq<Claim>, m: map<NameNs, Deployment>)
    requires |claims| > 0 && ResolveClaims(claims, m).0.Ok?
    ensures var front, c := ResolveClaims(claims[..|claims| - 1], m), claims[|claims| - 1];
            front.0.Ok? && TargetGate(c.ref).Ok? && ClaimKey(c) in front.1
            && ResolveClaims(claims, m).0.value == front.0.value + [Workload(c.replicas, front.1[ClaimKey(c)].spec)]
            && ResolveClaims(claims, m).1 == front.1 - {ClaimKey(c)}
  {
  }

  /** When every claim resolves, the map left is the input without exactly
      the claimed keys, every claimed key having been in the input. */
  lemma ResolveClaimsLeaves(claims: seq<Claim>, m: map<NameNs, Deployment>)
    requires ResolveClaims(claims, m).0.Ok?
    ensures forall i :: 0 <= i < |claims| ==> TargetGate(claims[i].ref).Ok? && ClaimKey(claims[i]) in m
    ensures forall k :: k in ResolveClaims(claims, m).1 <==>
              k in m && forall i :: 0 <= i < |claims| ==> ClaimKey(claims[i]) != k
    ensures forall k :: k in ResolveClaims(claims, m).1 ==> ResolveClaims(claims, m).1[k] == m[k]
  {
    ResolveClaimsGated(claims, m);
    ResolveClaimsLeft(claims, m);
  }

  /** Every claim of a resolution that succeeded names a Deployment the map held. */
  lemma {:induction false} ResolveClaimsGated(claims: seq<Claim>, m: map<NameNs, Deployment>)
    requires ResolveClaims(claims, m).0.Ok?
    ensures forall i :: 0 <= i < |claims| ==> TargetGate(claims[i].ref).Ok? && ClaimKey(claims[i]) in m
    decreases |claims|
  {
    if |claims| > 0 {
      var n := |claims| - 1;
      var prefix := claims[..n];
      ResolveClaimsStep(claims, m);
      ResolveClaimsGated(prefix, m);
      forall i | 0 <= i < |claims|
        ensures TargetGate(claims[i].ref).Ok? && ClaimKey(claims[i]) in m
      {
        if i < n {
          assert claims[i] == prefix[i];
        }
      }
    }
  }

  /** No claim names key `k`. */
  predicate Unclaimed(claims: seq<Claim>, k: NameNs)
    requires forall i :: 0 <= i < |claims| ==> TargetGate(claims[i].ref).Ok?
  {
    forall i :: 0 <= i < |claims| ==> ClaimKey(claims[i]) != k
  }

  lemma UnclaimedSnoc(claims: seq<Claim>, k: NameNs)
    requires |claims| > 0 && forall i :: 0 <= i < |claims| ==> TargetGate(claims[i].ref).Ok?
    ensures Unclaimed(claims, k) <==> Unclaimed(claims[..|claims| - 1], k) && ClaimKey(claims[|claims| - 1]) != k
  {
    assert forall i :: 0 <= i < |claims| - 1 ==> claims[..|claims| - 1][i] == claims[i];
  }

  /** The map left by a resolution that succeeded: the unclaimed entries of
      the input, unchanged. */
  lemma {:induction false} ResolveClaimsLeft(claims: seq<Claim>, m: map<NameNs, Deployment>)
    requires ResolveClaims(claims, m).0.Ok?
    requires forall i :: 0 <= i < |claims| ==> TargetGate(claims[i].ref).Ok?
    ensures forall k :: k in ResolveClaims(claims, m).1 <==> k in m && Unclaimed(claims, k)
    ensures forall k :: k in ResolveClaims(claims, m).1 ==> ResolveClaims(claims, m).1[k] == m[k]
    decreases |claims|
  {
    if |claims| > 0 {
      var n := |claims| - 1;
      var prefix := claims[..n];
      ResolveClaimsStep(claims, m);
      ResolveClaimsGated(prefix, m);
      ResolveClaimsLeft(prefix, m);
      forall k
        ensures k in ResolveClaims(claims, m).1 <==> k in m && Unclaimed(claims, k)
      {
        UnclaimedSnoc(claims, k);
      }
    }
  }

  lemma NotLeftOnceClaimed(claims: seq<Claim>, m: map<NameNs, Deployment>, i: nat)
    requires ResolveClaims(claims, m).0.Ok? && i < |claims|
    ensures TargetGate(claims[i].ref).Ok? && ClaimKey(claims[i]) !in ResolveClaims(claims, m).1
  {
    ResolveClaimsLeaves(claims, m);
  }

  /** When every claim resolves, no two claims name the same Deployment. */
  lemma {:induction false} ResolveClaimsDistinct(claims: seq<Claim>, m: map<NameNs, Deployment>)
    requires ResolveClaims(claims, m).0.Ok?
    ensures forall i :: 0 <= i < |claims| ==> TargetGate(claims[i].ref).Ok?
    ensures forall i, j :: 0 <= i < j < |claims| ==> ClaimKey(claims[i]) != ClaimKey(claims[j])
    decreases |claims|
  {
    if |claims| > 0 {
      var n := |claims| - 1;
      var prefix := claims[..n];
      ResolveClaimsDistinct(prefix, m);
      var front := ResolveClaims(prefix, m);
      var last := ClaimKey(claims[n]);
      assert last in front.1;
      forall i, j | 0 <= i < j < |claims|
        ensures ClaimKey(claims[i]) != ClaimKey(claims[j])
      {
        assert claims[i] == prefix[i];
        if j < n {
          assert claims[j] == prefix[j];
        } else {
          NotLeftOnceClaimed(prefix, m, i);
        }
      }
    }
  }

  /** When every claim resolves, each workload runs the pod template of the
      Deployment its claim names, with the claimed replicas. */
  lemma {:induction false} ResolveClaimsWorkloads(claims: seq<Claim>, m: map<NameNs, Deployment>)
    requires ResolveClaims(claims, m).0.Ok?
    ensures forall i :: 0 <= i < |claims| ==>
              TargetGate(claims[i].ref).Ok? && ClaimKey(claims[i]) in m
              && ResolveClaims(claims, m).0.value[i] == Workload(claims[i].replicas, m[ClaimKey(claims[i])].spec)
    decreases |claims|
  {
    if |claims| > 0 {
      var n := |claims| - 1;
      var prefix := claims[..n];
      ResolveClaimsStep(claims, m);
      ResolveClaimsWorkloads(prefix, m);
      ResolveClaimsGated(prefix, m);
      ResolveClaimsLeft(prefix, m);
      var ws, front := ResolveClaims(claims, m).0.value, ResolveClaims(prefix, m).0.value;
      var c := claims[n];
      assert ResolveClaims(prefix, m).1[ClaimKey(c)] == m[ClaimKey(c)];
      forall i | 0 <= i < |claims|
        ensures TargetGate(claims[i].ref).Ok? && ClaimKey(claims[i]) in m
                && ws[i] == Workload(claims[i].replicas, m[ClaimKey(claims[i])].spec)
      {
        if i < n {
          assert claims[i] == prefix[i];
          assert ws[i] == front[i];
        }
      }
    }
  }

  /** Two HPAs whose targets are the same Deployment cannot both resolve: the
      second finds the key already deleted and the phase fails. */
  lemma SharedDeploymentFails(claims: seq<Claim>, m: map<NameNs, Deployment>, i: nat, j: nat)
    requires i < j < |claims|
    requires TargetGate(claims[i].ref).Ok? && TargetGate(claims[j].ref).Ok?
    requires ClaimKey(claims[i]) == ClaimKey(claims[j])
    ensures ResolveClaims(claims, m).0.Err?
  {
    if ResolveClaims(claims, m).0.Ok? {
      ResolveClaimsDistinct(claims, m);
    }
  }

  /** The two HPA passes of the phase: `ResolveScaleTargetRefByDeploymentsMap`
      with the delete flag, claim by claim, stopping at the first failure. */
  method ResolveWorkloads(index: DeploymentIndex, claims: seq<Claim>) returns (r: Result<seq<Workload>>)
    modifies index
    ensures r == ResolveClaims(claims, old(index.byKey)).0
    ensures r.Ok? ==> index.byKey == ResolveClaims(claims, old(index.byKey)).1
  {
    ghost var m0 := index.byKey;
    var ws: seq<Workload> := [];
    var i := 0;
    while i < |claims|
      invariant 0 <= i <= |claims|
      invariant ResolveClaims(claims[..i], m0) == (Ok(ws), index.byKey)
    {
      assert claims[..i + 1][..i] == claims[..i];
      var d := index.Resolve(claims[i].ref, claims[i].namespace, [true]);
      if d.Err? {
        ResolveClaimsFailsAfter(claims, m0, i + 1);
        return Err(d.msg);
      }
      ws := ws + [Workload(claims[i].replicas, d.value.spec)];
      i := i + 1;
    }
    assert claims[..i] == claims;
    r := Ok(ws);
  }

  /** `*Spec.Replicas`, or `MinimumPod` when the Deployment leaves it unset. */
  function ReplicasOf(d: Deployment): (n: nat)
    ensures d.replicas.None? ==> n == MinimumPod
    ensures d.replicas.Some? ==> n == d.replicas.value
  {
    if d.replicas.Some? then d.replicas.value else MinimumPod
  }

  /** The Deployments left in the map, in listing order, each key once. */
  function RemainingOf(ds: seq<Deployment>, left: map<NameNs, Deployment>): (r: seq<Deployment>)
    ensures forall i :: 0 <= i < |r| ==> DeploymentKey(r[i]) in left && left[DeploymentKey(r[i])] == r[i]
    ensures forall i, j :: 0 <= i < j < |r| ==> DeploymentKey(r[i]) != DeploymentKey(r[j])
    decreases |ds|
  {
    if |ds| == 0 then []
    else
      var k := DeploymentKey(ds[0]);
      if k in left && left[k] == ds[0] then [ds[0]] + RemainingOf(ds[1..], left - {k})
      else RemainingOf(ds[1..], left)
  }

  /** Every Deployment left in the map is visited: when each entry of the map
      is one of the listed Deployments under its own key, the remaining pass
      covers every key of the map. */
  lemma {:induction false} RemainingCoversLeft(ds: seq<Deployment>, left: map<NameNs, Deployment>, k: NameNs)
    requires k in left && left[k] in ds && DeploymentKey(left[k]) == k
    ensures exists i :: 0 <= i < |RemainingOf(ds, left)| && DeploymentKey(RemainingOf(ds, left)[i]) == k
    decreases |ds|
  {
    var r := RemainingOf(ds, left);
    var k0 := DeploymentKey(ds[0]);
    if k0 in left && left[k0] == ds[0] {
      if k0 == k {
        assert DeploymentKey(r[0]) == k;
      } else {
        assert left[k] in ds[1..];
        RemainingCoversLeft(ds[1..], left - {k0}, k);
        var i :| 0 <= i < |RemainingOf(ds[1..], left - {k0})| && DeploymentKey(RemainingOf(ds[1..], left - {k0})[i]) == k;
        assert r[i + 1] == RemainingOf(ds[1..], left - {k0})[i];
      }
    } else {
      assert ds[0] != left[k];
      assert left[k] in ds[1..];
      RemainingCoversLeft(ds[1..], left, k);
    }
  }

  function RemainingWorkloads(ds: seq<Deployment>): (r: seq<Workload>)
    ensures |r| == |ds|
    ensures forall i :: 0 <= i < |ds| ==> r[i] == Workload(ReplicasOf(ds[i]), ds[i].spec)
  {
    seq(|ds|, i requires 0 <= i < |ds| => Workload(ReplicasOf(ds[i]), ds[i].spec))
  }

  /** The remaining-deployments pass: the listed Deployments whose key is
      still in the map, each once, with its replica count defaulting to one. */
  method CollectRemaining(ds: seq<Deployment>, index: DeploymentIndex) returns (r: seq<Workload>)
    ensures r == RemainingWorkloads(RemainingOf(ds, index.byKey))
  {
    var left := index.byKey;
    var acc: seq<Deployment> := [];
    var i := 0;
    while i < |ds|
      invariant 0 <= i <= |ds|
      invariant RemainingOf(ds, index.byKey) == acc + RemainingOf(ds[i..], left)
    {
      assert ds[i..][1..] == ds[i + 1..];
      var k := DeploymentKey(ds[i]);
      if k in left && left[k] == ds[i] {
        acc := acc + [ds[i]];
        left := left - {k};
      }
      i := i + 1;
    }
    r := RemainingWorkloads(acc);
  }

  // ---------------------------------------------------------------- requested resources

  /** One workload's request on a pool it fits: its replicas as pods, and its
      per-replica CPU and memory times the replicas. */
  function Share(w: Workload): (r: Requested)
    ensures r.pods == w.replicas
    ensures r.cpu == TotalRequests(w.spec.containers).cpu * w.replicas
    ensures r.memory == TotalRequests(w.spec.containers).memory * w.replicas
  {
    var t := TotalRequests(w.spec.containers);
    Requested(w.replicas, t.cpu * w.replicas, t.memory * w.replicas)
  }

  /** Whether a pool's sample-node labels admit the workload's pods. */
  function Admits(labels: Labels, w: Workload): Result<bool>
  {
    CheckPodNodePoolMatch(labels, w.spec.affinity, w.spec.nodeSelector)
  }

  /** What one workload asks of a pool: its share if the pool admits it,
      nothing otherwise. */
  function ShareOn(labels: Labels, w: Workload): (r: Requested)
    ensures Admits(labels, w) == Ok(true) ==> r == Share(w)
    ensures Admits(labels, w) != Ok(true) ==> r == NothingRequested
  {
    if Admits(labels, w) == Ok(true) then Share(w) else NothingRequested
  }

  /** What the workloads ask of one pool: the shares of those it admits. */
  function PoolDemand(labels: Labels, ws: seq<Workload>): Requested
    decreases |ws|
  {
    if |ws| == 0 then NothingRequested
    else Plus(PoolDemand(labels, ws[..|ws| - 1]), ShareOn(labels, ws[|ws| - 1]))
  }

  /** Demand adds up over consecutive groups of workloads, so the order in
      which the three passes run does not change a pool's total. */
  lemma {:induction false} DemandAppend(labels: Labels, a: seq<Workload>, b: seq<Workload>)
    ensures PoolDemand(labels, a + b) == Plus(PoolDemand(labels, a), PoolDemand(labels, b))
    decreases |b|
  {
    if |b| == 0 {
      assert a + b == a;
      PlusNothing(PoolDemand(labels, a));
    } else {
      var front, w := b[..|b| - 1], b[|b| - 1];
      var ab := a + b;
      assert ab[..|ab| - 1] == a + front;
      assert ab[|ab| - 1] == w;
      DemandAppend(labels, a, front);
      assert PoolDemand(labels, ab) == Plus(PoolDemand(labels, a + front), ShareOn(labels, w));
      assert PoolDemand(labels, b) == Plus(PoolDemand(labels, front), ShareOn(labels, w));
    }
  }

  /** Taking one workload out of the list takes exactly what it asks of the
      pool off the pool's demand: its share if the pool admits it, nothing
      otherwise. */
  lemma DemandWithout(labels: Labels, ws: seq<Workload>, i: nat)
    requires i < |ws|
    ensures PoolDemand(labels, ws) == Plus(PoolDemand(labels, ws[..i] + ws[i + 1..]), ShareOn(labels, ws[i]))
  {
    var pre, post, w := ws[..i], ws[i + 1..], ws[i];
    var a, b, c := PoolDemand(labels, pre), PoolDemand(labels, post), ShareOn(labels, w);
    assert PoolDemand(labels, ws) == Plus(PoolDemand(labels, pre + [w]), b) by {
      assert ws == (pre + [w]) + post;
      DemandAppend(labels, pre + [w], post);
    }
    assert PoolDemand(labels, pre + [w]) == Plus(a, c) by {
      DemandAppend(labels, pre, [w]);
      DemandSingle(labels, w);
    }
    assert PoolDemand(labels, pre + post) == Plus(a, b) by {
      DemandAppend(labels, pre, post);
    }
  }

  /** A single workload asks of a pool exactly what `ShareOn` gives. */
  lemma DemandSingle(labels: Labels, w: Workload)
    ensures PoolDemand(labels, [w]) == ShareOn(labels, w)
  {
    var ws := [w];
    assert ws[..|ws| - 1] == [];
    assert PoolDemand(labels, ws) == Plus(PoolDemand(labels, []), ShareOn(labels, w));
    PlusNothing(ShareOn(labels, w));
  }

  /** Adding nothing requested changes nothing. */
  lemma PlusNothing(x: Requested)
    ensures Plus(NothingRequested, x) == x && Plus(x, NothingRequested) == x
  {
    assert x == Requested(x.pods, x.cpu, x.memory);
  }

  /** A workload a pool does not admit adds nothing to that pool. */
  lemma UnadmittedAddsNothing(labels: Labels, ws: seq<Workload>, i: nat)
    requires i < |ws| && Admits(labels, ws[i]) != Ok(true)
    ensures PoolDemand(labels, ws[..i] + ws[i + 1..]) == PoolDemand(labels, ws)
  {
    DemandWithout(labels, ws, i);
    assert ShareOn(labels, ws[i]) == NothingRequested;
    PlusNothing(PoolDemand(labels, ws[..i] + ws[i + 1..]));
  }

  /** A workload a pool admits adds exactly its share to that pool. */
  lemma AdmittedAddsShare(labels: Labels, ws: seq<Workload>, i: nat)
    requires i < |ws| && Admits(labels, ws[i]) == Ok(true)
    ensures PoolDemand(labels, ws) == Plus(PoolDemand(labels, ws[..i] + ws[i + 1..]), Share(ws[i]))
  {
    DemandWithout(labels, ws, i);
  }

  /** A workload with no node selector and no affinity is counted on every
      pool. */
  lemma UnconstrainedCountsEverywhere(labels: Labels, ws: seq<Workload>, i: nat)
    requires i < |ws| && ws[i].spec.nodeSelector == map[] && ws[i].spec.affinity.None?
    ensures PoolDemand(labels, ws) == Plus(PoolDemand(labels, ws[..i] + ws[i + 1..]), Share(ws[i]))
  {
    UnconstrainedPodMatchesEveryPool(labels);
    AdmittedAddsShare(labels, ws, i);
  }

  /** Some workload's affinity cannot be evaluated on some pool. */
  predicate Unplaceable(pools: map<string, Labels>, ws: seq<Workload>)
  {
    exists i, p :: 0 <= i < |ws| && p in pools && Admits(pools[p], ws[i]).Err?
  }

  /** `nodePoolsRequestedResources`: the requested resources of every pool,
      added to in place. */
  /** The pools whose labels admit the workload's pods, or the first
      matching error. */
  method MatchingPools(pools: map<string, Labels>, w: Workload) returns (r: Result<set<string>>)
    ensures r.Err? <==> exists p :: p in pools && Admits(pools[p], w).Err?
    ensures r.Err? ==> r.msg == InvalidNodeSelector
    ensures r.Ok? ==> r.value == set p | p in pools && Admits(pools[p], w) == Ok(true)
  {
    var fits: set<string> := {};
    var todo := pools.Keys;
    while todo != {}
      invariant todo <= pools.Keys
      invariant forall p :: p in pools && p !in todo ==> Admits(pools[p], w).Ok?
      invariant fits == set p | p in pools && p !in todo && Admits(pools[p], w) == Ok(true)
      decreases |todo|
    {
      var p :| p in todo;
      var m := Admits(pools[p], w);
      if m.Err? {
        return Err(m.msg);
      }
      if m.value {
        fits := fits + {p};
      }
      todo := todo - {p};
    }
    r := Ok(fits);
  }

  class RequestLedger {
    var requested: map<string, Requested>

    /** Every pool starts with nothing requested. */
    constructor (names: seq<string>)
      ensures requested.Keys == set n | n in names
      ensures forall p :: p in requested ==> requested[p] == NothingRequested
    {
      requested := map n | n in names :: NothingRequested;
    }

    /** One workload: its pods are matched against every pool first (an error
        aborts before anything is added); then its share goes to exactly the
        pools that admit it. */
    method AddWorkload(pools: map<string, Labels>, w: Workload) returns (err: Option<string>)
      modifies this
      ensures requested.Keys == old(requested).Keys
      ensures err.Some? <==> exists p :: p in pools && Admits(pools[p], w).Err?
      ensures err.Some? ==> err.value == InvalidNodeSelector && requested == old(requested)
      ensures err.None? ==> forall p :: p in requested ==>
                requested[p] == if p in pools then Plus(old(requested)[p], ShareOn(pools[p], w)) else old(requested)[p]
    {
      var fits := MatchingPools(pools, w);
      if fits.Err? {
        return Some(fits.msg);
      }
      AddShare(fits.value, Share(w));
      forall p | p in requested && p in pools
        ensures requested[p] == Plus(old(requested)[p], ShareOn(pools[p], w))
      {
        if p !in fits.value {
          assert ShareOn(pools[p], w) == NothingRequested;
          PlusNothing(old(requested)[p]);
        }
      }
      err := None;
    }

    /** The share of a workload goes to every pool of `fits`. */
    method AddShare(fits: set<string>, share: Requested)
      modifies this
      ensures requested.Keys == old(requested).Keys
      ensures forall p :: p in requested ==>
                requested[p] == if p in fits then Plus(old(requested)[p], share) else old(requested)[p]
    {
      var rest := fits;
      while rest != {}
        invariant rest <= fits
        invariant requested.Keys == old(requested).Keys
        invariant forall p :: p in requested ==>
                    requested[p] == if p in fits && p !in rest then Plus(old(requested)[p], share) else old(requested)[p]
        decreases |rest|
      {
        var p :| p in rest;
        if p in requested {
          requested := requested[p := Plus(requested[p], share)];
        }
        rest := rest - {p};
      }
    }

    /** All workloads in order: each pool's total grows by its demand; the
        phase fails iff some workload cannot be matched against some pool. */
    method AddAll(pools: map<string, Labels>, ws: seq<Workload>) returns (err: Option<string>)
      modifies this
      ensures requested.Keys == old(requested).Keys
      ensures err.Some? <==> Unplaceable(pools, ws)
      ensures err.Some? ==> err.value == InvalidNodeSelector
      ensures err.None? ==> forall p :: p in requested ==>
                requested[p] == if p in pools then Plus(old(requested)[p], PoolDemand(pools[p], ws)) else old(requested)[p]
    {
      var i := 0;
      while i < |ws|
        invariant 0 <= i <= |ws|
        invariant requested.Keys == old(requested).Keys
        invariant !Unplaceable(pools, ws[..i])
        invariant forall p :: p in requested ==>
                    requested[p] == if p in pools then Plus(old(requested)[p], PoolDemand(pools[p], ws[..i])) else old(requested)[p]
      {
        ghost var before := requested;
        err := AddWorkload(pools, ws[i]);
        if err.Some? {
          var p :| p in pools && Admits(pools[p], ws[i]).Err?;
          assert Unplaceable(pools, ws);
          return;
        }
        forall p | p in requested && p in pools
          ensures requested[p] == Plus(old(requested)[p], PoolDemand(pools[p], ws[..i + 1]))
        {
          DemandSnoc(pools[p], ws, i);
        }
        i := i + 1;
      }
      assert ws[..i] == ws;
      err := None;
    }
  }

  lemma DemandSnoc(labels: Labels, ws: seq<Workload>, i: nat)
    requires i < |ws|
    ensures PoolDemand(labels, ws[..i + 1]) == Plus(PoolDemand(labels, ws[..i]), ShareOn(labels, ws[i]))
  {
    assert ws[..i + 1][..i] == ws[..i];
  }
}
