/** internal/cron/gcp.go, the node-pool phases of `execGCPEvent`: loading the
    capacity of every pool of the GKE cluster (calculation mode), resizing
    every pool's autoscaling bound and waiting for the GKE operation, and the
    `UpdatedNodePool` rows recorded for the event.

    Go runs one goroutine per pool and waits for all of them. A nil pointer
    dereferenced by any of them crashes the process whatever the others do,
    and an operation that never settles keeps the wait from returning; of
    the remaining errors the model reports the first in pool order. */
module NodePools {
  import opened Common
  import opened Capacity
  import opened Naming
  import opened GkeCluster

  /** `container.NodePoolAutoscaling`. */
  datatype Autoscaling = Autoscaling(enabled: bool, minNodeCount: nat, maxNodeCount: nat)

  /** A node pool as the cluster object lists it; either pointer may be nil. */
  datatype PoolSpec = PoolSpec(name: string, maxPodsPerNode: Option<nat>, autoscaling: Option<Autoscaling>)

  /** How one goroutine ends: a value, a returned error, or a nil dereference. */
  datatype Step<T> = Done(value: T) | Fail(msg: string) | Panic

  // ---------------------------------------------------------------- capacity

  /** Whether the per-pool loader can read both of the pool's limits. */
  predicate Readable(p: PoolSpec)
  {
    p.maxPodsPerNode.Some? && p.autoscaling.Some?
  }

  /** The loader of one pool: the per-node pod limit and the autoscaling
      maximum are read first, then the pool's nodes are listed, and the first
      node's labels decide which daemon sets count against it. */
  function LoadPool(p: PoolSpec, dss: seq<DaemonSetData>, list: NodeLister): (r: Step<PoolResources>)
    ensures r.Panic? <==> !Readable(p)
    ensures r.Done? ==> GetNodesFromGcpNodePool(p.name, list).Ok?
    ensures r.Done? ==>
              var nodes := GetNodesFromGcpNodePool(p.name, list).value;
              var maxNode := p.autoscaling.value.maxNodeCount;
              && r.value.currentNodeCount == |nodes| > 0
              && r.value.nodeLabels == nodes[0].labels
              && r.value.maxAvailablePods == p.maxPodsPerNode.value * maxNode
              && r.value.maxAvailableCpu == r.value.availableCpu * maxNode
              && r.value.maxAvailableMemory == r.value.availableMemory * maxNode
              && p.maxPodsPerNode.value - |dss| <= r.value.availablePods <= p.maxPodsPerNode.value
  {
    if !Readable(p) then Panic
    else
      match GetNodesFromGcpNodePool(p.name, list)
      case Err(e) => Fail(e)
      case Ok(nodes) =>
        match DaemonSetOverhead(nodes[0].labels, dss)
        case Err(e) => Fail(e)
        case Ok(o) => Done(PoolResourcesOf(p.maxPodsPerNode.value, p.autoscaling.value.maxNodeCount, nodes[0], |nodes|, o))
  }

  /** Every pool's loader, in pool order. */
  function Loads(pools: seq<PoolSpec>, dss: seq<DaemonSetData>, list: NodeLister): (r: seq<Step<PoolResources>>)
    ensures |r| == |pools|
    ensures forall i :: 0 <= i < |pools| ==> r[i] == LoadPool(pools[i], dss, list)
  {
    seq(|pools|, i requires 0 <= i < |pools| => LoadPool(pools[i], dss, list))
  }

  function Names(pools: seq<PoolSpec>): (r: seq<string>)
    ensures |r| == |pools|
    ensures forall i :: 0 <= i < |pools| ==> r[i] == pools[i].name
  {
    seq(|pools|, i requires 0 <= i < |pools| => pools[i].name)
  }

  /** The wait for all loaders: a crash if any loader crashed, otherwise the
      first error, otherwise every pool's capacity under its name. */
  function Gather(names: seq<string>, steps: seq<Step<PoolResources>>): (r: Step<map<string, PoolResources>>)
    requires |names| == |steps|
    decreases |steps|
  {
    if |steps| == 0 then Done(map[])
    else
      var n := |steps| - 1;
      var front := Gather(names[..n], steps[..n]);
      if front.Panic? || steps[n].Panic? then Panic
      else if front.Fail? then front
      else if steps[n].Fail? then Fail(steps[n].msg)
      else Done(front.value[names[n] := steps[n].value])
  }

  /** The load phase of the pools. */
  function LoadAll(pools: seq<PoolSpec>, dss: seq<DaemonSetData>, list: NodeLister): Step<map<string, PoolResources>>
  {
    Gather(Names(pools), Loads(pools, dss, list))
  }

  /** The wait crashes iff some loader crashed. */
  lemma {:induction false} GatherPanics(names: seq<string>, steps: seq<Step<PoolResources>>)
    requires |names| == |steps|
    ensures Gather(names, steps).Panic? <==> exists i :: 0 <= i < |steps| && steps[i].Panic?
    decreases |steps|
  {
    if |steps| > 0 {
      var n := |steps| - 1;
      GatherPanics(names[..n], steps[..n]);
      assert forall i :: 0 <= i < n ==> steps[..n][i] == steps[i];
    }
  }

  /** The load phase crashes iff some pool lacks its pod limit or its
      autoscaling settings. */
  lemma LoadAllPanics(pools: seq<PoolSpec>, dss: seq<DaemonSetData>, list: NodeLister)
    ensures LoadAll(pools, dss, list).Panic? <==> exists i :: 0 <= i < |pools| && !Readable(pools[i])
  {
    GatherPanics(Names(pools), Loads(pools, dss, list));
  }

  /** A completed wait had every loader complete. */
  lemma {:induction false} GatherDoneSteps(names: seq<string>, steps: seq<Step<PoolResources>>)
    requires |names| == |steps| && Gather(names, steps).Done?
    ensures forall i :: 0 <= i < |steps| ==> steps[i].Done?
    decreases |steps|
  {
    if |steps| > 0 {
      var n := |steps| - 1;
      var ns, ss := names[..n], steps[..n];
      GatherDoneSteps(ns, ss);
      assert forall i :: 0 <= i < n ==> ss[i] == steps[i];
    }
  }

  /** A completed wait holds exactly the given names. */
  lemma {:induction false} GatherDoneNames(names: seq<string>, steps: seq<Step<PoolResources>>)
    requires |names| == |steps| && Gather(names, steps).Done?
    ensures forall i :: 0 <= i < |names| ==> names[i] in Gather(names, steps).value
    ensures forall k :: k in Gather(names, steps).value ==> k in names
    decreases |steps|
  {
    if |steps| > 0 {
      var n := |steps| - 1;
      var ns, ss := names[..n], steps[..n];
      GatherDoneNames(ns, ss);
      assert forall i :: 0 <= i < n ==> ns[i] == names[i];
      assert names == ns + [names[n]];
    }
  }

  /** Under a name no later loader shares, a completed wait holds what that
      name's loader computed (the last of a name wins, as in a Go map). */
  lemma {:induction false} GatherDoneValue(names: seq<string>, steps: seq<Step<PoolResources>>, i: nat)
    requires |names| == |steps| && Gather(names, steps).Done?
    requires i < |names| && forall j :: i < j < |names| ==> names[j] != names[i]
    ensures steps[i].Done? && names[i] in Gather(names, steps).value
    ensures Gather(names, steps).value[names[i]] == steps[i].value
    decreases |steps|
  {
    var n := |steps| - 1;
    var ns, ss := names[..n], steps[..n];
    if i < n {
      GatherDoneValue(ns, ss, i);
      assert ss[i] == steps[i] && ns[i] == names[i];
    }
  }

  /** A completed load phase had every pool readable and holds every pool's
      capacity under its name. */
  lemma LoadAllDone(pools: seq<PoolSpec>, dss: seq<DaemonSetData>, list: NodeLister)
    requires LoadAll(pools, dss, list).Done?
    ensures forall i :: 0 <= i < |pools| ==> Readable(pools[i]) && pools[i].name in LoadAll(pools, dss, list).value
    ensures forall i :: 0 <= i < |pools| && (forall j :: i < j < |pools| ==> pools[j].name != pools[i].name) ==>
              Done(LoadAll(pools, dss, list).value[pools[i].name]) == LoadPool(pools[i], dss, list)
  {
    var names, steps := Names(pools), Loads(pools, dss, list);
    GatherDoneSteps(names, steps);
    GatherDoneNames(names, steps);
    forall i | 0 <= i < |pools| && (forall j :: i < j < |pools| ==> pools[j].name != pools[i].name)
      ensures Done(LoadAll(pools, dss, list).value[pools[i].name]) == LoadPool(pools[i], dss, list)
    {
      GatherDoneValue(names, steps, i);
    }
  }

  /** A failed wait reports the error of the first loader that failed; every
      loader before it completed. */
  lemma {:induction false} GatherFailsFirst(names: seq<string>, steps: seq<Step<PoolResources>>)
    requires |names| == |steps| && Gather(names, steps).Fail?
    ensures exists i :: 0 <= i < |steps| && steps[i] == Fail(Gather(names, steps).msg)
              && forall j :: 0 <= j < i ==> steps[j].Done?
    decreases |steps|
  {
    var n := |steps| - 1;
    var front := steps[..n];
    assert forall i :: 0 <= i < n ==> front[i] == steps[i];
    if Gather(names[..n], front).Fail? {
      GatherFailsFirst(names[..n], front);
      var i :| 0 <= i < n && front[i] == Fail(Gather(names[..n], front).msg) && forall j :: 0 <= j < i ==> front[j].Done?;
      assert steps[i] == Fail(Gather(names, steps).msg);
    } else {
      GatherDoneSteps(names[..n], front);
      assert steps[n] == Fail(Gather(names, steps).msg);
    }
  }

  /** The wait after one more loader, from the wait before it. */
  lemma GatherStep(names: seq<string>, steps: seq<Step<PoolResources>>, i: nat)
    requires |names| == |steps| && i < |steps|
    ensures var front := Gather(names[..i], steps[..i]);
            Gather(names[..i + 1], steps[..i + 1]) ==
              if front.Panic? || steps[i].Panic? then Panic
              else if front.Fail? then front
              else if steps[i].Fail? then Fail(steps[i].msg)
              else Done(front.value[names[i] := steps[i].value])
  {
    assert names[..i + 1][..i] == names[..i] && steps[..i + 1][..i] == steps[..i];
  }

  /** The per-pool loaders and the wait for all of them. */
  method LoadPools(pools: seq<PoolSpec>, dss: seq<DaemonSetData>, list: NodeLister) returns (r: Step<map<string, PoolResources>>)
    ensures r == LoadAll(pools, dss, list)
  {
    var names, steps := Names(pools), Loads(pools, dss, list);
    var loaded: map<string, PoolResources> := map[];
    var crashed := false;
    var firstError: Option<string> := None;
    var i := 0;
    while i < |pools|
      invariant 0 <= i <= |pools|
      invariant Gather(names[..i], steps[..i]) ==
                  if crashed then Panic else if firstError.Some? then Fail(firstError.value) else Done(loaded)
    {
      GatherStep(names, steps, i);
      var s := LoadPool(pools[i], dss, list);
      if s.Panic? {
        crashed := true;
      } else if s.Fail? {
        if firstError.None? {
          firstError := Some(s.msg);
        }
      } else {
        loaded := loaded[pools[i].name := s.value];
      }
      i := i + 1;
    }
    assert names[..i] == names && steps[..i] == steps;
    r := if crashed then Panic else if firstError.Some? then Fail(firstError.value) else Done(loaded);
  }

  // ---------------------------------------------------------------- waiting for the operation

  /** One `GetOperation` reply: still running, done (with the operation's
      error, if any), or the call itself failing. */
  datatype PollReply = Running | Finished(error: Option<string>) | CallError(msg: string)

  /** How waiting for an operation (or a whole phase) ends. `StillRunning`:
      the replies given never settle it, so the loop is still polling. */
  datatype PollOutcome = Succeeded | OpFailed(msg: string) | CallFailed(msg: string) | Crashed | StillRunning

  /** The index of the first reply that ends the loop. */
  function Settling(replies: seq<PollReply>): (r: Option<nat>)
    ensures r.Some? ==> r.value < |replies| && !replies[r.value].Running?
                        && forall j :: 0 <= j < r.value ==> replies[j].Running?
    ensures r.None? ==> forall j :: 0 <= j < |replies| ==> replies[j].Running?
    decreases |replies|
  {
    if |replies| == 0 then None
    else if !replies[0].Running? then Some(0)
    else
      var rest := Settling(replies[1..]);
      assert forall j :: 1 <= j < |replies| ==> replies[j] == replies[1..][j - 1];
      if rest.None? then None else Some(rest.value + 1)
  }

  /** The poll loop as written: the reply's operation is dereferenced before
      the call's error is looked at, so a failed call crashes. */
  function PollAsWritten(replies: seq<PollReply>): PollOutcome
  {
    match Settling(replies)
    case None => StillRunning
    case Some(k) =>
      match replies[k]
      case Finished(e) => if e.Some? then OpFailed(e.value) else Succeeded
      case CallError(_) => Crashed
      case Running => StillRunning
  }

  /** The poll loop with the error checked first: a failed call is returned. */
  function Poll(replies: seq<PollReply>): PollOutcome
  {
    match Settling(replies)
    case None => StillRunning
    case Some(k) =>
      match replies[k]
      case Finished(e) => if e.Some? then OpFailed(e.value) else Succeeded
      case CallError(m) => CallFailed(m)
      case Running => StillRunning
  }

  /** The loop ends only at a finished operation (an error iff the operation
      carries one) or at a failed call, and a failed call is reported with its
      own error. */
  lemma PollEndsAtSettlingReply(replies: seq<PollReply>)
    ensures Poll(replies).Succeeded? <==> exists k :: 0 <= k < |replies| && replies[k] == Finished(None) && forall j :: 0 <= j < k ==> replies[j].Running?
    ensures Poll(replies).StillRunning? <==> forall j :: 0 <= j < |replies| ==> replies[j].Running?
    ensures Poll(replies).CallFailed? ==> exists k :: 0 <= k < |replies| && replies[k] == CallError(Poll(replies).msg)
    ensures !Poll(replies).Crashed?
  {
    var s := Settling(replies);
    if exists k :: 0 <= k < |replies| && replies[k] == Finished(None) && forall j :: 0 <= j < k ==> replies[j].Running? {
      var k :| 0 <= k < |replies| && replies[k] == Finished(None) && forall j :: 0 <= j < k ==> replies[j].Running?;
      SettlesAt(replies, k);
    }
  }

  /** The two loops agree on every reply sequence except where the settling
      reply is a failed call: there the loop as written crashes. */
  lemma PollAsWrittenDiffersOnlyOnCallError(replies: seq<PollReply>)
    ensures PollAsWritten(replies) != Poll(replies) <==>
              Settling(replies).Some? && replies[Settling(replies).value].CallError?
  {
  }

  /** A `GetOperation` call failing on the first poll: the loop as written
      dereferences the nil reply, the corrected loop returns the error. */
  lemma {:induction false} FailedPollCrashes()
    ensures PollAsWritten([Running, CallError("deadline exceeded")]) == Crashed
    ensures Poll([Running, CallError("deadline exceeded")]) == CallFailed("deadline exceeded")
  {
    assert Settling([CallError("deadline exceeded")]) == Some(0);
    assert [Running, CallError("deadline exceeded")][1..] == [CallError("deadline exceeded")];
  }

  /** The `for {}` loop as written, one reply per iteration. */
  method PollOperationAsWritten(replies: seq<PollReply>) returns (out: PollOutcome)
    ensures out == PollAsWritten(replies)
  {
    var i := 0;
    while i < |replies|
      invariant 0 <= i <= |replies|
      invariant forall j :: 0 <= j < i ==> replies[j].Running?
    {
      match replies[i] {
      case CallError(_) =>
        SettlesAt(replies, i);
        return Crashed;
      case Finished(e) =>
        SettlesAt(replies, i);
        return if e.Some? then OpFailed(e.value) else Succeeded;
      case Running =>
      }
      i := i + 1;
    }
    out := StillRunning;
  }

  /** The loop with the call's error checked before the reply is read. */
  method PollOperation(replies: seq<PollReply>) returns (out: PollOutcome)
    ensures out == Poll(replies)
  {
    var i := 0;
    while i < |replies|
      invariant 0 <= i <= |replies|
      invariant forall j :: 0 <= j < i ==> replies[j].Running?
    {
      match replies[i] {
      case CallError(m) =>
        SettlesAt(replies, i);
        return CallFailed(m);
      case Finished(e) =>
        SettlesAt(replies, i);
        return if e.Some? then OpFailed(e.value) else Succeeded;
      case Running =>
      }
      i := i + 1;
    }
    out := StillRunning;
  }

  lemma SettlesAt(replies: seq<PollReply>, i: nat)
    requires i < |replies| && !replies[i].Running?
    requires forall j :: 0 <= j < i ==> replies[j].Running?
    ensures Settling(replies) == Some(i)
  {
  }

  // ---------------------------------------------------------------- resizing

  /** The new bound of a pool; a pool whose per-node availability is not
      positive in some dimension keeps its bound. */
  function SizedMaxNode(req: Requested, res: PoolResources, oldMax: nat): (n: nat)
    ensures n >= oldMax
    ensures Sizable(res) ==> n == NewMaxNode(req, res, oldMax)
  {
    if Sizable(res) then NewMaxNeverDecreases(req, res, oldMax); NewMaxNode(req, res, oldMax) else oldMax
  }

  /** A `SetNodePoolAutoscaling` request: the node pool's resource name and
      the autoscaling settings sent. */
  datatype ResizeCall = ResizeCall(path: string, autoscaling: Autoscaling)

  /** The bound computed for a pool from its requests and capacity. */
  function PoolBound(p: PoolSpec, req: map<string, Requested>, res: map<string, PoolResources>): nat
    requires p.autoscaling.Some? && p.name in req && p.name in res
  {
    SizedMaxNode(req[p.name], res[p.name], p.autoscaling.value.maxNodeCount)
  }

  /** The request for a pool: its own autoscaling settings with only the
      maximum replaced by the new bound. */
  function CallOf(p: PoolSpec, c: GkeCoordinates, bound: nat): (r: ResizeCall)
    requires p.autoscaling.Some?
    ensures r.autoscaling.maxNodeCount == bound
    ensures r.autoscaling.(maxNodeCount := p.autoscaling.value.maxNodeCount) == p.autoscaling.value
    ensures r.path == NodePoolPath(c.project, c.location, c.name, p.name)
  {
    ResizeCall(NodePoolPath(c.project, c.location, c.name, p.name), p.autoscaling.value.(maxNodeCount := bound))
  }

  /** The GKE calls: `SetNodePoolAutoscaling` answers a request with the
      operation's name or an error; `GetOperation` answers each operation
      resource name with the replies of successive polls. */
  type Resizer = ResizeCall -> Result<string>
  type Poller = string -> seq<PollReply>

  /** How one pool's resize goroutine ends. */
  function PoolResize(p: PoolSpec, c: GkeCoordinates, bound: nat, setAutoscaling: Resizer, poll: Poller): (r: PollOutcome)
    requires p.autoscaling.Some?
    ensures setAutoscaling(CallOf(p, c, bound)).Err? ==> r == CallFailed(setAutoscaling(CallOf(p, c, bound)).msg)
    ensures setAutoscaling(CallOf(p, c, bound)).Ok? ==> r == Poll(poll(OperationPath(c.project, c.location, setAutoscaling(CallOf(p, c, bound)).value)))
  {
    match setAutoscaling(CallOf(p, c, bound))
    case Err(e) => CallFailed(e)
    case Ok(op) => Poll(poll(OperationPath(c.project, c.location, op)))
  }

  /** What waiting for all pools reports: a crash if any crashed, otherwise
      still waiting if any operation has not settled, otherwise the first
      error, otherwise success. */
  function Combine(outs: seq<PollOutcome>): PollOutcome
    decreases |outs|
  {
    if |outs| == 0 then Succeeded
    else
      var a, b := Combine(outs[..|outs| - 1]), outs[|outs| - 1];
      if a.Crashed? || b.Crashed? then Crashed
      else if a.StillRunning? || b.StillRunning? then StillRunning
      else if !a.Succeeded? then a
      else b
  }

  /** The phase succeeds iff every pool does; an error it reports is the
      first pool's error, and no pool before that one failed. */
  lemma {:induction false} CombineSound(outs: seq<PollOutcome>)
    ensures Combine(outs).Succeeded? <==> forall i :: 0 <= i < |outs| ==> outs[i].Succeeded?
    ensures Combine(outs).Crashed? <==> exists i :: 0 <= i < |outs| && outs[i].Crashed?
    ensures Combine(outs).OpFailed? || Combine(outs).CallFailed? ==>
              exists i :: 0 <= i < |outs| && outs[i] == Combine(outs)
                          && forall j :: 0 <= j < i ==> outs[j].Succeeded?
    decreases |outs|
  {
    if |outs| > 0 {
      var n := |outs| - 1;
      var front := outs[..n];
      CombineSound(front);
      assert forall i :: 0 <= i < n ==> front[i] == outs[i];
      if Combine(outs).OpFailed? || Combine(outs).CallFailed? {
        if !Combine(front).Succeeded? {
          var i :| 0 <= i < n && front[i] == Combine(front) && forall j :: 0 <= j < i ==> front[j].Succeeded?;
          assert outs[i] == Combine(outs);
        } else {
          assert outs[n] == Combine(outs);
        }
      }
    }
  }

  /** How each pool's resize goroutine ends, in pool order. */
  function Resizes(pools: seq<PoolSpec>, c: GkeCoordinates, bounds: seq<nat>, setAutoscaling: Resizer, poll: Poller): (r: seq<PollOutcome>)
    requires |bounds| == |pools| && forall i :: 0 <= i < |pools| ==> pools[i].autoscaling.Some?
    ensures |r| == |pools|
    ensures forall i :: 0 <= i < |pools| ==> r[i] == PoolResize(pools[i], c, bounds[i], setAutoscaling, poll)
  {
    seq(|pools|, i requires 0 <= i < |pools| => PoolResize(pools[i], c, bounds[i], setAutoscaling, poll))
  }

  /** The resize goroutines of all pools, run one after another (they hold
      one lock around the request and the wait): every pool gets its bound,
      every pool's request is sent in pool order, and the outcome combines
      the pools' outcomes. */
  method ResizePools(pools: seq<PoolSpec>, c: GkeCoordinates, req: map<string, Requested>, res: map<string, PoolResources>,
                     setAutoscaling: Resizer, poll: Poller)
    returns (bounds: seq<nat>, calls: seq<ResizeCall>, out: PollOutcome)
    requires forall i :: 0 <= i < |pools| ==> pools[i].autoscaling.Some? && pools[i].name in req && pools[i].name in res
    ensures |bounds| == |pools| && |calls| == |pools|
    ensures forall i :: 0 <= i < |pools| ==>
              bounds[i] == PoolBound(pools[i], req, res) && calls[i] == CallOf(pools[i], c, bounds[i])
    ensures out == Combine(Resizes(pools, c, bounds, setAutoscaling, poll))
  {
    bounds, calls := [], [];
    ghost var outs: seq<PollOutcome> := [];
    out := Succeeded;
    var i := 0;
    while i < |pools|
      invariant 0 <= i <= |pools|
      invariant |bounds| == i && |calls| == i && |outs| == i
      invariant forall k :: 0 <= k < i ==>
                  bounds[k] == PoolBound(pools[k], req, res) && calls[k] == CallOf(pools[k], c, bounds[k])
                  && outs[k] == PoolResize(pools[k], c, bounds[k], setAutoscaling, poll)
      invariant out == Combine(outs)
    {
      var p := pools[i];
      var bound := SizedMaxNode(req[p.name], res[p.name], p.autoscaling.value.maxNodeCount);
      var call, o := ResizePool(p, c, bound, setAutoscaling, poll);
      CombineSnoc(outs, o);
      bounds, calls, outs := bounds + [bound], calls + [call], outs + [o];
      out := if out.Crashed? || o.Crashed? then Crashed
             else if out.StillRunning? || o.StillRunning? then StillRunning
             else if !out.Succeeded? then out
             else o;
      i := i + 1;
    }
    var rs := Resizes(pools, c, bounds, setAutoscaling, poll);
    forall k | 0 <= k < |outs| ensures outs[k] == rs[k] {}
    assert outs == rs;
  }

  /** One more pool's outcome joins the combination as the loop does it. */
  lemma CombineSnoc(outs: seq<PollOutcome>, o: PollOutcome)
    ensures var a := Combine(outs);
            Combine(outs + [o]) == if a.Crashed? || o.Crashed? then Crashed
                                   else if a.StillRunning? || o.StillRunning? then StillRunning
                                   else if !a.Succeeded? then a
                                   else o
  {
    assert (outs + [o])[..|outs|] == outs;
  }

  /** One pool's resize goroutine: the request, then the wait on the
      operation it started. */
  method ResizePool(p: PoolSpec, c: GkeCoordinates, bound: nat, setAutoscaling: Resizer, poll: Poller)
    returns (call: ResizeCall, o: PollOutcome)
    requires p.autoscaling.Some?
    ensures call == CallOf(p, c, bound)
    ensures o == PoolResize(p, c, bound, setAutoscaling, poll)
  {
    call := ResizeCall(NodePoolPath(c.project, c.location, c.name, p.name), p.autoscaling.value.(maxNodeCount := bound));
    var reply := setAutoscaling(call);
    if reply.Err? {
      o := CallFailed(reply.msg);
    } else {
      o := PollOperation(poll(OperationPath(c.project, c.location, reply.value)));
    }
  }

  // ---------------------------------------------------------------- UpdatedNodePool rows

  /** A row of `updated_node_pool`. */
  datatype UpdatedNodePool = UpdatedNodePool(poolName: string, maxNode: nat, eventId: Id)

  /** The row recorded for a pool before any calculation: the pool's current
      autoscaling maximum, or 0 without autoscaling. */
  function InitialRow(p: PoolSpec, eventId: Id): (r: UpdatedNodePool)
    ensures r.poolName == p.name && r.eventId == eventId
    ensures p.autoscaling.None? ==> r.maxNode == 0
    ensures p.autoscaling.Some? ==> r.maxNode == p.autoscaling.value.maxNodeCount
  {
    UpdatedNodePool(p.name, if p.autoscaling.Some? then p.autoscaling.value.maxNodeCount else 0, eventId)
  }

  /** One row per pool, in pool order. */
  function InitialRows(pools: seq<PoolSpec>, eventId: Id): (r: seq<UpdatedNodePool>)
    ensures |r| == |pools|
    ensures forall i :: 0 <= i < |pools| ==> r[i] == InitialRow(pools[i], eventId)
  {
    seq(|pools|, i requires 0 <= i < |pools| => InitialRow(pools[i], eventId))
  }

  /** The rows after the resize phase: each pool's row carries its new bound. */
  function ResizedRows(rows: seq<UpdatedNodePool>, bounds: seq<nat>): (r: seq<UpdatedNodePool>)
    requires |rows| == |bounds|
    ensures |r| == |rows|
    ensures forall i :: 0 <= i < |rows| ==> r[i] == rows[i].(maxNode := bounds[i])
  {
    seq(|rows|, i requires 0 <= i < |rows| => rows[i].(maxNode := bounds[i]))
  }

  /** In calculation mode a pool's row never records less than the pool's
      autoscaling maximum, and records exactly the bound sent to GKE. */
  lemma ResizedRowsMatchCalls(pools: seq<PoolSpec>, eventId: Id, bounds: seq<nat>, calls: seq<ResizeCall>,
                              c: GkeCoordinates, req: map<string, Requested>, res: map<string, PoolResources>)
    requires |bounds| == |pools| && |calls| == |pools|
    requires forall i :: 0 <= i < |pools| ==> pools[i].autoscaling.Some? && pools[i].name in req && pools[i].name in res
    requires forall i :: 0 <= i < |pools| ==> bounds[i] == PoolBound(pools[i], req, res) && calls[i] == CallOf(pools[i], c, bounds[i])
    ensures forall i :: 0 <= i < |pools| ==>
              var row := ResizedRows(InitialRows(pools, eventId), bounds)[i];
              row.poolName == pools[i].name && row.maxNode >= pools[i].autoscaling.value.maxNodeCount
              && row.maxNode == calls[i].autoscaling.maxNodeCount
  {
  }
}
