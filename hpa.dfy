/** internal/usecase/cluster.go: the HPA side of a cluster. Picks the newest
    autoscaling API version, lists HPAs of that version namespace by namespace,
    writes modified HPAs back, and resolves an HPA's scale target to the
    Deployment it scales. */
module HpaApi {
  import opened Common
  import opened Capacity

  /** The HPA API versions the program can talk to. */
  datatype HpaVersion = AutoscalingV1 | AutoscalingV2Beta1 | AutoscalingV2Beta2

  function VersionName(v: HpaVersion): string
  {
    match v
    case AutoscalingV1 => "autoscaling/v1"
    case AutoscalingV2Beta1 => "autoscaling/v2beta1"
    case AutoscalingV2Beta2 => "autoscaling/v2beta2"
  }

  /** The version switch of the listing functions: any other text, including
      "autoscaling/v2", is an unknown version. */
  function ParseVersion(s: string): (r: Option<HpaVersion>)
    ensures r.Some? ==> VersionName(r.value) == s
  {
    if s == "autoscaling/v1" then Some(AutoscalingV1)
    else if s == "autoscaling/v2beta1" then Some(AutoscalingV2Beta1)
    else if s == "autoscaling/v2beta2" then Some(AutoscalingV2Beta2)
    else None
  }

  lemma VersionNameRoundTrip(v: HpaVersion)
    ensures ParseVersion(VersionName(v)) == Some(v)
  {
  }

  /** "autoscaling/v2", the newest version a cluster may advertise, is not one
      the program handles. */
  lemma AutoscalingV2IsUnknown()
    ensures ParseVersion("autoscaling/v2") == None
  {
    assert "autoscaling/v2"[13] == '2' && "autoscaling/v1"[13] == '1';
  }

  /** `CrossVersionObjectReference`. */
  datatype CrossVersionRef = CrossVersionRef(apiVersion: string, kind: string, name: string)

  /** A scale-target reference as the resolvers receive it: one of the three
      typed references, or a value of some other type. */
  datatype ScaleTargetRef = TypedRef(version: HpaVersion, ref: CrossVersionRef) | UntypedRef

  /** An HPA object of some version; `otherFields` stands for everything the
      program never reads or changes. */
  datatype Hpa = Hpa(
    version: HpaVersion, name: string, namespace: string, resourceVersion: string,
    minReplicas: Option<int>, maxReplicas: nat, currentReplicas: int,
    targetRef: CrossVersionRef, otherFields: map<string, string>)

  function TargetOf(h: Hpa): ScaleTargetRef { TypedRef(h.version, h.targetRef) }

  /** An element of an `[]interface{}` holding HPAs. */
  datatype ApiObject = HpaObject(hpa: Hpa) | OtherObject

  /** K8sHPAObjectData: an object tagged with the version it was listed with. */
  datatype HpaObjectData = HpaObjectData(version: string, obj: ApiObject)

  /** SimpleHPAData. */
  datatype SimpleHpaData = SimpleHpaData(
    name: string, namespace: string, minReplicas: Option<int>, maxReplicas: nat,
    currentReplicas: int, targetName: string, targetKind: string)

  datatype DeploymentStatus = DeploymentStatus(replicas: int, availableReplicas: int, readyReplicas: int, unavailableReplicas: int)

  datatype Deployment = Deployment(
    name: string, namespace: string, replicas: Option<nat>, spec: PodSpec, status: DeploymentStatus)

  function DeploymentKey(d: Deployment): NameNs { NameNs(d.name, d.namespace) }

  /** One API group of the discovery reply, with its versions' GroupVersion texts. */
  datatype ApiGroup = ApiGroup(name: string, versions: seq<string>)

  /** The group the discovery loop settles on: the first one named "autoscaling". */
  function FirstAutoscalingGroup(groups: seq<ApiGroup>): (r: Option<nat>)
    ensures r.Some? ==> r.value < |groups| && groups[r.value].name == "autoscaling"
                        && forall j :: 0 <= j < r.value ==> groups[j].name != "autoscaling"
    ensures r.None? ==> forall j :: 0 <= j < |groups| ==> groups[j].name != "autoscaling"
    decreases |groups|
  {
    if |groups| == 0 then None
    else if groups[0].name == "autoscaling" then Some(0)
    else match FirstAutoscalingGroup(groups[1..])
      case None => None
      case Some(k) => Some(k + 1)
  }

  /** Whether the discovery reply has an "autoscaling" group listing at least
      one version: the source indexes that group's last version without
      checking either. */
  predicate HasAutoscalingVersion(groups: seq<ApiGroup>)
  {
    FirstAutoscalingGroup(groups).Some? && |groups[FirstAutoscalingGroup(groups).value].versions| > 0
  }

  /** What `GetLatestHPAAPIVersion` comes to: the version text, the discovery
      error, or the panic of indexing `Versions[-1]` when the zero group (no
      "autoscaling" group) or a group without versions is indexed. */
  datatype LatestVersion = Latest(version: string) | DiscoveryFailed(msg: string) | VersionIndexPanic

  /** `GetLatestHPAAPIVersion`: the last version of the first "autoscaling"
      group, panicking exactly when there is no such version to index. */
  method GetLatestHpaApiVersion(discovery: Result<seq<ApiGroup>>) returns (r: LatestVersion)
    ensures discovery.Err? ==> r == DiscoveryFailed(discovery.msg)
    ensures discovery.Ok? ==> (r.VersionIndexPanic? <==> !HasAutoscalingVersion(discovery.value))
    ensures discovery.Ok? && HasAutoscalingVersion(discovery.value) ==>
      exists k :: 0 <= k < |discovery.value| && discovery.value[k].name == "autoscaling"
        && (forall j :: 0 <= j < k ==> discovery.value[j].name != "autoscaling")
        && |discovery.value[k].versions| > 0
        && r == Latest(discovery.value[k].versions[|discovery.value[k].versions| - 1])
  {
    if discovery.Err? {
      return DiscoveryFailed(discovery.msg);
    }
    var groups := discovery.value;
    var i := 0;
    while i < |groups|
      invariant 0 <= i <= |groups|
      invariant forall j :: 0 <= j < i ==> groups[j].name != "autoscaling"
    {
      if groups[i].name == "autoscaling" {
        break;
      }
      i := i + 1;
    }
    if i == |groups| {
      return VersionIndexPanic;
    }
    assert FirstAutoscalingGroup(groups) == Some(i);
    var versions := groups[i].versions;
    if |versions| == 0 {
      return VersionIndexPanic;
    }
    r := Latest(versions[|versions| - 1]);
  }

  // ---- listing ----

  /** What the HPA repository answers when asked for one namespace's HPAs of a version. */
  type ListReplies = (HpaVersion, string) -> Result<seq<Hpa>>

  function SimpleOf(h: Hpa, namespace: string): SimpleHpaData
  {
    SimpleHpaData(h.name, namespace, h.minReplicas, h.maxReplicas, h.currentReplicas,
                  h.targetRef.name, h.targetRef.kind)
  }

  function SimpleAll(hs: seq<Hpa>, namespace: string): (r: seq<SimpleHpaData>)
    ensures |r| == |hs|
    ensures forall j :: 0 <= j < |hs| ==> r[j] == SimpleOf(hs[j], namespace)
    decreases |hs|
  {
    if |hs| == 0 then [] else [SimpleOf(hs[0], namespace)] + SimpleAll(hs[1..], namespace)
  }

  /** The first `n` namespaces listed and flattened, the first failure (in
      namespace order) winning. */
  function CollectSimple(version: string, namespaces: seq<string>, replies: ListReplies): Result<seq<SimpleHpaData>>
    decreases |namespaces|
  {
    if |namespaces| == 0 then Ok([])
    else
      var before := CollectSimple(version, namespaces[..|namespaces| - 1], replies);
      var ns := namespaces[|namespaces| - 1];
      if before.Err? then before
      else match ParseVersion(version)
        case None => Err(HpaVersionUnknown)
        case Some(v) =>
          match replies(v, ns)
          case Err(e) => Err(e)
          case Ok(hs) => Ok(before.value + SimpleAll(hs, ns))
  }

  /** `GetAllHPAInCluster`. */
  method GetAllHpaInCluster(version: string, namespaces: Result<seq<string>>, replies: ListReplies)
    returns (r: Result<seq<SimpleHpaData>>)
    ensures namespaces.Err? ==> r == Err(namespaces.msg)
    ensures namespaces.Ok? ==> r == CollectSimple(version, namespaces.value, replies)
  {
    if namespaces.Err? {
      return Err(namespaces.msg);
    }
    var nss := namespaces.value;
    var output: seq<SimpleHpaData> := [];
    var i := 0;
    while i < |nss|
      invariant 0 <= i <= |nss|
      invariant CollectSimple(version, nss[..i], replies) == Ok(output)
    {
      assert nss[..i + 1][..i] == nss[..i];
      var v := ParseVersion(version);
      if v.None? {
        CollectErrorPersists(version, nss, i + 1, replies);
        return Err(HpaVersionUnknown);
      }
      var reply := replies(v.value, nss[i]);
      if reply.Err? {
        CollectErrorPersists(version, nss, i + 1, replies);
        return Err(reply.msg);
      }
      output := output + SimpleAll(reply.value, nss[i]);
      i := i + 1;
    }
    assert nss[..|nss|] == nss;
    r := Ok(output);
  }

  lemma {:induction false} CollectErrorPersists(version: string, nss: seq<string>, k: nat, replies: ListReplies)
    requires k <= |nss|
    requires CollectSimple(version, nss[..k], replies).Err?
    ensures CollectSimple(version, nss, replies) == CollectSimple(version, nss[..k], replies)
    decreases |nss| - k
  {
    if k < |nss| {
      assert nss[..k + 1][..k] == nss[..k];
      CollectErrorPersists(version, nss, k + 1, replies);
    } else {
      assert nss[..k] == nss;
    }
  }

  /** An unsupported version fails as soon as there is a namespace to list,
      and yields an empty list when there is none. */
  lemma {:induction false} UnknownVersionFails(version: string, nss: seq<string>, replies: ListReplies)
    requires ParseVersion(version).None?
    ensures |nss| > 0 ==> CollectSimple(version, nss, replies) == Err(HpaVersionUnknown)
    ensures |nss| == 0 ==> CollectSimple(version, nss, replies) == Ok([])
    decreases |nss|
  {
    if |nss| > 1 {
      UnknownVersionFails(version, nss[..|nss| - 1], replies);
    }
  }

  /** Each listed entry carries the namespace it was listed under and the
      HPA's own replica counts and target, and the entries of an earlier
      namespace come before those of a later one. */
  lemma {:induction false} CollectSimpleEntries(version: string, nss: seq<string>, replies: ListReplies)
    requires CollectSimple(version, nss, replies).Ok?
    ensures ParseVersion(version).Some? || |nss| == 0
    ensures forall k :: 0 <= k < |CollectSimple(version, nss, replies).value| ==>
              exists i, j :: 0 <= i < |nss| && replies(ParseVersion(version).value, nss[i]).Ok?
                && 0 <= j < |replies(ParseVersion(version).value, nss[i]).value|
                && CollectSimple(version, nss, replies).value[k]
                   == SimpleOf(replies(ParseVersion(version).value, nss[i]).value[j], nss[i])
    decreases |nss|
  {
    if |nss| > 0 {
      var front := nss[..|nss| - 1];
      CollectSimpleEntries(version, front, replies);
      var v := ParseVersion(version).value;
      var before := CollectSimple(version, front, replies).value;
      var last := nss[|nss| - 1];
      var hs := replies(v, last).value;
      var out := CollectSimple(version, nss, replies).value;
      assert out == before + SimpleAll(hs, last);
      forall k | 0 <= k < |out|
        ensures exists i, j ::
                  0 <= i < |nss| && replies(v, nss[i]).Ok? && 0 <= j < |replies(v, nss[i]).value|
                  && out[k] == SimpleOf(replies(v, nss[i]).value[j], nss[i])
      {
        if k < |before| {
          var i, j :| 0 <= i < |front| && replies(v, front[i]).Ok?
                && 0 <= j < |replies(v, front[i]).value|
                && before[k] == SimpleOf(replies(v, front[i]).value[j], front[i]);
          assert nss[i] == front[i];
        } else {
          assert out[k] == SimpleOf(hs[k - |before|], last);
          assert nss[|nss| - 1] == last;
        }
      }
    }
  }

  /** The objects a version's repository returns are of that version's type. */
  function TagAll(hs: seq<Hpa>, v: HpaVersion): (r: seq<HpaObjectData>)
    ensures |r| == |hs|
    ensures forall j :: 0 <= j < |hs| ==> r[j] == HpaObjectData(VersionName(v), HpaObject(hs[j].(version := v)))
    decreases |hs|
  {
    if |hs| == 0 then []
    else [HpaObjectData(VersionName(v), HpaObject(hs[0].(version := v)))] + TagAll(hs[1..], v)
  }

  /** The raw objects of the first namespaces, each tagged with the version used. */
  function CollectObjects(version: string, namespaces: seq<string>, replies: ListReplies): (r: Result<seq<HpaObjectData>>)
    ensures r.Ok? ==> forall k :: 0 <= k < |r.value| ==>
              r.value[k].version == version && r.value[k].obj.HpaObject?
              && VersionName(r.value[k].obj.hpa.version) == version
    decreases |namespaces|
  {
    if |namespaces| == 0 then Ok([])
    else
      var before := CollectObjects(version, namespaces[..|namespaces| - 1], replies);
      var ns := namespaces[|namespaces| - 1];
      if before.Err? then before
      else match ParseVersion(version)
        case None => Err(HpaVersionUnknown)
        case Some(v) =>
          match replies(v, ns)
          case Err(e) => Err(e)
          case Ok(hs) => Ok(before.value + TagAll(hs, v))
  }

  /** `GetAllK8sHPAObjectInCluster`. */
  method GetAllK8sHpaObjectInCluster(version: string, namespaces: Result<seq<string>>, replies: ListReplies)
    returns (r: Result<seq<HpaObjectData>>)
    ensures namespaces.Err? ==> r == Err(namespaces.msg)
    ensures namespaces.Ok? ==> r == CollectObjects(version, namespaces.value, replies)
  {
    if namespaces.Err? {
      return Err(namespaces.msg);
    }
    var nss := namespaces.value;
    var output: seq<HpaObjectData> := [];
    var i := 0;
    while i < |nss|
      invariant 0 <= i <= |nss|
      invariant CollectObjects(version, nss[..i], replies) == Ok(output)
    {
      assert nss[..i + 1][..i] == nss[..i];
      var v := ParseVersion(version);
      if v.None? {
        CollectObjectsErrorPersists(version, nss, i + 1, replies);
        return Err(HpaVersionUnknown);
      }
      var reply := replies(v.value, nss[i]);
      if reply.Err? {
        CollectObjectsErrorPersists(version, nss, i + 1, replies);
        return Err(reply.msg);
      }
      output := output + TagAll(reply.value, v.value);
      i := i + 1;
    }
    assert nss[..|nss|] == nss;
    r := Ok(output);
  }

  lemma {:induction false} CollectObjectsErrorPersists(version: string, nss: seq<string>, k: nat, replies: ListReplies)
    requires k <= |nss|
    requires CollectObjects(version, nss[..k], replies).Err?
    ensures CollectObjects(version, nss, replies) == CollectObjects(version, nss[..k], replies)
    decreases |nss| - k
  {
    if k < |nss| {
      assert nss[..k + 1][..k] == nss[..k];
      CollectObjectsErrorPersists(version, nss, k + 1, replies);
    } else {
      assert nss[..k] == nss;
    }
  }

  // ---- writing back ----

  /** What the repository answers to an update of one HPA: nothing or an error. */
  type UpdateReplies = Hpa -> Option<string>

  /** The object actually sent: the same HPA with its resource version cleared. */
  function Unversioned(h: Hpa): (r: Hpa)
    ensures r.resourceVersion == ""
    ensures r.(resourceVersion := h.resourceVersion) == h
  {
    h.(resourceVersion := "")
  }

  /** The outcome of writing one object: its write, if any, and its error, if any. */
  function WriteOne(o: ApiObject, replies: UpdateReplies): (seq<Hpa>, Option<string>)
  {
    match o
    case OtherObject => ([], Some("unknown type"))
    case HpaObject(h) => ([Unversioned(h)], replies(Unversioned(h)))
  }

  /** All writes of a batch, in order, and the first error among them. */
  function WriteBatch(objects: seq<ApiObject>, replies: UpdateReplies): (r: (seq<Hpa>, Option<string>))
    ensures forall j :: 0 <= j < |r.0| ==> r.0[j].resourceVersion == ""
    ensures r.1.None? <==> forall k :: 0 <= k < |objects| ==> WriteOne(objects[k], replies).1.None?
    decreases |objects|
  {
    if |objects| == 0 then ([], None)
    else
      var front := WriteBatch(objects[..|objects| - 1], replies);
      var last := WriteOne(objects[|objects| - 1], replies);
      assert forall k :: 0 <= k < |objects| - 1 ==> objects[..|objects| - 1][k] == objects[k];
      (front.0 + last.0, if front.1.Some? then front.1 else last.1)
  }

  /** `UpdateHPAK8sObjectBatch`: every HPA of the batch is written (a failure
      does not stop the others), with `ResourceVersion` cleared; the first
      error is reported. */
  method UpdateHpaK8sObjectBatch(objects: seq<ApiObject>, replies: UpdateReplies)
    returns (written: seq<Hpa>, err: Option<string>)
    ensures (written, err) == WriteBatch(objects, replies)
  {
    written, err := [], None;
    var i := 0;
    while i < |objects|
      invariant 0 <= i <= |objects|
      invariant (written, err) == WriteBatch(objects[..i], replies)
    {
      assert objects[..i + 1][..i] == objects[..i];
      var one := WriteOne(objects[i], replies);
      written := written + one.0;
      if err.None? {
        err := one.1;
      }
      i := i + 1;
    }
    assert objects[..|objects|] == objects;
  }

  /** A batch of HPAs only is written in full, in order, each with its
      resource version cleared and nothing else changed. */
  lemma {:induction false} BatchWritesEveryHpa(hs: seq<Hpa>, replies: UpdateReplies)
    ensures var objects := seq(|hs|, k requires 0 <= k < |hs| => HpaObject(hs[k]));
            |WriteBatch(objects, replies).0| == |hs|
            && forall k :: 0 <= k < |hs| ==> WriteBatch(objects, replies).0[k] == Unversioned(hs[k])
    decreases |hs|
  {
    var objects := seq(|hs|, k requires 0 <= k < |hs| => HpaObject(hs[k]));
    if |hs| > 0 {
      var front := hs[..|hs| - 1];
      BatchWritesEveryHpa(front, replies);
      var frontObjects := seq(|front|, k requires 0 <= k < |front| => HpaObject(front[k]));
      assert objects[..|objects| - 1] == frontObjects;
    }
  }

  /** A non-HPA element makes the batch fail with "unknown type" unless an
      earlier element failed first. */
  lemma NonHpaFailsBatch(objects: seq<ApiObject>, replies: UpdateReplies, k: nat)
    requires k < |objects| && objects[k].OtherObject?
    ensures WriteBatch(objects, replies).1.Some?
  {
    assert WriteOne(objects[k], replies).1 == Some("unknown type");
  }

  // ---- scale-target resolution ----

  /** The gate both resolvers apply: a typed reference to an apps/v1
      Deployment yields the Deployment's name. */
  function TargetGate(ref: ScaleTargetRef): (r: Result<string>)
    ensures r.Ok? <==> ref.TypedRef? && ref.ref.apiVersion == AppsV1 && ref.ref.kind == DeploymentKind
    ensures r.Ok? ==> r.value == ref.ref.name
    ensures ref.UntypedRef? ==> r == Err(HpaVersionUnknown)
    ensures ref.TypedRef? && !r.Ok? ==> r == Err(TargetRefResolveError)
  {
    match ref
    case UntypedRef => Err(HpaVersionUnknown)
    case TypedRef(_, cref) =>
      if cref.apiVersion != AppsV1 then Err(TargetRefResolveError)
      else if cref.kind != DeploymentKind then Err(TargetRefResolveError)
      else Ok(cref.name)
  }

  /** What `ResolveScaleTargetRefByDeploymentsMap` returns for a map. */
  function ResolveInMap(ref: ScaleTargetRef, namespace: string, m: map<NameNs, Deployment>): (r: Result<Deployment>)
    ensures r.Ok? <==> TargetGate(ref).Ok? && NameNs(TargetGate(ref).value, namespace) in m
    ensures r.Ok? ==> r.value == m[NameNs(TargetGate(ref).value, namespace)]
    ensures TargetGate(ref).Err? ==> r == Err(TargetGate(ref).msg)
    ensures TargetGate(ref).Ok? && NameNs(TargetGate(ref).value, namespace) !in m ==> r == Err(DeploymentNotFound)
  {
    match TargetGate(ref)
    case Err(e) => Err(e)
    case Ok(name) =>
      if NameNs(name, namespace) in m then Ok(m[NameNs(name, namespace)]) else Err(DeploymentNotFound)
  }

  /** The listed Deployments by name and namespace, a later one with the same
      key replacing an earlier one. */
  function DeploymentMap(deployments: seq<Deployment>): (m: map<NameNs, Deployment>)
    decreases |deployments|
  {
    if |deployments| == 0 then map[]
    else
      var n := |deployments| - 1;
      DeploymentMap(deployments[..n])[DeploymentKey(deployments[n]) := deployments[n]]
  }

  /** Every listed Deployment has an entry under its own key, and every entry
      is a listed Deployment stored under its own key. */
  lemma {:induction false} DeploymentMapKeys(deployments: seq<Deployment>)
    ensures forall d :: d in deployments ==> DeploymentKey(d) in DeploymentMap(deployments)
    ensures forall k :: k in DeploymentMap(deployments) ==>
              DeploymentMap(deployments)[k] in deployments && DeploymentKey(DeploymentMap(deployments)[k]) == k
    decreases |deployments|
  {
    if |deployments| > 0 {
      var n := |deployments| - 1;
      DeploymentMapKeys(deployments[..n]);
      assert deployments == deployments[..n] + [deployments[n]];
    }
  }

  /** A Deployment no later one shares a key with is the entry under its key. */
  lemma {:induction false} DeploymentMapKeepsLast(deployments: seq<Deployment>, k: nat)
    requires k < |deployments|
    requires forall j :: k < j < |deployments| ==> DeploymentKey(deployments[j]) != DeploymentKey(deployments[k])
    ensures DeploymentKey(deployments[k]) in DeploymentMap(deployments)
    ensures DeploymentMap(deployments)[DeploymentKey(deployments[k])] == deployments[k]
    decreases |deployments|
  {
    var n := |deployments| - 1;
    if k < n {
      var front := deployments[..n];
      assert front[k] == deployments[k];
      DeploymentMapKeepsLast(front, k);
    }
  }

  /** The deployments map the engine builds and consumes, keyed by name and namespace. */
  class DeploymentIndex {
    var byKey: map<NameNs, Deployment>

    constructor (deployments: seq<Deployment>)
      ensures byKey == DeploymentMap(deployments)
    {
      var m: map<NameNs, Deployment> := map[];
      var i := 0;
      while i < |deployments|
        invariant 0 <= i <= |deployments|
        invariant m == DeploymentMap(deployments[..i])
      {
        assert deployments[..i + 1][..i] == deployments[..i];
        m := m[DeploymentKey(deployments[i]) := deployments[i]];
        i := i + 1;
      }
      assert deployments[..|deployments|] == deployments;
      byKey := m;
    }

    /** `ResolveScaleTargetRefByDeploymentsMap(ref, namespace, m, deleteKey...)`:
        the entry found is removed whenever the variadic flag list is
        non-empty, whatever the flags say. */
    method Resolve(ref: ScaleTargetRef, namespace: string, deleteKey: seq<bool>) returns (r: Result<Deployment>)
      modifies this
      ensures r == ResolveInMap(ref, namespace, old(byKey))
      ensures byKey == if r.Ok? && |deleteKey| > 0
                       then old(byKey) - {NameNs(TargetGate(ref).value, namespace)}
                       else old(byKey)
    {
      r := ResolveInMap(ref, namespace, byKey);
      if r.Ok? && |deleteKey| > 0 {
        byKey := byKey - {NameNs(TargetGate(ref).value, namespace)};
      }
    }
  }

  /** What the API answers to a Deployment fetch by namespace and name. */
  type DeploymentFetch = (string, string) -> Result<Deployment>

  /** `ResolveScaleTargetRef`: the same gate, then a fetch of the named
      Deployment in the given namespace. */
  function ResolveScaleTargetRef(ref: ScaleTargetRef, namespace: string, fetch: DeploymentFetch): (r: Result<Deployment>)
    ensures TargetGate(ref).Ok? ==> r == fetch(namespace, TargetGate(ref).value)
    ensures TargetGate(ref).Err? ==> r == Err(TargetGate(ref).msg)
  {
    match TargetGate(ref)
    case Err(e) => Err(e)
    case Ok(name) => fetch(namespace, name)
  }

  /** Both resolvers reject exactly the same references with the same error. */
  lemma SameGate(ref: ScaleTargetRef, namespace: string, m: map<NameNs, Deployment>, fetch: DeploymentFetch)
    requires TargetGate(ref).Err?
    ensures ResolveScaleTargetRef(ref, namespace, fetch) == ResolveInMap(ref, namespace, m)
    ensures ResolveInMap(ref, namespace, m).Err?
  {
  }
}
