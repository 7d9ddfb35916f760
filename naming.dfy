/** The string codecs of kubeEP: the GKE cluster name and its split
    (internal/usecase/gcp_cluster.go, internal/cron/gcp.go), the GCP resource
    names (internal/repository/gcp_cluster.go), the HPA cache keys
    (internal/repository/k8s_hpa.go) and the "name|namespace" key of the
    watcher (internal/cron/cron.go). */
module Naming {
  import opened Common
  import opened Strings
  import opened HpaApi

  // ---------------------------------------------------------------- cluster names

  /** The local name of a GKE cluster: `gke_<project>_<name>_<location>`. */
  function GkeClusterName(project: string, name: string, location: string): string
  {
    Join(["gke", project, name, location], '_')
  }

  datatype GkeCoordinates = GkeCoordinates(project: string, name: string, location: string)

  /** The engine's split of a cluster name on "_": project at [1], name at [2],
      location at [3]; further pieces are ignored. With fewer than four pieces
      the Go indexing panics, which is `None` here. */
  function ParseGkeClusterName(s: string): (r: Option<GkeCoordinates>)
    ensures r.Some? <==> |Split(s, '_')| >= 4
  {
    var parts := Split(s, '_');
    if |parts| < 4 then None else Some(GkeCoordinates(parts[1], parts[2], parts[3]))
  }

  /** Building a cluster name and splitting it again recovers project, name
      and location whenever none of them contains "_" (GCP project ids,
      cluster names and locations never do). */
  lemma ClusterNameRoundTrip(project: string, name: string, location: string)
    requires '_' !in project && '_' !in name && '_' !in location
    ensures ParseGkeClusterName(GkeClusterName(project, name, location)) == Some(GkeCoordinates(project, name, location))
  {
    SplitJoin(["gke", project, name, location], '_');
  }

  /** An underscore inside the cluster's own name shifts the location. */
  lemma UnderscoreInNameShiftsLocation()
    ensures ParseGkeClusterName(GkeClusterName("p", "a_b", "l")) == Some(GkeCoordinates("p", "a", "b"))
  {
    assert GkeClusterName("p", "a_b", "l") == "gke_p_a_b_l";
    assert Join(["gke", "p", "a", "b", "l"], '_') == "gke_p_a_b_l";
    SplitJoin(["gke", "p", "a", "b", "l"], '_');
  }

  // ---------------------------------------------------------------- GCP resource names

  /** Parent of the cluster listing, `projects/<project>/locations/-`: every
      location of the project. */
  function ClustersParent(project: string): string
  {
    Join(["projects", project, "locations", "-"], '/')
  }

  /** The name `GetCluster` sends, `projects/<p>/locations/<l>/cluster/<c>`,
      with the singular "cluster" collection. */
  function ClusterPathAsWritten(project: string, location: string, cluster: string): string
  {
    Join(["projects", project, "locations", location, "cluster", cluster], '/')
  }

  /** `projects/<p>/locations/<l>/clusters/<c>`: the cluster name in the form
      the node-pool name of the same file uses. */
  function ClusterPath(project: string, location: string, cluster: string): string
  {
    Join(["projects", project, "locations", location, "clusters", cluster], '/')
  }

  /** The name `SetNodePoolAutoscaling` sends,
      `projects/<p>/locations/<l>/clusters/<c>/nodePools/<n>`. */
  function NodePoolPath(project: string, location: string, cluster: string, pool: string): string
  {
    Join(["projects", project, "locations", location, "clusters", cluster, "nodePools", pool], '/')
  }

  /** The name `GetOperation` sends, `projects/<p>/locations/<l>/operations/<o>`. */
  function OperationPath(project: string, location: string, operation: string): string
  {
    Join(["projects", project, "locations", location, "operations", operation], '/')
  }

  /** A path segment: no "/" inside (project ids, locations, cluster, pool
      and operation names never contain one). */
  predicate Segment(s: string) { '/' !in s }

  /** Appending a piece to a join appends the separator and the piece. */
  lemma {:induction false} JoinAppend(parts: seq<string>, x: string, sep: char)
    requires |parts| >= 1
    ensures Join(parts + [x], sep) == Join(parts, sep) + [sep] + x
    decreases |parts|
  {
    if |parts| == 1 {
      assert (parts + [x])[1..] == [x];
    } else {
      assert (parts + [x])[1..] == parts[1..] + [x];
      JoinAppend(parts[1..], x, sep);
    }
  }

  lemma ClustersParentSegments(project: string)
    requires Segment(project)
    ensures Split(ClustersParent(project), '/') == ["projects", project, "locations", "-"]
  {
    SplitJoin(["projects", project, "locations", "-"], '/');
  }

  /** The node-pool name splits on "/" into its eight segments. */
  lemma NodePoolPathSegments(project: string, location: string, cluster: string, pool: string)
    requires Segment(project) && Segment(location) && Segment(cluster) && Segment(pool)
    ensures Split(NodePoolPath(project, location, cluster, pool), '/')
            == ["projects", project, "locations", location, "clusters", cluster, "nodePools", pool]
  {
    SplitJoin(["projects", project, "locations", location, "clusters", cluster, "nodePools", pool], '/');
  }

  /** Distinct project/location/cluster/pool quadruples give distinct node-pool names. */
  lemma NodePoolPathInjective(p: string, l: string, c: string, n: string, p': string, l': string, c': string, n': string)
    requires Segment(p) && Segment(l) && Segment(c) && Segment(n)
    requires Segment(p') && Segment(l') && Segment(c') && Segment(n')
    requires NodePoolPath(p, l, c, n) == NodePoolPath(p', l', c', n')
    ensures p == p' && l == l' && c == c' && n == n'
  {
    NodePoolPathSegments(p, l, c, n);
    NodePoolPathSegments(p', l', c', n');
  }

  lemma OperationPathSegments(project: string, location: string, operation: string)
    requires Segment(project) && Segment(location) && Segment(operation)
    ensures Split(OperationPath(project, location, operation), '/')
            == ["projects", project, "locations", location, "operations", operation]
  {
    SplitJoin(["projects", project, "locations", location, "operations", operation], '/');
  }

  /** The corrected cluster name is the parent of the node-pool names the
      resize uses, and it splits into the six segments of a cluster name. */
  lemma ClusterPathIsNodePoolParent(project: string, location: string, cluster: string, pool: string)
    requires Segment(project) && Segment(location) && Segment(cluster)
    ensures NodePoolPath(project, location, cluster, pool) == ClusterPath(project, location, cluster) + "/nodePools/" + pool
    ensures Split(ClusterPath(project, location, cluster), '/') == ["projects", project, "locations", location, "clusters", cluster]
  {
    var parts := ["projects", project, "locations", location, "clusters", cluster];
    SplitJoin(parts, '/');
    JoinAppend(parts, "nodePools", '/');
    JoinAppend(parts + ["nodePools"], pool, '/');
    assert parts + ["nodePools"] + [pool] == ["projects", project, "locations", location, "clusters", cluster, "nodePools", pool];
    assert Join(parts, '/') + "/nodePools/" + pool == Join(parts, '/') + ['/'] + "nodePools" + ['/'] + pool;
  }

  /** As written, `GetCluster`'s name never equals a cluster name of the
      "clusters" collection, and extending it by a node pool never gives that
      cluster's node-pool name. */
  lemma ClusterPathAsWrittenMisnamed(project: string, location: string, cluster: string, pool: string)
    requires Segment(project) && Segment(location) && Segment(cluster) && Segment(pool)
    ensures ClusterPathAsWritten(project, location, cluster) != ClusterPath(project, location, cluster)
    ensures ClusterPathAsWritten(project, location, cluster) + "/nodePools/" + pool != NodePoolPath(project, location, cluster, pool)
  {
    var w := ["projects", project, "locations", location, "cluster", cluster];
    var c := ["projects", project, "locations", location, "clusters", cluster];
    SplitJoin(w, '/');
    SplitJoin(c, '/');
    JoinAppend(w, "nodePools", '/');
    JoinAppend(w + ["nodePools"], pool, '/');
    SplitJoin(w + ["nodePools"] + [pool], '/');
    assert Join(w, '/') + "/nodePools/" + pool == Join(w, '/') + ['/'] + "nodePools" + ['/'] + pool;
    NodePoolPathSegments(project, location, cluster, pool);
    assert (w + ["nodePools"] + [pool])[4] == "cluster";
  }

  // ---------------------------------------------------------------- HPA cache keys

  /** Prefix of the list key of each HPA version. */
  function ListKeyPrefix(v: HpaVersion): string
  {
    match v
    case AutoscalingV1 => "hpa_v1_list_cluster_"
    case AutoscalingV2Beta2 => "hpa_v2_beta_2_list_cluster_"
    case AutoscalingV2Beta1 => "hpa_v2_beta_1_list_cluster_"
  }

  /** Prefix of the single-object key of each HPA version. */
  function ObjectKeyPrefix(v: HpaVersion): string
  {
    match v
    case AutoscalingV1 => "hpa_v1_cluster_"
    case AutoscalingV2Beta1 => "hpa_v2beta1_cluster_"
    case AutoscalingV2Beta2 => "hpa_v2beta2_cluster_"
  }

  /** `hpa_<version>_list_cluster_<cluster id>_ns_<namespace>`: the key of an
      HPA listing, also the key an update writes to. */
  function ListKey(v: HpaVersion, clusterId: string, namespace: string): string
  {
    ListKeyPrefix(v) + clusterId + "_ns_" + namespace
  }

  /** `hpa_<version>_cluster_<cluster id>_ns_<namespace>_name_<name>`. */
  function ObjectKey(v: HpaVersion, clusterId: string, namespace: string, name: string): string
  {
    ObjectKeyPrefix(v) + clusterId + "_ns_" + namespace + "_name_" + name
  }

  /** Two strings whose prefixes disagree at a position both cover differ. */
  lemma PrefixesClash(a: string, x: string, b: string, y: string, i: nat)
    requires i < |a| && i < |b| && a[i] != b[i]
    ensures a + x != b + y
  {
    assert (a + x)[i] == a[i];
    assert (b + y)[i] == b[i];
  }

  /** The six key families never share a key: the version and the kind of
      key are decided by the prefix alone. */
  lemma KeyFamiliesDisjoint(v: HpaVersion, w: HpaVersion, id: string, id': string,
                            ns: string, ns': string, name: string)
    ensures ListKey(v, id, ns) != ObjectKey(w, id', ns', name)
    ensures v != w ==> ListKey(v, id, ns) != ListKey(w, id', ns')
    ensures v != w ==> ObjectKey(v, id, ns, name) != ObjectKey(w, id', ns', name)
  {
    ListAndObjectKeysDiffer(v, w, id, id', ns, ns', name);
    if v != w {
      ListKeysOfVersionsDiffer(v, w, id, id', ns, ns');
      ObjectKeysOfVersionsDiffer(v, w, id, id', ns, ns', name);
    }
  }

  /** A list key is never a single-object key. */
  lemma ListAndObjectKeysDiffer(v: HpaVersion, w: HpaVersion, id: string, id': string,
                                ns: string, ns': string, name: string)
    ensures ListKey(v, id, ns) != ObjectKey(w, id', ns', name)
  {
    var lv, ow := ListKeyPrefix(v), ObjectKeyPrefix(w);
    assert ListKey(v, id, ns) == lv + (id + "_ns_" + ns);
    assert ObjectKey(w, id', ns', name) == ow + (id' + "_ns_" + ns' + "_name_" + name);
    var j := if w != AutoscalingV1 then 6 else if v == AutoscalingV1 then 7 else 5;
    PrefixesClash(lv, id + "_ns_" + ns, ow, id' + "_ns_" + ns' + "_name_" + name, j);
  }

  /** List keys of two versions differ. */
  lemma ListKeysOfVersionsDiffer(v: HpaVersion, w: HpaVersion, id: string, id': string, ns: string, ns': string)
    requires v != w
    ensures ListKey(v, id, ns) != ListKey(w, id', ns')
  {
    var lv, lw := ListKeyPrefix(v), ListKeyPrefix(w);
    assert ListKey(v, id, ns) == lv + (id + "_ns_" + ns);
    assert ListKey(w, id', ns') == lw + (id' + "_ns_" + ns');
    var j := if v == AutoscalingV1 || w == AutoscalingV1 then 5 else 12;
    PrefixesClash(lv, id + "_ns_" + ns, lw, id' + "_ns_" + ns', j);
  }

  /** Single-object keys of two versions differ. */
  lemma ObjectKeysOfVersionsDiffer(v: HpaVersion, w: HpaVersion, id: string, id': string,
                                   ns: string, ns': string, name: string)
    requires v != w
    ensures ObjectKey(v, id, ns, name) != ObjectKey(w, id', ns', name)
  {
    var ov, ow := ObjectKeyPrefix(v), ObjectKeyPrefix(w);
    assert ObjectKey(v, id, ns, name) == ov + (id + "_ns_" + ns + "_name_" + name);
    assert ObjectKey(w, id', ns', name) == ow + (id' + "_ns_" + ns' + "_name_" + name);
    var j := if v == AutoscalingV1 || w == AutoscalingV1 then 5 else 10;
    PrefixesClash(ov, id + "_ns_" + ns + "_name_" + name, ow, id' + "_ns_" + ns' + "_name_" + name, j);
  }

  /** Cluster ids print as 36-character UUID text, so within one family the
      list key determines cluster and namespace. */
  lemma ListKeyInjective(v: HpaVersion, id: string, id': string, ns: string, ns': string)
    requires |id| == |id'|
    requires ListKey(v, id, ns) == ListKey(v, id', ns')
    ensures id == id' && ns == ns'
  {
    var p := ListKeyPrefix(v);
    var k := ListKey(v, id, ns);
    assert k == p + id + "_ns_" + ns;
    assert k == p + id' + "_ns_" + ns';
    assert id == k[|p|..|p| + |id|];
    assert id' == k[|p|..|p| + |id'|];
    assert ns == k[|p| + |id| + 4..];
    assert ns' == k[|p| + |id'| + 4..];
  }

  // ---------------------------------------------------------------- "name|namespace"

  /** `fmt.Sprintf("%s|%s", name, namespace)`. */
  function NameNsKey(name: string, namespace: string): string
  {
    name + "|" + namespace
  }

  /** The watcher's split of a key on "|": name at [0], namespace at [1]. A
      key without "|" makes the Go indexing panic, which is `None` here. */
  function SplitNameNsKey(key: string): (r: Option<NameNs>)
    ensures r.Some? <==> |Split(key, '|')| >= 2
  {
    var parts := Split(key, '|');
    if |parts| < 2 then None else Some(NameNs(parts[0], parts[1]))
  }

  /** Splitting a built key recovers name and namespace when neither
      contains "|" (Kubernetes names never do). */
  lemma NameNsKeyRoundTrip(name: string, namespace: string)
    requires '|' !in name && '|' !in namespace
    ensures SplitNameNsKey(NameNsKey(name, namespace)) == Some(NameNs(name, namespace))
  {
    SplitAtFirstSeparator(name, '|', namespace);
    SplitWithoutSeparator(namespace, '|');
  }
}
