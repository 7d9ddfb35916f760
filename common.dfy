/** Shared vocabulary of the kubeEP model: optional values, Go-style error
    returns, row identifiers and the status enumerations stored with events and
    scheduled HPA targets. */
module Common {

  datatype Option<T> = None | Some(value: T)

  /** A Go `(value, error)` pair: either a value or the error's text. */
  datatype Result<T> = Ok(value: T) | Err(msg: string)

  /** The error gorm's `Create` reports for an empty batch, before the
      database is reached. */
  const EmptySliceFound: string := "empty slice found"

  /** Row identifiers. The zero value stands for the nil UUID (`uuid.UUID{}`). */
  type Id = nat
  const NilId: Id := 0

  /** Event lifecycle (internal/repository/model/event.go). */
  datatype EventStatus = Failed | Success | Executing | Prescaled | Watching | Pending

  /** Status of one scheduled HPA target (internal/repository/model/scheduled_hpa_config.go). */
  datatype HpaUpdateStatus = UpdateFailed | UpdateSuccess | UpdatePending

  /** Identifies a Kubernetes object by name and namespace. The engine keys its
      maps by this pair; as a pair it is injective by construction. */
  datatype NameNs = NameNs(name: string, namespace: string)

  type Labels = map<string, string>

  /** CPU (millicores) and memory (bytes), as requested by a container or
      allocatable on a node. */
  datatype Requests = Requests(cpu: nat, memory: nat)

  /** A Kubernetes node: its labels and its allocatable resources. */
  datatype Node = Node(labels: Labels, allocatable: Requests)

  /** `model.GCP`, the provider of a GCP datacenter. */
  const GcpProvider: string := "GCP"

  // Constants of internal/constant/k8s.go.
  const NodePoolLabel: string := "cloud.google.com/gke-nodepool"
  const MinimumPod: nat := 1
  const AppsV1: string := "apps/v1"
  const DeploymentKind: string := "Deployment"

  // Error texts of internal/constant/errors/cluster.go.
  const HpaListError: string := "hpa list error"
  const HpaError: string := "hpa error"
  const HpaVersionUnknown: string := "hpa version unknown"
  const TargetRefResolveError: string := "target ref resolve error"
  const DeploymentNotFound: string := "deployment not found"
  const NoExistingNode: string := "no existing node found"

  // Errors whose text is not part of this model; only their identity matters.
  const InvalidRequestBody: string := "InvalidRequestBody"
  const DatacenterMismatch: string := "DatacenterMismatch"
  const DatacenterTypeNotFound: string := "DatacenterTypeNotFound"
  const EventNotExist: string := "EventNotExist"

  /** `fmt.Sprintf(constant.ClusterNotFound, name)`. */
  function ClusterNotFound(name: string): string { "cluster " + name + " not found" }
  /** `fmt.Sprintf(constant.ClusterExists, name)`. */
  function ClusterExists(name: string): string { "cluster " + name + " already exist" }

  /** Decimal text of a natural number, as `%d` prints it. */
  function NatToString(n: nat): (s: string)
    ensures |s| > 0
    ensures forall i :: 0 <= i < |s| ==> '0' <= s[i] <= '9'
    decreases n
  {
    var d := [(48 + n % 10) as char];
    if n < 10 then d else NatToString(n / 10) + d
  }
}
