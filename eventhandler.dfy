/** internal/handler/event.go, the decisions of the two write endpoints:
    registering an event keeps only the targets that name a live HPA, and
    updating an event rewrites its schedule and replaces all its targets.
    Both run in one transaction that is committed only at the end, so a
    request that fails leaves both tables as they were. */
module EventHandler {
  import opened Common
  import Events
  import opened Targets
  import opened HpaApi
  import GcpCustomAuth

  type Time = Events.Time

  /** request.EventModifiedHPAConfigData: one requested target. */
  datatype HpaConfigRequest = HpaConfigRequest(name: string, namespace: string, minReplicas: Option<int>, maxReplicas: nat)

  /** request.EventDataRequest. */
  datatype EventRequest = EventRequest(
    name: string, startTime: Time, endTime: Time, clusterId: Id,
    calculateNodePool: Option<bool>, configs: seq<HpaConfigRequest>)

  /** The validation tags: the end is not before the start, and at least one
      target is requested. */
  predicate WellFormed(startTime: Time, endTime: Time, configs: seq<HpaConfigRequest>)
  {
    endTime >= startTime && |configs| >= 1
  }

  /** An absent `calculate_node_pool` means true. */
  function CalculateFlag(requested: Option<bool>): (b: bool)
    ensures requested.None? ==> b
    ensures requested.Some? ==> b == requested.value
  {
    if requested.None? then true else requested.value
  }

  /** The target a requested config becomes (the store fills in the id, the
      status and the message). */
  function AsTarget(c: HpaConfigRequest): (t: TargetData)
    ensures t.name == c.name && t.namespace == c.namespace
    ensures t.minReplicas == c.minReplicas && t.maxReplicas == c.maxReplicas
  {
    TargetData(NilId, c.name, c.namespace, UpdatePending, "", c.minReplicas, c.maxReplicas)
  }

  function AsTargets(cs: seq<HpaConfigRequest>): (ts: seq<TargetData>)
    ensures |ts| == |cs| && forall k :: 0 <= k < |cs| ==> ts[k] == AsTarget(cs[k])
  {
    seq(|cs|, k requires 0 <= k < |cs| => AsTarget(cs[k]))
  }

  /** Some live HPA has the config's name and namespace. */
  predicate NamesLiveHpa(c: HpaConfigRequest, hpas: seq<SimpleHpaData>)
  {
    exists j :: 0 <= j < |hpas| && hpas[j].name == c.name && hpas[j].namespace == c.namespace
  }

  /** The configs that are registered: those naming a live HPA, in request
      order; the others are dropped without a word. */
  function LiveConfigs(cs: seq<HpaConfigRequest>, hpas: seq<SimpleHpaData>): (ts: seq<TargetData>)
    ensures |ts| <= |cs|
    ensures forall t :: t in ts <==> exists c :: c in cs && NamesLiveHpa(c, hpas) && t == AsTarget(c)
    decreases |cs|
  {
    if |cs| == 0 then []
    else
      var front := cs[..|cs| - 1];
      var c := cs[|cs| - 1];
      assert forall x :: x in cs <==> x in front || x == c;
      LiveConfigs(front, hpas) + if NamesLiveHpa(c, hpas) then [AsTarget(c)] else []
  }

  /** A config dropped from a request leaves the others, and their order, as
      they were. */
  lemma {:induction false} LiveConfigsAppend(a: seq<HpaConfigRequest>, b: seq<HpaConfigRequest>, hpas: seq<SimpleHpaData>)
    ensures LiveConfigs(a + b, hpas) == LiveConfigs(a, hpas) + LiveConfigs(b, hpas)
    decreases |b|
  {
    if |b| == 0 {
      assert a + b == a;
    } else {
      var front := b[..|b| - 1];
      LiveConfigsAppend(a, front, hpas);
      assert (a + b)[..|a + b| - 1] == a + front;
    }
  }

  /** When every requested config names a live HPA, all are registered as
      requested. */
  lemma {:induction false} AllLiveKeepsRequest(cs: seq<HpaConfigRequest>, hpas: seq<SimpleHpaData>)
    requires forall k :: 0 <= k < |cs| ==> NamesLiveHpa(cs[k], hpas)
    ensures LiveConfigs(cs, hpas) == AsTargets(cs)
    decreases |cs|
  {
    if |cs| > 0 {
      var front := cs[..|cs| - 1];
      AllLiveKeepsRequest(front, hpas);
      assert AsTargets(cs) == AsTargets(front) + [AsTarget(cs[|cs| - 1])];
    }
  }

  /** The nested loop with its `found` flag. */
  method FilterLiveConfigs(cs: seq<HpaConfigRequest>, hpas: seq<SimpleHpaData>) returns (ts: seq<TargetData>)
    ensures ts == LiveConfigs(cs, hpas)
  {
    ts := [];
    var i := 0;
    while i < |cs|
      invariant 0 <= i <= |cs|
      invariant ts == LiveConfigs(cs[..i], hpas)
    {
      assert cs[..i + 1][..i] == cs[..i];
      var found := false;
      var j := 0;
      while j < |hpas|
        invariant 0 <= j <= |hpas|
        invariant found <==> exists q :: 0 <= q < j && hpas[q].name == cs[i].name && hpas[q].namespace == cs[i].namespace
      {
        if cs[i].name == hpas[j].name && cs[i].namespace == hpas[j].namespace {
          found := true;
          break;
        }
        j := j + 1;
      }
      if found {
        ts := ts + [AsTarget(cs[i])];
      }
      i := i + 1;
    }
    assert cs[..|cs|] == cs;
  }

  /** The cluster's datacenter as `GetClusterAndDatacenterDataByClusterID`
      reads it: its provider and its name. */
  datatype Site = Site(provider: string, datacenterName: string)

  /** What `getClusterKubernetesClient` meets: the cluster lookup, the Google
      credential parsed from the datacenter and the error of building the
      Kubernetes client. */
  datatype ClientLookup = ClientLookup(site: Result<Site>, credential: Result<GcpCustomAuth.Credential>, buildErr: Option<string>)

  /** The credential is registered once the cluster is found on GCP and its
      credential parses, before the Kubernetes client is built. */
  predicate RegistersCredential(c: ClientLookup)
  {
    c.site.Ok? && c.site.value.provider == GcpProvider && c.credential.Ok?
  }

  /** The error `getClusterKubernetesClient` returns, none when it hands out
      a client: any other provider is `DatacenterTypeNotFound`. */
  function ClientError(c: ClientLookup): (r: Option<string>)
    ensures r.None? <==> RegistersCredential(c) && c.buildErr.None?
    ensures c.site.Err? ==> r == Some(c.site.msg)
    ensures c.site.Ok? && c.site.value.provider != GcpProvider ==> r == Some(DatacenterTypeNotFound)
    ensures RegistersCredential(c) ==> r == c.buildErr
  {
    if c.site.Err? then Some(c.site.msg)
    else if c.site.value.provider != GcpProvider then Some(DatacenterTypeNotFound)
    else if c.credential.Err? then Some(c.credential.msg)
    else c.buildErr
  }

  /** `getClusterKubernetesClient` (internal/handler/base.go): registers the
      datacenter's credential in the process-wide registry, then builds the
      client. */
  method GetClusterKubernetesClient(registry: GcpCustomAuth.Registry, c: ClientLookup) returns (err: Option<string>)
    modifies registry
    ensures err == ClientError(c)
    ensures registry.credentials == if RegistersCredential(c)
                                    then old(registry.credentials)[c.site.value.datacenterName := c.credential.value]
                                    else old(registry.credentials)
  {
    if c.site.Err? {
      return Some(c.site.msg);
    }
    if c.site.value.provider != GcpProvider {
      return Some(DatacenterTypeNotFound);
    }
    if c.credential.Err? {
      return Some(c.credential.msg);
    }
    registry.RegisterGoogleCredentials(c.site.value.datacenterName, c.credential.value);
    err := c.buildErr;
  }

  /** What a write endpoint answers: the event's id, or an error. */
  datatype Reply = Accepted(eventId: Id) | Refused(err: string)

  /** The event a registration inserts. */
  function NewEvent(req: EventRequest): (d: Events.EventData)
    ensures d.name == req.name && d.startTime == req.startTime && d.endTime == req.endTime
    ensures d.cluster.id == req.clusterId && d.calculateNodePool == CalculateFlag(req.calculateNodePool)
  {
    Events.EventData(0, 0, NilId, req.name, req.startTime, req.endTime, Pending, "",
                     CalculateFlag(req.calculateNodePool), Events.ClusterData(req.clusterId, "", ""))
  }

  /** `RegisterEvents`: malformed requests and requests for an event already
      started or ended are refused; then the cluster's HPAs are listed, the
      event is inserted and the targets naming a live HPA are registered; a
      request none of whose configs names a live HPA leaves an empty batch,
      which the insert refuses. */
  function RegisterReply(req: EventRequest, now: Time, clientErr: Option<string>, hpas: Result<seq<SimpleHpaData>>,
                         eventInsertErr: Option<string>, configInsertErr: Option<string>, nextId: Id): (r: Reply)
    ensures r.Accepted? <==> WellFormed(req.startTime, req.endTime, req.configs)
                             && now <= req.startTime && now <= req.endTime && clientErr.None? && hpas.Ok?
                             && eventInsertErr.None? && LiveConfigs(req.configs, hpas.value) != []
                             && configInsertErr.None?
    ensures r.Accepted? ==> r.eventId == nextId
    ensures (!WellFormed(req.startTime, req.endTime, req.configs) || now > req.startTime || now > req.endTime)
            ==> r == Refused(InvalidRequestBody)
  {
    if !WellFormed(req.startTime, req.endTime, req.configs) then Refused(InvalidRequestBody)
    else if now > req.startTime || now > req.endTime then Refused(InvalidRequestBody)
    else if clientErr.Some? then Refused(clientErr.value)
    else if hpas.Err? then Refused(hpas.msg)
    else if eventInsertErr.Some? then Refused(eventInsertErr.value)
    else if LiveConfigs(req.configs, hpas.value) == [] then Refused(EmptySliceFound)
    else if configInsertErr.Some? then Refused(configInsertErr.value)
    else Accepted(nextId)
  }

  /** A well-formed, timely request none of whose configs names a live HPA
      is refused with the empty-batch error once the event is inserted. */
  lemma NoLiveTargetRefused(req: EventRequest, now: Time, hpas: seq<SimpleHpaData>,
                            configInsertErr: Option<string>, nextId: Id)
    requires WellFormed(req.startTime, req.endTime, req.configs) && now <= req.startTime && now <= req.endTime
    requires forall c :: c in req.configs ==> !NamesLiveHpa(c, hpas)
    ensures RegisterReply(req, now, None, Ok(hpas), None, configInsertErr, nextId) == Refused(EmptySliceFound)
  {
    NoLiveConfigs(req.configs, hpas);
  }

  /** Configs none of which names a live HPA leave nothing to register. */
  lemma {:induction false} NoLiveConfigs(cs: seq<HpaConfigRequest>, hpas: seq<SimpleHpaData>)
    requires forall c :: c in cs ==> !NamesLiveHpa(c, hpas)
    ensures LiveConfigs(cs, hpas) == []
    decreases |cs|
  {
    if |cs| > 0 {
      NoLiveConfigs(cs[..|cs| - 1], hpas);
    }
  }

  /** The handler: on success the event row (PENDING, with the defaulted
      flag) and one row per live target are stored; on any failure the
      transaction is not committed and neither table changes. The client
      lookup of a timely, well-formed request registers the datacenter's
      credential, and it stays registered whatever the reply. */
  method RegisterEvents(events: Events.EventTable, configs: ConfigTable, registry: GcpCustomAuth.Registry,
                        req: EventRequest, now: Time, clock: Time, lookup: ClientLookup,
                        hpas: Result<seq<SimpleHpaData>>, eventInsertErr: Option<string>, configInsertErr: Option<string>)
    returns (reply: Reply)
    requires events.Valid() && configs.Valid()
    modifies events, configs, registry
    ensures events.Valid() && configs.Valid()
    ensures reply == RegisterReply(req, now, ClientError(lookup), hpas, eventInsertErr, configInsertErr, old(events.nextId))
    ensures registry.credentials ==
              if WellFormed(req.startTime, req.endTime, req.configs) && now <= req.startTime && now <= req.endTime
                 && RegistersCredential(lookup)
              then old(registry.credentials)[lookup.site.value.datacenterName := lookup.credential.value]
              else old(registry.credentials)
    ensures reply.Refused? ==> events.rows == old(events.rows) && configs.rows == old(configs.rows)
    ensures reply.Accepted? ==>
              events.rows == old(events.rows) + [Events.EventRow(reply.eventId, clock, clock, None, req.name, req.startTime,
                                                                 req.endTime, req.clusterId, Pending, "",
                                                                 CalculateFlag(req.calculateNodePool))]
              && configs.rows == old(configs.rows) + NewRows(LiveConfigs(req.configs, hpas.value), reply.eventId, old(configs.nextId))
  {
    if !WellFormed(req.startTime, req.endTime, req.configs) {
      return Refused(InvalidRequestBody);
    }
    if now > req.startTime || now > req.endTime {
      return Refused(InvalidRequestBody);
    }
    var clientErr := GetClusterKubernetesClient(registry, lookup);
    if clientErr.Some? {
      return Refused(clientErr.value);
    }
    if hpas.Err? {
      return Refused(hpas.msg);
    }
    var eventRowsBefore, eventNextBefore := events.rows, events.nextId;
    var id := events.RegisterEvents(NewEvent(req), clock, eventInsertErr);
    if id.Err? {
      return Refused(id.msg);
    }
    var kept := FilterLiveConfigs(req.configs, hpas.value);
    var ids := configs.RegisterModifiedHpaConfigs(kept, id.value, configInsertErr);
    if ids.Err? {
      events.rows, events.nextId := eventRowsBefore, eventNextBefore;
      return Refused(ids.msg);
    }
    reply := Accepted(id.value);
  }

  // ---------------------------------------------------------------- UpdateEvent

  /** request.UpdateEventDataRequest. The event id is optional here: its
      validation tag is misspelt, so nothing requires it. */
  datatype UpdateRequest = UpdateRequest(
    eventId: Option<Id>, name: string, startTime: Time, endTime: Time,
    calculateNodePool: Option<bool>, configs: seq<HpaConfigRequest>)

  /** How the handler as written treats a request before any lookup. */
  datatype Check = Pass | Refuse(err: string) | Crash

  /** The checks as written: the validator passes a request without an event
      id, and dereferencing the missing id crashes the server. */
  function UpdateCheckAsWritten(req: UpdateRequest): (c: Check)
    ensures c.Crash? <==> WellFormed(req.startTime, req.endTime, req.configs) && req.eventId.None?
    ensures c.Refuse? <==> !WellFormed(req.startTime, req.endTime, req.configs)
  {
    if !WellFormed(req.startTime, req.endTime, req.configs) then Refuse(InvalidRequestBody)
    else if req.eventId.None? then Crash
    else Pass
  }

  /** The checks as evidently intended: the event id is required like the
      other fields, so a request that passes always has one. */
  function UpdateCheck(req: UpdateRequest): (c: Check)
    ensures !c.Crash?
    ensures c.Pass? <==> WellFormed(req.startTime, req.endTime, req.configs) && req.eventId.Some?
    ensures c.Pass? ==> req.eventId.Some?
  {
    if !WellFormed(req.startTime, req.endTime, req.configs) || req.eventId.None? then Refuse(InvalidRequestBody)
    else Pass
  }

  /** A well-formed request without `event_id` crashes the handler as
      written; the intended check refuses it. */
  lemma MissingEventIdCrashes(start: Time)
    ensures var req := UpdateRequest(None, "sale", start, start + 3600, None, [HpaConfigRequest("web", "shop", Some(2), 10)]);
            UpdateCheckAsWritten(req) == Crash && UpdateCheck(req) == Refuse(InvalidRequestBody)
  {
  }

  /** Both checks agree on every request that carries an event id. */
  lemma UpdateCheckAgreesWithId(req: UpdateRequest)
    requires req.eventId.Some?
    ensures UpdateCheckAsWritten(req) == UpdateCheck(req)
  {
  }

  /** `GetEventByID`: the live row with this id. */
  function StoredEvent(rows: seq<Events.EventRow>, id: Id): (r: Option<Events.EventRow>)
    ensures r.Some? ==> r.value in rows && r.value.id == id && Events.Live(r.value)
    ensures r.None? ==> forall k :: 0 <= k < |rows| ==> rows[k].id != id || !Events.Live(rows[k])
    decreases |rows|
  {
    if |rows| == 0 then None
    else if rows[0].id == id && Events.Live(rows[0]) then Some(rows[0])
    else StoredEvent(rows[1..], id)
  }

  /** The stored event after the update: name, schedule and (when given) the
      node-pool flag are the request's; the status, the message and the
      cluster are kept. */
  function UpdatedEvent(stored: Events.EventData, req: UpdateRequest): (d: Events.EventData)
    ensures d.name == req.name && d.startTime == req.startTime && d.endTime == req.endTime
    ensures d.calculateNodePool == if req.calculateNodePool.Some? then req.calculateNodePool.value else stored.calculateNodePool
    ensures d.(name := stored.name, startTime := stored.startTime, endTime := stored.endTime,
               calculateNodePool := stored.calculateNodePool) == stored
  {
    stored.(name := req.name, startTime := req.startTime, endTime := req.endTime,
            calculateNodePool := if req.calculateNodePool.Some? then req.calculateNodePool.value else stored.calculateNodePool)
  }

  /** The event data read back for a row. */
  function ReadEvent(row: Events.EventRow): Events.EventData
  {
    Events.PrescaledEventData(row)
  }

  /** `UpdateEvent` with the intended check. */
  function UpdateReply(req: UpdateRequest, rows: seq<Events.EventRow>, saveErr: Option<string>,
                       deleteErr: Option<string>, insertErr: Option<string>): (r: Reply)
    ensures r.Accepted? <==> UpdateCheck(req).Pass? && StoredEvent(rows, req.eventId.value).Some?
                             && saveErr.None? && deleteErr.None? && insertErr.None?
    ensures r.Accepted? ==> Some(r.eventId) == req.eventId
    ensures UpdateCheck(req).Pass? && StoredEvent(rows, req.eventId.value).None? ==> r == Refused(EventNotExist)
  {
    var c := UpdateCheck(req);
    if c.Refuse? then Refused(c.err)
    else
      var id := req.eventId.value;
      if StoredEvent(rows, id).None? then Refused(EventNotExist)
      else if saveErr.Some? then Refused(saveErr.value)
      else if deleteErr.Some? then Refused(deleteErr.value)
      else if insertErr.Some? then Refused(insertErr.value)
      else Accepted(id)
  }

  lemma {:induction false} NoRowsOfEvent(rows: seq<ConfigRow>, eventId: Id)
    requires forall k :: 0 <= k < |rows| ==> rows[k].eventId != eventId
    ensures RowsOfEvent(rows, eventId) == []
    decreases |rows|
  {
    if |rows| > 0 {
      NoRowsOfEvent(rows[1..], eventId);
    }
  }

  method FindEvent(events: Events.EventTable, id: Id) returns (r: Option<Events.EventRow>)
    ensures r == StoredEvent(events.rows, id)
  {
    var i := 0;
    while i < |events.rows|
      invariant 0 <= i <= |events.rows|
      invariant StoredEvent(events.rows, id) == StoredEvent(events.rows[i..], id)
    {
      if events.rows[i].id == id && Events.Live(events.rows[i]) {
        return Some(events.rows[i]);
      }
      assert events.rows[i..][1..] == events.rows[i + 1..];
      i := i + 1;
    }
    return None;
  }

  /** The handler: the event is read and saved with the new name, schedule
      and flag; every target of the event is deleted for good and the
      requested ones registered, live HPA or not. A failure anywhere leaves
      both tables as they were. */
  method UpdateEvent(events: Events.EventTable, configs: ConfigTable, req: UpdateRequest, clock: Time,
                     saveErr: Option<string>, deleteErr: Option<string>, insertErr: Option<string>)
    returns (reply: Reply)
    requires events.Valid() && configs.Valid()
    modifies events, configs
    ensures events.Valid() && configs.Valid()
    ensures reply == UpdateReply(req, old(events.rows), saveErr, deleteErr, insertErr)
    ensures reply.Refused? ==> events.rows == old(events.rows) && configs.rows == old(configs.rows)
    ensures reply.Accepted? ==>
              var d := UpdatedEvent(ReadEvent(StoredEvent(old(events.rows), reply.eventId).value), req);
              |events.rows| == |old(events.rows)|
              && (forall k :: 0 <= k < |events.rows| ==>
                    events.rows[k] == if old(events.rows)[k].id == reply.eventId then Events.RowOf(d, clock) else old(events.rows)[k])
              && RowsOfEvent(configs.rows, reply.eventId) == NewRows(AsTargets(req.configs), reply.eventId, old(configs.nextId))
              && (forall row :: row in old(configs.rows) && row.eventId != reply.eventId ==> row in configs.rows)
  {
    var check := UpdateCheck(req);
    if check.Refuse? {
      return Refused(check.err);
    }
    var id := req.eventId.value;
    var stored := FindEvent(events, id);
    if stored.None? {
      return Refused(EventNotExist);
    }
    var d := UpdatedEvent(ReadEvent(stored.value), req);
    var eventRowsBefore, eventNextBefore := events.rows, events.nextId;
    var err := SaveUpdatedEvent(events, d, clock, saveErr, deleteErr);
    if err.Some? {
      return Refused(err.value);
    }
    var replaceErr := ReplaceConfigs(configs, id, AsTargets(req.configs), insertErr);
    if replaceErr.Some? {
      events.rows, events.nextId := eventRowsBefore, eventNextBefore;
      return Refused(replaceErr.value);
    }
    reply := Accepted(id);
  }

  /** The event row is saved with the new data; a failed delete of the
      targets that follows rolls the save back. */
  method SaveUpdatedEvent(events: Events.EventTable, d: Events.EventData, clock: Time, saveErr: Option<string>, deleteErr: Option<string>)
    returns (err: Option<string>)
    requires events.Valid() && exists k :: 0 <= k < |events.rows| && events.rows[k].id == d.id
    modifies events
    ensures events.Valid()
    ensures err == if saveErr.Some? then saveErr else deleteErr
    ensures err.Some? ==> events.rows == old(events.rows)
    ensures err.None? ==>
              |events.rows| == |old(events.rows)|
              && forall k :: 0 <= k < |events.rows| ==>
                   events.rows[k] == if old(events.rows)[k].id == d.id then Events.RowOf(d, clock) else old(events.rows)[k]
  {
    var rowsBefore, nextBefore := events.rows, events.nextId;
    err := events.UpdateEvent(d, clock, saveErr);
    if err.Some? {
      return;
    }
    if deleteErr.Some? {
      events.rows, events.nextId := rowsBefore, nextBefore;
      return deleteErr;
    }
  }

  /** The targets of the event are deleted for good and the new ones
      registered; a failed or empty insert restores the table (the
      transaction is not committed). */
  method ReplaceConfigs(configs: ConfigTable, id: Id, ts: seq<TargetData>, insertErr: Option<string>)
    returns (err: Option<string>)
    requires configs.Valid()
    modifies configs
    ensures configs.Valid() && err == if |ts| == 0 then Some(EmptySliceFound) else insertErr
    ensures err.Some? ==> configs.rows == old(configs.rows) && configs.nextId == old(configs.nextId)
    ensures err.None? ==>
              RowsOfEvent(configs.rows, id) == NewRows(ts, id, old(configs.nextId))
              && (forall row :: row in old(configs.rows) && row.eventId != id ==> row in configs.rows)
  {
    var rowsBefore, nextBefore := configs.rows, configs.nextId;
    configs.DeletePermanentlyByEvent(id);
    ghost var kept := configs.rows;
    var ids := configs.RegisterModifiedHpaConfigs(ts, id, insertErr);
    if ids.Err? {
      configs.rows, configs.nextId := rowsBefore, nextBefore;
      return Some(ids.msg);
    }
    NoRowsOfEvent(kept, id);
    RowsOfEventAppend(kept, NewRows(ts, id, nextBefore), id);
    NewRowsAllOfEvent(ts, id, nextBefore);
    err := None;
  }
}
