/** internal/usecase/scheduled_hpa_config.go over the `scheduled_hpa_configs`
    table: the HPA targets an event will rescale (name, namespace, requested
    min/max replicas), each with an update status and message. */
module Targets {
  import opened Common

  /** A row of `scheduled_hpa_configs`. */
  datatype ConfigRow = ConfigRow(
    id: Id, name: string, minPods: Option<int>, maxPods: nat, namespace: string,
    status: HpaUpdateStatus, message: string, eventId: Id, deleted: bool)

  /** EventModifiedHPAConfigData: a target as the use cases see it. */
  datatype TargetData = TargetData(
    id: Id, name: string, namespace: string, status: HpaUpdateStatus, message: string,
    minReplicas: Option<int>, maxReplicas: nat)

  function TargetKey(t: TargetData): NameNs { NameNs(t.name, t.namespace) }

  /** The row inserted for one requested target: the database fills in the id
      and the PENDING default; the message starts empty. */
  function NewRow(t: TargetData, eventId: Id, id: Id): ConfigRow
  {
    ConfigRow(id, t.name, t.minReplicas, t.maxReplicas, t.namespace, UpdatePending, "", eventId, false)
  }

  function NewRows(ts: seq<TargetData>, eventId: Id, firstId: Id): (r: seq<ConfigRow>)
    ensures |r| == |ts|
    ensures forall k :: 0 <= k < |ts| ==> r[k] == NewRow(ts[k], eventId, firstId + k)
    decreases |ts|
  {
    if |ts| == 0 then [] else [NewRow(ts[0], eventId, firstId)] + NewRows(ts[1..], eventId, firstId + 1)
  }

  /** The listing of one row: `MinPods` becomes `MinReplicas`, `MaxPods` becomes `MaxReplicas`. */
  function ToTargetData(r: ConfigRow): TargetData
  {
    TargetData(r.id, r.name, r.namespace, r.status, r.message, r.minPods, r.maxPods)
  }

  /** The live rows of an event, in table order (soft-deleted rows are hidden). */
  function RowsOfEvent(rows: seq<ConfigRow>, eventId: Id): (r: seq<ConfigRow>)
    ensures forall k :: 0 <= k < |r| ==> r[k] in rows && r[k].eventId == eventId && !r[k].deleted
    decreases |rows|
  {
    if |rows| == 0 then []
    else
      var rest := RowsOfEvent(rows[1..], eventId);
      if rows[0].eventId == eventId && !rows[0].deleted then [rows[0]] + rest else rest
  }

  function ToTargets(rows: seq<ConfigRow>): (r: seq<TargetData>)
    ensures |r| == |rows|
    ensures forall k :: 0 <= k < |rows| ==> r[k] == ToTargetData(rows[k])
    decreases |rows|
  {
    if |rows| == 0 then [] else [ToTargetData(rows[0])] + ToTargets(rows[1..])
  }

  lemma {:induction false} RowsOfEventAppend(a: seq<ConfigRow>, b: seq<ConfigRow>, eventId: Id)
    ensures RowsOfEvent(a + b, eventId) == RowsOfEvent(a, eventId) + RowsOfEvent(b, eventId)
    decreases |a|
  {
    if |a| > 0 {
      assert (a + b)[1..] == a[1..] + b;
      RowsOfEventAppend(a[1..], b, eventId);
    } else {
      assert a + b == b;
    }
  }

  lemma {:induction false} NewRowsAllOfEvent(ts: seq<TargetData>, eventId: Id, firstId: Id)
    ensures RowsOfEvent(NewRows(ts, eventId, firstId), eventId) == NewRows(ts, eventId, firstId)
    decreases |ts|
  {
    if |ts| > 0 {
      NewRowsAllOfEvent(ts[1..], eventId, firstId + 1);
      assert NewRows(ts, eventId, firstId)[1..] == NewRows(ts[1..], eventId, firstId + 1);
    }
  }

  /** Ids are positive, distinct and below the next id the database hands out. */
  predicate IdsFresh(rows: seq<ConfigRow>, nextId: Id)
  {
    (forall k :: 0 <= k < |rows| ==> 0 < rows[k].id < nextId)
    && (forall i, j :: 0 <= i < j < |rows| ==> rows[i].id != rows[j].id)
  }

  /** Registering targets for an event that had none and listing them again
      gives the targets back in request order, with their new ids, the PENDING
      status and an empty message. */
  lemma RegisterThenList(rows: seq<ConfigRow>, ts: seq<TargetData>, eventId: Id, firstId: Id)
    requires RowsOfEvent(rows, eventId) == []
    ensures var listed := ToTargets(RowsOfEvent(rows + NewRows(ts, eventId, firstId), eventId));
            |listed| == |ts|
            && forall k :: 0 <= k < |ts| ==>
                 listed[k] == ts[k].(id := firstId + k, status := UpdatePending, message := "")
  {
    var added := NewRows(ts, eventId, firstId);
    RowsOfEventAppend(rows, added, eventId);
    NewRowsAllOfEvent(ts, eventId, firstId);
    assert RowsOfEvent(rows + added, eventId) == added;
    var listed := ToTargets(added);
    forall k | 0 <= k < |ts|
      ensures listed[k] == ts[k].(id := firstId + k, status := UpdatePending, message := "")
    {
      assert listed[k] == ToTargetData(added[k]);
      assert added[k] == NewRow(ts[k], eventId, firstId + k);
    }
  }

  /** The error gorm reports when no live row has the requested id. */
  const RecordNotFound: string := "record not found"

  class ConfigTable {
    var rows: seq<ConfigRow>
    var nextId: Id

    ghost predicate Valid()
      reads this
    {
      IdsFresh(rows, nextId) && nextId > 0
    }

    constructor ()
      ensures Valid() && rows == []
    {
      rows := [];
      nextId := 1;
    }

    /** `RegisterModifiedHPAConfigs`: one row per target, in order, with the
        event's id; the ids come back in the same order. An empty batch is
        refused by `Create` itself; an insert error returns the error. A
        refused batch stores nothing. */
    method RegisterModifiedHpaConfigs(ts: seq<TargetData>, eventId: Id, insertErr: Option<string>)
      returns (r: Result<seq<Id>>)
      requires Valid()
      modifies this
      ensures Valid()
      ensures r.Err? ==> rows == old(rows) && nextId == old(nextId)
      ensures |ts| == 0 ==> r == Err(EmptySliceFound)
      ensures |ts| > 0 && insertErr.Some? ==> r == Err(insertErr.value)
      ensures |ts| > 0 && insertErr.None? ==>
                rows == old(rows) + NewRows(ts, eventId, old(nextId))
                && r.Ok? && |r.value| == |ts|
                && (forall k :: 0 <= k < |ts| ==> r.value[k] == old(nextId) + k)
    {
      if |ts| == 0 {
        return Err(EmptySliceFound);
      }
      if insertErr.Some? {
        return Err(insertErr.value);
      }
      var added := NewRows(ts, eventId, nextId);
      var ids: seq<Id> := [];
      var i := 0;
      while i < |added|
        invariant 0 <= i <= |added|
        invariant |ids| == i
        invariant forall k :: 0 <= k < i ==> ids[k] == added[k].id
      {
        ids := ids + [added[i].id];
        i := i + 1;
      }
      rows := rows + added;
      nextId := nextId + |ts|;
      r := Ok(ids);
    }

    /** `ListScheduledHPAConfigByEventID`: the event's live targets in table order. */
    function ListScheduledHpaConfigByEventId(eventId: Id): (r: seq<TargetData>)
      reads this
      ensures forall k :: 0 <= k < |r| ==>
                exists row :: row in rows && row.eventId == eventId && !row.deleted && r[k] == ToTargetData(row)
    {
      var live := RowsOfEvent(rows, eventId);
      var r := ToTargets(live);
      assert forall k :: 0 <= k < |r| ==> live[k] in rows && r[k] == ToTargetData(live[k]);
      r
    }

    /** The position of the live row with this id, if any. */
    method FindRow(id: Id) returns (k: Option<nat>)
      ensures k.Some? ==> k.value < |rows| && rows[k.value].id == id && !rows[k.value].deleted
      ensures k.None? ==> forall j :: 0 <= j < |rows| ==> rows[j].id != id || rows[j].deleted
    {
      var i := 0;
      while i < |rows|
        invariant 0 <= i <= |rows|
        invariant forall j :: 0 <= j < i ==> rows[j].id != id || rows[j].deleted
      {
        if rows[i].id == id && !rows[i].deleted {
          return Some(i);
        }
        i := i + 1;
      }
      return None;
    }

    /** `UpdateScheduledHPAConfigStatusMessage`: read the row, set its status
        and message, save it. An unknown id returns the lookup error and saves
        nothing; no other field or row changes. */
    method UpdateStatusMessage(id: Id, status: HpaUpdateStatus, msg: string, saveErr: Option<string>)
      returns (err: Option<string>)
      requires Valid()
      modifies this
      ensures Valid() && nextId == old(nextId) && |rows| == |old(rows)|
      ensures (forall j :: 0 <= j < |old(rows)| ==> old(rows)[j].id != id || old(rows)[j].deleted) ==>
                err == Some(RecordNotFound) && rows == old(rows)
      ensures saveErr.Some? ==> err.Some? && rows == old(rows)
      ensures (exists j :: 0 <= j < |old(rows)| && old(rows)[j].id == id && !old(rows)[j].deleted) ==> err == saveErr
      ensures forall j :: 0 <= j < |rows| ==>
                rows[j] == if old(rows)[j].id == id && !old(rows)[j].deleted && saveErr.None?
                           then old(rows)[j].(status := status, message := msg)
                           else old(rows)[j]
      ensures err.None? <==> saveErr.None? && exists j :: 0 <= j < |old(rows)| && old(rows)[j].id == id && !old(rows)[j].deleted
    {
      var k := FindRow(id);
      if k.None? {
        return Some(RecordNotFound);
      }
      if saveErr.Some? {
        return saveErr;
      }
      var row := rows[k.value];
      rows := rows[k.value := row.(status := status, message := msg)];
      err := None;
    }

    /** `DeleteEventModifiedHPAConfigs`: every row of the event, soft-deleted or
        not, is removed for good. */
    method DeletePermanentlyByEvent(eventId: Id)
      requires Valid()
      modifies this
      ensures Valid() && nextId == old(nextId)
      ensures forall k :: 0 <= k < |rows| ==> rows[k].eventId != eventId && rows[k] in old(rows)
      ensures forall row :: row in old(rows) && row.eventId != eventId ==> row in rows
    {
      var kept: seq<ConfigRow> := [];
      var i := 0;
      while i < |rows|
        invariant 0 <= i <= |rows|
        invariant forall k :: 0 <= k < |kept| ==> kept[k].eventId != eventId && kept[k] in rows[..i]
        invariant forall j :: 0 <= j < i && rows[j].eventId != eventId ==> rows[j] in kept
        invariant forall a, b :: 0 <= a < b < |kept| ==> kept[a].id != kept[b].id
        invariant forall k, j :: 0 <= k < |kept| && i <= j < |rows| ==> kept[k].id != rows[j].id
      {
        if rows[i].eventId != eventId {
          kept := kept + [rows[i]];
        }
        i := i + 1;
      }
      rows := kept;
    }
  }
}
