/** The `events` table (internal/repository/event.go) and the event use cases
    built on it (internal/usecase/event.go). Times are whole seconds on one
    clock; soft-deleted rows carry their deletion time. */
module Events {
  import opened Common

  type Time = int

  const SecondsPerMinute: int := 60

  /** A row of `events`. */
  datatype EventRow = EventRow(
    id: Id, createdAt: Time, updatedAt: Time, deletedAt: Option<Time>,
    name: string, startTime: Time, endTime: Time, clusterId: Id,
    status: EventStatus, message: string, calculateNodePool: bool)

  /** The columns of `clusters` and `datacenters` the joined query reads. */
  datatype ClusterRow = ClusterRow(name: string, datacenterId: Id, deleted: bool)
  datatype DatacenterRow = DatacenterRow(provider: string, deleted: bool)

  /** The part of `ClusterData` an event carries: id, name and provider. */
  datatype ClusterData = ClusterData(id: Id, name: string, provider: string)

  /** UCEntity.Event. */
  datatype EventData = EventData(
    createdAt: Time, updatedAt: Time, id: Id, name: string, startTime: Time, endTime: Time,
    status: EventStatus, message: string, calculateNodePool: bool, cluster: ClusterData)

  /** The lifecycle: PENDING, EXECUTING, then PRESCALED or FAILED; a prescaled
      event is WATCHING until it ends in SUCCESS. Staying put is allowed. */
  predicate Step(from: EventStatus, to: EventStatus)
  {
    from == to
    || (from == Pending && to == Executing)
    || (from == Executing && (to == Prescaled || to == Failed))
    || (from == Prescaled && to == Watching)
    || (from == Watching && to == Success)
  }

  predicate Live(e: EventRow) { e.deletedAt.None? }

  /** `status = WATCHING and end_time < now`, on live rows. */
  predicate WatchedOver(e: EventRow, now: Time)
  {
    Live(e) && e.status == Watching && e.endTime < now
  }

  /** `start_time - now < (minute + 1) minutes and status = ?`, on live rows. */
  predicate DueWithin(e: EventRow, status: EventStatus, minute: int, now: Time)
  {
    Live(e) && e.startTime - now < (minute + 1) * SecondsPerMinute && e.status == status
  }

  /** `FindWatchedEvent`: the watched events whose end has passed, in table order. */
  function FindWatchedEvent(rows: seq<EventRow>, now: Time): (r: seq<EventRow>)
    ensures forall e :: e in r <==> e in rows && WatchedOver(e, now)
    decreases |rows|
  {
    if |rows| == 0 then []
    else
      var rest := FindWatchedEvent(rows[1..], now);
      assert forall e :: e in rows <==> e == rows[0] || e in rows[1..];
      if WatchedOver(rows[0], now) then [rows[0]] + rest else rest
  }

  /** `FindEventByStatusWithStarTimeBeforeMinute`: the live events of a status
      starting less than `minute + 1` minutes from now, in table order. */
  function FindDue(rows: seq<EventRow>, status: EventStatus, minute: int, now: Time): (r: seq<EventRow>)
    ensures forall e :: e in r <==> e in rows && DueWithin(e, status, minute, now)
    decreases |rows|
  {
    if |rows| == 0 then []
    else
      var rest := FindDue(rows[1..], status, minute, now);
      assert forall e :: e in rows <==> e == rows[0] || e in rows[1..];
      if DueWithin(rows[0], status, minute, now) then [rows[0]] + rest else rest
  }

  /** The window has no lower bound: an event whose start has passed is still due. */
  lemma StartedEventStillDue(rows: seq<EventRow>, k: nat, minute: nat, now: Time)
    requires k < |rows| && Live(rows[k]) && rows[k].startTime <= now
    ensures rows[k] in FindDue(rows, rows[k].status, minute, now)
  {
  }

  /** The window is `minute + 1` whole minutes wide, open at its far end. */
  lemma DueWindowEdge(e: EventRow, minute: int, now: Time)
    requires Live(e)
    ensures e.startTime == now + (minute + 1) * SecondsPerMinute - 1 ==> DueWithin(e, e.status, minute, now)
    ensures e.startTime == now + (minute + 1) * SecondsPerMinute ==> !DueWithin(e, e.status, minute, now)
  {
  }

  /** An event whose cluster and datacenter are both live, as the joined query demands. */
  predicate Joinable(e: EventRow, clusters: map<Id, ClusterRow>, dcs: map<Id, DatacenterRow>)
  {
    e.clusterId in clusters && !clusters[e.clusterId].deleted
    && clusters[e.clusterId].datacenterId in dcs && !dcs[clusters[e.clusterId].datacenterId].deleted
  }

  /** A scanned row of the joined query: the event, `c.name` and `d.datacenter`. */
  datatype JoinedRow = JoinedRow(event: EventRow, clusterName: string, provider: string)

  function JoinOf(e: EventRow, clusters: map<Id, ClusterRow>, dcs: map<Id, DatacenterRow>): JoinedRow
    requires Joinable(e, clusters, dcs)
  {
    JoinedRow(e, clusters[e.clusterId].name, dcs[clusters[e.clusterId].datacenterId].provider)
  }

  /** The rows the joined due-window query produces, in table order. */
  function DueJoined(rows: seq<EventRow>, clusters: map<Id, ClusterRow>, dcs: map<Id, DatacenterRow>,
                     status: EventStatus, minute: int, now: Time): (r: seq<JoinedRow>)
    ensures forall k :: 0 <= k < |r| ==>
              r[k].event in rows && DueWithin(r[k].event, status, minute, now)
              && Joinable(r[k].event, clusters, dcs) && r[k] == JoinOf(r[k].event, clusters, dcs)
    ensures forall e :: e in rows && DueWithin(e, status, minute, now) && Joinable(e, clusters, dcs) ==>
              exists k :: 0 <= k < |r| && r[k].event == e
    decreases |rows|
  {
    if |rows| == 0 then []
    else
      var rest := DueJoined(rows[1..], clusters, dcs, status, minute, now);
      assert forall e :: e in rows <==> e == rows[0] || e in rows[1..];
      if DueWithin(rows[0], status, minute, now) && Joinable(rows[0], clusters, dcs) then
        var r := [JoinOf(rows[0], clusters, dcs)] + rest;
        assert forall k :: 0 <= k < |rest| ==> r[k + 1] == rest[k];
        assert r[0].event == rows[0];
        r
      else rest
  }

  /** The event handed to the executor: the joined cluster name, id and provider. */
  function PendingEventData(j: JoinedRow): EventData
  {
    var e := j.event;
    EventData(e.createdAt, e.updatedAt, e.id, e.name, e.startTime, e.endTime, e.status, e.message,
              e.calculateNodePool, ClusterData(e.clusterId, j.clusterName, j.provider))
  }

  /** The event handed to the watcher: no join, so the cluster name and
      provider are empty and only the cluster id is known. */
  function PrescaledEventData(e: EventRow): EventData
  {
    EventData(e.createdAt, e.updatedAt, e.id, e.name, e.startTime, e.endTime, e.status, e.message,
              e.calculateNodePool, ClusterData(e.clusterId, "", ""))
  }

  function PendingAll(rows: seq<JoinedRow>): (r: seq<EventData>)
    ensures |r| == |rows|
    ensures forall k :: 0 <= k < |rows| ==> r[k] == PendingEventData(rows[k])
    decreases |rows|
  {
    if |rows| == 0 then [] else [PendingEventData(rows[0])] + PendingAll(rows[1..])
  }

  /** Every event the executor is handed is a live PENDING event starting
      within 61 minutes, carrying its cluster's name and its datacenter's provider. */
  lemma PendingEventsAreDue(rows: seq<EventRow>, clusters: map<Id, ClusterRow>, dcs: map<Id, DatacenterRow>, now: Time)
    ensures var out := PendingAll(DueJoined(rows, clusters, dcs, Pending, PendingHorizon, now));
            forall k :: 0 <= k < |out| ==>
              out[k].status == Pending
              && out[k].startTime - now < (PendingHorizon + 1) * SecondsPerMinute
              && out[k].cluster.id in clusters
              && out[k].cluster.name == clusters[out[k].cluster.id].name
              && out[k].cluster.provider == dcs[clusters[out[k].cluster.id].datacenterId].provider
  {
  }

  function PrescaledAll(rows: seq<EventRow>): (r: seq<EventData>)
    ensures |r| == |rows|
    ensures forall k :: 0 <= k < |rows| ==> r[k] == PrescaledEventData(rows[k])
    decreases |rows|
  {
    if |rows| == 0 then [] else [PrescaledEventData(rows[0])] + PrescaledAll(rows[1..])
  }

  /** The row `UpdateEvent` saves at `clock`: every given field, not
      deleted, and `updated_at` stamped by gorm's `Save` with the time of the
      save (the event handed in keeps its own). */
  function RowOf(d: EventData, clock: Time): EventRow
  {
    EventRow(d.id, d.createdAt, clock, None, d.name, d.startTime, d.endTime, d.cluster.id,
             d.status, d.message, d.calculateNodePool)
  }

  /** Reading back a saved event gives the saved values, with the save's
      time as its update time. */
  lemma UpdateEventRoundTrip(d: EventData, clock: Time)
    ensures var back := PrescaledEventData(RowOf(d, clock));
            back == d.(updatedAt := clock, cluster := ClusterData(d.cluster.id, "", ""))
  {
  }

  /** The table after gorm's `Save` of `row`: the row with its id is
      overwritten, or `row` is appended when no row has that id. */
  function Saved(rows: seq<EventRow>, row: EventRow): (r: seq<EventRow>)
    ensures row in r
    ensures (exists k :: 0 <= k < |rows| && rows[k].id == row.id) ==>
              |r| == |rows| && forall k :: 0 <= k < |r| ==> r[k] == if rows[k].id == row.id then row else rows[k]
    ensures !(exists k :: 0 <= k < |rows| && rows[k].id == row.id) ==> r == rows + [row]
  {
    if exists k :: 0 <= k < |rows| && rows[k].id == row.id then
      var k :| 0 <= k < |rows| && rows[k].id == row.id;
      var r := Overwritten(rows, row);
      assert r[k] == row;
      r
    else rows + [row]
  }

  /** Every row with `row`'s id replaced by it. */
  function Overwritten(rows: seq<EventRow>, row: EventRow): (r: seq<EventRow>)
    ensures |r| == |rows|
    ensures forall k :: 0 <= k < |r| ==> r[k] == if rows[k].id == row.id then row else rows[k]
  {
    if rows == [] then [] else [if rows[0].id == row.id then row else rows[0]] + Overwritten(rows[1..], row)
  }

  /** Saving an event twice leaves what the second save alone would: the
      first save's row is overwritten, whether it replaced a row or was
      appended. */
  lemma {:induction false} SavedTwice(rows: seq<EventRow>, first: EventRow, second: EventRow)
    requires first.id == second.id
    ensures Saved(Saved(rows, first), second) == Saved(rows, second)
  {
    var once := Saved(rows, first);
    if exists k :: 0 <= k < |rows| && rows[k].id == first.id {
      assert exists k :: 0 <= k < |once| && once[k].id == second.id by {
        var k :| 0 <= k < |rows| && rows[k].id == first.id;
        assert once[k] == first;
      }
      assert Saved(once, second) == Saved(rows, second);
    } else {
      assert once[|rows|] == first;
      assert Saved(once, second) == rows + [second];
    }
  }

  const PendingHorizon: int := 60
  const PrescaledHorizon: int := 55

  /** `GetAllPrescaledEvent10MinBeforeStart`: live PRESCALED events starting
      within 56 minutes, in table order; a query error is returned as is. */
  function GetAllPrescaledEvent10MinBeforeStart(rows: seq<EventRow>, now: Time, queryErr: Option<string>)
    : (r: Result<seq<EventData>>)
    ensures queryErr.Some? <==> r.Err?
    ensures r.Ok? ==>
              |r.value| == |FindDue(rows, Prescaled, PrescaledHorizon, now)|
              && forall k :: 0 <= k < |r.value| ==>
                   r.value[k].status == Prescaled
                   && r.value[k].startTime - now < (PrescaledHorizon + 1) * SecondsPerMinute
                   && r.value[k].cluster.name == "" && r.value[k].cluster.provider == ""
                   && exists e :: e in rows && Live(e) && r.value[k] == PrescaledEventData(e)
  {
    if queryErr.Some? then Err(queryErr.value)
    else
      var found := FindDue(rows, Prescaled, PrescaledHorizon, now);
      var r := PrescaledAll(found);
      assert forall k :: 0 <= k < |r| ==> found[k] in rows && r[k] == PrescaledEventData(found[k]);
      Ok(r)
  }

  /** The outcome of scanning `rows` one by one: every row when all scan,
      otherwise the error of the first row that fails, and no partial result. */
  predicate ScannedAs(rows: seq<JoinedRow>, scanErr: JoinedRow -> Option<string>, r: Result<seq<JoinedRow>>)
  {
    (r.Ok? ==> r.value == rows)
    && (r.Err? <==> exists k :: 0 <= k < |rows| && scanErr(rows[k]).Some?)
    && (r.Err? ==> exists k :: 0 <= k < |rows| && scanErr(rows[k]) == Some(r.msg)
                              && forall j :: 0 <= j < k ==> scanErr(rows[j]).None?)
  }

  /** How a query that can panic ends: it returns its result, or its
      deferred close runs on a nil result and panics. */
  datatype QueryEnd<T> = Returned(result: Result<T>) | NilRowsPanic

  /** The `rows.Next()` / `rows.Scan` loop. */
  method ScanRows(rows: seq<JoinedRow>, scanErr: JoinedRow -> Option<string>) returns (r: Result<seq<JoinedRow>>)
    ensures ScannedAs(rows, scanErr, r)
  {
    var data: seq<JoinedRow> := [];
    var i := 0;
    while i < |rows|
      invariant 0 <= i <= |rows|
      invariant data == rows[..i]
      invariant forall j :: 0 <= j < i ==> scanErr(rows[j]).None?
    {
      var e := scanErr(rows[i]);
      if e.Some? {
        return Err(e.value);
      }
      data := data + [rows[i]];
      i := i + 1;
    }
    assert rows[..|rows|] == rows;
    r := Ok(data);
  }

  class EventTable {
    var rows: seq<EventRow>
    var nextId: Id

    ghost predicate Valid()
      reads this
    {
      nextId > 0
      && (forall k :: 0 <= k < |rows| ==> 0 < rows[k].id < nextId)
      && (forall i, j :: 0 <= i < j < |rows| ==> rows[i].id != rows[j].id)
    }

    constructor ()
      ensures Valid() && rows == []
    {
      rows := [];
      nextId := 1;
    }

    /** `RegisterEvents`: the row is inserted without a status, so the
        database default PENDING applies; the new id is returned. */
    method RegisterEvents(d: EventData, clock: Time, insertErr: Option<string>) returns (r: Result<Id>)
      requires Valid()
      modifies this
      ensures Valid()
      ensures insertErr.Some? ==> r == Err(insertErr.value) && rows == old(rows)
      ensures insertErr.None? ==>
                r == Ok(old(nextId))
                && rows == old(rows) + [EventRow(old(nextId), clock, clock, None, d.name, d.startTime, d.endTime,
                                                 d.cluster.id, Pending, "", d.calculateNodePool)]
    {
      if insertErr.Some? {
        return Err(insertErr.value);
      }
      rows := rows + [EventRow(nextId, clock, clock, None, d.name, d.startTime, d.endTime,
                               d.cluster.id, Pending, "", d.calculateNodePool)];
      r := Ok(nextId);
      nextId := nextId + 1;
    }

    /** `UpdateEvent` through `SaveEvent`: the row with the event's id is
        overwritten with exactly the given fields (and is live again) and the
        update time `clock`; without one, the row is inserted, under a fresh
        id when it has none. */
    method UpdateEvent(d: EventData, clock: Time, saveErr: Option<string>) returns (err: Option<string>)
      requires Valid()
      modifies this
      ensures Valid() && err == saveErr
      ensures saveErr.Some? ==> rows == old(rows)
      ensures saveErr.None? ==>
                rows == Saved(old(rows), RowOf(d, clock).(id := if d.id == NilId then old(nextId) else d.id))
    {
      if saveErr.Some? {
        return saveErr;
      }
      err := None;
      var i := 0;
      while i < |rows|
        invariant 0 <= i <= |rows|
        invariant forall k :: 0 <= k < i ==> rows[k].id != d.id
      {
        if rows[i].id == d.id {
          rows := rows[i := RowOf(d, clock)];
          return;
        }
        i := i + 1;
      }
      if d.id == NilId {
        rows := rows + [RowOf(d, clock).(id := nextId)];
        nextId := nextId + 1;
      } else {
        rows := rows + [RowOf(d, clock)];
        if d.id >= nextId {
          nextId := d.id + 1;
        }
      }
    }

    /** `DeleteEvent`: a soft delete stamping the live row with that id. */
    method DeleteEvent(id: Id, clock: Time)
      requires Valid()
      modifies this
      ensures Valid() && |rows| == |old(rows)|
      ensures forall k :: 0 <= k < |rows| ==>
                rows[k] == if old(rows)[k].id == id && Live(old(rows)[k]) then old(rows)[k].(deletedAt := Some(clock))
                           else old(rows)[k]
    {
      var i := 0;
      while i < |rows|
        invariant 0 <= i <= |rows| && |rows| == |old(rows)| && nextId == old(nextId)
        invariant forall k :: 0 <= k < |rows| ==>
                    rows[k] == if k < i && old(rows)[k].id == id && Live(old(rows)[k]) then old(rows)[k].(deletedAt := Some(clock))
                               else old(rows)[k]
      {
        if rows[i].id == id && Live(rows[i]) {
          rows := rows[i := rows[i].(deletedAt := Some(clock))];
        }
        i := i + 1;
      }
    }

    /** `FinishWatchedEvent` (and `FinishAllWatchedEvent`, which forwards
        `now`): exactly the rows `FindWatchedEvent` selects become SUCCESS,
        with the update time stamped; nothing else changes. */
    method FinishAllWatchedEvent(now: Time, clock: Time, updateErr: Option<string>) returns (err: Option<string>)
      requires Valid()
      modifies this
      ensures Valid() && |rows| == |old(rows)| && err == updateErr
      ensures updateErr.Some? ==> rows == old(rows)
      ensures updateErr.None? ==>
                forall k :: 0 <= k < |rows| ==>
                  rows[k] == if old(rows)[k] in FindWatchedEvent(old(rows), now)
                             then old(rows)[k].(status := Success, updatedAt := clock)
                             else old(rows)[k]
      ensures forall k :: 0 <= k < |rows| ==> Step(old(rows)[k].status, rows[k].status)
      ensures updateErr.None? ==> FindWatchedEvent(rows, now) == []
    {
      err := updateErr;
      if updateErr.Some? {
        return;
      }
      var i := 0;
      while i < |rows|
        invariant 0 <= i <= |rows| && |rows| == |old(rows)| && nextId == old(nextId)
        invariant forall k :: 0 <= k < |rows| ==>
                    rows[k] == if k < i && WatchedOver(old(rows)[k], now)
                               then old(rows)[k].(status := Success, updatedAt := clock)
                               else old(rows)[k]
      {
        if WatchedOver(rows[i], now) {
          rows := rows[i := rows[i].(status := Success, updatedAt := clock)];
        }
        i := i + 1;
      }
      NoneWatchedOver(rows, now);
    }

    /** The joined due-window query (`FindEventByStatusWithStarTimeBeforeMinuteAndClusterData`). */
    method FindDueWithClusterData(clusters: map<Id, ClusterRow>, dcs: map<Id, DatacenterRow>,
                                  status: EventStatus, minute: int, now: Time,
                                  queryErr: Option<string>, scanErr: JoinedRow -> Option<string>)
      returns (r: Result<seq<JoinedRow>>)
      ensures queryErr.Some? ==> r == Err(queryErr.value)
      ensures queryErr.None? ==> ScannedAs(DueJoined(rows, clusters, dcs, status, minute, now), scanErr, r)
    {
      if queryErr.Some? {
        return Err(queryErr.value);
      }
      r := ScanRows(DueJoined(rows, clusters, dcs, status, minute, now), scanErr);
    }

    /** The joined due-window query as written: `defer rows.Close()` is
        registered before `err` is checked, so a failed query leaves a nil
        result whose deferred close panics when the function returns,
        instead of the error being returned. */
    method FindDueWithClusterDataAsWritten(clusters: map<Id, ClusterRow>, dcs: map<Id, DatacenterRow>,
                                           status: EventStatus, minute: int, now: Time,
                                           queryErr: Option<string>, scanErr: JoinedRow -> Option<string>)
      returns (q: QueryEnd<seq<JoinedRow>>)
      ensures q.NilRowsPanic? <==> queryErr.Some?
      ensures q.Returned? ==> ScannedAs(DueJoined(rows, clusters, dcs, status, minute, now), scanErr, q.result)
    {
      if queryErr.Some? {
        return NilRowsPanic;
      }
      var r := ScanRows(DueJoined(rows, clusters, dcs, status, minute, now), scanErr);
      q := Returned(r);
    }

    /** `GetAllPendingExecutableEvent`: the joined query for PENDING events
        with a 60-minute horizon, each row mapped in order. */
    method GetAllPendingExecutableEvent(clusters: map<Id, ClusterRow>, dcs: map<Id, DatacenterRow>, now: Time,
                                        queryErr: Option<string>, scanErr: JoinedRow -> Option<string>)
      returns (r: Result<seq<EventData>>)
      ensures queryErr.Some? ==> r == Err(queryErr.value)
      ensures r.Ok? ==> r.value == PendingAll(DueJoined(rows, clusters, dcs, Pending, PendingHorizon, now))
      ensures queryErr.None? ==>
                (r.Err? <==> exists k :: 0 <= k < |DueJoined(rows, clusters, dcs, Pending, PendingHorizon, now)|
                                         && scanErr(DueJoined(rows, clusters, dcs, Pending, PendingHorizon, now)[k]).Some?)
    {
      var found := FindDueWithClusterData(clusters, dcs, Pending, PendingHorizon, now, queryErr, scanErr);
      if found.Err? {
        return Err(found.msg);
      }
      r := Ok(PendingAll(found.value));
    }

    /** `GetAllPendingExecutableEvent` over the query as written: the panic
        of a failed query propagates; a query that returns is mapped as in
        `GetAllPendingExecutableEvent`. */
    method GetAllPendingExecutableEventAsWritten(clusters: map<Id, ClusterRow>, dcs: map<Id, DatacenterRow>, now: Time,
                                                 queryErr: Option<string>, scanErr: JoinedRow -> Option<string>)
      returns (q: QueryEnd<seq<EventData>>)
      ensures q.NilRowsPanic? <==> queryErr.Some?
      ensures q.Returned? && q.result.Ok? ==>
                q.result.value == PendingAll(DueJoined(rows, clusters, dcs, Pending, PendingHorizon, now))
      ensures q.Returned? ==>
                (q.result.Err? <==> exists k :: 0 <= k < |DueJoined(rows, clusters, dcs, Pending, PendingHorizon, now)|
                                                && scanErr(DueJoined(rows, clusters, dcs, Pending, PendingHorizon, now)[k]).Some?)
    {
      var found := FindDueWithClusterDataAsWritten(clusters, dcs, Pending, PendingHorizon, now, queryErr, scanErr);
      if found.NilRowsPanic? {
        return NilRowsPanic;
      }
      if found.result.Err? {
        return Returned(Err(found.result.msg));
      }
      q := Returned(Ok(PendingAll(found.result.value)));
    }
  }

  lemma {:induction false} NoneWatchedOver(rows: seq<EventRow>, now: Time)
    requires forall k :: 0 <= k < |rows| ==> !WatchedOver(rows[k], now)
    ensures FindWatchedEvent(rows, now) == []
  {
    if |rows| > 0 {
      NoneWatchedOver(rows[1..], now);
    }
  }

  /** Finishing and finding select the same rows: a row is found iff the bulk
      update would change it. */
  lemma FinishedAreFound(rows: seq<EventRow>, now: Time, k: nat)
    requires k < |rows|
    ensures rows[k] in FindWatchedEvent(rows, now) <==> rows[k].status == Watching && rows[k].endTime < now && Live(rows[k])
  {
  }
}
