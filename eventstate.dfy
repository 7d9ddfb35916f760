/** internal/cron/cron.go, the two bookkeeping helpers shared by the
    executor and the watcher: the event the cron job holds in memory is
    updated in place and then saved through `UpdateEvent`; a failed save is
    only logged. */
module CronEvents {
  import opened Common
  import opened Events

  /** `*UCEntity.Event` while the cron job works on it: status and message
      are assigned in place, everything else is as it was read. */
  class Event {
    const base: EventData
    var status: EventStatus
    var message: string

    /** The event as `UpdateEvent` receives it. */
    function Data(): (d: EventData)
      reads this
      ensures d.status == status && d.message == message
      ensures d.(status := base.status, message := base.message) == base
    {
      base.(status := status, message := message)
    }

    constructor (d: EventData)
      ensures Data() == d
    {
      base := d;
      status := d.status;
      message := d.message;
    }
  }

  /** What a save through `UpdateEvent` leaves in the table: nothing changes
      on a save error; otherwise the event's row, as given and stamped at
      `clock`, replaces its earlier row (or is appended) and every other row
      stays as it was. */
  predicate SavedAs(rows: seq<EventRow>, before: seq<EventRow>, d: EventData, clock: Time, saveErr: Option<string>)
  {
    (saveErr.Some? ==> rows == before) && (saveErr.None? && d.id != NilId ==> rows == Saved(before, RowOf(d, clock)))
  }

  /** `handleExecEventError`: the event becomes FAILED with the error text as
      its message, and is saved; nothing else about it changes. */
  method HandleExecEventError(events: EventTable, e: Event, errMsg: string, clock: Time, saveErr: Option<string>)
    requires events.Valid()
    modifies events, e
    ensures events.Valid()
    ensures e.status == Failed && e.message == errMsg
    ensures SavedAs(events.rows, old(events.rows), e.Data(), clock, saveErr)
  {
    e.status := Failed;
    e.message := errMsg;
    var err := events.UpdateEvent(e.Data(), clock, saveErr);
  }

  /** `handleWatchEvent`: only the message changes, so an error while
      watching never fails the event. */
  method HandleWatchEvent(events: EventTable, e: Event, errMsg: string, clock: Time, saveErr: Option<string>)
    requires events.Valid()
    modifies events, e
    ensures events.Valid()
    ensures e.status == old(e.status) && e.message == errMsg
    ensures SavedAs(events.rows, old(events.rows), e.Data(), clock, saveErr)
  {
    e.message := errMsg;
    var err := events.UpdateEvent(e.Data(), clock, saveErr);
  }

  /** Saving the event with a new status, as the executor and the watcher do
      when they move it along its lifecycle. */
  method SaveWithStatus(events: EventTable, e: Event, status: EventStatus, clock: Time, saveErr: Option<string>)
    returns (err: Option<string>)
    requires events.Valid()
    modifies events, e
    ensures events.Valid() && err == saveErr
    ensures e.status == status && e.message == old(e.message)
    ensures SavedAs(events.rows, old(events.rows), e.Data(), clock, saveErr)
  {
    e.status := status;
    err := events.UpdateEvent(e.Data(), clock, saveErr);
  }
}
