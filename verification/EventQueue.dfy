/** The `event_store` table as a value: one function per repository call, applied atomically.
    Row k of the sequence is the k-th row inserted, so its index stands for its serial id. `locked`
    are the rows other transactions hold, which `FOR UPDATE SKIP LOCKED` passes over. */
module EventQueue {
  import opened Wrappers
  import opened Amounts

  type Timestamp = int

  const MICROS_PER_SEC := 1_000_000

  const SECONDS_PER_DAY := 86_400

  datatype EventStatus = Pending | InProgress | Completed | Failed {
    predicate Terminal() {
      Completed? || Failed?
    }
  }

  datatype EventPayload =
    | NoOp
    | InvoicePaid(invoiceId: nat)
    | PaymentIntentPaymentFailed(paymentIntent: nat)
    | PaymentIntentAmountCapturableUpdated(paymentIntent: nat)
    | PaymentIntentSucceeded(paymentIntent: nat)
    | PaymentIntentCapture(orderId: nat)
    | PaymentExpired(invoiceId: nat)
    | PayoutInitiated(payoutId: nat)

  datatype EventEntry = EventEntry(
    payload: EventPayload,
    status: EventStatus,
    attemptCount: int,
    createdAt: Timestamp,
    statusUpdatedAt: Timestamp,
    scheduledOn: Option<Timestamp>
  ) {
    predicate DueBy(now: Timestamp) {
      scheduledOn.None? || scheduledOn.value <= now
    }

    predicate Claimable(now: Timestamp) {
      status.Pending? && DueBy(now)
    }
  }

  type Table = seq<EventEntry>

  datatype Config = Config(maxProcessingAttempts: U32, stuckThresholdSec: U32) {
    /** `max_processing_attempts as i32`, which wraps above 2^31 - 1. */
    function AttemptLimit(): I32 {
      if maxProcessingAttempts < 0x8000_0000 then maxProcessingAttempts else maxProcessingAttempts - 0x1_0000_0000
    }

    /** Whether the threshold is a time of day; if not, every reset fails. */
    predicate ThresholdValid() {
      stuckThresholdSec < SECONDS_PER_DAY
    }

    function Threshold(): int {
      stuckThresholdSec * MICROS_PER_SEC
    }

    /** The status of an event whose attempt did not succeed. */
    function AfterFailure(attemptCount: int): EventStatus {
      if attemptCount >= AttemptLimit() then Failed else Pending
    }

    predicate Stuck(entry: EventEntry, now: Timestamp) {
      entry.status.InProgress? && entry.statusUpdatedAt + Threshold() < now
    }
  }

  datatype QueueError = NotFound | WrongStatus(status: EventStatus) | InvalidThreshold

  function NewEntry(payload: EventPayload, scheduledOn: Option<Timestamp>, now: Timestamp): EventEntry {
    EventEntry(payload, Pending, 0, now, now, scheduledOn)
  }

  /** The first `limit` claimable unlocked ids from `start` on, in id order. */
  function Pick(table: Table, start: nat, limit: nat, now: Timestamp, locked: set<nat>): (ids: seq<nat>)
    requires start <= |table|
    ensures forall i :: 0 <= i < |ids| ==> start <= ids[i] < |table|
    decreases |table| - start
  {
    if start == |table| || limit == 0 then []
    else if table[start].Claimable(now) && start !in locked then
      [start] + Pick(table, start + 1, limit - 1, now, locked)
    else Pick(table, start + 1, limit, now, locked)
  }

  function ClaimedEntry(entry: EventEntry, now: Timestamp): EventEntry {
    entry.(attemptCount := entry.attemptCount + 1, status := InProgress, statusUpdatedAt := now)
  }

  function AfterClaim(table: Table, ids: seq<nat>, now: Timestamp): (after: Table)
    ensures |after| == |table|
    ensures forall i :: 0 <= i < |table| ==> after[i] == if i in ids then ClaimedEntry(table[i], now) else table[i]
  {
    seq(|table|, i requires 0 <= i < |table| => if i in ids then ClaimedEntry(table[i], now) else table[i])
  }

  function ResetEntry(config: Config, entry: EventEntry, now: Timestamp): EventEntry {
    entry.(status := config.AfterFailure(entry.attemptCount), statusUpdatedAt := now)
  }

  function AfterReset(config: Config, table: Table, now: Timestamp, locked: set<nat>): (after: Table)
    ensures |after| == |table|
    ensures forall i :: 0 <= i < |table| ==>
      after[i] == if config.Stuck(table[i], now) && i !in locked then ResetEntry(config, table[i], now) else table[i]
  {
    seq(|table|, i requires 0 <= i < |table| =>
      if config.Stuck(table[i], now) && i !in locked then ResetEntry(config, table[i], now) else table[i])
  }

  /** The error `complete_event` and `fail_event` return, if any. */
  function FinishError(table: Table, id: nat): Option<QueueError> {
    if id >= |table| then Some(NotFound)
    else if !table[id].status.InProgress? then Some(WrongStatus(table[id].status))
    else None
  }

  /** The table after `complete_event` (`ok`) or `fail_event`: unchanged when it is refused. */
  function AfterFinish(config: Config, table: Table, id: nat, ok: bool, now: Timestamp): (after: Table)
    ensures |after| == |table|
  {
    if FinishError(table, id).Some? then table
    else
      var status := if ok then Completed else config.AfterFailure(table[id].attemptCount);
      table[id := table[id].(status := status, statusUpdatedAt := now)]
  }

  lemma {:induction false} PickIsOrdered(table: Table, start: nat, limit: nat, now: Timestamp, locked: set<nat>)
    requires start <= |table|
    ensures var ids := Pick(table, start, limit, now, locked);
      && |ids| <= limit
      && (forall i, j :: 0 <= i < j < |ids| ==> ids[i] < ids[j])
      && forall id <- ids :: start <= id < |table| && table[id].Claimable(now) && id !in locked
    decreases |table| - start
  {
    if start < |table| && limit > 0 {
      var takes := table[start].Claimable(now) && start !in locked;
      PickIsOrdered(table, start + 1, if takes then limit - 1 else limit, now, locked);
    }
  }

  lemma {:induction false} PickSkipsNothing(table: Table, start: nat, limit: nat, now: Timestamp, locked: set<nat>,
                                            id: nat)
    requires start <= id < |table| && table[id].Claimable(now) && id !in locked
    requires id !in Pick(table, start, limit, now, locked)
    ensures var ids := Pick(table, start, limit, now, locked);
      |ids| == limit && forall other <- ids :: other < id
    decreases |table| - start
  {
    if limit > 0 {
      var takes := table[start].Claimable(now) && start !in locked;
      assert start < id;
      PickSkipsNothing(table, start + 1, if takes then limit - 1 else limit, now, locked, id);
    }
  }

  /** What claiming means: the picked ids are in order, claimable and unlocked, nothing claimable and
      unlocked below a picked id is passed over, and fewer than `limit` are picked only if no more are left. */
  lemma PickedAreFirst(table: Table, start: nat, limit: nat, now: Timestamp, locked: set<nat>)
    requires start <= |table|
    ensures var ids := Pick(table, start, limit, now, locked);
      && |ids| <= limit
      && (forall i, j :: 0 <= i < j < |ids| ==> ids[i] < ids[j])
      && (forall id <- ids :: table[id].Claimable(now) && id !in locked)
      && (forall id :: start <= id < |table| && table[id].Claimable(now) && id !in locked && id !in ids ==>
            |ids| == limit && forall other <- ids :: other < id)
  {
    hide Pick;
    PickIsOrdered(table, start, limit, now, locked);
    forall id | start <= id < |table| && table[id].Claimable(now) && id !in locked
                && id !in Pick(table, start, limit, now, locked)
      ensures |Pick(table, start, limit, now, locked)| == limit
      ensures forall other <- Pick(table, start, limit, now, locked) :: other < id
    {
      PickSkipsNothing(table, start, limit, now, locked, id);
    }
  }

  lemma PickUnrolls(table: Table, start: nat, limit: nat, now: Timestamp, locked: set<nat>)
    requires start <= |table|
    ensures Pick(table, start, limit, now, locked)
         == if start == |table| || limit == 0 then []
            else if table[start].Claimable(now) && start !in locked then
              [start] + Pick(table, start + 1, limit - 1, now, locked)
            else Pick(table, start + 1, limit, now, locked)
  {
  }
}

/** The event store repository: the table in the database, changed row by row. */
module EventStoreRepo {
  import opened Wrappers
  import opened Amounts
  import opened EventQueue

  class EventStore {
    const config: Config
    var table: Table

    constructor (config: Config)
      ensures this.config == config && table == []
    {
      this.config := config;
      table := [];
    }

    method AddEvent(payload: EventPayload, now: Timestamp) returns (id: nat)
      modifies this
      ensures id == |old(table)| && table == old(table) + [NewEntry(payload, None, now)]
      ensures |table| == id + 1 && table[..id] == old(table)
      ensures table[id].payload == payload && table[id].status.Pending? && table[id].attemptCount == 0
      ensures table[id].scheduledOn == None && table[id].createdAt == table[id].statusUpdatedAt == now
    {
      id := |table|;
      table := table + [NewEntry(payload, None, now)];
    }

    method AddScheduledEvent(payload: EventPayload, scheduledOn: Timestamp, now: Timestamp) returns (id: nat)
      modifies this
      ensures id == |old(table)| && table == old(table) + [NewEntry(payload, Some(scheduledOn), now)]
      ensures |table| == id + 1 && table[..id] == old(table)
      ensures table[id].payload == payload && table[id].status.Pending? && table[id].attemptCount == 0
      ensures table[id].scheduledOn == Some(scheduledOn) && table[id].createdAt == table[id].statusUpdatedAt == now
    {
      id := |table|;
      table := table + [NewEntry(payload, Some(scheduledOn), now)];
    }

    /** The subquery: which rows to claim. */
    method SelectClaimable(limit: U32, now: Timestamp, locked: set<nat>) returns (ids: seq<nat>)
      ensures ids == Pick(table, 0, limit, now, locked)
    {
      hide Pick;
      ids := [];
      var id := 0;
      while id < |table| && |ids| < limit
        invariant 0 <= id <= |table| && |ids| <= limit
        invariant Pick(table, 0, limit, now, locked) == ids + Pick(table, id, limit - |ids|, now, locked)
      {
        PickUnrolls(table, id, limit - |ids|, now, locked);
        if table[id].Claimable(now) && id !in locked {
          ids := ids + [id];
        }
        id := id + 1;
      }
      PickUnrolls(table, id, limit - |ids|, now, locked);
    }

    method GetEventsForProcessing(limit: U32, now: Timestamp, locked: set<nat>) returns (ids: seq<nat>)
      modifies this
      ensures ids == Pick(old(table), 0, limit, now, locked)
      ensures table == AfterClaim(old(table), ids, now)
      ensures |ids| <= limit && |table| == |old(table)|
      ensures forall id <- ids ::
        && id < |table| && id !in locked
        && old(table)[id].status.Pending?
        && (old(table)[id].scheduledOn.Some? ==> old(table)[id].scheduledOn.value <= now)
        && table[id] == old(table)[id].(status := InProgress,
                                        attemptCount := old(table)[id].attemptCount + 1,
                                        statusUpdatedAt := now)
      ensures forall i :: 0 <= i < |table| && i !in ids ==> table[i] == old(table)[i]
      ensures forall i :: (0 <= i < |table| && i !in ids && i !in locked && old(table)[i].status.Pending?
                           && (old(table)[i].scheduledOn.None? || old(table)[i].scheduledOn.value <= now)) ==>
        |ids| == limit && forall id <- ids :: id < i
    {
      PickedAreFirst(table, 0, limit, now, locked);
      ids := SelectClaimable(limit, now, locked);
      ghost var before := table;
      for id := 0 to |table|
        invariant |table| == |before|
        invariant forall i :: 0 <= i < id ==> table[i] == AfterClaim(before, ids, now)[i]
        invariant forall i :: id <= i < |table| ==> table[i] == before[i]
      {
        if id in ids {
          table := table[id := ClaimedEntry(table[id], now)];
        }
      }
      assert table == AfterClaim(before, ids, now);
    }

    method ResetStuckEvents(now: Timestamp, locked: set<nat>) returns (r: Result<seq<nat>, QueueError>)
      modifies this
      ensures r.Err? <==> !config.ThresholdValid()
      ensures r.Err? <==> config.stuckThresholdSec >= 86_400
      ensures r.Err? ==> r.error == InvalidThreshold && table == old(table)
      ensures r.Ok? ==> |table| == |old(table)| && forall i :: 0 <= i < |table| ==>
        var row := old(table)[i];
        table[i] ==
          if row.status.InProgress? && row.statusUpdatedAt + config.stuckThresholdSec * 1_000_000 < now && i !in locked
          then row.(status := if row.attemptCount >= config.AttemptLimit() then Failed else Pending,
                    statusUpdatedAt := now)
          else row
      ensures r.Ok? ==> table == AfterReset(config, old(table), now, locked)
      ensures r.Ok? ==>
        forall i :: i in r.value <==> 0 <= i < |table| && config.Stuck(old(table)[i], now) && i !in locked
    {
      if !config.ThresholdValid() {
        return Err(InvalidThreshold);
      }
      var ids: seq<nat> := [];
      ghost var before := table;
      for id := 0 to |table|
        invariant |table| == |before|
        invariant forall i :: i in ids <==> 0 <= i < id && config.Stuck(before[i], now) && i !in locked
        invariant forall i :: 0 <= i < |table| ==>
          table[i] == if i in ids then ResetEntry(config, before[i], now) else before[i]
      {
        if config.Stuck(table[id], now) && id !in locked {
          table := table[id := ResetEntry(config, table[id], now)];
          ids := ids + [id];
        }
      }
      return Ok(ids);
    }

    method CompleteEvent(id: nat, now: Timestamp) returns (r: Result<EventEntry, QueueError>)
      modifies this
      ensures table == AfterFinish(config, old(table), id, true, now)
      ensures r.Ok? <==> id < |old(table)| && old(table)[id].status.InProgress?
      ensures table == if r.Ok? then old(table)[id := old(table)[id].(status := Completed, statusUpdatedAt := now)]
                       else old(table)
      ensures r == if FinishError(old(table), id).Some? then Err(FinishError(old(table), id).value) else Ok(table[id])
    {
      if id >= |table| {
        return Err(NotFound);
      }
      if table[id].status != InProgress {
        return Err(WrongStatus(table[id].status));
      }
      table := table[id := table[id].(status := Completed, statusUpdatedAt := now)];
      return Ok(table[id]);
    }

    method FailEvent(id: nat, now: Timestamp) returns (r: Result<EventEntry, QueueError>)
      modifies this
      ensures table == AfterFinish(config, old(table), id, false, now)
      ensures r.Ok? <==> id < |old(table)| && old(table)[id].status.InProgress?
      ensures r.Err? ==> table == old(table)
      ensures r.Ok? ==>
        var row := old(table)[id];
        table == old(table)[id := row.(status := if row.attemptCount >= config.AttemptLimit() then Failed else Pending,
                                       statusUpdatedAt := now)]
      ensures r == if FinishError(old(table), id).Some? then Err(FinishError(old(table), id).value) else Ok(table[id])
    {
      if id >= |table| {
        return Err(NotFound);
      }
      var newStatus := config.AfterFailure(table[id].attemptCount);
      if table[id].status != InProgress {
        return Err(WrongStatus(table[id].status));
      }
      table := table[id := table[id].(status := newStatus, statusUpdatedAt := now)];
      return Ok(table[id]);
    }
  }
}
