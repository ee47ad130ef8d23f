/** The event processor: on each tick it resets stuck events, claims one event, handles it, and
    completes or fails it. A handler is an arbitrary outcome here. */
module EventHandling {
  import opened Wrappers
  import opened Amounts
  import opened EventQueue
  import opened EventStoreRepo
  import opened QueueRuns

  /** The clock readings of one tick, whether the handler it calls succeeds, and how its three calls
      to the database end. */
  datatype Tick = Tick(resetAt: Timestamp, claimAt: Timestamp, finishAt: Timestamp, handlerOk: bool,
                       reset: Outcome, claim: Outcome, finish: Outcome)
  {
    predicate Smooth() {
      reset.Succeeds? && claim.Succeeds? && finish.Succeeds?
    }
  }

  datatype TickError = ResetFailed | ClaimFailed | HandlerFailed | FinishFailed

  function AfterTick(config: Config, table: Table, tick: Tick): Table {
    if !config.ThresholdValid() || tick.reset.Fails? then table
    else
      var reset := AfterReset(config, table, tick.resetAt, {});
      if tick.reset.ReplyLost? || tick.claim.Fails? then reset
      else
        var ids := Pick(reset, 0, 1, tick.claimAt, {});
        var claimed := AfterClaim(reset, ids, tick.claimAt);
        if ids == [] || tick.claim.ReplyLost? || tick.finish.Fails? then claimed
        else AfterFinish(config, claimed, ids[0], tick.handlerOk, tick.finishAt)
  }

  function AfterTicks(config: Config, table: Table, ticks: seq<Tick>): Table {
    if ticks == [] then table
    else AfterTick(config, AfterTicks(config, table, ticks[..|ticks| - 1]), ticks[|ticks| - 1])
  }

  /** The row has had one more attempt and was completed in this tick. */
  predicate CompletedBy(before: EventEntry, after: EventEntry, tick: Tick) {
    && tick.handlerOk
    && after.attemptCount == before.attemptCount + 1
    && after.status.Completed? && !before.status.Completed? && after.statusUpdatedAt == tick.finishAt
  }

  /** The row has had one more attempt, which failed in this tick. */
  predicate FailedBy(before: EventEntry, after: EventEntry, tick: Tick) {
    && !tick.handlerOk
    && after.attemptCount == before.attemptCount + 1
    && (after.status.Pending? || after.status.Failed?) && after.statusUpdatedAt == tick.finishAt
  }

  /** One tick, alone on the table. Completing or failing the claimed event is never refused. */
  method ProcessEvents(store: EventStore, tick: Tick) returns (r: Result<bool, TickError>)
    modifies store
    ensures store.table == AfterTick(store.config, old(store.table), tick)
    ensures r == Err(ResetFailed) <==> !store.config.ThresholdValid() || !tick.reset.Succeeds?
    ensures r == Err(ClaimFailed) <==> store.config.ThresholdValid() && tick.reset.Succeeds? && !tick.claim.Succeeds?
    ensures r == Err(FinishFailed) ==> !tick.finish.Succeeds?
    ensures r == Ok(true) ==> tick.handlerOk && tick.Smooth()
    ensures r == Ok(true) ==>
      exists i :: 0 <= i < |old(store.table)| == |store.table| && CompletedBy(old(store.table)[i], store.table[i], tick)
    ensures r == Err(HandlerFailed) ==>
      exists i :: 0 <= i < |old(store.table)| == |store.table| && FailedBy(old(store.table)[i], store.table[i], tick)
    ensures r == Ok(false) ==> forall entry <- store.table :: !entry.Claimable(tick.claimAt)
  {
    hide Pick, AfterReset, AfterFinish, AfterClaim;
    if tick.reset == Fails {
      return Err(ResetFailed);
    }
    var reset := store.ResetStuckEvents(tick.resetAt, {});
    if reset.Err? || tick.reset == ReplyLost {
      return Err(ResetFailed);
    }
    if tick.claim == Fails {
      return Err(ClaimFailed);
    }
    PickedAreFirst(store.table, 0, 1, tick.claimAt, {});
    ghost var afterReset := store.table;
    var ids := store.GetEventsForProcessing(1, tick.claimAt, {});
    if tick.claim == ReplyLost {
      return Err(ClaimFailed);
    }
    if ids == [] {
      ClaimsNothing(afterReset, tick.claimAt);
      return Ok(false);
    }
    ClaimedCanFinish(afterReset, ids, tick.claimAt);
    if tick.finish == Fails {
      return Err(FinishFailed);
    }
    if tick.handlerOk {
      var completed := store.CompleteEvent(ids[0], tick.finishAt);
      assert completed.Ok?;
      return if tick.finish == ReplyLost then Err(FinishFailed) else Ok(true);
    } else {
      var failed := store.FailEvent(ids[0], tick.finishAt);
      assert failed.Ok?;
      return if tick.finish == ReplyLost then Err(FinishFailed) else Err(HandlerFailed);
    }
  }

  lemma ClaimsNothing(table: Table, now: Timestamp)
    ensures AfterClaim(table, [], now) == table
  {
  }

  lemma ClaimedCanFinish(table: Table, ids: seq<nat>, now: Timestamp)
    requires ids != [] && ids[0] < |table|
    ensures FinishError(AfterClaim(table, ids, now), ids[0]).None?
  {
    assert ids[0] in ids;
  }

  /** The timer loop over the given ticks; errors are logged and the loop goes on. */
  method RunTicks(store: EventStore, ticks: seq<Tick>)
    modifies store
    ensures store.table == AfterTicks(store.config, old(store.table), ticks)
    ensures Ready(store.config, old(store.table), ticks) && Work(store.config, old(store.table)) <= |ticks| ==>
      Drained(store.table)
  {
    for i := 0 to |ticks|
      invariant store.table == AfterTicks(store.config, old(store.table), ticks[..i])
    {
      assert ticks[..i + 1][..i] == ticks[..i];
      var _ := ProcessEvents(store, ticks[i]);
    }
    assert ticks[..|ticks|] == ticks;
    if Ready(store.config, old(store.table), ticks) {
      QueueDrains(store.config, old(store.table), ticks);
    }
  }

  // ---- How many ticks drain the queue ----

  /** The attempts an event may still take. */
  function AttemptsLeft(config: Config, entry: EventEntry): int {
    if entry.status.Pending? then Max(1, config.AttemptLimit()) - entry.attemptCount else 0
  }

  function Work(config: Config, table: Table): int {
    if table == [] then 0 else Work(config, table[..|table| - 1]) + AttemptsLeft(config, table[|table| - 1])
  }

  predicate Drained(table: Table) {
    forall i :: 0 <= i < |table| ==> table[i].status.Terminal()
  }

  predicate Idle(table: Table) {
    forall i :: 0 <= i < |table| ==> !table[i].status.InProgress?
  }

  predicate AllDue(table: Table, now: Timestamp) {
    forall i :: 0 <= i < |table| ==> table[i].DueBy(now)
  }

  /** A lone processor's table: reachable, nothing in progress, everything due at every claim, and no
      failure of the database. */
  predicate Ready(config: Config, table: Table, ticks: seq<Tick>) {
    && config.ThresholdValid()
    && TableOk(config, table)
    && Idle(table)
    && forall tick <- ticks :: AllDue(table, tick.claimAt) && tick.Smooth()
  }

  function FirstPending(table: Table): (j: nat)
    ensures j <= |table|
    ensures forall i :: 0 <= i < j ==> !table[i].status.Pending?
    ensures j < |table| ==> table[j].status.Pending?
  {
    if table == [] || table[0].status.Pending? then 0 else 1 + FirstPending(table[1..])
  }

  lemma {:induction false} WorkOfUpdate(config: Config, table: Table, j: nat, entry: EventEntry)
    requires j < |table|
    ensures Work(config, table[j := entry])
         == Work(config, table) - AttemptsLeft(config, table[j]) + AttemptsLeft(config, entry)
  {
    var n := |table| - 1;
    if j < n {
      WorkOfUpdate(config, table[..n], j, entry);
      assert table[j := entry][..n] == table[..n][j := entry];
    } else {
      assert table[j := entry][..n] == table[..n];
    }
  }

  lemma {:induction false} WorkCounts(config: Config, table: Table)
    requires TableOk(config, table) && Idle(table)
    ensures Work(config, table) >= 0
    ensures Work(config, table) == 0 <==> Drained(table)
  {
    if table != [] {
      WorkCounts(config, table[..|table| - 1]);
    }
  }

  lemma PickFirstPending(table: Table, now: Timestamp)
    requires AllDue(table, now)
    ensures Pick(table, 0, 1, now, {}) == if FirstPending(table) == |table| then [] else [FirstPending(table)]
  {
    var j, ids := FirstPending(table), Pick(table, 0, 1, now, {});
    PickedAreFirst(table, 0, 1, now, {});
    if ids != [] {
      assert ids[0] in ids;
    }
    if j < |table| && j !in ids {
      assert table[j].Claimable(now);
      assert false;
    }
  }

  function WorkedEntry(config: Config, entry: EventEntry, tick: Tick): EventEntry {
    var attempts := entry.attemptCount + 1;
    entry.(attemptCount := attempts,
           status := if tick.handlerOk then Completed else config.AfterFailure(attempts),
           statusUpdatedAt := tick.finishAt)
  }

  lemma ClaimThenFinish(config: Config, table: Table, j: nat, tick: Tick)
    requires j < |table|
    ensures AfterFinish(config, AfterClaim(table, [j], tick.claimAt), j, tick.handlerOk, tick.finishAt)
         == table[j := WorkedEntry(config, table[j], tick)]
  {
    assert AfterClaim(table, [j], tick.claimAt) == table[j := ClaimedEntry(table[j], tick.claimAt)];
  }

  lemma NothingStuck(config: Config, table: Table, now: Timestamp)
    requires Idle(table)
    ensures AfterReset(config, table, now, {}) == table
  {
  }

  /** A tick works on the pending event with the least id, and on nothing else. */
  lemma TickWorksOnFirst(config: Config, table: Table, tick: Tick)
    requires Ready(config, table, [tick])
    ensures var j := FirstPending(table);
      AfterTick(config, table, tick) == if j == |table| then table else table[j := WorkedEntry(config, table[j], tick)]
  {
    hide Pick, AfterReset, AfterFinish, AfterClaim;
    var j := FirstPending(table);
    assert tick in [tick];
    ClaimsNothing(table, tick.claimAt);
    NothingStuck(config, table, tick.resetAt);
    PickFirstPending(table, tick.claimAt);
    if j < |table| {
      ClaimThenFinish(config, table, j, tick);
    }
  }

  predicate SameSchedule(before: Table, after: Table) {
    |after| == |before| && forall i :: 0 <= i < |before| ==> after[i].scheduledOn == before[i].scheduledOn
  }

  lemma TickKeepsReady(config: Config, table: Table, tick: Tick)
    requires Ready(config, table, [tick])
    ensures var after := AfterTick(config, table, tick);
      TableOk(config, after) && Idle(after) && SameSchedule(table, after)
  {
    TickWorksOnFirst(config, table, tick);
  }

  lemma TickShrinksWork(config: Config, table: Table, tick: Tick)
    requires Ready(config, table, [tick])
    ensures var left := Work(config, AfterTick(config, table, tick));
      && left <= Max(0, Work(config, table) - 1)
      && (!tick.handlerOk ==> left == Max(0, Work(config, table) - 1))
  {
    hide AfterTick;
    var j := FirstPending(table);
    TickKeepsReady(config, table, tick);
    TickWorksOnFirst(config, table, tick);
    WorkCounts(config, table);
    WorkCounts(config, AfterTick(config, table, tick));
    if j < |table| {
      assert EntryOk(config, table[j]);
      WorkOfUpdate(config, table, j, WorkedEntry(config, table[j], tick));
    }
  }

  /** Events that were pending in `before` are terminal in `after` only if all earlier ones are. */
  predicate TerminalInOrder(before: Table, after: Table)
    requires |before| == |after|
  {
    forall i, j :: (0 <= i < j < |before| && before[i].status.Pending? && before[j].status.Pending?
                    && after[j].status.Terminal()) ==> after[i].status.Terminal()
  }

  lemma {:induction false} TicksKeepReady(config: Config, table: Table, ticks: seq<Tick>)
    requires Ready(config, table, ticks)
    ensures var after := AfterTicks(config, table, ticks);
      TableOk(config, after) && Idle(after) && SameSchedule(table, after)
  {
    if ticks != [] {
      var tick := ticks[|ticks| - 1];
      TicksKeepReady(config, table, ticks[..|ticks| - 1]);
      assert tick in ticks;
      TickKeepsReady(config, AfterTicks(config, table, ticks[..|ticks| - 1]), tick);
    }
  }

  lemma ReadyForLast(config: Config, table: Table, ticks: seq<Tick>)
    requires Ready(config, table, ticks) && ticks != []
    ensures Ready(config, table, ticks[..|ticks| - 1])
    ensures Ready(config, AfterTicks(config, table, ticks[..|ticks| - 1]), [ticks[|ticks| - 1]])
  {
    assert ticks[|ticks| - 1] in ticks;
    TicksKeepReady(config, table, ticks[..|ticks| - 1]);
  }

  /** The work shrinks with every tick. */
  lemma {:induction false} TicksShrinkWork(config: Config, table: Table, ticks: seq<Tick>)
    requires Ready(config, table, ticks)
    ensures Work(config, AfterTicks(config, table, ticks)) <= Max(0, Work(config, table) - |ticks|)
  {
    hide AfterTick;
    WorkCounts(config, table);
    if ticks != [] {
      var shorter, tick := ticks[..|ticks| - 1], ticks[|ticks| - 1];
      ReadyForLast(config, table, ticks);
      TicksShrinkWork(config, table, shorter);
      TickShrinksWork(config, AfterTicks(config, table, shorter), tick);
    }
  }

  predicate NoneSucceed(ticks: seq<Tick>) {
    forall i :: 0 <= i < |ticks| ==> !ticks[i].handlerOk
  }

  /** When no handler succeeds the work shrinks by exactly one with every tick. */
  lemma {:induction false} FailuresShrinkWorkByOne(config: Config, table: Table, ticks: seq<Tick>)
    requires Ready(config, table, ticks) && NoneSucceed(ticks)
    ensures Work(config, AfterTicks(config, table, ticks)) == Max(0, Work(config, table) - |ticks|)
  {
    hide AfterTick;
    WorkCounts(config, table);
    if ticks != [] {
      var shorter, tick := ticks[..|ticks| - 1], ticks[|ticks| - 1];
      ReadyForLast(config, table, ticks);
      FailuresShrinkWorkByOne(config, table, shorter);
      TickShrinksWork(config, AfterTicks(config, table, shorter), tick);
    }
  }

  /** Within as many ticks as there are attempts left, every event is completed or failed. When every
      handler fails it takes exactly that many, so the bound is the best one. */
  lemma QueueDrains(config: Config, table: Table, ticks: seq<Tick>)
    requires Ready(config, table, ticks)
    ensures Work(config, table) <= |ticks| ==> Drained(AfterTicks(config, table, ticks))
    ensures NoneSucceed(ticks) ==> (Drained(AfterTicks(config, table, ticks)) <==> Work(config, table) <= |ticks|)
  {
    hide AfterTick;
    TicksKeepReady(config, table, ticks);
    TicksShrinkWork(config, table, ticks);
    if NoneSucceed(ticks) {
      FailuresShrinkWorkByOne(config, table, ticks);
    }
    WorkCounts(config, AfterTicks(config, table, ticks));
  }

  /** At every moment of a drain, events have become terminal in increasing id order. */
  lemma {:induction false} DrainsInOrder(config: Config, table: Table, ticks: seq<Tick>)
    requires Ready(config, table, ticks)
    ensures |AfterTicks(config, table, ticks)| == |table|
    ensures TerminalInOrder(table, AfterTicks(config, table, ticks))
  {
    hide AfterTick;
    if ticks != [] {
      var shorter, tick := ticks[..|ticks| - 1], ticks[|ticks| - 1];
      DrainsInOrder(config, table, shorter);
      TicksKeepReady(config, table, shorter);
      assert tick in ticks;
      TickWorksOnFirst(config, AfterTicks(config, table, shorter), tick);
    }
  }

  /** With a threshold that is not a time of day nothing is ever processed. */
  lemma {:induction false} InvalidThresholdStalls(config: Config, table: Table, ticks: seq<Tick>)
    requires !config.ThresholdValid()
    ensures AfterTicks(config, table, ticks) == table
  {
    if ticks != [] {
      InvalidThresholdStalls(config, table, ticks[..|ticks| - 1]);
    }
  }
}
