/** Every run of the event store: any calls, in any order, by any callers, at any clock readings. */
module QueueRuns {
  import opened Wrappers
  import opened Amounts
  import opened EventQueue

  datatype QueueOp =
    | Add(payload: EventPayload, scheduledOn: Option<Timestamp>, now: Timestamp)
    | Claim(limit: nat, now: Timestamp, locked: set<nat>)
    | Reset(now: Timestamp, locked: set<nat>)
    | Finish(id: nat, ok: bool, now: Timestamp)

  function Apply(config: Config, table: Table, op: QueueOp): Table {
    match op
    case Add(payload, scheduledOn, now) => table + [NewEntry(payload, scheduledOn, now)]
    case Claim(limit, now, locked) => AfterClaim(table, Pick(table, 0, limit, now, locked), now)
    case Reset(now, locked) => if config.ThresholdValid() then AfterReset(config, table, now, locked) else table
    case Finish(id, ok, now) => AfterFinish(config, table, id, ok, now)
  }

  function Run(config: Config, ops: seq<QueueOp>): Table {
    if ops == [] then [] else Apply(config, Run(config, ops[..|ops| - 1]), ops[|ops| - 1])
  }

  function Max(a: int, b: int): int {
    if a >= b then a else b
  }

  predicate EntryOk(config: Config, entry: EventEntry) {
    && 0 <= entry.attemptCount <= Max(1, config.AttemptLimit())
    && (entry.status.Pending? ==> entry.attemptCount == 0 || entry.attemptCount < config.AttemptLimit())
    && (entry.status.Failed? ==> entry.attemptCount >= config.AttemptLimit())
    && (!entry.status.Pending? ==> entry.attemptCount > 0)
  }

  predicate TableOk(config: Config, table: Table) {
    forall i :: 0 <= i < |table| ==> EntryOk(config, table[i])
  }

  /** What one or more calls may do to a row: terminal rows are frozen, and what was asked for stays. */
  predicate Evolves(before: EventEntry, after: EventEntry) {
    && after.payload == before.payload
    && after.scheduledOn == before.scheduledOn
    && after.createdAt == before.createdAt
    && after.attemptCount >= before.attemptCount
    && (before.status.Terminal() ==> after == before)
  }

  predicate TableEvolves(before: Table, after: Table) {
    && |before| <= |after|
    && forall i :: 0 <= i < |before| ==> Evolves(before[i], after[i])
  }

  /** A row gains an attempt only by being claimed, once, when it was pending and due. */
  predicate ClaimedOnTime(before: EventEntry, after: EventEntry, op: QueueOp) {
    after.attemptCount != before.attemptCount ==>
      && op.Claim?
      && before.Claimable(op.now)
      && after == ClaimedEntry(before, op.now)
  }

  /** The same in terms of the configured number, which from 2^31 on leaves a single attempt. */
  predicate WithinAttempts(config: Config, entry: EventEntry) {
    var most := config.maxProcessingAttempts;
    && 0 <= entry.attemptCount
    && (entry.attemptCount <= 1 || (most < 0x8000_0000 && entry.attemptCount <= most))
    && (entry.status.Pending? ==> entry.attemptCount == 0 || (most < 0x8000_0000 && entry.attemptCount < most))
    && (entry.status.Failed? ==> most >= 0x8000_0000 || entry.attemptCount >= most)
  }

  lemma StepKeepsQueue(config: Config, table: Table, op: QueueOp)
    requires TableOk(config, table)
    ensures TableOk(config, Apply(config, table, op))
    ensures TableEvolves(table, Apply(config, table, op))
    ensures forall i :: 0 <= i < |table| ==> ClaimedOnTime(table[i], Apply(config, table, op)[i], op)
  {
    if op.Claim? {
      PickedAreFirst(table, 0, op.limit, op.now, op.locked);
    }
  }

  /** In every reachable table attempts are bounded, statuses agree with them, and claiming a
      pending row cannot run the 32-bit attempt counter over. */
  lemma {:induction false} QueueInvariant(config: Config, ops: seq<QueueOp>)
    ensures TableOk(config, Run(config, ops))
    ensures forall entry <- Run(config, ops) :: entry.status.Pending? ==> entry.attemptCount + 1 < 0x8000_0000
    ensures forall entry <- Run(config, ops) :: WithinAttempts(config, entry)
  {
    if ops != [] {
      QueueInvariant(config, ops[..|ops| - 1]);
      StepKeepsQueue(config, Run(config, ops[..|ops| - 1]), ops[|ops| - 1]);
    }
    var table := Run(config, ops);
    assert forall entry <- table :: EntryOk(config, entry);
  }

  /** No row is ever lost or rewritten, and a completed or failed row never changes again. */
  lemma {:induction false} QueueHistory(config: Config, ops: seq<QueueOp>, k: nat)
    requires k <= |ops|
    ensures TableEvolves(Run(config, ops[..k]), Run(config, ops))
  {
    if k == |ops| {
      assert ops[..k] == ops;
    } else {
      var shorter := ops[..|ops| - 1];
      assert shorter[..k] == ops[..k];
      QueueHistory(config, shorter, k);
      QueueInvariant(config, shorter);
      StepKeepsQueue(config, Run(config, shorter), ops[|ops| - 1]);
    }
  }

  /** No event is ever claimed before it is due. */
  lemma ClaimsAreOnTime(config: Config, ops: seq<QueueOp>, op: QueueOp, i: nat)
    requires i < |Run(config, ops)|
    ensures ClaimedOnTime(Run(config, ops)[i], Apply(config, Run(config, ops), op)[i], op)
  {
    QueueInvariant(config, ops);
    StepKeepsQueue(config, Run(config, ops), op);
  }

  /** An event is kept as it was asked for: from its addition on its row has this payload and schedule,
      and no claim before the scheduled time touches it. */
  lemma AddedEventIsKept(config: Config, ops: seq<QueueOp>, k: nat, j: nat, payload: EventPayload,
                         scheduledOn: Option<Timestamp>, added: Timestamp)
    requires k < j <= |ops| && ops[k] == Add(payload, scheduledOn, added)
    ensures var i := |Run(config, ops[..k])|;
      && i < |Run(config, ops[..j])|
      && Run(config, ops[..j])[i].payload == payload
      && Run(config, ops[..j])[i].scheduledOn == scheduledOn
      && (j < |ops| && ops[j].Claim? && scheduledOn.Some? && ops[j].now < scheduledOn.value ==>
            i < |Run(config, ops[..j + 1])| && Run(config, ops[..j + 1])[i] == Run(config, ops[..j])[i])
  {
    var i := |Run(config, ops[..k])|;
    assert ops[..k + 1][..k] == ops[..k];
    assert ops[..j][..k + 1] == ops[..k + 1];
    assert Run(config, ops[..k + 1])[i] == NewEntry(payload, scheduledOn, added);
    QueueHistory(config, ops[..j], k + 1);
    assert Evolves(Run(config, ops[..k + 1])[i], Run(config, ops[..j])[i]);
    if j < |ops| && ops[j].Claim? {
      assert ops[..j + 1][..j] == ops[..j];
      PickedAreFirst(Run(config, ops[..j]), 0, ops[j].limit, ops[j].now, ops[j].locked);
    }
  }
}
