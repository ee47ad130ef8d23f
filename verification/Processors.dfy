/** Any number of event processors on one event store, under a shared clock that never goes back.
    A processor that has not finished within the stuck threshold of its claim writes no more. */
module Processors {
  import opened Wrappers
  import opened Amounts
  import opened EventQueue
  import QueueRuns

  /** The attempt a processor is working on: the counter tells attempts of one event apart. */
  datatype Claim = Claim(event: nat, attempt: int, claimedAt: Timestamp)

  datatype World = World(table: Table, now: Timestamp, holding: map<nat, Claim>)

  datatype Step =
    | Advance(elapsed: nat)
    | Enqueue(payload: EventPayload, scheduledOn: Option<Timestamp>)
    | ResetStuck(locked: set<nat>)
    | ClaimNext(processor: nat, locked: set<nat>)
    | Finish(processor: nat, ok: bool)
    | Vanish(processor: nat)

  predicate Live(config: Config, w: World, processor: nat) {
    processor in w.holding && w.now <= w.holding[processor].claimedAt + config.Threshold()
  }

  /** Steps that are not enabled leave the world as it is. */
  function Next(config: Config, w: World, step: Step): World {
    match step
    case Advance(elapsed) => w.(now := w.now + elapsed)
    case Enqueue(payload, scheduledOn) => w.(table := w.table + [NewEntry(payload, scheduledOn, w.now)])
    case ResetStuck(locked) =>
      if config.ThresholdValid() then w.(table := AfterReset(config, w.table, w.now, locked)) else w
    case ClaimNext(p, locked) =>
      var ids := Pick(w.table, 0, 1, w.now, locked);
      if p in w.holding || ids == [] then w
      else
        var claim := Claim(ids[0], w.table[ids[0]].attemptCount + 1, w.now);
        w.(table := AfterClaim(w.table, ids, w.now), holding := w.holding[p := claim])
    case Finish(p, ok) =>
      if Live(config, w, p)
      then w.(table := AfterFinish(config, w.table, w.holding[p].event, ok, w.now), holding := w.holding - {p})
      else w
    case Vanish(p) => w.(holding := w.holding - {p})
  }

  function Run(config: Config, start: Timestamp, steps: seq<Step>): World {
    if steps == [] then World([], start, map[])
    else Next(config, Run(config, start, steps[..|steps| - 1]), steps[|steps| - 1])
  }

  /** The event is in progress on exactly this attempt. */
  predicate Current(w: World, claim: Claim) {
    && claim.event < |w.table|
    && w.table[claim.event].status.InProgress?
    && w.table[claim.event].attemptCount == claim.attempt
    && w.table[claim.event].statusUpdatedAt == claim.claimedAt
  }

  predicate ClaimsOk(config: Config, w: World) {
    && (forall p <- w.holding :: w.holding[p].event < |w.table|)
    && (forall p <- w.holding :: w.holding[p].attempt <= w.table[w.holding[p].event].attemptCount)
    && (forall p <- w.holding :: w.holding[p].claimedAt <= w.now)
    && (forall p <- w.holding :: Live(config, w, p) ==> Current(w, w.holding[p]))
  }

  /** No attempt is ever claimed twice. */
  predicate AttemptsApart(w: World) {
    forall p, q :: p in w.holding && q in w.holding && p != q && w.holding[p].event == w.holding[q].event ==>
      w.holding[p].attempt != w.holding[q].attempt
  }

  predicate Inv(config: Config, w: World) {
    ClaimsOk(config, w) && AttemptsApart(w)
  }

  function AfterClaimOne(w: World, p: nat, id: nat): World
    requires id < |w.table|
  {
    w.(table := w.table[id := ClaimedEntry(w.table[id], w.now)],
       holding := w.holding[p := Claim(id, w.table[id].attemptCount + 1, w.now)])
  }

  lemma ClaimOneKeepsInv(config: Config, w: World, p: nat, id: nat)
    requires Inv(config, w) && p !in w.holding && id < |w.table| && w.table[id].status.Pending?
    ensures Inv(config, AfterClaimOne(w, p, id))
  {
    var after := AfterClaimOne(w, p, id);
    forall q | q in after.holding && Live(config, after, q)
      ensures Current(after, after.holding[q])
    {
      assert q != p ==> Live(config, w, q) && Current(w, w.holding[q]);
    }
  }

  lemma ClaimsOne(w: World, locked: set<nat>)
    ensures var ids := Pick(w.table, 0, 1, w.now, locked);
      ids != [] ==>
        && ids == [ids[0]]
        && w.table[ids[0]].status.Pending?
        && AfterClaim(w.table, ids, w.now) == w.table[ids[0] := ClaimedEntry(w.table[ids[0]], w.now)]
  {
    PickedAreFirst(w.table, 0, 1, w.now, locked);
  }

  lemma ClaimKeepsInv(config: Config, w: World, p: nat, locked: set<nat>)
    requires Inv(config, w)
    ensures Inv(config, Next(config, w, ClaimNext(p, locked)))
  {
    hide ClaimsOk, AttemptsApart, Pick;
    ClaimsOne(w, locked);
    var ids := Pick(w.table, 0, 1, w.now, locked);
    if p !in w.holding && ids != [] {
      ClaimOneKeepsInv(config, w, p, ids[0]);
      assert Next(config, w, ClaimNext(p, locked)) == AfterClaimOne(w, p, ids[0]);
    }
  }

  lemma FinishKeepsInv(config: Config, w: World, p: nat, ok: bool)
    requires Inv(config, w)
    ensures Inv(config, Next(config, w, Finish(p, ok)))
  {
    var after := Next(config, w, Finish(p, ok));
    if Live(config, w, p) {
      forall q | q in after.holding && Live(config, after, q)
        ensures Current(after, after.holding[q])
      {
        assert Live(config, w, q);
        assert Current(w, w.holding[q]) && Current(w, w.holding[p]);
      }
    }
  }

  lemma ResetKeepsInv(config: Config, w: World, locked: set<nat>)
    requires Inv(config, w)
    ensures Inv(config, Next(config, w, ResetStuck(locked)))
  {
    var after := Next(config, w, ResetStuck(locked));
    forall q | q in after.holding && Live(config, after, q)
      ensures Current(after, after.holding[q])
    {
      assert Live(config, w, q);
    }
  }

  lemma StepKeepsInv(config: Config, w: World, step: Step)
    requires Inv(config, w)
    ensures Inv(config, Next(config, w, step))
  {
    match step
    case Advance(_) =>
      var after := Next(config, w, step);
      assert forall p <- w.holding :: Live(config, after, p) ==> Live(config, w, p);
    case Enqueue(_, _) =>
      var after := Next(config, w, step);
      assert forall p <- w.holding :: Live(config, after, p) ==> Live(config, w, p);
    case ResetStuck(locked) => ResetKeepsInv(config, w, locked);
    case ClaimNext(p, locked) => ClaimKeepsInv(config, w, p, locked);
    case Finish(p, ok) => FinishKeepsInv(config, w, p, ok);
    case Vanish(p) =>
      var after := Next(config, w, step);
      assert forall q <- after.holding :: Live(config, after, q) ==> Live(config, w, q);
  }

  lemma {:induction false} RunKeepsInv(config: Config, start: Timestamp, steps: seq<Step>)
    ensures Inv(config, Run(config, start, steps))
  {
    if steps != [] {
      RunKeepsInv(config, start, steps[..|steps| - 1]);
      StepKeepsInv(config, Run(config, start, steps[..|steps| - 1]), steps[|steps| - 1]);
    }
  }

  /** In every run at most one live processor holds any event. */
  lemma TimedMutualExclusion(config: Config, start: Timestamp, steps: seq<Step>, p: nat, q: nat)
    requires var w := Run(config, start, steps);
      && p != q && p in w.holding && q in w.holding
      && w.now <= w.holding[p].claimedAt + config.stuckThresholdSec * 1_000_000
      && w.now <= w.holding[q].claimedAt + config.stuckThresholdSec * 1_000_000
    ensures var w := Run(config, start, steps); w.holding[p].event != w.holding[q].event
  {
    RunKeepsInv(config, start, steps);
    var w := Run(config, start, steps);
    assert Live(config, w, p) && Live(config, w, q);
    assert Current(w, w.holding[p]) && Current(w, w.holding[q]);
  }

  /** In every run a live processor's complete or fail is accepted, and ends its own attempt. */
  lemma LiveFinishAccepted(config: Config, start: Timestamp, steps: seq<Step>, p: nat, ok: bool)
    requires var w := Run(config, start, steps);
      p in w.holding && w.now <= w.holding[p].claimedAt + config.stuckThresholdSec * 1_000_000
    ensures var w := Run(config, start, steps); var claim := w.holding[p];
      && Current(w, claim)
      && FinishError(w.table, claim.event).None?
      && var after := Next(config, w, Finish(p, ok)).table[claim.event];
         && after.attemptCount == claim.attempt
         && after.status == if ok then Completed else if claim.attempt >= config.AttemptLimit() then Failed else Pending
  {
    RunKeepsInv(config, start, steps);
    assert Live(config, Run(config, start, steps), p);
  }

  /** The repository call a step makes, if any. */
  function CallOf(config: Config, w: World, step: Step): Option<QueueRuns.QueueOp> {
    match step
    case Enqueue(payload, scheduledOn) => Some(QueueRuns.Add(payload, scheduledOn, w.now))
    case ResetStuck(locked) => Some(QueueRuns.Reset(w.now, locked))
    case ClaimNext(p, locked) => if p in w.holding then None else Some(QueueRuns.Claim(1, w.now, locked))
    case Finish(p, ok) => if Live(config, w, p) then Some(QueueRuns.Finish(w.holding[p].event, ok, w.now)) else None
    case Advance(_) => None
    case Vanish(_) => None
  }

  lemma StepIsCall(config: Config, w: World, step: Step)
    ensures var call := CallOf(config, w, step);
      Next(config, w, step).table == if call.None? then w.table else QueueRuns.Apply(config, w.table, call.value)
  {
  }

  ghost predicate QueueReachable(config: Config, table: Table) {
    exists ops :: table == QueueRuns.Run(config, ops)
  }

  /** Whatever the processors do, their table is one that repository calls lead to, so what holds of
      all runs of the queue holds of it. */
  lemma {:induction false} ProcessorsRunTheQueue(config: Config, start: Timestamp, steps: seq<Step>)
    ensures QueueReachable(config, Run(config, start, steps).table)
    ensures QueueRuns.TableOk(config, Run(config, start, steps).table)
  {
    hide Next;
    if steps == [] {
      assert [] == QueueRuns.Run(config, []);
    } else {
      var w, step := Run(config, start, steps[..|steps| - 1]), steps[|steps| - 1];
      ProcessorsRunTheQueue(config, start, steps[..|steps| - 1]);
      StepIsCall(config, w, step);
      var ops :| w.table == QueueRuns.Run(config, ops);
      if CallOf(config, w, step).Some? {
        var longer := ops + [CallOf(config, w, step).value];
        assert longer[..|ops|] == ops;
        assert Run(config, start, steps).table == QueueRuns.Run(config, longer);
      }
    }
    var ops :| Run(config, start, steps).table == QueueRuns.Run(config, ops);
    QueueRuns.QueueInvariant(config, ops);
  }

  lemma RunOneMore(config: Config, start: Timestamp, steps: seq<Step>, step: Step)
    ensures Run(config, start, steps + [step]) == Next(config, Run(config, start, steps), step)
  {
    assert (steps + [step])[..|steps|] == steps;
  }

  lemma ClaimTheOnlyEvent(config: Config, w: World, p: nat)
    requires |w.table| == 1 && w.table[0].Claimable(w.now) && p !in w.holding
    ensures Next(config, w, ClaimNext(p, {})) == AfterClaimOne(w, p, 0)
  {
    assert Pick(w.table, 0, 1, w.now, {}) == [0];
    assert AfterClaim(w.table, [0], w.now) == w.table[0 := ClaimedEntry(w.table[0], w.now)];
  }

  lemma ResetTheOnlyEvent(config: Config, w: World)
    requires config.ThresholdValid() && |w.table| == 1 && config.Stuck(w.table[0], w.now)
    ensures Next(config, w, ResetStuck({})) == w.(table := [ResetEntry(config, w.table[0], w.now)])
  {
    assert AfterReset(config, w.table, w.now, {}) == [ResetEntry(config, w.table[0], w.now)];
  }

  /** One event, claimed by processor 0, which is then silent; it is reset and claimed by processor 1. */
  function OverdueSteps(payload: EventPayload, late: nat): seq<Step> {
    [Enqueue(payload, None), ClaimNext(0, {}), Advance(late), ResetStuck({}), ClaimNext(1, {})]
  }

  /** If an event has a second attempt, the deadline cannot be moved by one clock unit: when a processor
      has been silent for longer than the threshold, its event may be in other hands, and its write
      would be taken for theirs. `LateProcessors` says exactly when. */
  lemma OverdueWriteHitsAnotherAttempt(config: Config, payload: EventPayload, late: nat)
    requires config.ThresholdValid() && config.AttemptLimit() >= 2 && late > config.Threshold()
    ensures var w := Run(config, 0, OverdueSteps(payload, late));
      && w.now == late && |w.table| == 1 && w.table[0].attemptCount == 2
      && 0 in w.holding && w.holding[0] == Claim(0, 1, 0)
      && Live(config, w, 1) && w.holding[1] == Claim(0, 2, late) && Current(w, w.holding[1])
      && FinishError(w.table, 0).None?
  {
    hide Run, Next, AfterFinish;
    var s1 := [Enqueue(payload, None)];
    var s2 := s1 + [ClaimNext(0, {})];
    var s3 := s2 + [Advance(late)];
    var s4 := s3 + [ResetStuck({})];
    TheOnlyEvent(config, payload);
    RunOneMore(config, 0, s1, ClaimNext(0, {}));
    ClaimTheOnlyEvent(config, Run(config, 0, s1), 0);
    RunOneMore(config, 0, s2, Advance(late));
    TimePasses(config, Run(config, 0, s2), late);
    RunOneMore(config, 0, s3, ResetStuck({}));
    ResetTheOnlyEvent(config, Run(config, 0, s3));
    RunOneMore(config, 0, s4, ClaimNext(1, {}));
    ClaimTheOnlyEvent(config, Run(config, 0, s4), 1);
    assert s4 + [ClaimNext(1, {})] == OverdueSteps(payload, late);
  }

  lemma TheOnlyEvent(config: Config, payload: EventPayload)
    ensures Run(config, 0, [Enqueue(payload, None)]) == World([NewEntry(payload, None, 0)], 0, map[])
  {
    var steps := [Enqueue(payload, None)];
    assert steps[..0] == [];
    assert Run(config, 0, steps[..0]) == World([], 0, map[]);
  }

  lemma TimePasses(config: Config, w: World, elapsed: nat)
    ensures Next(config, w, Advance(elapsed)) == w.(now := w.now + elapsed)
  {
  }
}
