/** Processors that write up to some deadline after their claim, which may be longer than the stuck
    threshold. Everything else is as in `Processors`. */
module LateProcessors {
  import opened Wrappers
  import opened Amounts
  import opened EventQueue
  import QueueRuns
  import P = Processors

  predicate InTime(deadline: nat, w: P.World, p: nat) {
    p in w.holding && w.now <= w.holding[p].claimedAt + deadline
  }

  function Next(config: Config, deadline: nat, w: P.World, step: P.Step): P.World {
    match step
    case Finish(p, ok) =>
      if InTime(deadline, w, p)
      then w.(table := AfterFinish(config, w.table, w.holding[p].event, ok, w.now), holding := w.holding - {p})
      else w
    case _ => P.Next(config, w, step)
  }

  function Run(config: Config, deadline: nat, start: Timestamp, steps: seq<P.Step>): P.World {
    if steps == [] then P.World([], start, map[])
    else Next(config, deadline, Run(config, deadline, start, steps[..|steps| - 1]), steps[|steps| - 1])
  }

  /** A write that would be accepted now, and would end an attempt that is not its own. */
  predicate Misdirected(deadline: nat, w: P.World, p: nat) {
    && InTime(deadline, w, p)
    && FinishError(w.table, w.holding[p].event).None?
    && w.table[w.holding[p].event].attemptCount != w.holding[p].attempt
  }

  /** The same at the deadline itself, with the event in the hands of another processor. */
  predicate Stolen(deadline: nat, w: P.World, p: nat, q: nat) {
    && Misdirected(deadline, w, p)
    && w.now == w.holding[p].claimedAt + deadline
    && q in w.holding && q != p && w.holding[q].event == w.holding[p].event
    && P.Current(w, w.holding[q])
  }

  // ---- What holds for every deadline ----

  predicate AttemptsOk(config: Config, w: P.World) {
    && QueueRuns.TableOk(config, w.table)
    && (forall p <- w.holding :: w.holding[p].event < |w.table|)
    && (forall p <- w.holding :: 1 <= w.holding[p].attempt <= w.table[w.holding[p].event].attemptCount)
    && P.AttemptsApart(w)
  }

  /** The repository call a step makes, if any. */
  function CallOf(deadline: nat, w: P.World, step: P.Step): Option<QueueRuns.QueueOp> {
    match step
    case Enqueue(payload, scheduledOn) => Some(QueueRuns.Add(payload, scheduledOn, w.now))
    case ResetStuck(locked) => Some(QueueRuns.Reset(w.now, locked))
    case ClaimNext(p, locked) => if p in w.holding then None else Some(QueueRuns.Claim(1, w.now, locked))
    case Finish(p, ok) =>
      if InTime(deadline, w, p) then Some(QueueRuns.Finish(w.holding[p].event, ok, w.now)) else None
    case Advance(_) => None
    case Vanish(_) => None
  }

  lemma StepIsCall(config: Config, deadline: nat, w: P.World, step: P.Step)
    ensures var call := CallOf(deadline, w, step);
      Next(config, deadline, w, step).table
      == if call.None? then w.table else QueueRuns.Apply(config, w.table, call.value)
  {
  }

  lemma ClaimKeepsAttempts(config: Config, deadline: nat, w: P.World, p: nat, locked: set<nat>)
    requires AttemptsOk(config, w)
    ensures var after := Next(config, deadline, w, P.ClaimNext(p, locked));
      QueueRuns.TableOk(config, after.table) ==> AttemptsOk(config, after)
  {
    hide Pick, AfterClaim;
    P.ClaimsOne(w, locked);
    var ids := Pick(w.table, 0, 1, w.now, locked);
    assert ids != [] ==> QueueRuns.EntryOk(config, w.table[ids[0]]);
    hide QueueRuns.TableOk;
  }

  lemma StepKeepsAttempts(config: Config, deadline: nat, w: P.World, step: P.Step)
    requires AttemptsOk(config, w)
    ensures AttemptsOk(config, Next(config, deadline, w, step))
  {
    hide QueueRuns.TableOk, QueueRuns.Apply, AfterFinish, AfterReset, AfterClaim, Pick;
    var call := CallOf(deadline, w, step);
    StepIsCall(config, deadline, w, step);
    if call.Some? {
      QueueRuns.StepKeepsQueue(config, w.table, call.value);
    }
    if step.ClaimNext? {
      hide Next;
      ClaimKeepsAttempts(config, deadline, w, step.processor, step.locked);
    }
  }

  lemma {:induction false} RunKeepsAttempts(config: Config, deadline: nat, start: Timestamp, steps: seq<P.Step>)
    ensures AttemptsOk(config, Run(config, deadline, start, steps))
  {
    if steps != [] {
      hide Next;
      RunKeepsAttempts(config, deadline, start, steps[..|steps| - 1]);
      StepKeepsAttempts(config, deadline, Run(config, deadline, start, steps[..|steps| - 1]), steps[|steps| - 1]);
    }
  }

  // ---- Why no write goes astray ----

  /** Without a working reset, whoever holds an event holds its current attempt. */
  predicate AllCurrent(w: P.World) {
    forall p <- w.holding :: P.Current(w, w.holding[p])
  }

  lemma StepKeepsCurrent(config: Config, deadline: nat, w: P.World, step: P.Step)
    requires !config.ThresholdValid() && AttemptsOk(config, w) && AllCurrent(w)
    ensures AllCurrent(Next(config, deadline, w, step))
  {
    hide QueueRuns.TableOk, Pick;
    if step.ClaimNext? {
      P.ClaimsOne(w, step.locked);
    }
  }

  lemma {:induction false} NoResetKeepsCurrent(config: Config, deadline: nat, start: Timestamp, steps: seq<P.Step>)
    requires !config.ThresholdValid()
    ensures AllCurrent(Run(config, deadline, start, steps))
  {
    if steps != [] {
      hide Next;
      var front := steps[..|steps| - 1];
      NoResetKeepsCurrent(config, deadline, start, front);
      RunKeepsAttempts(config, deadline, start, front);
      StepKeepsCurrent(config, deadline, Run(config, deadline, start, front), steps[|steps| - 1]);
    }
  }

  /** Within the threshold this is the protocol of `Processors`. */
  lemma {:induction false} EarlyRunKeepsInv(config: Config, deadline: nat, start: Timestamp, steps: seq<P.Step>)
    requires deadline <= config.Threshold()
    ensures P.Inv(config, Run(config, deadline, start, steps))
  {
    if steps != [] {
      hide P.Inv;
      var w, step := Run(config, deadline, start, steps[..|steps| - 1]), steps[|steps| - 1];
      EarlyRunKeepsInv(config, deadline, start, steps[..|steps| - 1]);
      P.StepKeepsInv(config, w, step);
    } else {
      P.RunKeepsInv(config, start, []);
    }
  }

  /** With a single attempt, or without a working reset, no event is ever held twice, however late
      its processor is. */
  lemma NeverHeldTwice(config: Config, deadline: nat, start: Timestamp, steps: seq<P.Step>, p: nat, q: nat)
    requires config.AttemptLimit() <= 1 || !config.ThresholdValid()
    requires var w := Run(config, deadline, start, steps); p in w.holding && q in w.holding && p != q
    ensures var w := Run(config, deadline, start, steps); w.holding[p].event != w.holding[q].event
  {
    RunKeepsAttempts(config, deadline, start, steps);
    var w := Run(config, deadline, start, steps);
    assert QueueRuns.EntryOk(config, w.table[w.holding[p].event]);
    if !config.ThresholdValid() {
      NoResetKeepsCurrent(config, deadline, start, steps);
      assert P.Current(w, w.holding[p]) && P.Current(w, w.holding[q]);
    }
  }

  lemma NoneMisdirected(config: Config, deadline: nat, start: Timestamp, steps: seq<P.Step>, p: nat)
    requires !config.ThresholdValid() || config.AttemptLimit() <= 1 || deadline <= config.Threshold()
    ensures !Misdirected(deadline, Run(config, deadline, start, steps), p)
  {
    var w := Run(config, deadline, start, steps);
    RunKeepsAttempts(config, deadline, start, steps);
    if p in w.holding {
      assert QueueRuns.EntryOk(config, w.table[w.holding[p].event]);
    }
    if !config.ThresholdValid() {
      NoResetKeepsCurrent(config, deadline, start, steps);
    } else if deadline <= config.Threshold() {
      EarlyRunKeepsInv(config, deadline, start, steps);
      assert InTime(deadline, w, p) ==> P.Live(config, w, p);
    }
  }

  // ---- When one does ----

  predicate NoFinish(steps: seq<P.Step>) {
    forall i :: 0 <= i < |steps| ==> !steps[i].Finish?
  }

  lemma {:induction false} WithoutFinishAlike(config: Config, deadline: nat, start: Timestamp, steps: seq<P.Step>)
    requires NoFinish(steps)
    ensures Run(config, deadline, start, steps) == P.Run(config, start, steps)
  {
    hide P.Next;
    if steps != [] {
      WithoutFinishAlike(config, deadline, start, steps[..|steps| - 1]);
    }
  }

  lemma DeadlineIsStolen(config: Config, deadline: nat)
    requires config.ThresholdValid() && config.AttemptLimit() >= 2 && deadline > config.Threshold()
    ensures exists start, steps, p, q :: Stolen(deadline, Run(config, deadline, start, steps), p, q)
  {
    hide P.Run, Run;
    var steps := P.OverdueSteps(NoOp, deadline);
    P.OverdueWriteHitsAnotherAttempt(config, NoOp, deadline);
    WithoutFinishAlike(config, deadline, 0, steps);
    assert Stolen(deadline, Run(config, deadline, 0, steps), 0, 1);
  }

  /** Resets work, an event has a second attempt, and the deadline is longer than the threshold. */
  predicate DeadlineTooLong(config: Config, deadline: nat) {
    && config.stuckThresholdSec < 86_400
    && 2 <= config.maxProcessingAttempts < 0x8000_0000
    && deadline > config.stuckThresholdSec * 1_000_000
  }

  /** Exactly when letting processors write up to `deadline` after their claim can go wrong: there is a
      run in which a write in time is accepted for somebody else's attempt, or just so a run in which
      that happens at the deadline with the event in other hands. */
  lemma LateWriteGoesAstrayExactlyIf(config: Config, deadline: nat)
    ensures (exists start, steps, p :: Misdirected(deadline, Run(config, deadline, start, steps), p))
       <==> DeadlineTooLong(config, deadline)
    ensures (exists start, steps, p, q :: Stolen(deadline, Run(config, deadline, start, steps), p, q))
       <==> DeadlineTooLong(config, deadline)
  {
    hide Run, Misdirected;
    if DeadlineTooLong(config, deadline) {
      DeadlineIsStolen(config, deadline);
      var start, steps, p, q :| Stolen(deadline, Run(config, deadline, start, steps), p, q);
      assert Misdirected(deadline, Run(config, deadline, start, steps), p);
    } else {
      forall start, steps, p
        ensures !Misdirected(deadline, Run(config, deadline, start, steps), p)
      {
        NoneMisdirected(config, deadline, start, steps, p);
      }
    }
  }
}
