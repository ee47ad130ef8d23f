/** Payout events on the queue, handled by any number of processors in small interleaved steps. */
module PayoutRuns {
  import opened Wrappers
  import opened Amounts
  import opened EventQueue
  import opened PayoutHandling
  import opened PayoutOverlap
  import P = Processors
  import QueueRuns

  /** What a delivery found when it read its payout, and whether the gateway had its transaction then. */
  datatype Reading = Reading(row: Option<Payout>, paid: bool)

  /** `lastRead` remembers the latest reading of each payout. */
  datatype World = World(queue: P.World, stages: map<nat, Stage>, outside: Outside, lastRead: map<nat, Reading>)

  datatype Step =
    | Queue(step: P.Step)
    | CreatePayout(id: nat, payout: Payout)
    | Handle(processor: nat, outcome: Outcome)

  function PayoutOf(w: World, p: nat): Option<nat>
    requires p in w.queue.holding && w.queue.holding[p].event < |w.queue.table|
  {
    var payload := w.queue.table[w.queue.holding[p].event].payload;
    if payload.PayoutInitiated? then Some(payload.payoutId) else None
  }

  predicate Initiated(table: Table, id: nat) {
    exists i :: 0 <= i < |table| && table[i].payload == PayoutInitiated(id)
  }

  /** A payout id is generated with its event, so no second event ever carries it. A processor
      finishes as its handler ended; what the handlers of other events do does not matter here. */
  predicate QueueStepEnabled(w: World, step: P.Step) {
    match step
    case Enqueue(payload, _) => !payload.PayoutInitiated? || !Initiated(w.queue.table, payload.payoutId)
    case Finish(p, ok) => p in w.stages ==> w.stages[p] == Done(ok)
    case _ => true
  }

  function Next(config: Config, w: World, step: Step): World {
    match step
    case Queue(step) =>
      if !QueueStepEnabled(w, step) then w
      else
        var queue := P.Next(config, w.queue, step);
        var kept := map p | p in w.stages && p in queue.holding :: w.stages[p];
        if step.ClaimNext? && step.processor !in w.queue.holding && step.processor in queue.holding
        then w.(queue := queue, stages := kept[step.processor := GetPayout])
        else w.(queue := queue, stages := kept)
    case CreatePayout(id, payout) =>
      if id in w.outside.payouts then w
      else w.(outside := w.outside.(payouts := w.outside.payouts[id := payout.(completed := false)]))
    case Handle(p, outcome) =>
      if p !in w.stages || !P.Live(config, w.queue, p) || w.queue.holding[p].event >= |w.queue.table| then w
      else
        match PayoutOf(w, p)
        case None => w.(stages := w.stages[p := Done(outcome.Succeeds?)])
        case Some(id) =>
          var (outside, stage) := HandlerStep(w.outside, id, w.stages[p], outcome);
          var hasRead := w.stages[p].GetPayout? && outcome.Succeeds?;
          w.(outside := outside,
             stages := w.stages[p := stage],
             lastRead := if hasRead then w.lastRead[id := ReadingOf(w.outside, id)] else w.lastRead)
  }

  function ReadingOf(o: Outside, id: nat): Reading {
    Reading(if id in o.payouts then Some(o.payouts[id]) else None, Paid(o.transactions, id))
  }

  function Run(config: Config, start: Timestamp, steps: seq<Step>): World {
    if steps == [] then World(P.Run(config, start, []), map[], Outside([], map[]), map[])
    else Next(config, Run(config, start, steps[..|steps| - 1]), steps[|steps| - 1])
  }

  // ---- The invariant ----

  predicate EventsApart(table: Table) {
    forall i, j :: 0 <= i < j < |table| && table[i].payload.PayoutInitiated? ==> table[i].payload != table[j].payload
  }

  predicate StageOkFor(config: Config, w: World, p: nat) {
    && p in w.queue.holding
    && w.queue.holding[p].event < |w.queue.table|
    && (p in w.stages && P.Live(config, w.queue, p) && PayoutOf(w, p).Some? ==>
          StageOk(w.outside, PayoutOf(w, p).value, w.stages[p]))
  }

  predicate StagesOk(config: Config, w: World) {
    forall p <- w.stages :: StageOkFor(config, w, p)
  }

  /** A live handler past its lookup has seen no transaction and still sees none. */
  predicate StageOk(o: Outside, id: nat, stage: Stage) {
    match stage
    case GetTransaction(payout) => Matches(o, id, payout)
    case GetMainAccount(payout) => Matches(o, id, payout) && !Paid(o.transactions, id)
    case CreateTransaction(payout) => Matches(o, id, payout) && !Paid(o.transactions, id)
    case _ => true
  }

  predicate Matches(o: Outside, id: nat, payout: Payout) {
    id in o.payouts && TransactionOf(id, payout) == TransactionOf(id, o.payouts[id])
  }

  /** No payout id has two transactions, and each carries its payout's own data. */
  predicate PaidOnce(o: Outside) {
    && (forall i, j :: 0 <= i < j < |o.transactions| ==> o.transactions[i].id != o.transactions[j].id)
    && (forall i :: 0 <= i < |o.transactions| ==>
          var tx := o.transactions[i]; tx.id in o.payouts && tx == TransactionOf(tx.id, o.payouts[tx.id]))
  }

  predicate Inv(config: Config, w: World) {
    P.Inv(config, w.queue) && EventsApart(w.queue.table) && StagesOk(config, w) && PaidOnce(w.outside)
  }

  /** Every queue step keeps the payload of every row and the claims of whoever stays. */
  lemma QueueStepFrame(config: Config, q: P.World, step: P.Step)
    requires P.Inv(config, q)
    ensures var q' := P.Next(config, q, step);
      && |q.table| <= |q'.table|
      && (forall i :: 0 <= i < |q.table| ==> q'.table[i].payload == q.table[i].payload)
      && (|q'.table| > |q.table| ==>
            step.Enqueue? && |q'.table| == |q.table| + 1 && q'.table[|q.table|].payload == step.payload)
      && (forall p :: p in q.holding && p in q'.holding ==> q'.holding[p] == q.holding[p])
      && (forall p :: p in q.holding && P.Live(config, q', p) ==> P.Live(config, q, p))
      && (forall p :: p in q'.holding && p !in q.holding ==> step.ClaimNext? && p == step.processor)
  {
  }

  lemma QueueStepKeepsEventsApart(config: Config, w: World, step: P.Step)
    requires Inv(config, w) && QueueStepEnabled(w, step)
    ensures EventsApart(P.Next(config, w.queue, step).table)
  {
    QueueStepFrame(config, w.queue, step);
    hide P.Next;
    hide P.Inv;
    var before, after := w.queue.table, P.Next(config, w.queue, step).table;
    forall i, j | 0 <= i < j < |after| && after[i].payload.PayoutInitiated?
      ensures after[i].payload != after[j].payload
    {
      assert after[i].payload == before[i].payload;
      if j < |before| {
        assert after[j].payload == before[j].payload;
      }
    }
  }

  lemma QueueStepKeepsStage(config: Config, w: World, step: P.Step, p: nat)
    requires P.Inv(config, w.queue) && QueueStepEnabled(w, step)
    requires P.Inv(config, P.Next(config, w.queue, step))
    requires p in w.stages ==> StageOkFor(config, w, p)
    requires p in Next(config, w, Queue(step)).stages
    ensures StageOkFor(config, Next(config, w, Queue(step)), p)
  {
    hide P.Next, P.AttemptsApart, P.Current, StageOk;
    QueueStepFrame(config, w.queue, step);
    var after := Next(config, w, Queue(step));
    if p in w.queue.holding {
      assert p in w.stages && after.stages[p] == w.stages[p];
      assert PayoutOf(after, p) == PayoutOf(w, p);
    } else {
      assert after.stages[p] == GetPayout;
      FirstStageIsOk(w.outside, PayoutOf(after, p));
    }
  }

  lemma FirstStageIsOk(o: Outside, payout: Option<nat>)
    ensures payout.Some? ==> StageOk(o, payout.value, GetPayout)
  {
  }

  lemma QueueStepKeepsInv(config: Config, w: World, step: P.Step)
    requires Inv(config, w)
    ensures Inv(config, Next(config, w, Queue(step)))
  {
    if QueueStepEnabled(w, step) {
      P.StepKeepsInv(config, w.queue, step);
      QueueStepKeepsEventsApart(config, w, step);
      forall p | p in Next(config, w, Queue(step)).stages
        ensures StageOkFor(config, Next(config, w, Queue(step)), p)
      {
        QueueStepKeepsStage(config, w, step, p);
      }
      hide P.Next;
    }
  }

  /** Live processors on the same payout are the same processor. */
  lemma OneHandlerPerPayout(config: Config, w: World, p: nat, q: nat)
    requires Inv(config, w) && P.Live(config, w.queue, p) && P.Live(config, w.queue, q)
    requires PayoutOf(w, p).Some? && PayoutOf(w, p) == PayoutOf(w, q)
    ensures p == q
  {
    var i, j := w.queue.holding[p].event, w.queue.holding[q].event;
    assert w.queue.table[i].payload == w.queue.table[j].payload;
    assert P.Current(w.queue, w.queue.holding[p]) && P.Current(w.queue, w.queue.holding[q]);
  }

  lemma HandlerStepKeepsPaidOnce(o: Outside, id: nat, stage: Stage, outcome: Outcome)
    requires PaidOnce(o) && StageOk(o, id, stage)
    ensures var (o', stage') := HandlerStep(o, id, stage, outcome);
      && PaidOnce(o') && StageOk(o', id, stage')
      && (forall other :: other != id ==> Paid(o'.transactions, other) == Paid(o.transactions, other))
      && (forall other, payout :: Matches(o, other, payout) ==> Matches(o', other, payout))
  {
    var (o', _) := HandlerStep(o, id, stage, outcome);
    forall other | other != id && Paid(o.transactions, other)
      ensures Paid(o'.transactions, other)
    {
      var i :| 0 <= i < |o.transactions| && o.transactions[i].id == other;
      assert o'.transactions[i].id == other;
    }
  }

  lemma HandleKeepsStage(config: Config, w: World, p: nat, outcome: Outcome, id: nat, q: nat)
    requires Inv(config, w)
    requires p in w.stages && P.Live(config, w.queue, p) && PayoutOf(w, p) == Some(id)
    requires q in w.stages
    ensures StageOkFor(config, Next(config, w, Handle(p, outcome)), q)
  {
    HandlerStepKeepsPaidOnce(w.outside, id, w.stages[p], outcome);
    hide P.Inv, PaidOnce, EventsApart, HandlerStep, Paid, Matches;
    assert StageOkFor(config, w, q);
    if q != p && P.Live(config, w.queue, q) && PayoutOf(w, q) == Some(id) {
      OneHandlerPerPayout(config, w, p, q);
    } else if q != p {
      StageOkElsewhere(w.outside, HandlerStep(w.outside, id, w.stages[p], outcome).0, id);
    }
  }

  /** What holds of the stage of another payout still does after a call for this one. */
  lemma StageOkElsewhere(o: Outside, o': Outside, id: nat)
    requires forall other :: other != id ==> Paid(o'.transactions, other) == Paid(o.transactions, other)
    requires forall other, payout :: Matches(o, other, payout) ==> Matches(o', other, payout)
    ensures forall other, stage :: other != id && StageOk(o, other, stage) ==> StageOk(o', other, stage)
  {
    hide Paid, Matches;
  }

  lemma HandleKeepsInv(config: Config, w: World, p: nat, outcome: Outcome)
    requires Inv(config, w)
    ensures Inv(config, Next(config, w, Handle(p, outcome)))
  {
    if p in w.stages && P.Live(config, w.queue, p) && PayoutOf(w, p).Some? {
      var id := PayoutOf(w, p).value;
      HandlerStepKeepsPaidOnce(w.outside, id, w.stages[p], outcome);
      var after := Next(config, w, Handle(p, outcome));
      hide P.Inv, PaidOnce, EventsApart, HandlerStep, StageOkFor, StageOk, Paid, Matches;
      forall q | q in after.stages
        ensures StageOkFor(config, after, q)
      {
        HandleKeepsStage(config, w, p, outcome, id, q);
      }
    }
  }

  lemma CreatePayoutKeepsInv(config: Config, w: World, id: nat, payout: Payout)
    requires Inv(config, w)
    ensures Inv(config, Next(config, w, CreatePayout(id, payout)))
  {
    hide P.Inv, P.Live;
  }

  lemma {:induction false} RunKeepsInv(config: Config, start: Timestamp, steps: seq<Step>)
    ensures Inv(config, Run(config, start, steps))
  {
    hide Next;
    if steps != [] {
      var w, step := Run(config, start, steps[..|steps| - 1]), steps[|steps| - 1];
      RunKeepsInv(config, start, steps[..|steps| - 1]);
      match step
      case Queue(step) => QueueStepKeepsInv(config, w, step);
      case CreatePayout(id, payout) => CreatePayoutKeepsInv(config, w, id, payout);
      case Handle(p, outcome) => HandleKeepsInv(config, w, p, outcome);
    }
  }

  lemma {:induction false} CountOfDistinct(transactions: seq<ExternalTransaction>, id: nat)
    requires forall i, j :: 0 <= i < j < |transactions| ==> transactions[i].id != transactions[j].id
    ensures CountPaid(transactions, id) == if Paid(transactions, id) then 1 else 0
  {
    if transactions != [] {
      var front := transactions[..|transactions| - 1];
      CountOfDistinct(front, id);
      if Paid(front, id) {
        var i :| 0 <= i < |front| && front[i].id == id;
        assert transactions[i].id == id;
      }
    }
  }

  /** Over every run of deliveries, failures, lost replies, deaths and retries, at most one external
      transaction exists for any payout, and it carries that payout's amount, target and fee. */
  lemma PayoutAtMostOnce(config: Config, start: Timestamp, steps: seq<Step>, id: nat)
    ensures var o := Run(config, start, steps).outside;
      && CountPaid(o.transactions, id) <= 1
      && forall tx <- o.transactions ::
           && tx.id in o.payouts
           && tx.to == o.payouts[tx.id].wallet
           && tx.amount == o.payouts[tx.id].grossAmount
           && tx.currency == o.payouts[tx.id].currency
           && tx.fee == o.payouts[tx.id].blockchainFee
  {
    RunKeepsInv(config, start, steps);
    CountOfDistinct(Run(config, start, steps).outside.transactions, id);
  }

  lemma QueueMovesLikeProcessors(config: Config, w: World, step: Step)
    ensures Next(config, w, step).queue == w.queue
      || (step.Queue? && Next(config, w, step).queue == P.Next(config, w.queue, step.step))
  {
    hide P.Next;
  }

  /** The queue under the handlers is a run of processors, so all that holds of those holds of it. */
  lemma {:induction false} HandlersRunTheProcessors(config: Config, start: Timestamp, steps: seq<Step>)
    ensures exists processors :: Run(config, start, steps).queue == P.Run(config, start, processors)
    ensures QueueRuns.TableOk(config, Run(config, start, steps).queue.table)
  {
    hide Next, P.Next;
    if steps == [] {
      assert Run(config, start, steps).queue == P.Run(config, start, []);
    } else {
      var front, step := steps[..|steps| - 1], steps[|steps| - 1];
      HandlersRunTheProcessors(config, start, front);
      QueueMovesLikeProcessors(config, Run(config, start, front), step);
      var processors :| Run(config, start, front).queue == P.Run(config, start, processors);
      if Run(config, start, steps).queue != Run(config, start, front).queue {
        P.RunOneMore(config, start, processors, step.step);
        assert Run(config, start, steps).queue == P.Run(config, start, processors + [step.step]);
      }
    }
    var processors :| Run(config, start, steps).queue == P.Run(config, start, processors);
    P.ProcessorsRunTheQueue(config, start, processors);
  }
}
