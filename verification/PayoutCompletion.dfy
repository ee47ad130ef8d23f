/** When the event of a payout is completed although nothing was paid. */
module PayoutCompletion {
  import opened Wrappers
  import opened Amounts
  import opened EventQueue
  import opened PayoutHandling
  import opened PayoutOverlap
  import opened PayoutRuns
  import P = Processors

  /** The latest delivery found no row, or a row already marked as completed, and no transaction. */
  predicate ReadInVain(lastRead: map<nat, Reading>, id: nat) {
    && id in lastRead
    && (lastRead[id].row.None? || lastRead[id].row.value.completed)
    && !lastRead[id].paid
  }

  /** A live handler is done with success only if its payout was paid, or read in vain. */
  predicate HandlerOk(config: Config, w: World, p: nat) {
    && p in w.stages && p in w.queue.holding && w.queue.holding[p].event < |w.queue.table|
    && (P.Live(config, w.queue, p) && PayoutOf(w, p).Some? ==>
          var id, stage := PayoutOf(w, p).value, w.stages[p];
          && (stage == Done(true) ==> Paid(w.outside.transactions, id) || ReadInVain(w.lastRead, id))
          && (stage.MarkCompleted? ==> Paid(w.outside.transactions, id))
          && (ReadInVain(w.lastRead, id) ==> stage.GetPayout? || stage.Done?))
  }

  predicate EventOk(w: World, i: nat)
    requires i < |w.queue.table|
  {
    var entry := w.queue.table[i];
    entry.payload.PayoutInitiated? && entry.status.Completed? ==>
      Paid(w.outside.transactions, entry.payload.payoutId) || ReadInVain(w.lastRead, entry.payload.payoutId)
  }

  predicate SomeMarked(o: Outside) {
    exists id :: id in o.payouts && o.payouts[id].completed
  }

  predicate ReadingsOk(w: World) {
    && (forall id <- w.lastRead :: ReadInVain(w.lastRead, id) ==> !Paid(w.outside.transactions, id))
    && (forall id <- w.lastRead :: w.lastRead[id].row.Some? && w.lastRead[id].row.value.completed ==>
          w.outside.transactions != [])
    && (SomeMarked(w.outside) ==> w.outside.transactions != [])
  }

  ghost predicate CompletionOk(config: Config, w: World) {
    && Inv(config, w)
    && (forall p <- w.queue.holding :: HandlerOk(config, w, p))
    && (forall i :: 0 <= i < |w.queue.table| ==> EventOk(w, i))
    && ReadingsOk(w)
  }

  // ---- Queue steps ----

  /** Only a live processor that finishes with success completes a row, its own. */
  lemma WhoCompletes(config: Config, q: P.World, step: P.Step, i: nat)
    requires i < |q.table| && !q.table[i].status.Completed?
    requires i < |P.Next(config, q, step).table| && P.Next(config, q, step).table[i].status.Completed?
    ensures step.Finish? && step.ok && P.Live(config, q, step.processor) && q.holding[step.processor].event == i
  {
  }

  lemma QueueStepKeepsEvent(config: Config, w: World, step: P.Step, i: nat)
    requires CompletionOk(config, w) && QueueStepEnabled(w, step)
    requires i < |Next(config, w, Queue(step)).queue.table|
    ensures EventOk(Next(config, w, Queue(step)), i)
  {
    QueueStepFrame(config, w.queue, step);
    var after := Next(config, w, Queue(step));
    if i < |w.queue.table| {
      assert EventOk(w, i);
      if after.queue.table[i].status.Completed? && !w.queue.table[i].status.Completed? {
        WhoCompletes(config, w.queue, step, i);
        assert HandlerOk(config, w, step.processor);
      }
    } else {
      AppendedIsPending(config, w.queue, step, i);
    }
  }

  lemma AppendedIsPending(config: Config, q: P.World, step: P.Step, i: nat)
    requires |q.table| <= i < |P.Next(config, q, step).table|
    ensures P.Next(config, q, step).table[i].status.Pending?
  {
  }

  lemma QueueStepKeepsHandler(config: Config, w: World, step: P.Step, p: nat)
    requires P.Inv(config, w.queue) && QueueStepEnabled(w, step)
    requires P.Inv(config, P.Next(config, w.queue, step))
    requires p in w.queue.holding ==> HandlerOk(config, w, p)
    requires p in Next(config, w, Queue(step)).queue.holding
    ensures HandlerOk(config, Next(config, w, Queue(step)), p)
  {
    hide P.Next, P.AttemptsApart, P.Current, ReadInVain, Paid;
    QueueStepFrame(config, w.queue, step);
    var after := Next(config, w, Queue(step));
    if p in w.queue.holding {
      assert after.stages[p] == w.stages[p];
      assert PayoutOf(after, p) == PayoutOf(w, p);
    } else {
      assert after.stages[p] == GetPayout;
    }
  }

  lemma QueueStepKeepsCompletion(config: Config, w: World, step: P.Step)
    requires CompletionOk(config, w)
    ensures CompletionOk(config, Next(config, w, Queue(step)))
  {
    if QueueStepEnabled(w, step) {
      var after := Next(config, w, Queue(step));
      P.StepKeepsInv(config, w.queue, step);
      QueueStepKeepsInv(config, w, step);
      forall p | p in after.queue.holding
        ensures HandlerOk(config, after, p)
      {
        QueueStepKeepsHandler(config, w, step, p);
      }
      forall i | 0 <= i < |after.queue.table|
        ensures EventOk(after, i)
      {
        QueueStepKeepsEvent(config, w, step, i);
      }
    }
  }

  // ---- Handler steps ----

  /** What one call of a live handler does to its own payout and to the others. */
  lemma HandlerStepEffect(o: Outside, id: nat, stage: Stage, outcome: Outcome)
    requires stage.MarkCompleted? ==> Paid(o.transactions, id)
    requires SomeMarked(o) ==> o.transactions != []
    ensures var (o', stage') := HandlerStep(o, id, stage, outcome);
      && (forall other :: Paid(o.transactions, other) ==> Paid(o'.transactions, other))
      && (forall other :: other != id ==> (Paid(o'.transactions, other) <==> Paid(o.transactions, other)))
      && (o'.transactions != o.transactions ==> stage.CreateTransaction?)
      && (stage'.MarkCompleted? ==> Paid(o'.transactions, id))
      && (stage' == Done(true) && stage != Done(true) ==>
            Paid(o'.transactions, id) || (stage.GetPayout? && (id !in o.payouts || o.payouts[id].completed)))
      && (stage.GetPayout? && (id !in o.payouts || o.payouts[id].completed) ==> stage'.Done?)
      && (SomeMarked(o') ==> o'.transactions != [])
  {
    var (o', stage') := HandlerStep(o, id, stage, outcome);
    forall other | Paid(o.transactions, other)
      ensures Paid(o'.transactions, other)
    {
      var i :| 0 <= i < |o.transactions| && o.transactions[i].id == other;
      assert o'.transactions[i].id == other;
    }
    if stage.CreateTransaction? && o' != o {
      assert o'.transactions[|o.transactions|].id == id;
    }
    if SomeMarked(o') && o'.payouts == o.payouts {
      assert SomeMarked(o);
    }
  }

  /** The handled payout after the call: read in vain only if unpaid and with no call to come. */
  lemma HandleReads(config: Config, w: World, p: nat, outcome: Outcome, id: nat)
    requires p in w.stages && P.Live(config, w.queue, p) && HandlerOk(config, w, p) && PayoutOf(w, p) == Some(id)
    requires ReadingsOk(w)
    ensures var after := Next(config, w, Handle(p, outcome));
      && after.queue == w.queue
      && (forall other :: other != id ==>
            (Paid(after.outside.transactions, other) <==> Paid(w.outside.transactions, other)))
      && (forall other :: other != id ==> (ReadInVain(after.lastRead, other) <==> ReadInVain(w.lastRead, other)))
      && (forall q :: q in w.stages && q != p ==> q in after.stages && after.stages[q] == w.stages[q])
      && (ReadInVain(after.lastRead, id) ==> !Paid(after.outside.transactions, id))
      && HandlerOk(config, after, p)
  {
    hide PaidOnce, P.Live;
    HandlerStepEffect(w.outside, id, w.stages[p], outcome);
  }

  lemma HandleKeepsReadings(config: Config, w: World, p: nat, outcome: Outcome, id: nat)
    requires p in w.stages && P.Live(config, w.queue, p) && HandlerOk(config, w, p) && PayoutOf(w, p) == Some(id)
    requires ReadingsOk(w)
    ensures ReadingsOk(Next(config, w, Handle(p, outcome)))
  {
    HandleReads(config, w, p, outcome, id);
    HandlerStepEffect(w.outside, id, w.stages[p], outcome);
    hide P.Live, HandlerOk;
    var after := Next(config, w, Handle(p, outcome));
    if w.stages[p].GetPayout? && id in w.outside.payouts && w.outside.payouts[id].completed {
      assert SomeMarked(w.outside);
    }
  }

  lemma HandleKeepsHandler(config: Config, w: World, p: nat, outcome: Outcome, id: nat, q: nat)
    requires Inv(config, w) && ReadingsOk(w)
    requires p in w.stages && P.Live(config, w.queue, p) && HandlerOk(config, w, p) && PayoutOf(w, p) == Some(id)
    requires q in w.queue.holding && HandlerOk(config, w, q)
    ensures HandlerOk(config, Next(config, w, Handle(p, outcome)), q)
  {
    hide Next, ReadInVain, Paid;
    HandleReads(config, w, p, outcome, id);
    if q != p && P.Live(config, w.queue, q) && PayoutOf(w, q) == Some(id) {
      OneHandlerPerPayout(config, w, p, q);
    }
  }

  lemma HandleKeepsEvent(config: Config, w: World, p: nat, outcome: Outcome, id: nat, i: nat)
    requires Inv(config, w) && ReadingsOk(w)
    requires p in w.stages && P.Live(config, w.queue, p) && HandlerOk(config, w, p) && PayoutOf(w, p) == Some(id)
    requires i < |w.queue.table| && EventOk(w, i)
    ensures i < |Next(config, w, Handle(p, outcome)).queue.table| && EventOk(Next(config, w, Handle(p, outcome)), i)
  {
    hide Next, ReadInVain, Paid;
    HandleReads(config, w, p, outcome, id);
    assert P.Current(w.queue, w.queue.holding[p]);
    if w.queue.table[i].payload == PayoutInitiated(id) {
      assert w.queue.table[w.queue.holding[p].event].payload == w.queue.table[i].payload;
    }
  }

  /** A step that touches neither queue, transactions nor readings keeps what is said of events, and
      what is said of each handler whose stage it leaves. */
  lemma SameOutsideKeeps(config: Config, w: World, after: World)
    requires after.queue == w.queue && after.lastRead == w.lastRead
    requires after.outside.transactions == w.outside.transactions
    requires forall p :: p in w.stages ==> p in after.stages
    ensures forall i :: 0 <= i < |w.queue.table| && EventOk(w, i) ==> EventOk(after, i)
    ensures forall p :: HandlerOk(config, w, p) && (after.stages[p] == w.stages[p] || PayoutOf(w, p).None?) ==>
      HandlerOk(config, after, p)
  {
    hide ReadInVain, Paid, P.Live;
  }

  lemma OtherHandleKeepsCompletion(config: Config, w: World, p: nat, outcome: Outcome)
    requires CompletionOk(config, w)
    requires p !in w.stages || !P.Live(config, w.queue, p) || PayoutOf(w, p).None?
    ensures CompletionOk(config, Next(config, w, Handle(p, outcome)))
  {
    hide Inv, HandlerOk, EventOk, ReadInVain;
    HandleKeepsInv(config, w, p, outcome);
    var after := Next(config, w, Handle(p, outcome));
    SameOutsideKeeps(config, w, after);
    assert ReadingsOk(after);
  }

  lemma HandleKeepsCompletion(config: Config, w: World, p: nat, outcome: Outcome)
    requires CompletionOk(config, w)
    ensures CompletionOk(config, Next(config, w, Handle(p, outcome)))
  {
    hide Inv, ReadingsOk, Next, EventOk;
    if p in w.stages && P.Live(config, w.queue, p) && PayoutOf(w, p).Some? {
      var id := PayoutOf(w, p).value;
      LiveHandleKeepsCompletion(config, w, p, outcome, id);
    } else {
      OtherHandleKeepsCompletion(config, w, p, outcome);
    }
  }

  lemma LiveHandleKeepsCompletion(config: Config, w: World, p: nat, outcome: Outcome, id: nat)
    requires CompletionOk(config, w)
    requires p in w.stages && P.Live(config, w.queue, p) && PayoutOf(w, p) == Some(id)
    ensures CompletionOk(config, Next(config, w, Handle(p, outcome)))
  {
    hide Inv, ReadingsOk, Next, HandlerOk, EventOk;
    var after := Next(config, w, Handle(p, outcome));
    HandleKeepsInv(config, w, p, outcome);
    assert HandlerOk(config, w, p);
    HandleReads(config, w, p, outcome, id);
    HandleKeepsReadings(config, w, p, outcome, id);
    forall q | q in after.queue.holding
      ensures HandlerOk(config, after, q)
    {
      HandleKeepsHandler(config, w, p, outcome, id, q);
    }
    forall i | 0 <= i < |after.queue.table|
      ensures EventOk(after, i)
    {
      HandleKeepsEvent(config, w, p, outcome, id, i);
    }
  }

  lemma CreatePayoutKeepsCompletion(config: Config, w: World, id: nat, payout: Payout)
    requires CompletionOk(config, w)
    ensures CompletionOk(config, Next(config, w, CreatePayout(id, payout)))
  {
    hide Inv, HandlerOk, EventOk, ReadInVain, P.Live;
    CreatePayoutKeepsInv(config, w, id, payout);
    var after := Next(config, w, CreatePayout(id, payout));
    SameOutsideKeeps(config, w, after);
    if SomeMarked(after.outside) {
      var other :| other in after.outside.payouts && after.outside.payouts[other].completed;
      assert other in w.outside.payouts && w.outside.payouts[other].completed;
    }
    assert ReadingsOk(after);
  }

  lemma {:induction false} RunKeepsCompletion(config: Config, start: Timestamp, steps: seq<Step>)
    ensures CompletionOk(config, Run(config, start, steps))
  {
    if steps != [] {
      hide Next, CompletionOk;
      var w, step := Run(config, start, steps[..|steps| - 1]), steps[|steps| - 1];
      RunKeepsCompletion(config, start, steps[..|steps| - 1]);
      match step
      case Queue(step) => QueueStepKeepsCompletion(config, w, step);
      case CreatePayout(id, payout) => CreatePayoutKeepsCompletion(config, w, id, payout);
      case Handle(p, outcome) => HandleKeepsCompletion(config, w, p, outcome);
    } else {
      RunKeepsInv(config, start, []);
    }
  }

  // ---- The result ----

  /** In every run, the event of a payout is completed with nothing paid if and only if its latest
      delivery found no row, or a row marked as completed, while there was no transaction. If the row
      was marked, then because another payout was paid and the update marked them all. */
  lemma CompletedUnpaidExactlyIf(config: Config, start: Timestamp, steps: seq<Step>, i: nat, id: nat)
    requires var w := Run(config, start, steps);
      i < |w.queue.table| && w.queue.table[i].payload == PayoutInitiated(id) && w.queue.table[i].status.Completed?
    ensures var w := Run(config, start, steps);
      && (!Paid(w.outside.transactions, id) <==> ReadInVain(w.lastRead, id))
      && (ReadInVain(w.lastRead, id) && w.lastRead[id].row.Some? ==>
            exists other :: other != id && Paid(w.outside.transactions, other))
  {
    RunKeepsCompletion(config, start, steps);
    var w := Run(config, start, steps);
    assert EventOk(w, i);
    if ReadInVain(w.lastRead, id) && w.lastRead[id].row.Some? {
      var tx := w.outside.transactions[0];
      assert Paid(w.outside.transactions, tx.id);
    }
  }

  // ---- It does happen ----

  function After(config: Config, w: World, steps: seq<Step>): World
    decreases steps
  {
    if steps == [] then w else After(config, Next(config, w, steps[0]), steps[1..])
  }

  lemma {:induction false} AfterSplits(config: Config, w: World, a: seq<Step>, b: seq<Step>)
    ensures After(config, w, a + b) == After(config, After(config, w, a), b)
    decreases a
  {
    hide Next;
    if a == [] {
      assert a + b == b;
    } else {
      assert (a + b)[1..] == a[1..] + b;
      AfterSplits(config, Next(config, w, a[0]), a[1..], b);
    }
  }

  lemma {:induction false} RunIsAfter(config: Config, start: Timestamp, steps: seq<Step>)
    ensures Run(config, start, steps) == After(config, Run(config, start, []), steps)
  {
    hide Next;
    if steps != [] {
      var front, last := steps[..|steps| - 1], steps[|steps| - 1];
      RunIsAfter(config, start, front);
      AfterSplits(config, Run(config, start, []), front, [last]);
      assert front + [last] == steps && [last][1..] == [];
      AfterOne(config, Run(config, start, front), last);
    }
  }

  lemma AfterOne(config: Config, w: World, step: Step)
    ensures After(config, w, [step]) == Next(config, w, step)
  {
    hide Next;
    assert [step][1..] == [];
    assert After(config, Next(config, w, step), []) == Next(config, w, step);
  }

  function Handles(p: nat, fate: seq<Outcome>): (steps: seq<Step>)
    ensures |steps| == |fate|
  {
    seq(|fate|, i requires 0 <= i < |fate| => Handle(p, fate[i]))
  }

  /** The calls a live processor makes, one after the other, are the handler's. */
  lemma {:induction false} HandlesAreHandler(config: Config, w: World, p: nat, id: nat, fate: seq<Outcome>)
    requires p in w.stages && P.Live(config, w.queue, p)
    requires w.queue.holding[p].event < |w.queue.table| && PayoutOf(w, p) == Some(id)
    ensures var after := After(config, w, Handles(p, fate));
      && after.queue == w.queue
      && (after.outside, after.stages) == (RunHandler(w.outside, id, w.stages[p], fate).0,
                                           w.stages[p := RunHandler(w.outside, id, w.stages[p], fate).1])
    decreases fate
  {
    if fate != [] {
      hide P.Live;
      var next := Next(config, w, Handle(p, fate[0]));
      assert Handles(p, fate)[1..] == Handles(p, fate[1..]);
      assert next.queue == w.queue && PayoutOf(next, p) == Some(id);
      HandlesAreHandler(config, next, p, id, fate[1..]);
      assert w.stages[p := next.stages[p]][p := RunHandler(next.outside, id, next.stages[p], fate[1..]).1]
          == w.stages[p := RunHandler(next.outside, id, next.stages[p], fate[1..]).1];
    } else {
      assert w.stages[p := w.stages[p]] == w.stages;
    }
  }

  function Delivery(fate: seq<Outcome>, ok: bool): seq<Step> {
    [Queue(P.ClaimNext(0, {}))] + Handles(0, fate) + [Queue(P.Finish(0, ok))]
  }

  predicate Quiet(w: World) {
    w.queue.holding == map[] && w.stages == map[]
  }

  /** A delivery with nothing else going on: claim, handle, finish. */
  lemma DeliveryIsHandler(config: Config, w: World, i: nat, id: nat, fate: seq<Outcome>, ok: bool)
    requires Quiet(w) && i < |w.queue.table| && w.queue.table[i].payload == PayoutInitiated(id)
    requires Pick(w.queue.table, 0, 1, w.queue.now, {}) == [i]
    requires RunHandler(w.outside, id, GetPayout, fate).1 == Done(ok)
    ensures var after := After(config, w, Delivery(fate, ok));
      && Quiet(after)
      && after.outside == RunHandler(w.outside, id, GetPayout, fate).0
      && after.queue.now == w.queue.now
      && after.queue.table == AfterFinish(config, AfterClaim(w.queue.table, [i], w.queue.now), i, ok, w.queue.now)
  {
    var claim, finish := Queue(P.ClaimNext(0, {})), Queue(P.Finish(0, ok));
    var claimed := Next(config, w, claim);
    ClaimedQuietly(config, w, i);
    var handled := After(config, claimed, Handles(0, fate));
    HandlesAreHandler(config, claimed, 0, id, fate);
    assert Delivery(fate, ok) == [claim] + (Handles(0, fate) + [finish]);
    AfterSplits(config, w, [claim], Handles(0, fate) + [finish]);
    AfterOne(config, w, claim);
    AfterSplits(config, claimed, Handles(0, fate), [finish]);
    AfterOne(config, handled, finish);
    FinishedQuietly(config, handled, i, ok);
  }

  lemma ClaimedQuietly(config: Config, w: World, i: nat)
    requires Quiet(w) && i < |w.queue.table| && Pick(w.queue.table, 0, 1, w.queue.now, {}) == [i]
    ensures var after := Next(config, w, Queue(P.ClaimNext(0, {})));
      && after.outside == w.outside && after.stages == map[0 := GetPayout]
      && after.queue.table == AfterClaim(w.queue.table, [i], w.queue.now) && after.queue.now == w.queue.now
      && after.queue.holding == map[0 := P.Claim(i, w.queue.table[i].attemptCount + 1, w.queue.now)]
      && P.Live(config, after.queue, 0)
  {
  }

  lemma FinishedQuietly(config: Config, w: World, i: nat, ok: bool)
    requires w.queue.holding.Keys == {0} && w.stages == map[0 := Done(ok)]
    requires P.Live(config, w.queue, 0) && w.queue.holding[0].event == i
    ensures var after := Next(config, w, Queue(P.Finish(0, ok)));
      && Quiet(after) && after.outside == w.outside && after.queue.now == w.queue.now
      && after.queue.table == AfterFinish(config, w.queue.table, i, ok, w.queue.now)
  {
  }

  const ALL_FIVE := [Succeeds, Succeeds, Succeeds, Succeeds, Succeeds]

  /** Two payouts are published and created, then both are delivered and no call fails. */
  function TwoPayouts(first: nat, second: nat, a: Payout, b: Payout): seq<Step> {
    [Queue(P.Enqueue(PayoutInitiated(first), None)), Queue(P.Enqueue(PayoutInitiated(second), None)),
     CreatePayout(first, a), CreatePayout(second, b)] + (Delivery(ALL_FIVE, true) + Delivery([Succeeds], true))
  }

  function Created(payout: Payout): Payout {
    payout.(completed := false)
  }

  function Published(first: nat, second: nat, a: Payout, b: Payout): World {
    World(P.World([NewEntry(PayoutInitiated(first), None, 0), NewEntry(PayoutInitiated(second), None, 0)], 0, map[]),
          map[], Outside([], map[first := Created(a), second := Created(b)]), map[])
  }

  lemma TwoCreated(config: Config, first: nat, second: nat, a: Payout, b: Payout)
    requires first != second
    ensures After(config, Run(config, 0, []), TwoPayouts(first, second, a, b)[..4]) == Published(first, second, a, b)
  {
    var s0, s1 := Queue(P.Enqueue(PayoutInitiated(first), None)), Queue(P.Enqueue(PayoutInitiated(second), None));
    var s2, s3 := CreatePayout(first, a), CreatePayout(second, b);
    var setup := [s0, s1, s2, s3];
    assert TwoPayouts(first, second, a, b)[..4] == setup;
    assert setup[1..] == [s1, s2, s3] && [s1, s2, s3][1..] == [s2, s3] && [s2, s3][1..] == [s3];
    var w0 := Run(config, 0, []);
    assert w0 == World(P.World([], 0, map[]), map[], Outside([], map[]), map[]);
    var w1 := Next(config, w0, s0);
    assert w1 == w0.(queue := P.World([NewEntry(PayoutInitiated(first), None, 0)], 0, map[]));
    var w2 := Next(config, w1, s1);
    assert w2 == w0.(queue := Published(first, second, a, b).queue);
    var w3 := Next(config, w2, s2);
    assert Next(config, w3, s3) == Published(first, second, a, b);
    AfterOne(config, w3, s3);
    assert After(config, w2, [s2, s3]) == After(config, w3, [s3]);
    assert After(config, w1, [s1, s2, s3]) == After(config, w2, [s2, s3]);
    assert After(config, w0, setup) == After(config, w1, [s1, s2, s3]);
  }

  function PaidFirst(first: nat, second: nat, a: Payout, b: Payout): Outside {
    Outside([TransactionOf(first, Created(a))], AllCompleted(Published(first, second, a, b).outside.payouts))
  }

  lemma DeliversFirst(first: nat, second: nat, a: Payout, b: Payout)
    requires first != second
    ensures RunHandler(Published(first, second, a, b).outside, first, GetPayout, ALL_FIVE)
         == (PaidFirst(first, second, a, b), Done(true))
  {
    var o, payout := Published(first, second, a, b).outside, Created(a);
    var created := o.(transactions := [TransactionOf(first, payout)]);
    assert o.transactions + [TransactionOf(first, payout)] == [TransactionOf(first, payout)];
    assert RunHandler(created, first, MarkCompleted, [Succeeds]) == (PaidFirst(first, second, a, b), Done(true)) by {
      assert [Succeeds][1..] == [];
    }
    var two, three := [Succeeds, Succeeds], [Succeeds, Succeeds, Succeeds];
    var four := [Succeeds, Succeeds, Succeeds, Succeeds];
    assert ALL_FIVE[1..] == four && four[1..] == three && three[1..] == two && two[1..] == [Succeeds];
    assert RunHandler(o, first, CreateTransaction(payout), two) == (PaidFirst(first, second, a, b), Done(true));
    assert RunHandler(o, first, GetMainAccount(payout), three) == (PaidFirst(first, second, a, b), Done(true));
    assert RunHandler(o, first, GetTransaction(payout), four) == (PaidFirst(first, second, a, b), Done(true));
  }

  lemma SkipsMarked(o: Outside, id: nat)
    requires id in o.payouts && o.payouts[id].completed
    ensures RunHandler(o, id, GetPayout, [Succeeds]) == (o, Done(true))
  {
    assert [Succeeds][1..] == [];
  }

  lemma PicksFirst(table: Table, now: Timestamp)
    requires table != [] && table[0].Claimable(now)
    ensures Pick(table, 0, 1, now, {}) == [0]
  {
    PickUnrolls(table, 0, 1, now, {});
    PickUnrolls(table, 1, 0, now, {});
  }

  lemma PicksSecond(table: Table, now: Timestamp)
    requires |table| > 1 && !table[0].Claimable(now) && table[1].Claimable(now)
    ensures Pick(table, 0, 1, now, {}) == [1]
  {
    PickUnrolls(table, 0, 1, now, {});
    PickUnrolls(table, 1, 1, now, {});
    PickUnrolls(table, 2, 0, now, {});
  }

  lemma FinishCompletes(config: Config, table: Table, i: nat, now: Timestamp)
    requires i < |table|
    ensures var after := AfterFinish(config, AfterClaim(table, [i], now), i, true, now);
      && |after| == |table|
      && after[i].payload == table[i].payload && after[i].status.Completed?
      && forall j :: 0 <= j < |table| && j != i ==> after[j] == table[j]
  {
  }

  /** The first delivery marks both payouts, so the second is completed and never paid. */
  lemma MarkedAndNeverPaid(config: Config, first: nat, second: nat, a: Payout, b: Payout)
    requires first != second
    ensures var w := Run(config, 0, TwoPayouts(first, second, a, b));
      && |w.queue.table| == 2
      && w.queue.table[0].payload == PayoutInitiated(first) && w.queue.table[0].status.Completed?
      && w.queue.table[1].payload == PayoutInitiated(second) && w.queue.table[1].status.Completed?
      && Paid(w.outside.transactions, first) && !Paid(w.outside.transactions, second)
  {
    hide After, Next, Delivery, AfterFinish, RunHandler;
    var all := TwoPayouts(first, second, a, b);
    var ready := Published(first, second, a, b);
    TwoCreated(config, first, second, a, b);
    RunIsAfter(config, 0, all);
    assert all == all[..4] + (Delivery(ALL_FIVE, true) + Delivery([Succeeds], true));
    AfterSplits(config, Run(config, 0, []), all[..4], Delivery(ALL_FIVE, true) + Delivery([Succeeds], true));
    AfterSplits(config, ready, Delivery(ALL_FIVE, true), Delivery([Succeeds], true));
    DeliversFirst(first, second, a, b);
    PicksFirst(ready.queue.table, 0);
    DeliveryIsHandler(config, ready, 0, first, ALL_FIVE, true);
    var mid := After(config, ready, Delivery(ALL_FIVE, true));
    FinishCompletes(config, ready.queue.table, 0, 0);
    PicksSecond(mid.queue.table, 0);
    SkipsMarked(mid.outside, second);
    DeliveryIsHandler(config, mid, 1, second, [Succeeds], true);
    FinishCompletes(config, mid.queue.table, 1, 0);
    assert mid.outside.transactions[0].id == first;
  }
}
