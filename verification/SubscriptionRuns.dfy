/** Runs of `pay_subscriptions` that may overlap and may fail after their charges. A run picks and
    charges in one step and writes in another, and anything may come between; one that dies while it
    charges is one whose last clients took nothing and which then gives up. */
module SubscriptionRuns {
  import opened Wrappers
  import opened Amounts
  import opened EventQueue
  import opened SubscriptionTables
  import opened SubscriptionPayments

  /** The table a run picked from, and what it finished but has not written yet. */
  datatype Round = Round(picked: seq<Subscription>, finished: seq<FinishedPayment>)

  datatype World = World(rows: seq<Subscription>, payments: seq<Payment>, now: Timestamp, rounds: map<nat, Round>)

  datatype Step =
    | Advance(elapsed: nat)
    | Add(storeId: nat, quantity: I32)
    | Charge(run: nat, stores: Stores, d: Directory, c: Collector, finished: seq<FinishedPayment>)
    | Land(run: nat)
    | GiveUp(run: nat)

  /** What `CollectPayments` promises of its result. */
  ghost predicate Enabled(w: World, step: Step, period: int) {
    && step.Charge? && step.run !in w.rounds
    && Collecting(step.stores, w.rows, step.finished, w.now, period)
    && AllAsDue(step.d, step.c, step.stores, w.rows, PaymentsOf(step.finished))
  }

  ghost function Next(w: World, step: Step, period: int): World {
    match step
    case Advance(elapsed) => w.(now := w.now + elapsed)
    case Add(storeId, quantity) => w.(rows := w.rows + [Subscription(|w.rows|, storeId, quantity, None, w.now)])
    case Charge(run, _, _, _, finished) =>
      if Enabled(w, step, period) then w.(rounds := w.rounds[run := Round(w.rows, finished)]) else w
    case Land(run) =>
      if run !in w.rounds then w
      else
        var round := w.rounds[run];
        w.(rows := Written(w.rows, round.picked, round.finished, |w.payments|),
           payments := w.payments + PaymentsOf(round.finished),
           rounds := w.rounds - {run})
    case GiveUp(run) => w.(rounds := w.rounds - {run})
  }

  ghost function Run(steps: seq<Step>, period: int): World {
    if steps == [] then World([], [], 0, map[]) else Next(Run(steps[..|steps| - 1], period), steps[|steps| - 1], period)
  }

  /** With nothing in between, charging and landing are `PaySubscriptions`. */
  lemma HalvesMakePayment(w: World, step: Step, period: int)
    requires Enabled(w, step, period)
    ensures var after := Next(Next(w, step, period), Land(step.run), period);
      && after.rows == Written(w.rows, w.rows, step.finished, |w.payments|)
      && after.payments == w.payments + PaymentsOf(step.finished)
      && after.rounds == w.rounds
      && (LinksOk(w.rows, |w.payments|) ==>
            PaidUp(step.stores, w.rows, after.rows, w.payments, after.payments, w.now, period))
  {
    hide Written, PaidUp, Collecting, AllAsDue, PaymentsOf;
    assert w.rounds[step.run := Round(w.rows, step.finished)] - {step.run} == w.rounds;
    if LinksOk(w.rows, |w.payments|) {
      WrittenIsPaidUp(step.stores, w.rows, step.finished, w.payments, w.now, period);
    }
  }

  // ---- When a row is charged ----

  ghost predicate Picks(w: World, step: Step, period: int, i: nat) {
    Enabled(w, step, period) && i < |w.rows| && Picked(w.rows, w.rows[i], w.now, period)
  }

  /** The client takes the store's money in this run. */
  predicate Takes(w: World, step: Step, store: nat) {
    && step.Charge?
    && PreparationError(step.d, step.stores, store, UnpaidOf(w.rows, store)).None?
    && Taken(step.c, PreparationOf(step.d, step.stores, store, UnpaidOf(w.rows, store)))
  }

  /** The store's owner is charged for this row. */
  ghost predicate Charges(w: World, step: Step, period: int, i: nat) {
    Picks(w, step, period, i) && Takes(w, step, w.rows[i].storeId)
  }

  predicate Holds(round: Round, i: nat) {
    i < |round.picked| && round.picked[i].paymentId.None? && Charged(round.finished, round.picked[i].storeId)
  }

  /** This step commits the payment of a run that picked the row. */
  predicate Lands(w: World, step: Step, i: nat) {
    step.Land? && step.run in w.rounds && Holds(w.rounds[step.run], i)
  }

  predicate RoundsOk(w: World) {
    forall run <- w.rounds :: |w.rounds[run].picked| <= |w.rows| && StoresApart(w.rounds[run].finished)
  }

  lemma {:induction false} RunKeepsRounds(steps: seq<Step>, period: int)
    ensures RoundsOk(Run(steps, period))
  {
    if steps != [] {
      RunKeepsRounds(steps[..|steps| - 1], period);
      hide Written, Overdue, TrueTotal, Charged, AllAsDue;
    }
  }

  /** A row keeps what it is for, and becomes paid exactly by a landing that holds it. */
  lemma StepOnRow(w: World, step: Step, period: int, i: nat)
    requires RoundsOk(w) && i < |w.rows|
    ensures var after := Next(w, step, period);
      && after.now >= w.now && i < |after.rows|
      && after.rows[i].(paymentId := None) == w.rows[i].(paymentId := None)
      && (after.rows[i].paymentId.Some? <==> w.rows[i].paymentId.Some? || Lands(w, step, i))
  {
    if step.Land? && step.run in w.rounds {
      var round := w.rounds[step.run];
      WrittenAt(w.rows, round.picked, round.finished, |w.payments|, i);
      if Holds(round, i) {
        var k :| 0 <= k < |round.finished| && round.finished[k].payment.storeId == round.picked[i].storeId;
        assert round.picked[i].UnpaidBy(round.finished[k].payment.storeId);
      }
      hide Written;
    }
  }

  /** So every step but `Add` is a writing of payments as the creation of subscriptions knows it, and a
      landing is one even if it links rows that another run has paid in the meantime. */
  lemma LandingIsPayment(w: World, step: Step, period: int)
    requires RoundsOk(w) && !step.Add?
    ensures PaidStay(w.rows, Next(w, step, period).rows)
  {
    hide Next;
    RowCountStays(w, step, period);
    forall i | 0 <= i < |w.rows|
      ensures var after := Next(w, step, period).rows[i];
        && after.(paymentId := None) == w.rows[i].(paymentId := None)
        && (w.rows[i].paymentId.Some? ==> after.paymentId.Some?)
    {
      StepOnRow(w, step, period, i);
    }
  }

  lemma RowCountStays(w: World, step: Step, period: int)
    requires !step.Add?
    ensures |Next(w, step, period).rows| == |w.rows|
  {
  }

  ghost predicate LandedBetween(steps: seq<Step>, period: int, j: nat, k: nat, i: nat)
    requires k <= |steps|
  {
    exists m :: j <= m < k && Lands(Run(steps[..m], period), steps[m], i)
  }

  lemma {:induction false} RowBetween(steps: seq<Step>, period: int, j: nat, k: nat, i: nat)
    requires j <= k <= |steps| && i < |Run(steps[..j], period).rows|
    ensures var before, after := Run(steps[..j], period), Run(steps[..k], period);
      && before.now <= after.now && i < |after.rows|
      && after.rows[i].(paymentId := None) == before.rows[i].(paymentId := None)
      && (after.rows[i].paymentId.Some? <==> before.rows[i].paymentId.Some? || LandedBetween(steps, period, j, k, i))
    decreases k
  {
    if j < k {
      hide Next, Run, Lands, LandedBetween, RoundsOk;
      RunTo(steps, period, k);
      RowBetween(steps, period, j, k - 1, i);
      RunKeepsRounds(steps[..k - 1], period);
      StepOnRow(Run(steps[..k - 1], period), steps[k - 1], period, i);
      LandedOneMore(steps, period, j, k, i);
    }
  }

  lemma LandedOneMore(steps: seq<Step>, period: int, j: nat, k: nat, i: nat)
    requires j < k <= |steps|
    ensures LandedBetween(steps, period, j, k, i) <==>
      LandedBetween(steps, period, j, k - 1, i) || Lands(Run(steps[..k - 1], period), steps[k - 1], i)
  {
    hide Run, Lands;
  }

  /** A store is still overdue as long as one of its rows that was overdue is still unpaid. */
  lemma StaysOverdue(steps: seq<Step>, period: int, j: nat, k: nat, i: nat)
    requires j <= k <= |steps| && i < |Run(steps[..j], period).rows|
    requires var w := Run(steps[..j], period); w.now - w.rows[i].createdAt > period
    ensures var w := Run(steps[..k], period);
      i < |w.rows| && (w.rows[i].paymentId.None? ==> Overdue(w.rows, w.rows[i].storeId, w.now, period))
  {
    hide Next, Run;
    RowBetween(steps, period, j, k, i);
  }

  /** A row that was picked, and so perhaps charged, is picked by a later run if and only if no run that
      holds the row has landed in between and its store is still overdue; if the row itself was overdue,
      if and only if none has landed. Whether the earlier run failed, died, or is only late makes no
      difference. */
  lemma PickedAgainExactlyIf(steps: seq<Step>, period: int, j: nat, k: nat, i: nat)
    requires j < k < |steps|
    requires Picks(Run(steps[..j], period), steps[j], period, i)
    requires Enabled(Run(steps[..k], period), steps[k], period)
    ensures i < |Run(steps[..k], period).rows|
    ensures var w := Run(steps[..k], period);
      Picks(w, steps[k], period, i) <==>
        !LandedBetween(steps, period, j, k, i) && Overdue(w.rows, w.rows[i].storeId, w.now, period)
    ensures var before, w := Run(steps[..j], period), Run(steps[..k], period);
      before.now - before.rows[i].createdAt > period ==>
        (Picks(w, steps[k], period, i) <==> !LandedBetween(steps, period, j, k, i))
  {
    hide Next, Run, LandedBetween, Enabled, Overdue;
    RowBetween(steps, period, j, k, i);
    var before := Run(steps[..j], period);
    if before.now - before.rows[i].createdAt > period {
      StaysOverdue(steps, period, j, k, i);
    }
  }

  /** An overdue row that was charged is charged again by a later run, if the client takes the money
      then, exactly if no run that holds the row has landed in between. */
  lemma ChargedAgainExactlyIf(steps: seq<Step>, period: int, j: nat, k: nat, i: nat)
    requires j < k < |steps|
    requires Charges(Run(steps[..j], period), steps[j], period, i)
    requires var w := Run(steps[..j], period); w.now - w.rows[i].createdAt > period
    requires Enabled(Run(steps[..k], period), steps[k], period)
    requires var w := Run(steps[..k], period); i < |w.rows| ==> Takes(w, steps[k], w.rows[i].storeId)
    ensures Charges(Run(steps[..k], period), steps[k], period, i) <==> !LandedBetween(steps, period, j, k, i)
  {
    hide Next, Run, LandedBetween, Enabled, Overdue, Takes, Picked;
    PickedAgainExactlyIf(steps, period, j, k, i);
  }

  /** A run that charges and gives up leaves the tables as they were, so the next run can charge the
      same rows again. */
  lemma GivingUpChargesAgain(w: World, step: Step, period: int, i: nat)
    requires Charges(w, step, period, i)
    ensures var after := Next(Next(w, step, period), GiveUp(step.run), period);
      after == w && Charges(after, step, period, i)
  {
    assert w.rounds[step.run := Round(w.rows, step.finished)] - {step.run} == w.rounds;
    hide Enabled, Takes;
  }

  // ---- It does happen ----

  const ONE_ROW := [Subscription(0, 0, 1, None, 0)]

  const STORES: Stores := map[0 := StoreSubscription(0, Eur, 3, None, None, Paid)]

  const DIRECTORY := Directory(map[0 := 0], map[0 := 0], map[])

  const WILLING := Collector((store: nat) => Succeeds, (store: nat) => 0, (store: nat) => Succeeds, (store: nat) => 0)

  function OneCharge(): Step {
    Charge(0, STORES, DIRECTORY, WILLING, [CollectFiat(WILLING, FiatPayment(STORES[0], ONE_ROW, 3, 0))])
  }

  lemma OneRowIsDue()
    ensures UnpaidOf(ONE_ROW, 0) == ONE_ROW && TrueTotal(3, ONE_ROW) == 3
    ensures forall store :: store != 0 ==> UnpaidOf(ONE_ROW, store) == []
  {
    assert ONE_ROW[..0] == [];
    assert TrueTotal(3, ONE_ROW[..0]) == 0;
  }

  /** A store with one overdue row and a willing card is charged for it, and charged again after the
      first run has given up. */
  lemma ChargedTwiceHappens(period: nat)
    ensures var steps := [Add(0, 1), Advance(period + 1), OneCharge(), GiveUp(0), OneCharge()];
      && Charges(Run(steps[..2], period), steps[2], period, 0)
      && Charges(Run(steps[..4], period), steps[4], period, 0)
  {
    var steps := [Add(0, 1), Advance(period + 1), OneCharge(), GiveUp(0), OneCharge()];
    var due := World(ONE_ROW, [], period + 1, map[]);
    OneRowIsDue();
    DueIsCharged(period);
    assert steps[..0] == [];
    RunTo(steps, period, 1);
    RunTo(steps, period, 2);
    assert Run(steps[..1], period) == World(ONE_ROW, [], 0, map[]);
    assert Run(steps[..2], period) == due;
    GivingUpChargesAgain(due, OneCharge(), period, 0);
    RunTo(steps, period, 3);
    RunTo(steps, period, 4);
    hide Charges;
  }

  lemma DueIsCharged(period: nat)
    ensures Charges(World(ONE_ROW, [], period + 1, map[]), OneCharge(), period, 0)
  {
    var w, step := World(ONE_ROW, [], period + 1, map[]), OneCharge();
    OneRowIsDue();
    assert ONE_ROW[0].UnpaidBy(0);
    assert Overdue(w.rows, 0, w.now, period);
    assert PreparationOf(DIRECTORY, STORES, 0, ONE_ROW) == FiatPayment(STORES[0], ONE_ROW, 3, 0);
    forall store | Overdue(w.rows, store, w.now, period)
      ensures Charged(step.finished, store)
    {
      assert step.finished[0].payment.storeId == 0;
    }
  }

  // ---- When no row is charged twice ----

  /** Every run has landed before the next one charges. */
  ghost predicate Orderly(steps: seq<Step>, period: int) {
    forall m :: 0 <= m < |steps| ==>
      && !steps[m].GiveUp?
      && (Enabled(Run(steps[..m], period), steps[m], period) ==> Run(steps[..m], period).rounds == map[])
  }

  lemma {:induction false} OpenUntilLanded(steps: seq<Step>, period: int, j: nat, k: nat, i: nat, run: nat)
    requires j < k <= |steps| && Orderly(steps, period)
    requires run in Run(steps[..j + 1], period).rounds && Holds(Run(steps[..j + 1], period).rounds[run], i)
    ensures LandedBetween(steps, period, j + 1, k, i)
      || (run in Run(steps[..k], period).rounds && Holds(Run(steps[..k], period).rounds[run], i))
    decreases k
  {
    if j + 1 < k {
      hide Next, Run, Lands, Holds, Enabled;
      RunTo(steps, period, k);
      OpenUntilLanded(steps, period, j, k - 1, i, run);
      LandedOneMore(steps, period, j + 1, k, i);
      if !LandedBetween(steps, period, j + 1, k - 1, i) {
        RoundStays(Run(steps[..k - 1], period), steps[k - 1], period, run, i);
      }
    }
  }

  lemma RoundStays(w: World, step: Step, period: int, run: nat, i: nat)
    requires run in w.rounds && Holds(w.rounds[run], i) && !step.GiveUp?
    ensures var after := Next(w, step, period);
      Lands(w, step, i) || (run in after.rounds && after.rounds[run] == w.rounds[run])
  {
    hide Holds, Written;
  }

  lemma RunTo(steps: seq<Step>, period: int, k: nat)
    requires 0 < k <= |steps|
    ensures Run(steps[..k], period) == Next(Run(steps[..k - 1], period), steps[k - 1], period)
  {
    hide Next;
    assert steps[..k][..k - 1] == steps[..k - 1];
  }

  lemma ChargeOpens(w: World, step: Step, period: int, i: nat)
    requires Picks(w, step, period, i)
    ensures step.run in Next(w, step, period).rounds && Holds(Next(w, step, period).rounds[step.run], i)
  {
    ChargedIsOverdue(step.stores, w.rows, step.finished, w.now, period, w.rows[i].storeId);
  }

  /** Then no row is ever picked twice, so none is charged twice. */
  lemma OrderlyRunsChargeOnce(steps: seq<Step>, period: int, j: nat, k: nat, i: nat)
    requires j < k < |steps| && Orderly(steps, period)
    requires Picks(Run(steps[..j], period), steps[j], period, i)
    ensures !Picks(Run(steps[..k], period), steps[k], period, i)
  {
    hide Next;
    if Enabled(Run(steps[..k], period), steps[k], period) {
      assert steps[..j + 1][..j] == steps[..j];
      ChargeOpens(Run(steps[..j], period), steps[j], period, i);
      OpenUntilLanded(steps, period, j, k, i, steps[j].run);
      RowBetween(steps, period, j, k, i);
      hide Run, Enabled, Lands;
      assert LandedBetween(steps, period, j + 1, k, i);
      assert LandedBetween(steps, period, j, k, i);
    }
  }
}
