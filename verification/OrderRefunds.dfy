/** The money: what Stripe refunded, against what was recorded and what was paid out. */
module OrderRefunds {
  import opened Wrappers
  import opened Amounts
  import opened EventQueue
  import opened Orders

  function Count(refunds: seq<nat>, id: nat): nat {
    if refunds == [] then 0
    else Count(refunds[..|refunds| - 1], id) + if refunds[|refunds| - 1] == id then 1 else 0
  }

  /** The request has had its refund made and writes `Declined` next. */
  predicate Recording(flights: map<nat, Flight>, op: nat, id: nat) {
    op in flights && flights[op].orderId == id && flights[op].SetState? && flights[op].purpose.AfterRefund?
  }

  /** The requests that have had their refund made and not yet recorded. */
  function PendingOps(flights: map<nat, Flight>, id: nat): set<nat> {
    set op | op in flights && Recording(flights, op, id)
  }

  /** This step loses a refund: Stripe made it and its answer is lost, or its record is not written. */
  predicate LosesRefund(w: World, step: Step, id: nat) {
    match step
    case Perform(op, outcome) =>
      || (outcome.Fails? && Recording(w.flights, op, id))
      || (outcome.ReplyLost? && op in w.flights && w.flights[op] == Refund(id))
    case Abandon(op) => Recording(w.flights, op, id)
    case _ => false
  }

  predicate RecordsRefund(w: World, step: Step, id: nat) {
    step.Perform? && !step.outcome.Fails? && Recording(w.flights, step.op, id)
  }

  function One(b: bool): nat {
    if b then 1 else 0
  }

  function LostRefunds(steps: seq<Step>, id: nat): nat {
    if steps == [] then 0
    else
      var front, last := steps[..|steps| - 1], steps[|steps| - 1];
      LostRefunds(front, id) + One(LosesRefund(Run(front), last, id))
  }

  function RecordedRefunds(steps: seq<Step>, id: nat): nat {
    if steps == [] then 0
    else
      var front, last := steps[..|steps| - 1], steps[|steps| - 1];
      RecordedRefunds(front, id) + One(RecordsRefund(Run(front), last, id))
  }

  // ---- The account of one order's refunds ----

  lemma CountAppended(refunds: seq<nat>, added: nat, id: nat)
    ensures Count(refunds + [added], id) == Count(refunds, id) + One(added == id)
  {
    assert (refunds + [added])[..|refunds|] == refunds;
  }

  /** A step that touches the calls of one request only. */
  ghost predicate OnlyOp(before: map<nat, Flight>, after: map<nat, Flight>, op: nat) {
    && (forall other :: other != op ==> (other in after <==> other in before))
    && forall other :: other != op && other in before ==> after[other] == before[other]
  }

  lemma PendingChanges(before: map<nat, Flight>, after: map<nat, Flight>, op: nat, id: nat)
    requires OnlyOp(before, after, op)
    ensures |PendingOps(after, id)| + One(Recording(before, op, id))
         == |PendingOps(before, id)| + One(Recording(after, op, id))
  {
    var others := PendingOps(before, id) - {op};
    assert PendingOps(before, id) == if Recording(before, op, id) then others + {op} else others;
    assert PendingOps(after, id) == if Recording(after, op, id) then others + {op} else others;
  }

  /** One call turns a refund into a pending record, or a pending record into a written or a lost one. */
  lemma PerformAccounts(w: World, op: nat, outcome: Outcome, id: nat)
    ensures var after := PerformOp(w, op, outcome);
      Count(after.refunds, id) + |PendingOps(w.flights, id)|
      == Count(w.refunds, id) + |PendingOps(after.flights, id)|
         + One(LosesRefund(w, Perform(op, outcome), id)) + One(RecordsRefund(w, Perform(op, outcome), id))
  {
    if op in w.flights {
      var after := PerformOp(w, op, outcome);
      CountAppended(w.refunds, w.flights[op].orderId, id);
      PendingChanges(w.flights, after.flights, op, id);
    }
  }

  lemma StepAccounts(w: World, step: Step, id: nat)
    ensures var after := Next(w, step);
      Count(after.refunds, id) + |PendingOps(w.flights, id)|
      == Count(w.refunds, id) + |PendingOps(after.flights, id)|
         + One(LosesRefund(w, step, id)) + One(RecordsRefund(w, step, id))
  {
    var after := Next(w, step);
    match step
    case Perform(op, outcome) =>
      hide PerformOp;
      PerformAccounts(w, op, outcome, id);
    case Abandon(op) => PendingChanges(w.flights, after.flights, op, id);
    case Begin(op, _, _, _) => PendingChanges(w.flights, after.flights, op, id);
    case AddOrder(_, _) =>
  }

  /** In every run, however requests overlap, the refunds made for an order are those lost, those
      recorded, and those that some request is about to record. */
  lemma {:induction false} RefundsAreAccounted(steps: seq<Step>, id: nat)
    ensures var w := Run(steps);
      Count(w.refunds, id) == LostRefunds(steps, id) + RecordedRefunds(steps, id) + |PendingOps(w.flights, id)|
  {
    hide Next;
    if steps != [] {
      var front := steps[..|steps| - 1];
      RefundsAreAccounted(front, id);
      StepAccounts(Run(front), steps[|steps| - 1], id);
    }
  }

  lemma PendingIsOne(flights: map<nat, Flight>, op: nat, id: nat)
    requires forall a, b :: a in flights && b in flights && a != b ==> flights[a].orderId != flights[b].orderId
    requires Recording(flights, op, id)
    ensures PendingOps(flights, id) == {op}
  {
  }

  /** When requests on the order do not overlap, at most one refund is not lost; so an order is refunded
      more than once exactly if a refund was lost and another one made, lost or not. */
  lemma RefundedTwiceExactlyIf(steps: seq<Step>, id: nat)
    requires Serial(steps)
    ensures var w := Run(steps);
      && RecordedRefunds(steps, id) + |PendingOps(w.flights, id)| <= 1
      && (Count(w.refunds, id) > 1 <==>
            var allLost := RecordedRefunds(steps, id) == 0 && PendingOps(w.flights, id) == {};
            LostRefunds(steps, id) > if allLost then 1 else 0)
  {
    var w := Run(steps);
    RefundsAreAccounted(steps, id);
    RecordedMeansDeclined(steps, id);
    SerialIsUndisturbed(steps);
    FeeMeansNotInitial(steps);
    if op :| op in PendingOps(w.flights, id) {
      PendingIsOne(w.flights, op, id);
      assert FlightOk(w, w.flights[op]);
    }
  }

  lemma PerformRecords(w: World, op: nat, outcome: Outcome, id: nat)
    requires WorldOk(w) && Undisturbed(w) && RecordsRefund(w, Perform(op, outcome), id)
    ensures id in w.orders && w.orders[id].state.Initial?
    ensures PerformOp(w, op, outcome).orders[id].state.Declined?
  {
  }

  /** At most one refund is recorded, and the order is declined from then on. */
  lemma {:induction false} RecordedMeansDeclined(steps: seq<Step>, id: nat)
    requires Serial(steps)
    ensures RecordedRefunds(steps, id) <= 1
    ensures RecordedRefunds(steps, id) == 1 ==> id in Run(steps).orders && Run(steps).orders[id].state.Declined?
  {
    if steps != [] {
      var front, last := steps[..|steps| - 1], steps[|steps| - 1];
      RecordedMeansDeclined(front, id);
      SerialIsUndisturbed(front);
      FeeMeansNotInitial(front);
      StepKeepsUndisturbed(Run(front), last);
      if RecordsRefund(Run(front), last, id) {
        PerformRecords(Run(front), last.op, last.outcome, id);
      }
      hide Next;
    }
  }

  lemma PerformPays(w: World, op: nat, outcome: Outcome, id: nat)
    requires id in PerformOp(w, op, outcome).paidOut && id !in w.paidOut
    ensures id in PerformOp(w, op, outcome).orders && PerformOp(w, op, outcome).orders[id].state.PaidToSeller?
  {
  }

  lemma {:induction false} PaidOutIsPaid(steps: seq<Step>, id: nat)
    requires Serial(steps) && id in Run(steps).paidOut
    ensures id in Run(steps).orders && Run(steps).orders[id].state.PaidToSeller?
  {
    var front, last := steps[..|steps| - 1], steps[|steps| - 1];
    if id in Run(front).paidOut {
      PaidOutIsPaid(front, id);
      SerialIsUndisturbed(front);
      FeeMeansNotInitial(front);
      StepKeepsUndisturbed(Run(front), last);
    } else {
      PerformPays(Run(front), last.op, last.outcome, id);
    }
    hide Next;
  }

  /** Exactly how often the buyer of an order that was paid out has been refunded, when requests do not
      overlap: as often as a refund was lost. So an order is both refunded and paid out if and only if
      it is paid out and some refund took effect without its `Declined` being written. */
  lemma RefundedAndPaidExactlyIf(steps: seq<Step>, id: nat)
    requires Serial(steps)
    ensures id in Run(steps).paidOut ==> Count(Run(steps).refunds, id) == LostRefunds(steps, id)
    ensures id in Run(steps).paidOut && Count(Run(steps).refunds, id) > 0
       <==> id in Run(steps).paidOut && LostRefunds(steps, id) > 0
  {
    if id in Run(steps).paidOut {
      PaidOutIsPaid(steps, id);
      RefundsAreAccounted(steps, id);
      RecordedMeansDeclined(steps, id);
      SerialIsUndisturbed(steps);
      FeeMeansNotInitial(steps);
    }
  }

  // ---- When an order can still be paid out ----

  /** One more request, undisturbed, from its check to its one write. */
  function WithUpdate(steps: seq<Step>, op: nat, id: nat, state: PaymentState, now: Timestamp): seq<Step> {
    steps + [Begin(op, id, Update(state), now)] + [Perform(op, Succeeds)]
  }

  predicate Ready(steps: seq<Step>, op: nat, id: nat, state: PaymentState) {
    && Serial(steps)
    && id in Run(steps).orders && Run(steps).orders[id].state == state
    && op !in Run(steps).flights && Idle(Run(steps), id)
  }

  lemma UpdateLands(steps: seq<Step>, op: nat, id: nat, s: PaymentState, t: PaymentState, now: Timestamp)
    requires Ready(steps, op, id, s) && CheckChange(s, t)
    ensures Ready(WithUpdate(steps, op, id, t, now), op, id, t)
    ensures Run(WithUpdate(steps, op, id, t, now)).refunds == Run(steps).refunds
    ensures id in Run(WithUpdate(steps, op, id, t, now)).paidOut <==> t.PaidToSeller? || id in Run(steps).paidOut
  {
    var begun := steps + [Begin(op, id, Update(t), now)];
    RunAppends(steps, Begin(op, id, Update(t), now));
    RunAppends(begun, Perform(op, Succeeds));
    assert begun[..|steps|] == steps;
    assert (begun + [Perform(op, Succeeds)])[..|begun|] == begun;
    assert Run(begun).flights[op] == SetState(id, s, t, Plain);
  }

  /** The remaining updates of a captured order, or of one before it. */
  function PaidOutFrom(steps: seq<Step>, op: nat, id: nat, s: PaymentState, now: Timestamp): seq<Step> {
    match s
    case PaidToSeller => steps
    case PaymentToSellerNeeded => WithUpdate(steps, op, id, PaidToSeller, now)
    case Captured => WithUpdate(WithUpdate(steps, op, id, PaymentToSellerNeeded, now), op, id, PaidToSeller, now)
    case _ =>
      var captured := WithUpdate(steps, op, id, Captured, now);
      WithUpdate(WithUpdate(captured, op, id, PaymentToSellerNeeded, now), op, id, PaidToSeller, now)
  }

  lemma PaidOutFromLands(steps: seq<Step>, op: nat, id: nat, s: PaymentState, now: Timestamp)
    requires Ready(steps, op, id, s) && s in {Initial, Captured, PaymentToSellerNeeded}
    ensures var longer := PaidOutFrom(steps, op, id, s, now);
      && Serial(longer) && id in Run(longer).paidOut && Run(longer).refunds == Run(steps).refunds
      && steps <= longer
  {
    hide Ready, WithUpdate, Serial, Run;
    var one := if s.Initial? then WithUpdate(steps, op, id, Captured, now) else steps;
    if s.Initial? {
      UpdateLands(steps, op, id, s, Captured, now);
      WithUpdateExtends(steps, op, id, Captured, now);
    }
    var two := if s.PaymentToSellerNeeded? then one else WithUpdate(one, op, id, PaymentToSellerNeeded, now);
    if !s.PaymentToSellerNeeded? {
      UpdateLands(one, op, id, Captured, PaymentToSellerNeeded, now);
      WithUpdateExtends(one, op, id, PaymentToSellerNeeded, now);
    }
    UpdateLands(two, op, id, PaymentToSellerNeeded, PaidToSeller, now);
    WithUpdateExtends(two, op, id, PaidToSeller, now);
    ReadyIsSerial(WithUpdate(two, op, id, PaidToSeller, now), op, id, PaidToSeller);
  }

  lemma ReadyIsSerial(steps: seq<Step>, op: nat, id: nat, s: PaymentState)
    requires Ready(steps, op, id, s)
    ensures Serial(steps)
  {
  }

  lemma WithUpdateExtends(steps: seq<Step>, op: nat, id: nat, state: PaymentState, now: Timestamp)
    ensures steps <= WithUpdate(steps, op, id, state, now)
  {
  }

  /** An idle order, refunded or not, can be paid out by further requests that do not overlap if and
      only if its recorded state leads to `PaidToSeller`. A lost refund leaves `Initial`, which does. */
  lemma PayableExactlyIf(steps: seq<Step>, op: nat, id: nat, s: PaymentState, now: Timestamp)
    requires Ready(steps, op, id, s)
    ensures (exists longer :: steps <= longer && Serial(longer) && id in Run(longer).paidOut)
       <==> Leads(s, PaidToSeller)
  {
    FeeMeansNotInitial(steps);
    if Leads(s, PaidToSeller) {
      if !s.PaidToSeller? {
        PaidOutFromLands(steps, op, id, s, now);
      }
      var longer := PaidOutFrom(steps, op, id, s, now);
      assert steps <= longer && Serial(longer) && id in Run(longer).paidOut;
    }
    if longer :| steps <= longer && Serial(longer) && id in Run(longer).paidOut {
      PaidOutIsPaid(longer, id);
      assert longer[..|steps|] == steps;
      OrdersClimb(longer, |steps|, id);
    }
  }

  /** The failing run, for every fiat order that awaits its capture: a decline whose refund Stripe
      makes and whose record fails, then a capture, then the payment to the seller. No two requests
      overlap; the buyer is refunded and the seller is paid. */
  lemma UnrecordedRefundIsPaidOut(steps: seq<Step>, op: nat, id: nat, now: Timestamp)
    requires Ready(steps, op, id, Initial) && Run(steps).orders[id].sellerCurrency.IsFiat()
    ensures var declining := steps + [Begin(op, id, Decline, now)] + [Perform(op, Succeeds)] + [Perform(op, Fails)];
      var longer := PaidOutFrom(declining, op, id, Initial, now);
      && steps <= longer && Serial(longer)
      && id in Run(longer).paidOut
      && Count(Run(longer).refunds, id) == Count(Run(steps).refunds, id) + 1
      && LostRefunds(longer, id) > 0
  {
    var begun := steps + [Begin(op, id, Decline, now)];
    var refunded := begun + [Perform(op, Succeeds)];
    var declining := refunded + [Perform(op, Fails)];
    RunAppends(steps, Begin(op, id, Decline, now));
    RunAppends(begun, Perform(op, Succeeds));
    RunAppends(refunded, Perform(op, Fails));
    assert begun[..|steps|] == steps && refunded[..|begun|] == begun && declining[..|refunded|] == refunded;
    assert Run(begun).flights[op] == Refund(id);
    assert Run(refunded).flights[op] == SetState(id, Initial, Declined, AfterRefund);
    CountAppended(Run(steps).refunds, id, id);
    assert Run(declining).flights == Run(steps).flights;
    assert Run(declining).orders == Run(steps).orders;
    assert Serial(begun) && Serial(refunded) && Serial(declining);
    PaidOutFromLands(declining, op, id, Initial, now);
    RefundedAndPaidExactlyIf(PaidOutFrom(declining, op, id, Initial, now), id);
  }

  // ---- Requests that overlap ----

  /** A late write keeps its order on legal changes exactly if what the request saw is still so, or
      the write changes nothing, or it asks for a refund of an order that was at most captured. */
  lemma LateWriteMovesExactlyIf(w: World, op: nat)
    requires op in w.flights && w.flights[op].SetState? && FlightOk(w, w.flights[op])
    ensures var f := w.flights[op]; var current := w.orders[f.orderId].state;
      OrdersMove(w, PerformOp(w, op, Succeeds)) <==>
        || current == f.seen
        || current == f.target
        || (f.target.RefundNeeded? && current in {Initial, Captured})
  {
    var f := w.flights[op];
    assert PerformOp(w, op, Succeeds).orders[f.orderId].state == f.target;
  }

  /** Two requests for one order that saw the same state both write: both changes are legal exactly if
      they write the same state, or the second asks for the refund of what the first captured. */
  lemma OverlappingWritesMoveExactlyIf(w: World, first: nat, second: nat)
    requires first != second && first in w.flights && second in w.flights
    requires w.flights[first].SetState? && w.flights[second].SetState?
    requires FlightOk(w, w.flights[first]) && FlightOk(w, w.flights[second])
    requires var id := w.flights[first].orderId;
      && w.flights[second].orderId == id
      && w.flights[first].seen == w.flights[second].seen == w.orders[id].state
    ensures var mid := PerformOp(w, first, Succeeds);
      var s, t := w.flights[first].target, w.flights[second].target;
      OrdersMove(w, mid) && OrdersMove(mid, PerformOp(mid, second, Succeeds))
      <==> s == t || (s.Captured? && t.RefundNeeded?)
  {
    var mid := PerformOp(w, first, Succeeds);
    LateWriteMovesExactlyIf(w, first);
    assert mid.flights[second] == w.flights[second];
    assert mid.orders[w.flights[first].orderId].state == w.flights[first].target;
    LateWriteMovesExactlyIf(mid, second);
  }

  predicate Holds(w: World, id: nat, state: PaymentState) {
    id in w.orders && w.orders[id].state == state
  }

  /** The capture handler and a decline both check a fiat order that awaits its capture, and Stripe refunds it. */
  function Overlapping(w: World, id: nat, capture: nat, decline: nat, fee: Amount, now: Timestamp): World {
    var capturing := Next(w, Begin(capture, id, Handle(fee), now));
    Next(Next(capturing, Begin(decline, id, Decline, now)), Perform(decline, Succeeds))
  }

  lemma OverlapBegins(w: World, id: nat, capture: nat, decline: nat, fee: Amount, now: Timestamp)
    requires Holds(w, id, Initial) && w.orders[id].stripeFee.None? && w.orders[id].sellerCurrency.IsFiat()
    requires capture !in w.flights && decline !in w.flights && capture != decline
    ensures var both := Overlapping(w, id, capture, decline, fee, now);
      && Holds(both, id, Initial)
      && both.refunds == w.refunds + [id]
      && capture in both.flights && both.flights[capture] == SetState(id, Initial, Captured, BeforeFee(fee))
      && decline in both.flights && both.flights[decline] == SetState(id, Initial, Declined, AfterRefund)
  {
    var capturing := Next(w, Begin(capture, id, Handle(fee), now));
    assert capturing.flights[capture] == SetState(id, Initial, Captured, BeforeFee(fee));
    var both := Next(capturing, Begin(decline, id, Decline, now));
    assert both.flights[decline] == Refund(id);
  }

  /** If these two overlap and their writes succeed, the refunded order can still be paid out if and
      only if the capture is the last to write. */
  lemma OverlapPaysRefundedExactlyIf(w: World, id: nat, capture: nat, decline: nat, fee: Amount, now: Timestamp,
                                     captureLast: bool)
    requires Holds(w, id, Initial) && w.orders[id].stripeFee.None? && w.orders[id].sellerCurrency.IsFiat()
    requires capture !in w.flights && decline !in w.flights && capture != decline
    ensures var both := Overlapping(w, id, capture, decline, fee, now);
      var first, last := if captureLast then decline else capture, if captureLast then capture else decline;
      var after := PerformOp(PerformOp(both, first, Succeeds), last, Succeeds);
      && after.refunds == w.refunds + [id]
      && Holds(after, id, if captureLast then Captured else Declined)
      && (Leads(after.orders[id].state, PaidToSeller) <==> captureLast)
  {
    hide Overlapping;
    OverlapBegins(w, id, capture, decline, fee, now);
  }

  lemma RefundCalled(w: World, op: nat, id: nat, outcome: Outcome)
    requires op in w.flights && w.flights[op] == Refund(id)
    ensures var after := PerformOp(w, op, outcome);
      && after.orders == w.orders
      && Count(after.refunds, id) == Count(w.refunds, id) + One(!outcome.Fails?)
      && (forall other :: other != op && other in w.flights ==>
            other in after.flights && after.flights[other] == w.flights[other])
      && (outcome.Succeeds? ==>
            op in after.flights && after.flights[op] == SetState(id, Initial, Declined, AfterRefund))
  {
    CountAppended(w.refunds, id, id);
  }

  lemma RefundRecorded(w: World, op: nat, id: nat)
    requires id in w.orders && op in w.flights && w.flights[op] == SetState(id, Initial, Declined, AfterRefund)
    ensures var after := PerformOp(w, op, Succeeds);
      && Holds(after, id, Declined)
      && (forall other :: other != op && other in w.flights ==>
            other in after.flights && after.flights[other] == w.flights[other])
  {
  }

  lemma DeclineBegun(w: World, op: nat, id: nat, now: Timestamp)
    requires Holds(w, id, Initial) && w.orders[id].sellerCurrency.IsFiat() && op !in w.flights
    ensures Next(w, Begin(op, id, Decline, now)) == w.(flights := w.flights[op := Refund(id)])
  {
  }

  /** Two declines of a fiat order both read `Initial`, whatever other requests do. They refund it twice
      exactly if both calls for the refund take effect, and then the order reads `Declined` as ever. */
  lemma OverlappingDeclinesRefundTwiceExactlyIf(w: World, id: nat, a: nat, b: nat, first: Outcome, second: Outcome,
                                                now: Timestamp)
    requires Holds(w, id, Initial) && w.orders[id].sellerCurrency.IsFiat()
    requires a !in w.flights && b !in w.flights && a != b
    ensures var begun := Next(Next(w, Begin(a, id, Decline, now)), Begin(b, id, Decline, now));
      var after := PerformOp(PerformOp(begun, a, first), b, second);
      && (Count(after.refunds, id) == Count(w.refunds, id) + 2 <==> !first.Fails? && !second.Fails?)
      && after.orders == w.orders
      && (first.Succeeds? && second.Succeeds? ==>
            Holds(PerformOp(PerformOp(after, a, Succeeds), b, Succeeds), id, Declined))
  {
    hide Next, PerformOp, Count;
    DeclineBegun(w, a, id, now);
    var one := Next(w, Begin(a, id, Decline, now));
    DeclineBegun(one, b, id, now);
    var begun := Next(one, Begin(b, id, Decline, now));
    RefundCalled(begun, a, id, first);
    var mid := PerformOp(begun, a, first);
    RefundCalled(mid, b, id, second);
    if first.Succeeds? && second.Succeeds? {
      var after := PerformOp(mid, b, second);
      RefundRecorded(after, a, id);
      RefundRecorded(PerformOp(after, a, Succeeds), b, id);
    }
  }
}
