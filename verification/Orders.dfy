/** The payment state of orders. Each request reads an order, checks its state, and then makes calls
    that write, one of which may move money: the steps below keep the check and the calls apart, so
    that requests may overlap, fail at any call, and be abandoned between any two. */
module Orders {
  import opened Wrappers
  import opened Amounts
  import opened EventQueue

  datatype PaymentState =
    Initial | Declined | Captured | RefundNeeded | Refunded | PaidToSeller | PaymentToSellerNeeded
  {
    function Rank(): nat {
      match this
      case Initial => 0
      case Declined | Captured => 1
      case RefundNeeded | PaymentToSellerNeeded => 2
      case Refunded | PaidToSeller => 3
    }
  }

  datatype Order = Order(sellerCurrency: Currency, state: PaymentState, stripeFee: Option<Amount>)

  /** `Handle` is the queue's capture event, with the fee found at Stripe. */
  datatype Request = Capture | Decline | Update(state: PaymentState) | Handle(fee: Amount)

  datatype OrderError = NoOrder | WrongState | AlreadyDone | ClientFailed | Died

  /** What a write is for: the refund it records, or the fee to be recorded next. */
  datatype Purpose = Plain | AfterRefund | BeforeFee(fee: Amount)

  /** The call that a request which passed its check makes next. */
  datatype Flight =
    | Announce(orderId: nat, now: Timestamp)
    | Refund(orderId: nat)
    | SetState(orderId: nat, seen: PaymentState, target: PaymentState, purpose: Purpose)
    | SetFee(orderId: nat, stripeFee: Amount)

  /** `refunds` are the refunds made at Stripe, by order; `paidOut` are the orders that were ever
      recorded as paid to their seller. */
  datatype World =
    World(orders: map<nat, Order>, flights: map<nat, Flight>, queue: Table, refunds: seq<nat>, paidOut: set<nat>)

  const EMPTY := World(map[], map[], [], [], {})

  predicate CheckChange(current: PaymentState, next: PaymentState) {
    match current
    case Initial => next.Captured? || next.Declined?
    case Captured => next.RefundNeeded? || next.PaymentToSellerNeeded?
    case RefundNeeded => next.Refunded?
    case PaymentToSellerNeeded => next.PaidToSeller?
    case Declined | Refunded | PaidToSeller => false
  }

  /** The six changes that may be asked for. */
  lemma AllowedChanges(s: PaymentState, t: PaymentState)
    ensures CheckChange(s, t) <==> (s, t) in {
      (Initial, Captured), (Initial, Declined),
      (Captured, RefundNeeded), (Captured, PaymentToSellerNeeded),
      (RefundNeeded, Refunded), (PaymentToSellerNeeded, PaidToSeller)
    }
  {
  }

  function PlanOf(id: nat, order: Order, request: Request, now: Timestamp): Result<Flight, OrderError> {
    match request
    case Capture =>
      if !order.state.Initial? then Err(WrongState)
      else if order.sellerCurrency.IsFiat() then Ok(Announce(id, now))
      else Ok(SetState(id, order.state, Captured, Plain))
    case Decline =>
      if !order.state.Initial? then Err(WrongState)
      else if order.sellerCurrency.IsFiat() then Ok(Refund(id))
      else Ok(SetState(id, order.state, RefundNeeded, Plain))
    case Update(state) =>
      if CheckChange(order.state, state) then Ok(SetState(id, order.state, state, Plain)) else Err(WrongState)
    case Handle(fee) =>
      if !order.state.Initial? || order.stripeFee.Some? then Err(AlreadyDone)
      else Ok(SetState(id, order.state, Captured, BeforeFee(fee)))
  }

  datatype Step =
    | AddOrder(id: nat, sellerCurrency: Currency)
    | Begin(op: nat, orderId: nat, request: Request, now: Timestamp)
    | Perform(op: nat, outcome: Outcome)
    | Abandon(op: nat)

  function BeginOp(w: World, op: nat, id: nat, request: Request, now: Timestamp): World {
    if id !in w.orders || op in w.flights then w
    else
      var plan := PlanOf(id, w.orders[id], request, now);
      if plan.Err? then w else w.(flights := w.flights[op := plan.value])
  }

  /** What a call changes when it takes effect. */
  function Effect(w: World, flight: Flight): World {
    match flight
    case Announce(id, now) => w.(queue := w.queue + [NewEntry(PaymentIntentCapture(id), None, now)])
    case Refund(id) => w.(refunds := w.refunds + [id])
    case SetState(id, _, target, _) =>
      if id !in w.orders then w
      else w.(orders := w.orders[id := w.orders[id].(state := target)],
              paidOut := if target.PaidToSeller? then w.paidOut + {id} else w.paidOut)
    case SetFee(id, fee) =>
      if id !in w.orders then w else w.(orders := w.orders[id := w.orders[id].(stripeFee := Some(fee))])
  }

  /** The call after this one, when it has succeeded. */
  function Following(flight: Flight): Option<Flight> {
    match flight
    case Refund(id) => Some(SetState(id, Initial, Declined, AfterRefund))
    case SetState(id, _, _, BeforeFee(fee)) => Some(SetFee(id, fee))
    case _ => None
  }

  function PerformOp(w: World, op: nat, outcome: Outcome): World {
    if op !in w.flights then w
    else
      var flight := w.flights[op];
      var after := if outcome.Fails? then w else Effect(w, flight);
      var following := if outcome.Succeeds? then Following(flight) else None;
      after.(flights := if following.Some? then w.flights[op := following.value] else w.flights - {op})
  }

  function Next(w: World, step: Step): World {
    match step
    case AddOrder(id, currency) =>
      if id in w.orders then w else w.(orders := w.orders[id := Order(currency, Initial, None)])
    case Begin(op, id, request, now) => BeginOp(w, op, id, request, now)
    case Perform(op, outcome) => PerformOp(w, op, outcome)
    case Abandon(op) => w.(flights := w.flights - {op})
  }

  function Run(steps: seq<Step>): World {
    if steps == [] then EMPTY else Next(Run(steps[..|steps| - 1]), steps[|steps| - 1])
  }

  lemma RunAppends(steps: seq<Step>, step: Step)
    ensures Run(steps + [step]) == Next(Run(steps), step)
  {
    assert (steps + [step])[..|steps|] == steps;
  }

  // ---- Where a state may lead ----

  /** One legal change; declining a crypto order skips the check and goes straight to `RefundNeeded`. */
  predicate Moves(s: PaymentState, t: PaymentState) {
    CheckChange(s, t) || (s.Initial? && t.RefundNeeded?)
  }

  /** Zero or more legal changes. */
  predicate Leads(s: PaymentState, t: PaymentState) {
    match s
    case Initial => true
    case Captured => t != Initial && t != Declined
    case RefundNeeded => t.RefundNeeded? || t.Refunded?
    case PaymentToSellerNeeded => t.PaymentToSellerNeeded? || t.PaidToSeller?
    case Declined | Refunded | PaidToSeller => t == s
  }

  ghost predicate Path(states: seq<PaymentState>) {
    states != [] && forall i :: 0 <= i < |states| - 1 ==> Moves(states[i], states[i + 1])
  }

  lemma LeadsOverMove(s: PaymentState, t: PaymentState, u: PaymentState)
    requires Leads(s, t) && Moves(t, u)
    ensures Leads(s, u)
  {
  }

  /** `Leads` is nothing but a path of legal changes. */
  lemma {:induction false} PathsLead(states: seq<PaymentState>)
    requires Path(states)
    ensures Leads(states[0], states[|states| - 1])
  {
    if |states| > 1 {
      PathsLead(states[..|states| - 1]);
      LeadsOverMove(states[0], states[|states| - 2], states[|states| - 1]);
    }
  }

  lemma LeadsHasPath(s: PaymentState, t: PaymentState)
    requires Leads(s, t)
    ensures exists states :: Path(states) && states[0] == s && states[|states| - 1] == t
  {
    var toCaptured := if s.Initial? then [Initial] else [];
    var states :=
      if s == t then [s]
      else match t
        case Captured | Declined => [s, t]
        case RefundNeeded => [s, t]
        case PaymentToSellerNeeded => toCaptured + [Captured, t]
        case Refunded => if s.RefundNeeded? then [s, t] else [s, RefundNeeded, t]
        case PaidToSeller =>
          if s.PaymentToSellerNeeded? then [s, t] else toCaptured + [Captured, PaymentToSellerNeeded, t]
        case Initial => [s, t];
    assert Path(states) && states[0] == s && states[|states| - 1] == t;
  }

  lemma LeadsClimbs(s: PaymentState, t: PaymentState)
    requires Leads(s, t)
    ensures s == t || s.Rank() < t.Rank()
  {
  }

  // ---- Every run ----

  predicate FlightOk(w: World, f: Flight) {
    && f.orderId in w.orders
    && match f
       case Announce(_, _) => true
       case Refund(_) => true
       case SetState(_, seen, target, purpose) =>
         Moves(seen, target) && (purpose.AfterRefund? ==> seen.Initial? && target.Declined?)
       case SetFee(id, _) => !w.orders[id].state.Initial?
  }

  predicate WorldOk(w: World) {
    && (forall op <- w.flights :: FlightOk(w, w.flights[op]))
    && (forall id <- w.orders :: w.orders[id].stripeFee.Some? ==> !w.orders[id].state.Initial?)
    && (forall id <- w.orders :: w.orders[id].state.PaidToSeller? ==> id in w.paidOut)
    && forall id <- w.paidOut :: id in w.orders
  }

  lemma PerformKeepsOk(w: World, op: nat, outcome: Outcome)
    requires WorldOk(w)
    ensures WorldOk(PerformOp(w, op, outcome))
  {
  }

  /** A fee is only ever recorded on an order that has left `Initial`, even if requests overlap. */
  lemma {:induction false} FeeMeansNotInitial(steps: seq<Step>)
    ensures WorldOk(Run(steps))
    ensures forall id <- Run(steps).orders ::
      Run(steps).orders[id].stripeFee.Some? ==> !Run(steps).orders[id].state.Initial?
  {
    hide PerformOp;
    if steps != [] {
      var step := steps[|steps| - 1];
      FeeMeansNotInitial(steps[..|steps| - 1]);
      if step.Perform? {
        PerformKeepsOk(Run(steps[..|steps| - 1]), step.op, step.outcome);
      }
    }
  }

  predicate Idle(w: World, id: nat) {
    forall op <- w.flights :: w.flights[op].orderId != id
  }

  /** No request begins on an order while another one still has calls to make for it. */
  predicate Serial(steps: seq<Step>) {
    steps != [] ==>
      var front, last := steps[..|steps| - 1], steps[|steps| - 1];
      Serial(front) && (last.Begin? ==> Idle(Run(front), last.orderId))
  }

  function SeenBy(f: Flight): Option<PaymentState> {
    match f
    case Refund(_) => Some(Initial)
    case SetState(_, seen, _, _) => Some(seen)
    case Announce(_, _) => None
    case SetFee(_, _) => None
  }

  /** Then what a request has seen is still so when it writes. */
  predicate Undisturbed(w: World) {
    && (forall op <- w.flights :: w.flights[op].orderId in w.orders)
    && (forall op <- w.flights :: SeenBy(w.flights[op]).Some? ==>
          w.orders[w.flights[op].orderId].state == SeenBy(w.flights[op]).value)
    && forall a, b :: a in w.flights && b in w.flights && a != b ==> w.flights[a].orderId != w.flights[b].orderId
  }

  predicate OrdersMove(before: World, after: World) {
    forall id <- before.orders ::
      && id in after.orders
      && (after.orders[id].state == before.orders[id].state || Moves(before.orders[id].state, after.orders[id].state))
  }

  lemma PerformKeepsUndisturbed(w: World, op: nat, outcome: Outcome)
    requires WorldOk(w) && Undisturbed(w)
    ensures Undisturbed(PerformOp(w, op, outcome))
    ensures OrdersMove(w, PerformOp(w, op, outcome))
  {
  }

  lemma StepKeepsUndisturbed(w: World, step: Step)
    requires WorldOk(w) && Undisturbed(w)
    requires step.Begin? ==> Idle(w, step.orderId)
    ensures Undisturbed(Next(w, step))
    ensures OrdersMove(w, Next(w, step))
  {
    hide PerformOp;
    if step.Perform? {
      PerformKeepsUndisturbed(w, step.op, step.outcome);
    }
  }

  lemma {:induction false} SerialIsUndisturbed(steps: seq<Step>)
    requires Serial(steps)
    ensures Undisturbed(Run(steps))
  {
    hide Next;
    if steps != [] {
      SerialIsUndisturbed(steps[..|steps| - 1]);
      FeeMeansNotInitial(steps[..|steps| - 1]);
      StepKeepsUndisturbed(Run(steps[..|steps| - 1]), steps[|steps| - 1]);
    }
  }

  /** As long as requests on one order do not overlap, between any two moments of a run each order
      stays or climbs, along legal changes. */
  lemma {:induction false} OrdersClimb(steps: seq<Step>, k: nat, id: nat)
    requires Serial(steps) && k <= |steps| && id in Run(steps[..k]).orders
    ensures id in Run(steps).orders
    ensures var s, t := Run(steps[..k]).orders[id].state, Run(steps).orders[id].state;
      Leads(s, t) && (s == t || s.Rank() < t.Rank())
  {
    hide Next;
    if k == |steps| {
      assert steps[..k] == steps;
    } else {
      var front := steps[..|steps| - 1];
      assert front[..k] == steps[..k];
      OrdersClimb(front, k, id);
      SerialIsUndisturbed(front);
      FeeMeansNotInitial(front);
      StepKeepsUndisturbed(Run(front), steps[|steps| - 1]);
      var s, m, t := Run(front[..k]).orders[id].state, Run(front).orders[id].state, Run(steps).orders[id].state;
      if m != t {
        LeadsOverMove(s, m, t);
      }
      LeadsClimbs(s, t);
    }
  }

  lemma {:induction false} PrefixIsSerial(steps: seq<Step>, k: nat)
    requires Serial(steps) && k <= |steps|
    ensures Serial(steps[..k])
  {
    if k == |steps| {
      assert steps[..k] == steps;
    } else {
      assert steps[..|steps| - 1][..k] == steps[..k];
      PrefixIsSerial(steps[..|steps| - 1], k);
    }
  }

  /** So no order is ever recorded as paid to the seller that was at another moment recorded as
      refunded or declined. What is recorded is not all that was paid: see the refunds below. */
  lemma NeverRecordedRefundedAndPaid(steps: seq<Step>, j: nat, k: nat, id: nat)
    requires Serial(steps) && j <= |steps| && k <= |steps|
    requires id in Run(steps[..j]).orders && id in Run(steps[..k]).orders
    ensures Run(steps[..j]).orders[id].state in {Refunded, Declined} ==>
      Run(steps[..k]).orders[id].state != PaidToSeller
  {
    PrefixIsSerial(steps, j);
    PrefixIsSerial(steps, k);
    if j <= k {
      assert steps[..k][..j] == steps[..j];
      OrdersClimb(steps[..k], j, id);
    } else {
      assert steps[..j][..k] == steps[..k];
      OrdersClimb(steps[..j], k, id);
    }
  }

  // ---- One request alone ----

  /** Every request, from its check to its last call; it dies where `fate` ends. */
  function Attempt(w: World, op: nat, id: nat, request: Request, fate: seq<Outcome>, now: Timestamp): World {
    PerformAll(BeginOp(w, op, id, request, now), op, fate)
  }

  function PerformAll(w: World, op: nat, fate: seq<Outcome>): World
    decreases fate
  {
    if op !in w.flights then w
    else if fate == [] then Next(w, Abandon(op))
    else PerformAll(PerformOp(w, op, fate[0]), op, fate[1..])
  }

  /** The attempt of a lone request, call by call. */
  lemma LoneAttempt(w: World, op: nat, id: nat, request: Request, fate: seq<Outcome>, now: Timestamp)
    requires w.flights == map[] && id in w.orders
    ensures var plan := PlanOf(id, w.orders[id], request, now);
      Attempt(w, op, id, request, fate, now) == if plan.Err? then w else LoneCalls(w, plan.value, fate)
  {
    var plan := PlanOf(id, w.orders[id], request, now);
    if plan.Ok? {
      LoneCallsArePerformed(w, op, plan.value, fate);
    }
  }

  function LoneCalls(w: World, flight: Flight, fate: seq<Outcome>): World
    decreases fate
  {
    if fate == [] || fate[0].Fails? then w
    else
      var following := Following(flight);
      if fate[0].Succeeds? && following.Some? then LoneCalls(Effect(w, flight), following.value, fate[1..])
      else Effect(w, flight)
  }

  lemma {:induction false} LoneCallsArePerformed(w: World, op: nat, flight: Flight, fate: seq<Outcome>)
    requires w.flights == map[]
    ensures PerformAll(w.(flights := map[op := flight]), op, fate) == LoneCalls(w, flight, fate)
    decreases fate
  {
    var flying := w.(flights := map[op := flight]);
    assert flying.flights - {op} == map[] && w.(flights := map[]) == w;
    if fate != [] {
      var after := PerformOp(flying, op, fate[0]);
      var following := Following(flight);
      if fate[0].Succeeds? && following.Some? {
        assert map[op := flight][op := following.value] == map[op := following.value];
        assert after == Effect(w, flight).(flights := map[op := following.value]);
        LoneCallsArePerformed(Effect(w, flight), op, following.value, fate[1..]);
      } else {
        assert after == if fate[0].Fails? then w else Effect(w, flight);
      }
    }
  }

  /** An attempt on an idle order continues a serial run serially, and leaves the order idle. */
  lemma AttemptIsSerial(steps: seq<Step>, op: nat, id: nat, request: Request, fate: seq<Outcome>, now: Timestamp)
    requires Serial(steps) && op !in Run(steps).flights && Idle(Run(steps), id)
    ensures exists longer ::
      steps <= longer && Serial(longer) && Run(longer) == Attempt(Run(steps), op, id, request, fate, now)
  {
    var begun := steps + [Begin(op, id, request, now)];
    RunAppends(steps, Begin(op, id, request, now));
    assert begun[..|steps|] == steps;
    PerformAllIsSerial(begun, op, fate);
    var longer :| begun <= longer && Serial(longer) && Run(longer) == PerformAll(Run(begun), op, fate);
    assert steps <= longer;
  }

  lemma {:induction false} PerformAllIsSerial(steps: seq<Step>, op: nat, fate: seq<Outcome>)
    requires Serial(steps)
    ensures exists longer :: steps <= longer && Serial(longer) && Run(longer) == PerformAll(Run(steps), op, fate)
    decreases fate
  {
    hide PerformOp;
    if op !in Run(steps).flights {
      assert steps <= steps && Serial(steps) && Run(steps) == PerformAll(Run(steps), op, fate);
    } else if fate == [] {
      var longer := steps + [Abandon(op)];
      RunAppends(steps, Abandon(op));
      assert longer[..|steps|] == steps;
      assert steps <= longer && Serial(longer) && Run(longer) == PerformAll(Run(steps), op, fate);
    } else {
      var one := steps + [Perform(op, fate[0])];
      RunAppends(steps, Perform(op, fate[0]));
      assert one[..|steps|] == steps;
      PerformAllIsSerial(one, op, fate[1..]);
      var longer :| one <= longer && Serial(longer) && Run(longer) == PerformAll(Run(one), op, fate[1..]);
      assert steps <= longer && Serial(longer) && Run(longer) == PerformAll(Run(steps), op, fate);
    }
  }
}
