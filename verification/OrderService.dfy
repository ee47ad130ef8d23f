/** The order service, each request running undisturbed. `fate` lists how its calls end, one after the
    other, and the process dies where it is too short. */
module OrderService {
  import opened Wrappers
  import opened Amounts
  import opened EventQueue
  import EventStoreRepo
  import opened Orders

  class StripeClient {
    var refunds: seq<nat>

    constructor ()
      ensures refunds == []
    {
      refunds := [];
    }

    method Refund(orderId: nat, outcome: Outcome) returns (ok: bool)
      modifies this
      ensures refunds == if outcome.Fails? then old(refunds) else old(refunds) + [orderId]
      ensures ok <==> outcome.Succeeds?
    {
      if outcome != Fails {
        refunds := refunds + [orderId];
      }
      ok := outcome == Succeeds;
    }
  }

  class OrderTable {
    var orders: map<nat, Order>
    ghost var paidOut: set<nat>
    const events: EventStoreRepo.EventStore
    const stripe: StripeClient

    ghost function State(): World
      reads this, events, stripe
    {
      World(orders, map[], events.table, stripe.refunds, paidOut)
    }

    constructor (config: Config)
      ensures State() == EMPTY && fresh(events) && fresh(stripe)
    {
      orders, paidOut := map[], {};
      events := new EventStoreRepo.EventStore(config);
      stripe := new StripeClient();
    }

    method UpdateState(id: nat, state: PaymentState, outcome: Outcome) returns (r: Result<Order, OrderError>)
      modifies this
      ensures orders == if id in old(orders) && !outcome.Fails? then old(orders)[id := old(orders)[id].(state := state)]
                        else old(orders)
      ensures paidOut == if id in old(orders) && !outcome.Fails? && state.PaidToSeller? then old(paidOut) + {id}
                         else old(paidOut)
      ensures r.Ok? <==> id in old(orders) && outcome.Succeeds?
      ensures r.Ok? ==> r.value == orders[id]
    {
      if id !in orders {
        return Err(NoOrder);
      }
      if outcome == Fails {
        return Err(ClientFailed);
      }
      orders := orders[id := orders[id].(state := state)];
      paidOut := if state.PaidToSeller? then paidOut + {id} else paidOut;
      return if outcome == Succeeds then Ok(orders[id]) else Err(ClientFailed);
    }

    method UpdateStripeFee(id: nat, fee: Amount, outcome: Outcome) returns (r: Result<Order, OrderError>)
      modifies this`orders
      ensures orders == if id in old(orders) && !outcome.Fails?
                        then old(orders)[id := old(orders)[id].(stripeFee := Some(fee))]
                        else old(orders)
      ensures r.Ok? <==> id in old(orders) && outcome.Succeeds?
      ensures r.Ok? ==> r.value == orders[id]
    {
      if id !in orders {
        return Err(NoOrder);
      }
      if outcome == Fails {
        return Err(ClientFailed);
      }
      orders := orders[id := orders[id].(stripeFee := Some(fee))];
      return if outcome == Succeeds then Ok(orders[id]) else Err(ClientFailed);
    }

    /** A fiat order is captured by the queue, a crypto order at once. */
    method OrderCapture(id: nat, fate: seq<Outcome>, now: Timestamp) returns (r: Result<(), OrderError>)
      modifies this, events
      ensures State() == Attempt(old(State()), 0, id, Capture, fate, now)
      ensures r.Ok? <==> id in old(orders) && old(orders)[id].state.Initial? && fate != [] && fate[0].Succeeds?
      ensures r.Ok? ==>
        if old(orders)[id].sellerCurrency.IsFiat()
        then && orders == old(orders)
             && events.table == old(events.table) + [NewEntry(PaymentIntentCapture(id), None, now)]
        else orders == old(orders)[id := old(orders)[id].(state := Captured)] && events.table == old(events.table)
    {
      if id !in orders {
        return Err(NoOrder);
      }
      LoneAttempt(State(), 0, id, Capture, fate, now);
      var order := orders[id];
      if order.state != Initial {
        return Err(WrongState);
      }
      if fate == [] {
        return Err(Died);
      }
      if order.sellerCurrency.IsFiat() {
        if fate[0] != Fails {
          var _ := events.AddEvent(PaymentIntentCapture(id), now);
        }
      } else {
        var _ := UpdateState(id, Captured, fate[0]);
      }
      return if fate[0] == Succeeds then Ok(()) else Err(ClientFailed);
    }

    /** A crypto order is only marked. For a fiat order the first call is the refund, with the lookups
        before it, and the second records it; between the two the money has moved and the order does
        not show it. */
    method OrderDecline(id: nat, fate: seq<Outcome>, now: Timestamp) returns (r: Result<(), OrderError>)
      modifies this, stripe
      ensures State() == Attempt(old(State()), 0, id, Decline, fate, now)
      ensures id in old(orders) && old(orders)[id].state.Initial? && old(orders)[id].sellerCurrency.IsFiat() ==>
        && (stripe.refunds == old(stripe.refunds) + [id] <==> fate != [] && !fate[0].Fails?)
        && id in orders
        && (orders[id].state.Declined? <==> |fate| > 1 && fate[0].Succeeds? && !fate[1].Fails?)
        && (r.Ok? <==> |fate| > 1 && fate[0].Succeeds? && fate[1].Succeeds?)
      ensures id in old(orders) && old(orders)[id].state.Initial? && !old(orders)[id].sellerCurrency.IsFiat() ==>
        && id in orders && stripe.refunds == old(stripe.refunds)
        && (orders[id].state.RefundNeeded? <==> fate != [] && !fate[0].Fails?)
        && (r.Ok? <==> fate != [] && fate[0].Succeeds?)
      ensures id !in old(orders) || !old(orders)[id].state.Initial? ==> r.Err? && State() == old(State())
    {
      if id !in orders {
        return Err(NoOrder);
      }
      LoneAttempt(State(), 0, id, Decline, fate, now);
      var order := orders[id];
      if order.state != Initial {
        return Err(WrongState);
      }
      if fate == [] {
        return Err(Died);
      }
      if !order.sellerCurrency.IsFiat() {
        var _ := UpdateState(id, RefundNeeded, fate[0]);
        return if fate[0] == Succeeds then Ok(()) else Err(ClientFailed);
      }
      var refunded := stripe.Refund(id, fate[0]);
      if !refunded {
        return Err(ClientFailed);
      }
      if |fate| == 1 {
        return Err(Died);
      }
      var _ := UpdateState(id, Declined, fate[1]);
      return if fate[1] == Succeeds then Ok(()) else Err(ClientFailed);
    }

    method UpdateOrderState(id: nat, state: PaymentState, fate: seq<Outcome>, now: Timestamp)
      returns (r: Result<(), OrderError>)
      modifies this
      ensures State() == Attempt(old(State()), 0, id, Update(state), fate, now)
      ensures r.Ok? <==>
        && fate != [] && fate[0].Succeeds?
        && id in old(orders)
        && (old(orders)[id].state, state) in {
             (Initial, Captured), (Initial, Declined),
             (Captured, RefundNeeded), (Captured, PaymentToSellerNeeded),
             (RefundNeeded, Refunded), (PaymentToSellerNeeded, PaidToSeller)
           }
      ensures r.Ok? ==> orders == old(orders)[id := old(orders)[id].(state := state)]
    {
      if id !in orders {
        return Err(NoOrder);
      }
      LoneAttempt(State(), 0, id, Update(state), fate, now);
      if !CheckChange(orders[id].state, state) {
        return Err(WrongState);
      }
      if fate == [] {
        return Err(Died);
      }
      var _ := UpdateState(id, state, fate[0]);
      return if fate[0] == Succeeds then Ok(()) else Err(ClientFailed);
    }

    /** The capture event. The first call is the update of the state, with the lookups and Stripe calls
        before it, the second that of the fee. If only the first takes effect the order is captured
        without a fee, and a retry then finds nothing left to do. */
    method HandlePaymentIntentCapture(id: nat, fee: Amount, fate: seq<Outcome>, now: Timestamp)
      returns (r: Result<(), OrderError>)
      modifies this
      ensures State() == Attempt(old(State()), 0, id, Handle(fee), fate, now)
      ensures id in old(orders) && old(orders)[id].state.Initial? && old(orders)[id].stripeFee.None? ==>
        && id in orders
        && (r.Ok? <==> |fate| > 1 && fate[0].Succeeds? && fate[1].Succeeds?)
        && (orders[id].state.Captured? <==> fate != [] && !fate[0].Fails?)
        && (orders[id].stripeFee == Some(fee) <==> |fate| > 1 && fate[0].Succeeds? && !fate[1].Fails?)
      ensures id in old(orders) && (!old(orders)[id].state.Initial? || old(orders)[id].stripeFee.Some?) ==>
        r.Ok? && State() == old(State())
    {
      if id !in orders {
        return Err(NoOrder);
      }
      LoneAttempt(State(), 0, id, Handle(fee), fate, now);
      var order := orders[id];
      if order.state != Initial || order.stripeFee.Some? {
        return Ok(());
      }
      if fate == [] {
        return Err(Died);
      }
      var _ := UpdateState(id, Captured, fate[0]);
      if fate[0] != Succeeds {
        return Err(ClientFailed);
      }
      if |fate| == 1 {
        return Err(Died);
      }
      var _ := UpdateStripeFee(id, fee, fate[1]);
      return if fate[1] == Succeeds then Ok(()) else Err(ClientFailed);
    }
  }
}
