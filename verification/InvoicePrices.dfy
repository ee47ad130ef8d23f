/** The price of an invoice, computed from its orders and their rates. */
module InvoicePrices {
  import opened Wrappers
  import opened Amounts
  import opened EventQueue
  import opened ExchangeRates

  datatype Invoice = Invoice(
    id: nat,
    accountId: Option<nat>,
    buyerCurrency: Currency,
    amountCaptured: Amount,
    finalAmountPaid: Option<Amount>,
    finalCashbackAmount: Option<Amount>,
    paidAt: Option<Timestamp>
  )

  datatype Order = Order(id: nat, invoiceId: nat, sellerCurrency: Currency, totalAmount: Amount, cashbackAmount: Amount)

  predicate OrdersApart(orders: seq<Order>) {
    forall i, j :: 0 <= i < j < |orders| ==> orders[i].id != orders[j].id
  }

  datatype BuyerAmounts = BuyerAmounts(exchangeRate: PositiveRate, currency: Currency, price: real)

  datatype OrderDump = OrderDump(
    id: nat,
    sellerPrice: real,
    sellerCashback: real,
    buyerAmounts: Option<BuyerAmounts>,
    rates: seq<Rate>
  )

  datatype InvoiceDump = InvoiceDump(
    id: nat,
    buyerCurrency: Currency,
    amountCaptured: real,
    totalPrice: real,
    totalCashback: Option<real>,
    orders: seq<OrderDump>,
    hasMissingRates: bool,
    paidAt: Option<Timestamp>
  )

  function FirstActive(rates: seq<Rate>): Option<Rate> {
    if rates == [] then None
    else if rates[0].status.Active? then Some(rates[0])
    else FirstActive(rates[1..])
  }

  function DumpOrder(buyerCurrency: Currency, order: Order, rates: seq<Rate>): OrderDump {
    var active := FirstActive(rates);
    var exchangeRate: Option<PositiveRate> :=
      if buyerCurrency == order.sellerCurrency then Some(1.0)
      else if active.Some? then Some(active.value.exchangeRate) else None;
    var sellerPrice := ToSuperUnit(order.sellerCurrency, order.totalAmount);
    OrderDump(
      order.id,
      sellerPrice,
      ToSuperUnit(order.sellerCurrency, order.cashbackAmount),
      if exchangeRate.None? then None
      else Some(BuyerAmounts(exchangeRate.value, buyerCurrency, Div(sellerPrice, exchangeRate.value))),
      rates)
  }

  /** An order is priced exactly if it needs no exchange or has an active rate, and its price in the
      buyer's currency, exchanged back at that rate, is what the seller asks. */
  lemma PriceMeans(buyerCurrency: Currency, order: Order, rates: seq<Rate>)
    ensures var dump := DumpOrder(buyerCurrency, order, rates);
      && dump.id == order.id && dump.rates == rates
      && dump.sellerPrice == ToSuperUnit(order.sellerCurrency, order.totalAmount)
      && dump.sellerCashback == ToSuperUnit(order.sellerCurrency, order.cashbackAmount)
    ensures var amounts := DumpOrder(buyerCurrency, order, rates).buyerAmounts;
      && (amounts.Some? <==> buyerCurrency == order.sellerCurrency || exists rate <- rates :: rate.status.Active?)
      && (amounts.Some? ==>
            && Mul(amounts.value.price, amounts.value.exchangeRate)
               == ToSuperUnit(order.sellerCurrency, order.totalAmount)
            && amounts.value.currency == buyerCurrency
            && if buyerCurrency == order.sellerCurrency then amounts.value.exchangeRate == 1.0
               else exists rate <- rates :: rate.status.Active? && rate.exchangeRate == amounts.value.exchangeRate)
  {
    hide ToSuperUnit;
    FirstActiveIsActive(rates);
    var amounts := DumpOrder(buyerCurrency, order, rates).buyerAmounts;
    if amounts.Some? {
      DivThenMul(ToSuperUnit(order.sellerCurrency, order.totalAmount), amounts.value.exchangeRate);
    }
  }

  lemma {:induction false} FirstActiveIsActive(rates: seq<Rate>)
    ensures FirstActive(rates).Some? <==> exists rate <- rates :: rate.status.Active?
    ensures FirstActive(rates).Some? ==> FirstActive(rates).value in rates && FirstActive(rates).value.status.Active?
  {
    if rates != [] {
      FirstActiveIsActive(rates[1..]);
      assert rates == [rates[0]] + rates[1..];
    }
  }

  function DumpOrders(buyerCurrency: Currency, orders: seq<(Order, seq<Rate>)>): (dumps: seq<OrderDump>)
    ensures |dumps| == |orders|
    ensures forall i :: 0 <= i < |orders| ==> dumps[i] == DumpOrder(buyerCurrency, orders[i].0, orders[i].1)
  {
    seq(|orders|, i requires 0 <= i < |orders| => DumpOrder(buyerCurrency, orders[i].0, orders[i].1))
  }

  function TotalPrice(dumps: seq<OrderDump>): real {
    if dumps == [] then 0.0
    else
      var last := dumps[|dumps| - 1].buyerAmounts;
      TotalPrice(dumps[..|dumps| - 1]) + if last.Some? then last.value.price else 0.0
  }

  predicate HasMissing(dumps: seq<OrderDump>) {
    exists i :: 0 <= i < |dumps| && dumps[i].buyerAmounts.None?
  }

  /** A paid invoice shows its final amounts; otherwise the prices of the priced orders add up. */
  function CalculateInvoicePrice(invoice: Invoice, orders: seq<(Order, seq<Rate>)>): InvoiceDump {
    var currency := invoice.buyerCurrency;
    var captured := ToSuperUnit(currency, invoice.amountCaptured);
    var dumps := DumpOrders(currency, orders);
    if invoice.finalAmountPaid.Some? && invoice.finalCashbackAmount.Some? && invoice.paidAt.Some? then
      InvoiceDump(invoice.id, currency, captured, ToSuperUnit(currency, invoice.finalAmountPaid.value),
        Some(ToSuperUnit(currency, invoice.finalCashbackAmount.value)), dumps, HasMissing(dumps), invoice.paidAt)
    else
      InvoiceDump(invoice.id, currency, captured, TotalPrice(dumps), Some(0.0), dumps, HasMissing(dumps), None)
  }

  lemma {:induction false} TotalPriceNonnegative(currency: Currency, orders: seq<(Order, seq<Rate>)>)
    ensures TotalPrice(DumpOrders(currency, orders)) >= 0.0
  {
    if orders != [] {
      var front, last := orders[..|orders| - 1], orders[|orders| - 1];
      TotalPriceNonnegative(currency, front);
      assert DumpOrders(currency, orders)[..|front|] == DumpOrders(currency, front);
      ToSuperUnitMonotone(last.0.sellerCurrency, 0, last.0.totalAmount);
      SuperUnitOfZero(last.0.sellerCurrency);
      var amounts := DumpOrder(currency, last.0, last.1).buyerAmounts;
      if amounts.Some? {
        DivMonotone(0.0, ToSuperUnit(last.0.sellerCurrency, last.0.totalAmount), amounts.value.exchangeRate);
      }
    }
  }

  // ---- The total as a sum over orders ----

  /** What an order costs the buyer at this active rate, or nothing if it has none. */
  function OrderPrice(buyer: Currency, order: Order, active: Option<Rate>): real {
    var asked := ToSuperUnit(order.sellerCurrency, order.totalAmount);
    if buyer == order.sellerCurrency then asked
    else if active.None? then 0.0
    else Div(asked, active.value.exchangeRate)
  }

  function SumOfPrices(buyer: Currency, orders: seq<Order>, rows: seq<Rate>): real {
    if orders == [] then 0.0
    else OrderPrice(buyer, orders[0], ActiveOf(rows, orders[0].id)) + SumOfPrices(buyer, orders[1..], rows)
  }

  /** No order needs an exchange for which it has no active rate. */
  predicate RatesComplete(buyer: Currency, orders: seq<Order>, rows: seq<Rate>) {
    forall order <- orders :: order.sellerCurrency == buyer || ActiveOf(rows, order.id).Some?
  }

  lemma {:induction false} TotalPriceAdds(a: seq<OrderDump>, b: seq<OrderDump>)
    ensures TotalPrice(a + b) == TotalPrice(a) + TotalPrice(b)
  {
    if b == [] {
      assert a + b == a;
    } else {
      var n := |b| - 1;
      assert (a + b)[..|a| + n] == a + b[..n];
      TotalPriceAdds(a, b[..n]);
    }
  }

  lemma TotalPriceOfOne(dump: OrderDump)
    ensures TotalPrice([dump]) == if dump.buyerAmounts.Some? then dump.buyerAmounts.value.price else 0.0
  {
    assert [dump][..0] == [];
  }

  lemma DumpedPrice(buyer: Currency, order: Order, rows: seq<Rate>)
    requires OneActive(rows)
    ensures var amounts := DumpOrder(buyer, order, RatesOf(rows, order.id)).buyerAmounts;
      && (amounts.None? <==> order.sellerCurrency != buyer && ActiveOf(rows, order.id).None?)
      && OrderPrice(buyer, order, ActiveOf(rows, order.id)) == if amounts.Some? then amounts.value.price else 0.0
  {
    hide ToSuperUnit;
    FirstActiveOfHistory(rows, order.id);
    var asked := ToSuperUnit(order.sellerCurrency, order.totalAmount);
    DivThenMul(asked, 1.0);
  }

  /** The total is the sum of the prices at the active rates, each order counted once. */
  lemma {:induction false} TotalIsSumOfPrices(buyer: Currency, orders: seq<Order>, rows: seq<Rate>)
    requires OneActive(rows)
    ensures TotalPrice(DumpOrders(buyer, WithHistory(orders, rows))) == SumOfPrices(buyer, orders, rows)
  {
    if orders != [] {
      hide DumpOrder, OrderPrice, OneActive, ActiveOf, RatesOf, DumpOrders, WithHistory, TotalPrice;
      var first := DumpOrder(buyer, orders[0], RatesOf(rows, orders[0].id));
      TotalIsSumOfPrices(buyer, orders[1..], rows);
      DumpOrdersSplit(buyer, orders, rows);
      TotalPriceAdds([first], DumpOrders(buyer, WithHistory(orders[1..], rows)));
      TotalPriceOfOne(first);
      DumpedPrice(buyer, orders[0], rows);
    } else {
      assert DumpOrders(buyer, WithHistory(orders, rows)) == [];
    }
  }

  lemma DumpOrdersSplit(buyer: Currency, orders: seq<Order>, rows: seq<Rate>)
    requires orders != []
    ensures DumpOrders(buyer, WithHistory(orders, rows))
         == [DumpOrder(buyer, orders[0], RatesOf(rows, orders[0].id))]
            + DumpOrders(buyer, WithHistory(orders[1..], rows))
  {
    hide DumpOrder, RatesOf;
    assert forall i :: 0 <= i < |orders| - 1 ==> WithHistory(orders, rows)[i + 1] == WithHistory(orders[1..], rows)[i];
  }

  /** A rate is missing exactly if some order needs an exchange and has no active rate. */
  lemma MissingMeansIncomplete(buyer: Currency, orders: seq<Order>, rows: seq<Rate>)
    requires OneActive(rows)
    ensures HasMissing(DumpOrders(buyer, WithHistory(orders, rows))) <==> !RatesComplete(buyer, orders, rows)
  {
    hide DumpOrder, OrderPrice, OneActive, ActiveOf, RatesOf;
    var dumps := DumpOrders(buyer, WithHistory(orders, rows));
    forall i | 0 <= i < |orders|
      ensures dumps[i].buyerAmounts.None? <==> orders[i].sellerCurrency != buyer && ActiveOf(rows, orders[i].id).None?
    {
      DumpedPrice(buyer, orders[i], rows);
    }
    if !RatesComplete(buyer, orders, rows) {
      var order :| order in orders && order.sellerCurrency != buyer && ActiveOf(rows, order.id).None?;
      var i :| 0 <= i < |orders| && orders[i] == order;
      assert dumps[i].buyerAmounts.None?;
    }
  }

  lemma SuperUnitOfZero(currency: Currency)
    ensures ToSuperUnit(currency, 0) == 0.0
  {
    ScaleIsGrains(0, currency.Grain(), currency.FractionsPerSuper());
  }

  // ---- The active rates alone against the whole history ----

  /** `get_invoice_price` reads every rate of every order. */
  function WithHistory(orders: seq<Order>, rows: seq<Rate>): (r: seq<(Order, seq<Rate>)>)
    ensures |r| == |orders|
  {
    seq(|orders|, i requires 0 <= i < |orders| => (orders[i], RatesOf(rows, orders[i].id)))
  }

  /** `recalc_invoice_v2` reads the active rate of every order. */
  function WithActive(orders: seq<Order>, rows: seq<Rate>): (r: seq<(Order, Option<Rate>)>)
    ensures |r| == |orders|
  {
    seq(|orders|, i requires 0 <= i < |orders| => (orders[i], ActiveOf(rows, orders[i].id)))
  }

  function AsLists(orders: seq<(Order, Option<Rate>)>): (r: seq<(Order, seq<Rate>)>)
    ensures |r| == |orders|
  {
    seq(|orders|, i requires 0 <= i < |orders| =>
      (orders[i].0, if orders[i].1.None? then [] else [orders[i].1.value]))
  }

  lemma {:induction false} FirstActiveOfHistory(rows: seq<Rate>, orderId: nat)
    requires OneActive(rows)
    ensures FirstActive(RatesOf(rows, orderId)) == ActiveOf(rows, orderId)
  {
    if rows != [] {
      var front, last := rows[..|rows| - 1], rows[|rows| - 1];
      FirstActiveOfHistory(front, orderId);
      if last.orderId == orderId {
        assert ([last] + RatesOf(front, orderId))[1..] == RatesOf(front, orderId);
      } else {
        assert [] + RatesOf(front, orderId) == RatesOf(front, orderId);
      }
      if last.orderId == orderId && last.status.Active? {
        ActiveIsFound(rows, |rows| - 1);
      } else if FindActive(front, orderId).Some? {
        ActiveIsFound(rows, FindActive(front, orderId).value);
      } else {
        forall i | 0 <= i < |rows| && rows[i].status.Active?
          ensures rows[i].orderId != orderId
        {
          assert i < |front| ==> front[i] == rows[i];
        }
        NoneIsFound(rows, orderId);
      }
    }
  }

  lemma {:induction false} TotalPriceDependsOnAmounts(a: seq<OrderDump>, b: seq<OrderDump>)
    requires |a| == |b| && forall i :: 0 <= i < |a| ==> a[i].buyerAmounts == b[i].buyerAmounts
    ensures TotalPrice(a) == TotalPrice(b)
  {
    if a != [] {
      TotalPriceDependsOnAmounts(a[..|a| - 1], b[..|b| - 1]);
    }
  }

  /** With one active rate per order, the two readings price an invoice alike. */
  lemma SamePrice(invoice: Invoice, orders: seq<Order>, rows: seq<Rate>)
    requires OneActive(rows)
    ensures var full := CalculateInvoicePrice(invoice, WithHistory(orders, rows));
      var brief := CalculateInvoicePrice(invoice, AsLists(WithActive(orders, rows)));
      && full.totalPrice == brief.totalPrice
      && full.hasMissingRates == brief.hasMissingRates
      && full.totalCashback == brief.totalCashback
      && |full.orders| == |brief.orders| == |orders|
      && forall i :: 0 <= i < |orders| ==> full.orders[i].buyerAmounts == brief.orders[i].buyerAmounts
  {
    var currency := invoice.buyerCurrency;
    var full := DumpOrders(currency, WithHistory(orders, rows));
    var brief := DumpOrders(currency, AsLists(WithActive(orders, rows)));
    forall i | 0 <= i < |orders|
      ensures full[i].buyerAmounts == brief[i].buyerAmounts
    {
      FirstActiveOfHistory(rows, orders[i].id);
    }
    TotalPriceDependsOnAmounts(full, brief);
  }

  /** Were two rates of an order active, the two readings could differ. */
  lemma TwoActiveRatesDiffer(first: Rate, second: Rate)
    requires first.orderId == second.orderId && first.status.Active? && second.status.Active? && first != second
    ensures !OneActive([first, second])
    ensures FirstActive(RatesOf([first, second], first.orderId)) != ActiveOf([first, second], first.orderId)
  {
    var rows := [first, second];
    assert rows[0].orderId == rows[1].orderId;
    assert rows[..1] == [first] && [first][..0] == [];
    assert RatesOf([first], first.orderId) == [first] + [];
    assert RatesOf(rows, first.orderId) == [second] + [first];
  }
}

/** Refreshing the rates of an invoice through the Payments gateway. */
module RateRefresh {
  import opened Wrappers
  import opened Amounts
  import opened ExchangeRates
  import opened InvoicePrices

  /** The gateway's answer to one request; `isNew` matters only when a rate is refreshed. */
  datatype Reply = Unavailable | Quoted(exchangeId: nat, rate: PositiveRate, isNew: bool)

  datatype RefreshError = GatewayFailed | NotCrypto

  function GetRate(buyer: Currency, seller: Currency, reply: Reply): Result<(Option<nat>, PositiveRate), RefreshError> {
    if buyer == seller then Ok((None, 1.0))
    else if reply.Unavailable? then Err(GatewayFailed)
    else Ok((Some(reply.exchangeId), reply.rate))
  }

  /** The rate to save for an order, or `None` if the one it has stays. */
  function ReserveOrRefreshRate(buyer: Currency, order: Order, current: Option<Rate>, reply: Reply)
    : Result<Option<NewRate>, RefreshError>
  {
    match current
    case None =>
      if order.sellerCurrency.IsFiat() then Err(NotCrypto)
      else
        var rate := GetRate(buyer, order.sellerCurrency, reply);
        if rate.Err? then Err(rate.error) else Ok(Some(NewRate(order.id, rate.value.0, rate.value.1)))
    case Some(rate) =>
      if rate.exchangeId.None? then Ok(None)
      else if reply.Unavailable? then Err(GatewayFailed)
      else if reply.isNew then Ok(Some(NewRate(order.id, Some(reply.exchangeId), reply.rate)))
      else Ok(None)
  }

  /** The rates to save for all orders, in order; the first failure ends it. */
  function Refreshed(buyer: Currency, orders: seq<(Order, Option<Rate>)>, replies: seq<Reply>)
    : Result<seq<NewRate>, RefreshError>
    requires |orders| == |replies|
  {
    if orders == [] then Ok([])
    else
      var n := |orders| - 1;
      var front := Refreshed(buyer, orders[..n], replies[..n]);
      if front.Err? then front
      else
        var last := ReserveOrRefreshRate(buyer, orders[n].0, orders[n].1, replies[n]);
        if last.Err? then Err(last.error)
        else Ok(front.value + if last.value.Some? then [last.value.value] else [])
  }

  function Saved(t: RateTable, quotes: seq<NewRate>): RateTable {
    if quotes == [] then t else AddNewActive(Saved(t, quotes[..|quotes| - 1]), quotes[|quotes| - 1])
  }

  method RefreshRates(buyer: Currency, orders: seq<(Order, Option<Rate>)>, replies: seq<Reply>)
    returns (r: Result<seq<NewRate>, RefreshError>)
    requires |orders| == |replies|
    ensures r == Refreshed(buyer, orders, replies)
    ensures r.Err? <==> exists i :: 0 <= i < |orders| && RefreshFails(buyer, orders[i].0, orders[i].1, replies[i])
  {
    RefreshFailsExactlyIf(buyer, orders, replies);
    var quotes: seq<NewRate> := [];
    for i := 0 to |orders|
      invariant Refreshed(buyer, orders[..i], replies[..i]) == Ok(quotes)
    {
      assert orders[..i + 1][..i] == orders[..i] && replies[..i + 1][..i] == replies[..i];
      var quote := ReserveOrRefreshRate(buyer, orders[i].0, orders[i].1, replies[i]);
      if quote.Err? {
        FailureEndsRefresh(buyer, orders, replies, i + 1);
        return Err(quote.error);
      }
      if quote.value.Some? {
        quotes := quotes + [quote.value.value];
      } else {
        assert quotes + [] == quotes;
      }
    }
    assert orders[..|orders|] == orders && replies[..|orders|] == replies;
    return Ok(quotes);
  }

  lemma {:induction false} FailureEndsRefresh(buyer: Currency, orders: seq<(Order, Option<Rate>)>,
                                              replies: seq<Reply>, k: nat)
    requires |orders| == |replies| && k <= |orders|
    requires Refreshed(buyer, orders[..k], replies[..k]).Err?
    ensures Refreshed(buyer, orders, replies) == Refreshed(buyer, orders[..k], replies[..k])
  {
    var n := |orders|;
    if k == n {
      assert orders[..k] == orders && replies[..k] == replies;
    } else {
      assert orders[..n - 1][..k] == orders[..k] && replies[..n - 1][..k] == replies[..k];
      FailureEndsRefresh(buyer, orders[..n - 1], replies[..n - 1], k);
    }
  }

  // ---- Refreshing leaves no order without a rate ----

  /** The active rate of an order after its refresh, from what it had and what the gateway answered:
      a dummy stays, and so does a rate the gateway calls unchanged; a new one replaces it. An order
      without a rate gets the dummy if it needs no exchange, and else what was quoted. */
  predicate RefreshedRate(before: RateTable, after: RateTable, buyer: Currency, order: Order, reply: Reply) {
    var current, active := ActiveOf(before.rows, order.id), ActiveOf(after.rows, order.id);
    && active.Some?
    && if current.Some? && (current.value.exchangeId.None? || (reply.Quoted? && !reply.isNew)) then active == current
       else if current.None? && order.sellerCurrency == buyer then
         active.value.exchangeId.None? && active.value.exchangeRate == 1.0
       else
         && reply.Quoted?
         && active.value.exchangeId == Some(reply.exchangeId)
         && active.value.exchangeRate == reply.rate
  }

  /** Why the refresh of an order fails: the gateway is needed and does not answer, or the seller is not
      paid in a crypto currency. */
  predicate RefreshFails(buyer: Currency, order: Order, current: Option<Rate>, reply: Reply) {
    if current.Some? then current.value.exchangeId.Some? && reply.Unavailable?
    else order.sellerCurrency.IsFiat() || (order.sellerCurrency != buyer && reply.Unavailable?)
  }

  /** The whole refresh fails exactly if that of some order does. */
  lemma {:induction false} RefreshFailsExactlyIf(buyer: Currency, orders: seq<(Order, Option<Rate>)>,
                                                 replies: seq<Reply>)
    requires |orders| == |replies|
    ensures Refreshed(buyer, orders, replies).Err? <==>
      exists i :: 0 <= i < |orders| && RefreshFails(buyer, orders[i].0, orders[i].1, replies[i])
  {
    if orders != [] {
      var n := |orders| - 1;
      RefreshFailsExactlyIf(buyer, orders[..n], replies[..n]);
      assert Refreshed(buyer, orders[..n], replies[..n]).Ok? ==>
        (Refreshed(buyer, orders, replies).Err? <==> RefreshFails(buyer, orders[n].0, orders[n].1, replies[n]));
      if i :| 0 <= i < |orders| && RefreshFails(buyer, orders[i].0, orders[i].1, replies[i]) {
        assert i < n ==> RefreshFails(buyer, orders[..n][i].0, orders[..n][i].1, replies[..n][i]);
      }
    }
  }

  /** The table after a successful refresh of these orders is saved. */
  function SavedRefresh(t: RateTable, buyer: Currency, orders: seq<Order>, replies: seq<Reply>): RateTable
    requires |orders| == |replies|
    requires Refreshed(buyer, WithActive(orders, t.rows), replies).Ok?
  {
    Saved(t, Refreshed(buyer, WithActive(orders, t.rows), replies).value)
  }

  lemma SavedRefreshUnrolls(t: RateTable, buyer: Currency, orders: seq<Order>, replies: seq<Reply>)
    requires orders != [] && |orders| == |replies|
    requires Refreshed(buyer, WithActive(orders, t.rows), replies).Ok?
    ensures var n := |orders| - 1;
      var quote := ReserveOrRefreshRate(buyer, orders[n], ActiveOf(t.rows, orders[n].id), replies[n]);
      && Refreshed(buyer, WithActive(orders[..n], t.rows), replies[..n]).Ok?
      && quote.Ok?
      && var mid := SavedRefresh(t, buyer, orders[..n], replies[..n]);
         SavedRefresh(t, buyer, orders, replies)
         == if quote.value.None? then mid else AddNewActive(mid, quote.value.value)
  {
    var n := |orders| - 1;
    assert WithActive(orders, t.rows)[..n] == WithActive(orders[..n], t.rows);
    var front := Refreshed(buyer, WithActive(orders[..n], t.rows), replies[..n]).value;
    var quote := ReserveOrRefreshRate(buyer, orders[n], ActiveOf(t.rows, orders[n].id), replies[n]).value;
    if quote.Some? {
      assert (front + [quote.value])[..|front|] == front;
    } else {
      assert front + [] == front;
    }
  }

  /** Orders that are not refreshed keep their rate, and no order gets a second active one. */
  lemma {:induction false} RefreshLeavesOthers(t: RateTable, buyer: Currency, orders: seq<Order>, replies: seq<Reply>,
                                               id: nat)
    requires RatesOk(t) && |orders| == |replies|
    requires Refreshed(buyer, WithActive(orders, t.rows), replies).Ok?
    ensures RatesOk(SavedRefresh(t, buyer, orders, replies))
    ensures (forall order <- orders :: order.id != id) ==>
      ActiveOf(SavedRefresh(t, buyer, orders, replies).rows, id) == ActiveOf(t.rows, id)
  {
    hide AddNewActive, ActiveOf;
    if orders != [] {
      var n := |orders| - 1;
      hide Refreshed, SavedRefresh, RatesOk;
      SavedRefreshUnrolls(t, buyer, orders, replies);
      RefreshLeavesOthers(t, buyer, orders[..n], replies[..n], id);
      assert orders[n] in orders;
      var quote := ReserveOrRefreshRate(buyer, orders[n], ActiveOf(t.rows, orders[n].id), replies[n]).value;
      if quote.Some? {
        var mid := SavedRefresh(t, buyer, orders[..n], replies[..n]);
        AddKeepsRatesOk(mid, quote.value);
        NewRateIsActive(mid, quote.value, id);
      }
    }
  }

  /** Once the refreshed rates are saved, every order has exactly one active rate: the quoted one, or
      the one it had if that is a dummy or did not change. */
  lemma {:induction false} RefreshCompletesRates(t: RateTable, buyer: Currency, orders: seq<Order>,
                                                 replies: seq<Reply>, i: nat)
    requires RatesOk(t) && OrdersApart(orders) && |orders| == |replies| && i < |orders|
    requires Refreshed(buyer, WithActive(orders, t.rows), replies).Ok?
    ensures RatesOk(SavedRefresh(t, buyer, orders, replies))
    ensures RefreshedRate(t, SavedRefresh(t, buyer, orders, replies), buyer, orders[i], replies[i])
  {
    hide Refreshed, SavedRefresh, AddNewActive, RatesOk, ActiveOf;
    var n := |orders| - 1;
    var front := orders[..n];
    SavedRefreshUnrolls(t, buyer, orders, replies);
    var mid := SavedRefresh(t, buyer, front, replies[..n]);
    RefreshLeavesOthers(t, buyer, orders, replies, orders[i].id);
    RefreshLeavesOthers(t, buyer, front, replies[..n], orders[i].id);
    if i < n {
      RefreshCompletesRates(t, buyer, front, replies[..n], i);
    } else {
      assert ActiveOf(mid.rows, orders[n].id) == ActiveOf(t.rows, orders[n].id);
    }
    var quote := ReserveOrRefreshRate(buyer, orders[n], ActiveOf(t.rows, orders[n].id), replies[n]).value;
    if quote.Some? {
      NewRateIsActive(mid, quote.value, orders[i].id);
    }
  }

  /** So no order is missing a rate when the price is computed next. */
  lemma NoRateIsMissing(t: RateTable, invoice: Invoice, orders: seq<Order>, replies: seq<Reply>)
    requires RatesOk(t) && OrdersApart(orders) && |orders| == |replies|
    requires Refreshed(invoice.buyerCurrency, WithActive(orders, t.rows), replies).Ok?
    ensures var after := SavedRefresh(t, invoice.buyerCurrency, orders, replies);
      !CalculateInvoicePrice(invoice, WithHistory(orders, after.rows)).hasMissingRates
  {
    var after := SavedRefresh(t, invoice.buyerCurrency, orders, replies);
    var dumps := DumpOrders(invoice.buyerCurrency, WithHistory(orders, after.rows));
    forall i | 0 <= i < |dumps|
      ensures dumps[i].buyerAmounts.Some?
    {
      RefreshCompletesRates(t, invoice.buyerCurrency, orders, replies, i);
      FirstActiveOfHistory(after.rows, orders[i].id);
    }
  }
}
