/** What the creation of an invoice and a card payment leave in the tables, field by field. */
module InvoiceCreation {
  import opened Wrappers
  import opened Amounts
  import opened EventQueue
  import opened ExchangeRates
  import opened InvoicePrices
  import opened InvoiceLedger
  import opened InvoiceRuns

  predicate OrderIdsFree(db: Db, orders: seq<NewOrder>) {
    && (forall i, j :: 0 <= i < j < |orders| ==> orders[i].order.id != orders[j].order.id)
    && forall i, j :: 0 <= i < |orders| && 0 <= j < |db.orders| ==> orders[i].order.id != db.orders[j].id
  }

  /** The order is in the table under this invoice, with what it costs and with its quoted rate active. */
  predicate OrderAdded(db: Db, k: nat, id: nat, added: NewOrder)
    requires k < |db.orders|
  {
    var active := ActiveOf(db.rates.rows, added.order.id);
    && db.orders[k].id == added.order.id
    && db.orders[k].invoiceId == id
    && db.orders[k].sellerCurrency == added.order.sellerCurrency
    && db.orders[k].totalAmount == added.order.totalAmount
    && db.orders[k].cashbackAmount == added.order.cashbackAmount
    && active.Some?
    && active.value.exchangeId == added.exchangeId
    && active.value.exchangeRate == added.exchangeRate
  }

  predicate IdTaken(orders: seq<Order>, id: nat) {
    exists i :: 0 <= i < |orders| && orders[i].id == id
  }

  predicate OrdersAdded(db: Db, after: Db, id: nat, orders: seq<NewOrder>) {
    && |after.orders| == |db.orders| + |orders| && after.orders[..|db.orders|] == db.orders
    && forall i :: 0 <= i < |orders| ==> OrderAdded(after, |db.orders| + i, id, orders[i])
  }

  lemma FreeAtEnd(db: Db, front: Db, id: nat, orders: seq<NewOrder>, last: NewOrder)
    requires OrderIdsFree(db, orders) && OrdersAdded(db, front, id, orders)
    ensures IdTaken(front.orders, last.order.id) <==> !OrderIdsFree(db, orders + [last])
  {
    hide ActiveOf;
    var longer, lastId := orders + [last], last.order.id;
    assert forall i :: 0 <= i < |orders| ==> longer[i] == orders[i];
    assert longer[|orders|] == last;
    assert forall j :: 0 <= j < |db.orders| ==> front.orders[j] == db.orders[j];
    assert forall i :: 0 <= i < |orders| ==> front.orders[|db.orders| + i].id == orders[i].order.id;
    if i :| 0 <= i < |front.orders| && front.orders[i].id == lastId {
      assert i < |db.orders| ==> longer[|orders|].order.id == db.orders[i].id;
      assert i >= |db.orders| ==> longer[i - |db.orders|].order.id == longer[|orders|].order.id;
    } else {
      forall i | 0 <= i < |orders|
        ensures orders[i].order.id != lastId
      {
        assert front.orders[|db.orders| + i].id != lastId;
      }
    }
  }

  lemma AddOneOrder(db: Db, front: Db, id: nat, orders: seq<NewOrder>, last: NewOrder)
    requires RatesOk(front.rates) && OrderIdsFree(db, orders + [last]) && OrdersAdded(db, front, id, orders)
    ensures var quote := NewRate(last.order.id, last.exchangeId, last.exchangeRate);
      var after := front.(orders := front.orders + [last.order.(invoiceId := id)],
                          rates := AddNewActive(front.rates, quote));
      RatesOk(after.rates) && OrdersAdded(db, after, id, orders + [last])
  {
    hide RatesOk, AddNewActive, ActiveOf;
    var longer := orders + [last];
    var quote := NewRate(last.order.id, last.exchangeId, last.exchangeRate);
    var after := front.(orders := front.orders + [last.order.(invoiceId := id)],
                        rates := AddNewActive(front.rates, quote));
    AddKeepsRatesOk(front.rates, quote);
    forall i | 0 <= i < |longer|
      ensures OrderAdded(after, |db.orders| + i, id, longer[i])
    {
      NewRateIsActive(front.rates, quote, longer[i].order.id);
      assert longer[|orders|] == last;
      if i < |orders| {
        assert longer[i] == orders[i] && longer[i].order.id != longer[|orders|].order.id;
        assert OrderAdded(front, |db.orders| + i, id, orders[i]);
        assert after.orders[|db.orders| + i] == front.orders[|db.orders| + i];
      }
    }
  }

  lemma FreeInFront(db: Db, orders: seq<NewOrder>)
    requires orders != [] && OrderIdsFree(db, orders)
    ensures OrderIdsFree(db, orders[..|orders| - 1])
  {
  }

  lemma {:induction false} AddedOrders(db: Db, id: nat, orders: seq<NewOrder>)
    requires RatesOk(db.rates)
    ensures AddOrders(db, id, orders).Some? <==> OrderIdsFree(db, orders)
    ensures AddOrders(db, id, orders).Some? ==>
      RatesOk(AddOrders(db, id, orders).value.rates) && OrdersAdded(db, AddOrders(db, id, orders).value, id, orders)
  {
    if orders != [] {
      hide RatesOk, OrdersAdded, OrderIdsFree, AddNewActive;
      var n := |orders| - 1;
      AddedOrders(db, id, orders[..n]);
      assert orders == orders[..n] + [orders[n]];
      if AddOrders(db, id, orders[..n]).Some? {
        var front := AddOrders(db, id, orders[..n]).value;
        FreeAtEnd(db, front, id, orders[..n], orders[n]);
        if OrderIdsFree(db, orders) {
          AddOneOrder(db, front, id, orders[..n], orders[n]);
        }
      } else if OrderIdsFree(db, orders) {
        FreeInFront(db, orders);
      }
    }
  }

  /** What `create_invoice_v2` leaves: always the scheduled expiry; and exactly if no id, account or
      order is taken, the unpaid invoice, its orders, and their quoted rates as the active ones. */
  lemma CreationExactlyIf(db: Db, id: nat, accountId: nat, buyer: Currency, intentOk: bool, orders: seq<NewOrder>,
                          now: Timestamp, expiresOn: Timestamp)
    requires RatesOk(db.rates)
    ensures var after := Create(db, id, accountId, buyer, intentOk, orders, now, expiresOn);
      && after.received == db.received
      && |after.queue| == |db.queue| + 1 && after.queue[..|db.queue|] == db.queue
      && after.queue[|db.queue|].payload == PaymentExpired(id)
      && after.queue[|db.queue|].scheduledOn == Some(expiresOn) && after.queue[|db.queue|].status.Pending?
      && if (forall invoice <- db.invoices :: invoice.id != id) && OrderIdsFree(db, orders)
            && (buyer.IsFiat() ==> intentOk)
            && (!buyer.IsFiat() ==> forall invoice <- db.invoices :: invoice.accountId != Some(accountId))
         then
           && after.invoices
              == db.invoices
                 + [Invoice(id, if buyer.IsFiat() then None else Some(accountId), buyer, 0, None, None, None)]
           && OrdersAdded(db, after, id, orders)
         else after.(queue := []) == db.(queue := [])
  {
    var scheduled := db.(queue := db.queue + [NewEntry(PaymentExpired(id), Some(expiresOn), now)]);
    var withInvoice := scheduled.(invoices := db.invoices + [NewInvoice(id, accountId, buyer)]);
    hide RatesOk, AddOrders, OrderAdded;
    AddedOrders(withInvoice, id, orders);
    AddOrdersFrame(withInvoice, id, orders);
    AddOrdersKeepsQueue(withInvoice, id, orders);
    if FindById(db.invoices, id).Some? {
      assert db.invoices[FindById(db.invoices, id).value] in db.invoices;
    }
    if FindByAccount(db.invoices, accountId).Some? {
      assert db.invoices[FindByAccount(db.invoices, accountId).value] in db.invoices;
    }
  }

  lemma {:induction false} AddOrdersKeepsQueue(db: Db, id: nat, orders: seq<NewOrder>)
    ensures AddOrders(db, id, orders).Some? ==> AddOrders(db, id, orders).value.queue == db.queue
  {
    if orders != [] {
      AddOrdersKeepsQueue(db, id, orders[..|orders| - 1]);
    }
  }

  /** A card payment marks the card invoice it is for as paid with its amount, and nothing else. */
  lemma CardPaymentMarks(db: Db, k: nat, amount: Amount, cashback: Amount, now: Timestamp)
    requires InvoicesApart(db.invoices) && k < |db.invoices|
    ensures var invoice := db.invoices[k];
      PaidByCard(db, invoice.id, amount, cashback, now)
      == if !invoice.buyerCurrency.IsFiat() then db
         else db.(invoices := db.invoices[k := Invoice(invoice.id, invoice.accountId, invoice.buyerCurrency, amount,
                                                        Some(amount), Some(cashback), Some(now))])
  {
    assert FindById(db.invoices, db.invoices[k].id) == Some(k);
  }
}
