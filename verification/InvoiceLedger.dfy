/** Crypto invoices: the money received for them, their rates, and the moment they become paid.
    Every function below is one repository call or one database transaction, applied atomically. */
module InvoiceLedger {
  import opened Wrappers
  import opened Amounts
  import opened EventQueue
  import opened ExchangeRates
  import opened InvoicePrices
  import QueueRuns

  datatype Received = Received(id: nat, invoiceId: nat, amount: Amount)

  datatype NewOrder = NewOrder(order: Order, exchangeId: Option<nat>, exchangeRate: PositiveRate)

  datatype Db = Db(invoices: seq<Invoice>, received: seq<Received>, orders: seq<Order>, rates: RateTable, queue: Table)

  datatype LedgerError = NoInvoice | Duplicate | AmountOverflow

  function FindById(invoices: seq<Invoice>, id: nat): (found: Option<nat>)
    ensures found.Some? ==> found.value < |invoices| && invoices[found.value].id == id
    ensures found.None? ==> forall i :: 0 <= i < |invoices| ==> invoices[i].id != id
  {
    if invoices == [] then None
    else if invoices[0].id == id then Some(0)
    else
      var rest := FindById(invoices[1..], id);
      if rest.None? then None else Some(rest.value + 1)
  }

  function FindByAccount(invoices: seq<Invoice>, accountId: nat): (found: Option<nat>)
    ensures found.Some? ==> found.value < |invoices| && invoices[found.value].accountId == Some(accountId)
    ensures found.None? ==> forall i :: 0 <= i < |invoices| ==> invoices[i].accountId != Some(accountId)
  {
    if invoices == [] then None
    else if invoices[0].accountId == Some(accountId) then Some(0)
    else
      var rest := FindByAccount(invoices[1..], accountId);
      if rest.None? then None else Some(rest.value + 1)
  }

  predicate Recorded(received: seq<Received>, tx: nat) {
    exists i :: 0 <= i < |received| && received[i].id == tx
  }

  function OrdersOf(orders: seq<Order>, invoiceId: nat): seq<Order> {
    if orders == [] then []
    else
      var last := orders[|orders| - 1];
      OrdersOf(orders[..|orders| - 1], invoiceId) + if last.invoiceId == invoiceId then [last] else []
  }

  // ---- Transactions ----

  /** `increase_amount_captured`. The sum is checked before the transaction id is. */
  function Receive(db: Db, accountId: nat, tx: nat, amount: Amount): (Db, Result<Invoice, LedgerError>) {
    var found := FindByAccount(db.invoices, accountId);
    if found.None? then (db, Err(NoInvoice))
    else
      var invoice := db.invoices[found.value];
      var captured := CheckedAdd(invoice.amountCaptured, amount);
      if captured.None? then (db, Err(AmountOverflow))
      else if Recorded(db.received, tx) then (db, Err(Duplicate))
      else
        var updated := invoice.(amountCaptured := captured.value);
        (db.(invoices := db.invoices[found.value := updated],
             received := db.received + [Received(tx, invoice.id, amount)]),
         Ok(updated))
  }

  /** `Panicked` is the unwrap of an amount that does not fit; the transaction is then rolled back. */
  datatype Settlement = Missing | Priced(dump: InvoiceDump) | Panicked

  function InvoicePrice(db: Db, invoice: Invoice): InvoiceDump {
    CalculateInvoicePrice(invoice, WithHistory(OrdersOf(db.orders, invoice.id), db.rates.rows))
  }

  predicate HasBecomePaid(invoice: Invoice, dump: InvoiceDump) {
    !dump.hasMissingRates && ToSuperUnit(dump.buyerCurrency, invoice.amountCaptured) >= dump.totalPrice
  }

  /** `calculate_invoice_price_and_set_final_price_if_paid`. */
  function Settle(db: Db, id: nat, now: Timestamp): (Db, Settlement) {
    var found := FindById(db.invoices, id);
    if found.None? then (db, Missing)
    else
      var invoice := db.invoices[found.value];
      var dump := InvoicePrice(db, invoice);
      if invoice.paidAt.Some? || !HasBecomePaid(invoice, dump) then (db, Priced(dump))
      else
        var amount := FromSuperUnit(dump.buyerCurrency, dump.totalPrice);
        var cashback := FromSuperUnit(Stq, if dump.totalCashback.Some? then dump.totalCashback.value else 0.0);
        if amount.None? || cashback.None? then (db, Panicked)
        else
          var paid := invoice.(finalAmountPaid := amount, finalCashbackAmount := cashback, paidAt := Some(now));
          (db.(invoices := db.invoices[found.value := paid],
               queue := db.queue + [NewEntry(InvoicePaid(invoice.id), None, now)]),
           Priced(dump))
  }

  function Unlinked(db: Db, id: nat): Db {
    var found := FindById(db.invoices, id);
    if found.None? then db
    else db.(invoices := db.invoices[found.value := db.invoices[found.value].(accountId := None)])
  }

  function AddOrders(db: Db, id: nat, orders: seq<NewOrder>): Option<Db> {
    if orders == [] then Some(db)
    else
      var last := orders[|orders| - 1];
      var front := AddOrders(db, id, orders[..|orders| - 1]);
      if front.None? then None
      else if exists i :: 0 <= i < |front.value.orders| && front.value.orders[i].id == last.order.id then None
      else
        Some(front.value.(
          orders := front.value.orders + [last.order.(invoiceId := id)],
          rates := AddNewActive(front.value.rates, NewRate(last.order.id, last.exchangeId, last.exchangeRate))))
  }

  /** A card buyer's invoice has no account. */
  function NewInvoice(id: nat, accountId: nat, buyerCurrency: Currency): Invoice {
    Invoice(id, if buyerCurrency.IsFiat() then None else Some(accountId), buyerCurrency, 0, None, None, None)
  }

  /** `accountId` is the pooled account of a crypto buyer; `intentOk` tells whether the rows of a card
      buyer's payment intent are accepted. */
  predicate Insertable(db: Db, id: nat, accountId: nat, buyerCurrency: Currency, intentOk: bool) {
    && FindById(db.invoices, id).None?
    && if buyerCurrency.IsFiat() then intentOk else FindByAccount(db.invoices, accountId).None?
  }

  /** The database part of `create_invoice_v2`: the expiry event is added first and stays even if the
      transaction that inserts the invoice, its orders and their rates violates a constraint. */
  function Create(db: Db, id: nat, accountId: nat, buyerCurrency: Currency, intentOk: bool, orders: seq<NewOrder>,
                  now: Timestamp, expiresOn: Timestamp): Db
  {
    var scheduled := db.(queue := db.queue + [NewEntry(PaymentExpired(id), Some(expiresOn), now)]);
    if !Insertable(db, id, accountId, buyerCurrency, intentOk) then scheduled
    else
      var withInvoice := scheduled.(invoices := db.invoices + [NewInvoice(id, accountId, buyerCurrency)]);
      var withOrders := AddOrders(withInvoice, id, orders);
      if withOrders.None? then scheduled else withOrders.value
  }

  /** `set_amount_paid_fiat`, which the card payment events call for the invoice of a payment intent:
      it may come again and overwrite, and it publishes nothing. */
  function PaidByCard(db: Db, id: nat, amount: Amount, cashback: Amount, now: Timestamp): Db {
    var found := FindById(db.invoices, id);
    if found.None? || !db.invoices[found.value].buyerCurrency.IsFiat() then db
    else
      var paid := db.invoices[found.value].(amountCaptured := amount, finalAmountPaid := Some(amount),
                                            finalCashbackAmount := Some(cashback), paidAt := Some(now));
      db.(invoices := db.invoices[found.value := paid])
  }

  // ---- Runs ----

  datatype Step =
    | CreateInvoice(id: nat, accountId: nat, buyerCurrency: Currency, intentOk: bool, orders: seq<NewOrder>,
                    now: Timestamp, expiresOn: Timestamp)
    | CardPayment(id: nat, amount: Amount, cashback: Amount, now: Timestamp)
    | ReceiveTx(accountId: nat, tx: nat, amount: Amount)
    | ChangeRates(rateOp: RateOp)
    | SettleInvoice(id: nat, now: Timestamp)
    | UnlinkAccount(id: nat)
    | OnQueue(queueOp: QueueRuns.QueueOp)

  /** Nothing but a settlement publishes `InvoicePaid`; all other traffic on the queue is arbitrary. */
  function Next(config: Config, db: Db, step: Step): Db {
    match step
    case CreateInvoice(id, accountId, buyerCurrency, intentOk, orders, now, expiresOn) =>
      Create(db, id, accountId, buyerCurrency, intentOk, orders, now, expiresOn)
    case CardPayment(id, amount, cashback, now) => PaidByCard(db, id, amount, cashback, now)
    case ReceiveTx(accountId, tx, amount) => Receive(db, accountId, tx, amount).0
    case ChangeRates(op) => db.(rates := ExchangeRates.Apply(db.rates, op))
    case SettleInvoice(id, now) => Settle(db, id, now).0
    case UnlinkAccount(id) => Unlinked(db, id)
    case OnQueue(op) =>
      if op.Add? && op.payload.InvoicePaid? then db else db.(queue := QueueRuns.Apply(config, db.queue, op))
  }

  const EMPTY := Db([], [], [], RateTable([], 0), [])

  function RunLedger(config: Config, db: Db, steps: seq<Step>): Db {
    if steps == [] then db else Next(config, RunLedger(config, db, steps[..|steps| - 1]), steps[|steps| - 1])
  }

  // ---- The invariant ----

  predicate InvoicesApart(invoices: seq<Invoice>) {
    && (forall i, j :: 0 <= i < j < |invoices| ==> invoices[i].id != invoices[j].id)
    && forall i, j :: 0 <= i < j < |invoices| && invoices[i].accountId.Some? ==>
         invoices[i].accountId != invoices[j].accountId
  }

  predicate InvoiceExists(invoices: seq<Invoice>, id: nat) {
    exists i :: 0 <= i < |invoices| && invoices[i].id == id
  }

  function SumReceived(received: seq<Received>, invoiceId: nat): nat {
    if received == [] then 0
    else
      var last := received[|received| - 1];
      SumReceived(received[..|received| - 1], invoiceId) + if last.invoiceId == invoiceId then last.amount else 0
  }

  /** The amount a crypto invoice has captured is the sum of what was received, transaction by transaction. */
  predicate Conserved(db: Db) {
    && (forall i :: 0 <= i < |db.invoices| && !db.invoices[i].buyerCurrency.IsFiat() ==>
          db.invoices[i].amountCaptured == SumReceived(db.received, db.invoices[i].id))
    && (forall i :: 0 <= i < |db.received| ==> InvoiceExists(db.invoices, db.received[i].invoiceId))
    && forall i, j :: 0 <= i < j < |db.received| ==> db.received[i].id != db.received[j].id
  }

  /** Paid means covered, for a crypto invoice, and the final amounts come with the date. */
  predicate Covered(invoice: Invoice) {
    && (invoice.paidAt.Some? <==> invoice.finalAmountPaid.Some?)
    && (invoice.paidAt.Some? <==> invoice.finalCashbackAmount.Some?)
    && (invoice.paidAt.Some? && !invoice.buyerCurrency.IsFiat() ==>
          invoice.finalAmountPaid.value <= invoice.amountCaptured)
  }

  function CountPaidEvents(queue: Table, id: nat): nat {
    if queue == [] then 0
    else CountPaidEvents(queue[..|queue| - 1], id) + if queue[|queue| - 1].payload == InvoicePaid(id) then 1 else 0
  }

  predicate MarkedPaid(invoices: seq<Invoice>, id: nat) {
    exists i :: 0 <= i < |invoices| && invoices[i].id == id && invoices[i].paidAt.Some?
  }

  predicate ForCard(invoices: seq<Invoice>, id: nat) {
    exists i :: 0 <= i < |invoices| && invoices[i].id == id && invoices[i].buyerCurrency.IsFiat()
  }

  /** One event for each paid invoice and none for any other id; card payments publish none. */
  ghost predicate EventsMatch(db: Db) {
    forall id: nat :: !ForCard(db.invoices, id) ==>
      CountPaidEvents(db.queue, id) == if MarkedPaid(db.invoices, id) then 1 else 0
  }

  ghost predicate Inv(db: Db) {
    && InvoicesApart(db.invoices)
    && Conserved(db)
    && (forall i :: 0 <= i < |db.invoices| ==> Covered(db.invoices[i]))
    && EventsMatch(db)
    && OrdersApart(db.orders)
    && RatesOk(db.rates)
  }
}

/** What holds over every run of the ledger: callbacks, recalculations, rate changes, queue traffic. */
module InvoiceRuns {
  import opened Wrappers
  import opened Amounts
  import opened EventQueue
  import opened ExchangeRates
  import opened InvoicePrices
  import opened InvoiceLedger
  import QueueRuns

  // ---- Each step keeps the invariant ----

  lemma {:induction false} NothingReceived(received: seq<Received>, id: nat)
    requires forall i :: 0 <= i < |received| ==> received[i].invoiceId != id
    ensures SumReceived(received, id) == 0
  {
    if received != [] {
      NothingReceived(received[..|received| - 1], id);
    }
  }

  lemma ReceiveKeepsInv(db: Db, accountId: nat, tx: nat, amount: Amount)
    requires Inv(db)
    ensures Inv(Receive(db, accountId, tx, amount).0)
  {
    var (after, r) := Receive(db, accountId, tx, amount);
    if r.Ok? {
      var k := FindByAccount(db.invoices, accountId).value;
      assert after.received[..|db.received|] == db.received;
      ReplacedKeeps(db.invoices, k, after.invoices[k]);
      forall i, j | 0 <= i < j < |after.received|
        ensures after.received[i].id != after.received[j].id
      {
        assert j == |db.received| ==> !Recorded(db.received, tx);
      }
    }
  }

  /** Replacing a row by one with the same id and currency keeps what is said about ids. */
  lemma ReplacedKeeps(invoices: seq<Invoice>, k: nat, invoice: Invoice)
    requires k < |invoices| && invoice.id == invoices[k].id && invoice.buyerCurrency == invoices[k].buyerCurrency
    ensures forall id :: InvoiceExists(invoices[k := invoice], id) <==> InvoiceExists(invoices, id)
    ensures forall id :: ForCard(invoices[k := invoice], id) <==> ForCard(invoices, id)
    ensures forall id :: id != invoice.id || invoice.paidAt.Some? == invoices[k].paidAt.Some? ==>
      (MarkedPaid(invoices[k := invoice], id) <==> MarkedPaid(invoices, id))
  {
    forall id
      ensures InvoiceExists(invoices[k := invoice], id) <==> InvoiceExists(invoices, id)
      ensures ForCard(invoices[k := invoice], id) <==> ForCard(invoices, id)
      ensures id != invoice.id || invoice.paidAt.Some? == invoices[k].paidAt.Some? ==>
        (MarkedPaid(invoices[k := invoice], id) <==> MarkedPaid(invoices, id))
    {
      ReplacedSays(invoices, invoices[k := invoice], k, id);
      ReplacedSays(invoices[k := invoice], invoices, k, id);
    }
  }

  lemma ReplacedSays(before: seq<Invoice>, after: seq<Invoice>, k: nat, id: nat)
    requires k < |before| == |after| && forall i :: 0 <= i < |before| && i != k ==> after[i] == before[i]
    requires after[k].id == before[k].id && after[k].buyerCurrency == before[k].buyerCurrency
    ensures InvoiceExists(before, id) ==> InvoiceExists(after, id)
    ensures ForCard(before, id) ==> ForCard(after, id)
    ensures MarkedPaid(before, id) && (id != before[k].id || after[k].paidAt.Some? == before[k].paidAt.Some?) ==>
      MarkedPaid(after, id)
  {
    assert forall i :: 0 <= i < |before| ==> after[i].id == before[i].id;
    assert forall i :: 0 <= i < |before| ==> after[i].buyerCurrency == before[i].buyerCurrency;
    if InvoiceExists(before, id) {
      var i :| 0 <= i < |before| && before[i].id == id;
      assert after[i].id == id;
    }
    if ForCard(before, id) {
      var i :| 0 <= i < |before| && before[i].id == id && before[i].buyerCurrency.IsFiat();
      assert after[i].id == id && after[i].buyerCurrency.IsFiat();
    }
    if MarkedPaid(before, id) && (id != before[k].id || after[k].paidAt.Some? == before[k].paidAt.Some?) {
      var i :| 0 <= i < |before| && before[i].id == id && before[i].paidAt.Some?;
      assert after[i].id == id && after[i].paidAt.Some?;
    }
  }

  /** A settlement never panics, and what it records as paid has been captured. */
  lemma SettlementCovers(db: Db, id: nat, now: Timestamp)
    requires Inv(db)
    ensures var (after, settlement) := Settle(db, id, now);
      && !settlement.Panicked?
      && |after.invoices| == |db.invoices|
      && forall i :: 0 <= i < |after.invoices| ==> Covered(after.invoices[i])
  {
    var found := FindById(db.invoices, id);
    if found.Some? {
      var invoice := db.invoices[found.value];
      var dump := InvoicePrice(db, invoice);
      if invoice.paidAt.None? && HasBecomePaid(invoice, dump) {
        TotalPriceNonnegative(invoice.buyerCurrency, WithHistory(OrdersOf(db.orders, invoice.id), db.rates.rows));
        CoveredPriceConverts(invoice.buyerCurrency, invoice.amountCaptured, dump.totalPrice);
        SuperUnitOfZero(Stq);
        SuperUnitRoundTrip(Stq, 0);
      }
    }
  }

  lemma SettleKeepsEvents(db: Db, id: nat, now: Timestamp)
    requires Inv(db)
    ensures EventsMatch(Settle(db, id, now).0)
  {
    var after := Settle(db, id, now).0;
    if after != db {
      var k := FindById(db.invoices, id).value;
      ReplacedKeeps(db.invoices, k, after.invoices[k]);
      assert after.queue[..|db.queue|] == db.queue;
      assert after.invoices[k].id == id && after.invoices[k].paidAt.Some?;
      assert MarkedPaid(after.invoices, id) && !MarkedPaid(db.invoices, id);
    }
  }

  lemma SettleKeepsInv(db: Db, id: nat, now: Timestamp)
    requires Inv(db)
    ensures Inv(Settle(db, id, now).0)
  {
    var after := Settle(db, id, now).0;
    SettlementCovers(db, id, now);
    SettleKeepsEvents(db, id, now);
    if after != db {
      var k := FindById(db.invoices, id).value;
      ReplacedKeeps(db.invoices, k, after.invoices[k]);
    }
  }

  lemma UnlinkKeepsInv(db: Db, id: nat)
    requires Inv(db)
    ensures Inv(Unlinked(db, id))
  {
    var found := FindById(db.invoices, id);
    if found.Some? {
      ReplacedKeeps(db.invoices, found.value, Unlinked(db, id).invoices[found.value]);
    }
  }

  lemma {:induction false} CountDependsOnPayloads(a: Table, b: Table, id: nat)
    requires |a| == |b| && forall i :: 0 <= i < |a| ==> a[i].payload == b[i].payload
    ensures CountPaidEvents(a, id) == CountPaidEvents(b, id)
  {
    if a != [] {
      CountDependsOnPayloads(a[..|a| - 1], b[..|b| - 1], id);
    }
  }

  lemma AppendedEvent(queue: Table, entry: EventEntry)
    requires !entry.payload.InvoicePaid?
    ensures forall id: nat :: CountPaidEvents(queue + [entry], id) == CountPaidEvents(queue, id)
  {
    assert (queue + [entry])[..|queue|] == queue;
  }

  lemma QueueTrafficKeepsEvents(config: Config, queue: Table, op: QueueRuns.QueueOp)
    requires !(op.Add? && op.payload.InvoicePaid?)
    ensures forall id: nat :: CountPaidEvents(QueueRuns.Apply(config, queue, op), id) == CountPaidEvents(queue, id)
  {
    var after := QueueRuns.Apply(config, queue, op);
    if op.Add? {
      AppendedEvent(queue, NewEntry(op.payload, op.scheduledOn, op.now));
    } else {
      assert forall i :: 0 <= i < |queue| ==> after[i].payload == queue[i].payload;
      forall id: nat {
        CountDependsOnPayloads(after, queue, id);
      }
    }
  }

  lemma {:induction false} AddOrdersKeeps(db: Db, id: nat, orders: seq<NewOrder>)
    requires OrdersApart(db.orders) && RatesOk(db.rates)
    ensures var r := AddOrders(db, id, orders);
      r.Some? ==>
        && OrdersApart(r.value.orders)
        && RatesOk(r.value.rates)
        && r.value.invoices == db.invoices && r.value.received == db.received && r.value.queue == db.queue
  {
    if orders != [] {
      var last := orders[|orders| - 1];
      AddOrdersKeeps(db, id, orders[..|orders| - 1]);
      var front := AddOrders(db, id, orders[..|orders| - 1]);
      if front.Some? {
        AddKeepsRatesOk(front.value.rates, NewRate(last.order.id, last.exchangeId, last.exchangeRate));
      }
    }
  }

  lemma AddedInvoiceKeeps(invoices: seq<Invoice>, invoice: Invoice)
    requires invoice.paidAt.None?
    ensures forall id :: InvoiceExists(invoices, id) ==> InvoiceExists(invoices + [invoice], id)
    ensures forall id :: ForCard(invoices, id) ==> ForCard(invoices + [invoice], id)
    ensures forall id :: MarkedPaid(invoices + [invoice], id) <==> MarkedPaid(invoices, id)
  {
    var after := invoices + [invoice];
    assert forall i :: 0 <= i < |invoices| ==> after[i] == invoices[i];
    forall id
      ensures InvoiceExists(invoices, id) ==> InvoiceExists(after, id)
      ensures ForCard(invoices, id) ==> ForCard(after, id)
      ensures MarkedPaid(after, id) <==> MarkedPaid(invoices, id)
    {
      if InvoiceExists(invoices, id) {
        var i :| 0 <= i < |invoices| && invoices[i].id == id;
        assert after[i].id == id;
      }
      if ForCard(invoices, id) {
        var i :| 0 <= i < |invoices| && invoices[i].id == id && invoices[i].buyerCurrency.IsFiat();
        assert after[i].id == id && after[i].buyerCurrency.IsFiat();
      }
      if MarkedPaid(invoices, id) {
        var i :| 0 <= i < |invoices| && invoices[i].id == id && invoices[i].paidAt.Some?;
        assert after[i].id == id && after[i].paidAt.Some?;
      }
    }
  }

  lemma InsertKeepsInv(db: Db, invoice: Invoice, entry: EventEntry)
    requires Inv(db) && !entry.payload.InvoicePaid?
    requires FindById(db.invoices, invoice.id).None?
    requires invoice.accountId.Some? ==> FindByAccount(db.invoices, invoice.accountId.value).None?
    requires invoice.amountCaptured == 0 && invoice.paidAt.None? && Covered(invoice)
    ensures Inv(db.(queue := db.queue + [entry], invoices := db.invoices + [invoice]))
  {
    AppendedEvent(db.queue, entry);
    AddedInvoiceKeeps(db.invoices, invoice);
    forall i | 0 <= i < |db.received|
      ensures db.received[i].invoiceId != invoice.id
    {
      assert InvoiceExists(db.invoices, db.received[i].invoiceId);
    }
    NothingReceived(db.received, invoice.id);
  }

  lemma CreateKeepsInv(db: Db, id: nat, accountId: nat, buyer: Currency, intentOk: bool, orders: seq<NewOrder>,
                       now: Timestamp, expiresOn: Timestamp)
    requires Inv(db)
    ensures Inv(Create(db, id, accountId, buyer, intentOk, orders, now, expiresOn))
  {
    var entry := NewEntry(PaymentExpired(id), Some(expiresOn), now);
    AppendedEvent(db.queue, entry);
    if Insertable(db, id, accountId, buyer, intentOk) {
      var invoice := NewInvoice(id, accountId, buyer);
      InsertKeepsInv(db, invoice, entry);
      AddOrdersKeeps(db.(queue := db.queue + [entry], invoices := db.invoices + [invoice]), id, orders);
      hide RatesOk, AddOrders, CountPaidEvents, SumReceived;
    }
  }

  lemma CardKeepsInv(db: Db, id: nat, amount: Amount, cashback: Amount, now: Timestamp)
    requires Inv(db)
    ensures Inv(PaidByCard(db, id, amount, cashback, now))
  {
    var after := PaidByCard(db, id, amount, cashback, now);
    if after != db {
      var k := FindById(db.invoices, id).value;
      ReplacedKeeps(db.invoices, k, after.invoices[k]);
      assert ForCard(after.invoices, id);
    }
  }

  lemma StepKeepsInv(config: Config, db: Db, step: Step)
    requires Inv(db)
    ensures Inv(Next(config, db, step))
  {
    match step
    case CreateInvoice(id, accountId, buyer, intentOk, orders, now, expiresOn) =>
      CreateKeepsInv(db, id, accountId, buyer, intentOk, orders, now, expiresOn);
    case CardPayment(id, amount, cashback, now) => CardKeepsInv(db, id, amount, cashback, now);
    case ReceiveTx(accountId, tx, amount) => ReceiveKeepsInv(db, accountId, tx, amount);
    case ChangeRates(op) => StepKeepsRatesOk(db.rates, op);
    case SettleInvoice(id, now) => SettleKeepsInv(db, id, now);
    case UnlinkAccount(id) => UnlinkKeepsInv(db, id);
    case OnQueue(op) =>
      if !(op.Add? && op.payload.InvoicePaid?) {
        QueueTrafficKeepsEvents(config, db.queue, op);
      }
  }

  lemma {:induction false} RunKeepsInv(config: Config, db: Db, steps: seq<Step>)
    requires Inv(db)
    ensures Inv(RunLedger(config, db, steps))
  {
    if steps != [] {
      RunKeepsInv(config, db, steps[..|steps| - 1]);
      StepKeepsInv(config, RunLedger(config, db, steps[..|steps| - 1]), steps[|steps| - 1]);
    }
  }

  lemma EmptyIsOk()
    ensures Inv(EMPTY)
  {
  }

  // ---- The results ----

  /** In every reachable state, what a crypto invoice has captured is the sum of its recorded transactions. */
  lemma LedgerConservation(config: Config, steps: seq<Step>)
    ensures var db := RunLedger(config, EMPTY, steps);
      forall invoice <- db.invoices :: !invoice.buyerCurrency.IsFiat() ==>
        invoice.amountCaptured == SumReceived(db.received, invoice.id)
  {
    EmptyIsOk();
    RunKeepsInv(config, EMPTY, steps);
  }

  /** A transaction once received can be redelivered at any later time, to whatever account and with
      whatever amount: the call is refused and changes nothing at all. */
  lemma RedeliveryChangesNothing(config: Config, db: Db, accountId: nat, tx: nat, amount: Amount, steps: seq<Step>,
                                 other: nat, again: Amount)
    requires Receive(db, accountId, tx, amount).1.Ok?
    ensures var later := RunLedger(config, Receive(db, accountId, tx, amount).0, steps);
      Receive(later, other, tx, again).0 == later && Receive(later, other, tx, again).1.Err?
  {
    var after := Receive(db, accountId, tx, amount).0;
    PaidIsFinal(config, after, steps);
    var later := RunLedger(config, after, steps);
    assert after.received[|db.received|].id == tx;
    assert later.received[|db.received|].id == tx;
  }

  /** In every reachable state there is one `InvoicePaid` event for a paid crypto invoice and none for an
      id without invoice; and a paid crypto invoice has captured its final amount. */
  lemma PaidExactlyOnce(config: Config, steps: seq<Step>, id: nat)
    ensures var db := RunLedger(config, EMPTY, steps);
      && (!ForCard(db.invoices, id) ==> CountPaidEvents(db.queue, id) == (if MarkedPaid(db.invoices, id) then 1 else 0))
      && forall invoice <- db.invoices ::
           && (invoice.paidAt.Some? <==> invoice.finalAmountPaid.Some? && invoice.finalCashbackAmount.Some?)
           && (invoice.paidAt.Some? && !invoice.buyerCurrency.IsFiat() ==>
                 invoice.finalAmountPaid.value <= invoice.amountCaptured)
  {
    EmptyIsOk();
    RunKeepsInv(config, EMPTY, steps);
    var db := RunLedger(config, EMPTY, steps);
    assert forall invoice <- db.invoices :: Covered(invoice);
  }

  /** No settlement in any run hits the unwrap. */
  lemma NeverPanics(config: Config, steps: seq<Step>, id: nat, now: Timestamp)
    ensures !Settle(RunLedger(config, EMPTY, steps), id, now).1.Panicked?
  {
    EmptyIsOk();
    RunKeepsInv(config, EMPTY, steps);
    SettlementCovers(RunLedger(config, EMPTY, steps), id, now);
  }

  predicate InvoiceEvolves(before: Invoice, after: Invoice) {
    && after.id == before.id
    && after.buyerCurrency == before.buyerCurrency
    && (!before.buyerCurrency.IsFiat() ==> after.amountCaptured >= before.amountCaptured)
    && (before.paidAt.Some? && !before.buyerCurrency.IsFiat() ==>
          after.(accountId := None, amountCaptured := 0) == before.(accountId := None, amountCaptured := 0))
  }

  predicate Evolves(before: Db, after: Db) {
    && |before.invoices| <= |after.invoices|
    && (forall i :: 0 <= i < |before.invoices| ==> InvoiceEvolves(before.invoices[i], after.invoices[i]))
    && before.received <= after.received
  }

  lemma {:induction false} AddOrdersFrame(db: Db, id: nat, orders: seq<NewOrder>)
    ensures var r := AddOrders(db, id, orders);
      r.Some? ==> r.value.invoices == db.invoices && r.value.received == db.received
  {
    if orders != [] {
      AddOrdersFrame(db, id, orders[..|orders| - 1]);
    }
  }

  lemma StepEvolves(config: Config, db: Db, step: Step)
    ensures Evolves(db, Next(config, db, step))
  {
    if step.CreateInvoice? {
      var withInvoice := db.(
        queue := db.queue + [NewEntry(PaymentExpired(step.id), Some(step.expiresOn), step.now)],
        invoices := db.invoices + [NewInvoice(step.id, step.accountId, step.buyerCurrency)]);
      AddOrdersFrame(withInvoice, step.id, step.orders);
    }
  }

  /** From any state of a run to any later one: no invoice and no transaction is lost, what a crypto
      invoice has captured only grows, and once it is paid its date and final amounts never change. */
  lemma {:induction false} PaidIsFinal(config: Config, db: Db, steps: seq<Step>)
    ensures Evolves(db, RunLedger(config, db, steps))
  {
    if steps != [] {
      PaidIsFinal(config, db, steps[..|steps| - 1]);
      StepEvolves(config, RunLedger(config, db, steps[..|steps| - 1]), steps[|steps| - 1]);
    }
  }
}
