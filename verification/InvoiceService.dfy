/** The invoice service: the payment callback and the recalculation, end to end. What the Payments
    gateway answers to the i-th rate request of a call is the parameter `gateway(i)`. */
module InvoiceService {
  import opened Wrappers
  import opened Amounts
  import opened EventQueue
  import EventStoreRepo
  import opened ExchangeRates
  import opened InvoicePrices
  import opened RateRefresh
  import opened InvoiceLedger
  import opened InvoiceRuns

  datatype ServiceError = Internal | Panic | Forbidden

  type Gateway = nat -> Reply

  function Replies(n: nat, gateway: Gateway): (replies: seq<Reply>)
    ensures |replies| == n && forall i :: 0 <= i < n ==> replies[i] == gateway(i)
  {
    seq(n, i requires 0 <= i < n => gateway(i))
  }

  function Answered(settlement: Settlement): Result<InvoiceDump, ServiceError> {
    match settlement
    case Missing => Err(Internal)
    case Priced(dump) => Ok(dump)
    case Panicked => Err(Panic)
  }

  function RefreshOf(db: Db, invoice: Invoice, gateway: Gateway): Result<seq<NewRate>, RefreshError> {
    var orders := OrdersOf(db.orders, invoice.id);
    if invoice.buyerCurrency.IsFiat() then Err(NotCrypto)
    else Refreshed(invoice.buyerCurrency, WithActive(orders, db.rates.rows), Replies(|orders|, gateway))
  }

  /** Refresh the rates, save them one by one, settle. The database fails after `saves` rates, if there
      are that many more to save; those saved stay. */
  function RefreshAndSettle(db: Db, invoice: Invoice, gateway: Gateway, saves: nat, now: Timestamp)
    : (Db, Result<InvoiceDump, ServiceError>)
  {
    var quotes := RefreshOf(db, invoice, gateway);
    if quotes.Err? then (db, Err(Internal))
    else if saves < |quotes.value| then (db.(rates := Saved(db.rates, quotes.value[..saves])), Err(Internal))
    else
      var (after, settlement) := Settle(db.(rates := Saved(db.rates, quotes.value)), invoice.id, now);
      (after, Answered(settlement))
  }

  function Acknowledged(r: Result<InvoiceDump, ServiceError>): Result<(), ServiceError> {
    if r.Err? then Err(r.error) else Ok(())
  }

  /** The invoice an inbound transaction belongs to, once it is in the ledger. A transaction that was
      already recorded counts as success; `None` is an error that reaches the caller. */
  function LedgerStep(db: Db, accountId: nat, tx: nat, amount: Amount): (Db, Option<Invoice>) {
    var (after, r) := Receive(db, accountId, tx, amount);
    match r
    case Ok(invoice) => (after, Some(invoice))
    case Err(Duplicate) =>
      var found := FindByAccount(db.invoices, accountId);
      (db, if found.None? then None else Some(db.invoices[found.value]))
    case Err(_) => (db, None)
  }

  /** `handle_inbound_tx`. The account is `None` if no account has the wallet
      address, the amount if it does not parse. "Not found" is answered with success. */
  function InboundTx(db: Db, signed: bool, account: Option<nat>, tx: nat, amount: Option<Amount>, gateway: Gateway,
                     saves: nat, now: Timestamp): (Db, Result<(), ServiceError>)
  {
    if !signed then (db, Err(Forbidden))
    else if account.None? then (db, Ok(()))
    else if amount.None? then (db, Err(Internal))
    else if FindByAccount(db.invoices, account.value).None? then (db, Ok(()))
    else
      var (mid, invoice) := LedgerStep(db, account.value, tx, amount.value);
      if invoice.None? then (mid, Err(Internal))
      else if invoice.value.paidAt.Some? then (mid, Ok(()))
      else
        var (after, r) := RefreshAndSettle(mid, invoice.value, gateway, saves, now);
        (after, Acknowledged(r))
  }

  /** `recalc_invoice_v2`. */
  function Recalc(db: Db, id: nat, gateway: Gateway, saves: nat, now: Timestamp)
    : (Db, Result<Option<InvoiceDump>, ServiceError>)
  {
    var found := FindById(db.invoices, id);
    if found.None? then (db, Ok(None))
    else
      var invoice := db.invoices[found.value];
      if invoice.paidAt.Some? then
        var orders := WithActive(OrdersOf(db.orders, id), db.rates.rows);
        (db, Ok(Some(CalculateInvoicePrice(invoice, AsLists(orders)))))
      else
        var (after, r) :=
          if invoice.buyerCurrency.IsFiat() then
            var (settled, settlement) := Settle(db, id, now);
            (settled, Answered(settlement))
          else RefreshAndSettle(db, invoice, gateway, saves, now);
        (after, if r.Err? then Err(r.error) else Ok(Some(r.value)))
  }

  // ---- Every call is a run of ledger steps ----

  ghost predicate Reachable(config: Config, db: Db) {
    exists steps :: db == RunLedger(config, EMPTY, steps)
  }

  lemma StepReaches(config: Config, db: Db, step: Step)
    requires Reachable(config, db)
    ensures Reachable(config, Next(config, db, step))
  {
    var steps :| db == RunLedger(config, EMPTY, steps);
    assert (steps + [step])[..|steps|] == steps;
    assert Next(config, db, step) == RunLedger(config, EMPTY, steps + [step]);
  }

  lemma ReachableIsOk(config: Config, db: Db)
    requires Reachable(config, db)
    ensures Inv(db)
  {
    var steps :| db == RunLedger(config, EMPTY, steps);
    EmptyIsOk();
    RunKeepsInv(config, EMPTY, steps);
  }

  lemma {:induction false} SavedReaches(config: Config, db: Db, quotes: seq<NewRate>)
    requires Reachable(config, db)
    ensures Reachable(config, db.(rates := Saved(db.rates, quotes)))
  {
    if quotes == [] {
      assert db.(rates := db.rates) == db;
    } else {
      var front, last := quotes[..|quotes| - 1], quotes[|quotes| - 1];
      SavedReaches(config, db, front);
      StepReaches(config, db.(rates := Saved(db.rates, front)), ChangeRates(AddActive(last)));
    }
  }

  lemma RefreshAndSettleReaches(config: Config, db: Db, invoice: Invoice, gateway: Gateway, saves: nat, now: Timestamp)
    requires Reachable(config, db)
    ensures Reachable(config, RefreshAndSettle(db, invoice, gateway, saves, now).0)
  {
    var quotes := RefreshOf(db, invoice, gateway);
    if quotes.Ok? && saves < |quotes.value| {
      SavedReaches(config, db, quotes.value[..saves]);
    } else if quotes.Ok? {
      SavedReaches(config, db, quotes.value);
      StepReaches(config, db.(rates := Saved(db.rates, quotes.value)), SettleInvoice(invoice.id, now));
    }
  }

  /** The callback and the recalculation are runs of ledger steps, so all that holds of every run
      holds after them. */
  lemma CallsAreRuns(config: Config, db: Db, signed: bool, account: Option<nat>, tx: nat, amount: Option<Amount>,
                     id: nat, gateway: Gateway, saves: nat, now: Timestamp)
    requires Reachable(config, db)
    ensures Reachable(config, InboundTx(db, signed, account, tx, amount, gateway, saves, now).0)
    ensures Reachable(config, Recalc(db, id, gateway, saves, now).0)
  {
    hide RefreshAndSettle, RunLedger;
    if account.Some? && amount.Some? {
      var (mid, invoice) := LedgerStep(db, account.value, tx, amount.value);
      StepReaches(config, db, ReceiveTx(account.value, tx, amount.value));
      if invoice.Some? {
        RefreshAndSettleReaches(config, mid, invoice.value, gateway, saves, now);
      }
    }
    var found := FindById(db.invoices, id);
    if found.Some? {
      RefreshAndSettleReaches(config, db, db.invoices[found.value], gateway, saves, now);
      StepReaches(config, db, SettleInvoice(id, now));
    }
  }

  // ---- What the calls achieve ----

  lemma {:induction false} OrdersOfMembers(orders: seq<Order>, id: nat)
    ensures forall o :: o in OrdersOf(orders, id) <==> o in orders && o.invoiceId == id
  {
    if orders != [] {
      OrdersOfMembers(orders[..|orders| - 1], id);
      assert orders == orders[..|orders| - 1] + [orders[|orders| - 1]];
    }
  }

  lemma {:induction false} OrdersOfApart(orders: seq<Order>, id: nat)
    requires OrdersApart(orders)
    ensures OrdersApart(OrdersOf(orders, id))
  {
    if orders != [] {
      var front := orders[..|orders| - 1];
      OrdersOfApart(front, id);
      OrdersOfMembers(front, id);
      var kept := OrdersOf(front, id);
      forall i | 0 <= i < |kept|
        ensures kept[i].id != orders[|orders| - 1].id
      {
        assert kept[i] in front;
      }
    }
  }

  /** What the orders of an invoice cost in the buyer's currency at the active rates. */
  function PriceAtRates(db: Db, invoice: Invoice): real {
    SumOfPrices(invoice.buyerCurrency, OrdersOf(db.orders, invoice.id), db.rates.rows)
  }

  /** Every order of an invoice that needs an exchange has an active rate, and what was captured covers
      the sum of the prices. */
  predicate PriceCovered(db: Db, invoice: Invoice) {
    && RatesComplete(invoice.buyerCurrency, OrdersOf(db.orders, invoice.id), db.rates.rows)
    && ToSuperUnit(invoice.buyerCurrency, invoice.amountCaptured) >= PriceAtRates(db, invoice)
  }

  lemma PriceOfUnpaid(db: Db, invoice: Invoice)
    requires OneActive(db.rates.rows) && invoice.paidAt.None?
    ensures var dump := InvoicePrice(db, invoice);
      && dump.totalPrice == PriceAtRates(db, invoice)
      && dump.totalCashback == Some(0.0)
      && dump.buyerCurrency == invoice.buyerCurrency
      && (HasBecomePaid(invoice, dump) <==> PriceCovered(db, invoice))
      && (dump.hasMissingRates <==>
            !RatesComplete(invoice.buyerCurrency, OrdersOf(db.orders, invoice.id), db.rates.rows))
  {
    hide DumpOrders, SumOfPrices, TotalPrice, OneActive, HasMissing, RatesComplete, ToSuperUnit;
    TotalIsSumOfPrices(invoice.buyerCurrency, OrdersOf(db.orders, invoice.id), db.rates.rows);
    MissingMeansIncomplete(invoice.buyerCurrency, OrdersOf(db.orders, invoice.id), db.rates.rows);
  }

  /** Settling decides by the sum of the orders' prices at their active rates. If that is covered, the
      invoice gets the sum in minimal units, no cashback and the date, and one event is added; nothing
      else changes. */
  lemma SettlementDecides(db: Db, k: nat, now: Timestamp)
    requires Inv(db) && k < |db.invoices| && db.invoices[k].paidAt.None?
    ensures var invoice := db.invoices[k];
      var (after, settlement) := Settle(db, invoice.id, now);
      && settlement.Priced? && settlement.dump.totalPrice == PriceAtRates(db, invoice)
      && |after.invoices| == |db.invoices|
      && (after.invoices[k].paidAt.Some? <==> PriceCovered(db, invoice))
      && (!PriceCovered(db, invoice) ==> after == db)
      && (PriceCovered(db, invoice) ==>
            && after.invoices[k] == invoice.(
                 finalAmountPaid := FromSuperUnit(invoice.buyerCurrency, PriceAtRates(db, invoice)),
                                             finalCashbackAmount := Some(0),
                                             paidAt := Some(now))
            && (forall i :: 0 <= i < |db.invoices| && i != k ==> after.invoices[i] == db.invoices[i])
            && after.(invoices := [], queue := []) == db.(invoices := [], queue := [])
            && |after.queue| == |db.queue| + 1 && after.queue[..|db.queue|] == db.queue
            && after.queue[|db.queue|].payload == InvoicePaid(invoice.id)
            && after.queue[|db.queue|].status.Pending? && after.queue[|db.queue|].scheduledOn.None?)
  {
    hide PriceCovered, HasBecomePaid, PriceAtRates, Conserved, EventsMatch, InvoicePrice;
    var invoice := db.invoices[k];
    SettlementCovers(db, invoice.id, now);
    PriceOfUnpaid(db, invoice);
    SuperUnitOfZero(Stq);
    SuperUnitRoundTrip(Stq, 0);
    assert FindById(db.invoices, invoice.id) == Some(k);
  }

  /** Each order of the invoice has the rate that what it had and the gateway's answer call for. */
  predicate OrdersRefreshed(db: Db, rates: RateTable, invoice: Invoice, gateway: Gateway) {
    var orders := OrdersOf(db.orders, invoice.id);
    forall i :: 0 <= i < |orders| ==> RefreshedRate(db.rates, rates, invoice.buyerCurrency, orders[i], gateway(i))
  }

  /** When the refresh of an invoice fails, in terms of its orders, their rates and the answers. */
  lemma RefreshOfFailsExactlyIf(db: Db, invoice: Invoice, gateway: Gateway)
    ensures var orders := OrdersOf(db.orders, invoice.id);
      RefreshOf(db, invoice, gateway).Err? <==>
        || invoice.buyerCurrency.IsFiat()
        || exists i :: 0 <= i < |orders|
             && RefreshFails(invoice.buyerCurrency, orders[i], ActiveOf(db.rates.rows, orders[i].id), gateway(i))
  {
    hide ActiveOf;
    var orders := OrdersOf(db.orders, invoice.id);
    var current, replies := WithActive(orders, db.rates.rows), Replies(|orders|, gateway);
    RefreshFailsExactlyIf(invoice.buyerCurrency, current, replies);
    assert forall i :: 0 <= i < |orders| ==>
      (current[i] == (orders[i], ActiveOf(db.rates.rows, orders[i].id)) && replies[i] == gateway(i));
    if i :| 0 <= i < |orders|
            && RefreshFails(invoice.buyerCurrency, orders[i], ActiveOf(db.rates.rows, orders[i].id), gateway(i)) {
      assert RefreshFails(invoice.buyerCurrency, current[i].0, current[i].1, replies[i]);
    }
  }

  /** The callback of a linked, unpaid invoice whose rates could be refreshed and saved: the amount is
      in the ledger, every order has an active rate, and the invoice is paid if and only if all that
      was captured covers the price at these rates. */
  lemma InboundTxSettles(db: Db, k: nat, tx: nat, amount: Amount, gateway: Gateway, saves: nat, now: Timestamp)
    requires Inv(db) && k < |db.invoices| && db.invoices[k].accountId.Some? && db.invoices[k].paidAt.None?
    requires db.invoices[k].amountCaptured + amount < U128
    requires var quotes := RefreshOf(db, db.invoices[k], gateway); quotes.Ok? && |quotes.value| <= saves
    ensures var invoice := db.invoices[k];
      var (after, r) := InboundTx(db, true, invoice.accountId, tx, Some(amount), gateway, saves, now);
      && r.Ok?
      && |after.invoices| == |db.invoices|
      && after.invoices[k].amountCaptured == invoice.amountCaptured + (if Recorded(db.received, tx) then 0 else amount)
      && (forall order <- OrdersOf(after.orders, invoice.id) :: ActiveOf(after.rates.rows, order.id).Some?)
      && OrdersRefreshed(db, after.rates, invoice, gateway)
      && (after.invoices[k].paidAt.Some? <==>
            ToSuperUnit(invoice.buyerCurrency, after.invoices[k].amountCaptured)
            >= PriceAtRates(after, after.invoices[k]))
  {
    hide Refreshed, SavedRefresh, Saved, ActiveOf, TotalPrice, Inv;
    var invoice := db.invoices[k];
    LinkedInvoiceIsFound(db, k);
    var (mid, read) := LedgerStep(db, invoice.accountId.value, tx, amount);
    ReceiveIsStep(db, invoice.accountId.value, tx, amount);
    var saved := mid.(rates := Saved(mid.rates, RefreshOf(db, invoice, gateway).value));
    RefreshedDbIsOk(mid, k, gateway);
    SettlementDecides(saved, k, now);
  }

  /** Whatever else happens after it, a signed callback of a linked invoice leaves its amount recorded
      once; only an overflow, checked even for a recorded transaction, keeps it out and is an error.
      A paid invoice is done then. When the refresh or the saving of its rates fails, the caller is
      told so that it comes again; the amount stays recorded and the invoice unpaid. */
  lemma InboundTxRecords(db: Db, k: nat, tx: nat, amount: Amount, gateway: Gateway, saves: nat, now: Timestamp)
    requires Inv(db) && k < |db.invoices| && db.invoices[k].accountId.Some?
    ensures var invoice := db.invoices[k];
      var (after, r) := InboundTx(db, true, invoice.accountId, tx, Some(amount), gateway, saves, now);
      var recorded := Recorded(db.received, tx);
      if invoice.amountCaptured + amount >= U128 then after == db && r == Err(Internal)
      else
        && |after.invoices| == |db.invoices|
        && after.invoices[k].amountCaptured == invoice.amountCaptured + (if recorded then 0 else amount)
        && after.received == (if recorded then db.received else db.received + [Received(tx, invoice.id, amount)])
        && (invoice.paidAt.Some? ==>
              r.Ok? && after.(invoices := [], received := []) == db.(invoices := [], received := []))
        && (invoice.paidAt.None? ==>
              var quotes := RefreshOf(db, invoice, gateway);
              (quotes.Err? || saves < |quotes.value| ==>
                 && r == Err(Internal)
                 && after.invoices[k].paidAt.None? && after.queue == db.queue && after.orders == db.orders
                 && after.rates == (if quotes.Err? then db.rates else Saved(db.rates, quotes.value[..saves]))))
  {
    hide Refreshed, Saved, Inv, CalculateInvoicePrice;
    LinkedInvoiceIsFound(db, k);
  }

  /** Saving a successful refresh keeps the invariant and leaves no order of the invoice without a rate. */
  lemma RefreshedDbIsOk(db: Db, k: nat, gateway: Gateway)
    requires Inv(db) && k < |db.invoices|
    requires RefreshOf(db, db.invoices[k], gateway).Ok?
    ensures var invoice := db.invoices[k];
      var saved := db.(rates := Saved(db.rates, RefreshOf(db, invoice, gateway).value));
      && Inv(saved)
      && !InvoicePrice(saved, invoice).hasMissingRates
      && OrdersRefreshed(db, saved.rates, invoice, gateway)
      && forall order <- OrdersOf(db.orders, invoice.id) :: ActiveOf(saved.rates.rows, order.id).Some?
  {
    hide Refreshed, Saved, ActiveOf, RefreshedRate;
    var invoice := db.invoices[k];
    var orders := OrdersOf(db.orders, invoice.id);
    var replies := Replies(|orders|, gateway);
    OrdersOfApart(db.orders, invoice.id);
    NoRateIsMissing(db.rates, invoice, orders, replies);
    RefreshLeavesOthers(db.rates, invoice.buyerCurrency, orders, replies, 0);
    forall i | 0 <= i < |orders|
      ensures RefreshedRate(db.rates, SavedRefresh(db.rates, invoice.buyerCurrency, orders, replies),
                            invoice.buyerCurrency, orders[i], gateway(i))
    {
      RefreshCompletesRates(db.rates, invoice.buyerCurrency, orders, replies, i);
    }
    forall order | order in orders
      ensures ActiveOf(SavedRefresh(db.rates, invoice.buyerCurrency, orders, replies).rows, order.id).Some?
    {
      var i :| 0 <= i < |orders| && orders[i] == order;
      RefreshCompletesRates(db.rates, invoice.buyerCurrency, orders, replies, i);
      RefreshedIsSome(db.rates, SavedRefresh(db.rates, invoice.buyerCurrency, orders, replies),
                      invoice.buyerCurrency, orders[i], replies[i]);
    }
  }

  lemma RefreshedIsSome(before: RateTable, after: RateTable, buyer: Currency, order: Order, reply: Reply)
    requires RefreshedRate(before, after, buyer, order, reply)
    ensures ActiveOf(after.rows, order.id).Some?
  {
  }

  lemma LinkedInvoiceIsFound(db: Db, k: nat)
    requires Inv(db) && k < |db.invoices| && db.invoices[k].accountId.Some?
    ensures FindByAccount(db.invoices, db.invoices[k].accountId.value) == Some(k)
  {
  }

  lemma ReceiveIsStep(db: Db, accountId: nat, tx: nat, amount: Amount)
    requires Inv(db)
    ensures Inv(LedgerStep(db, accountId, tx, amount).0)
  {
    ReceiveKeepsInv(db, accountId, tx, amount);
  }

  predicate LedgerKept(before: Db, after: Db) {
    && after.received == before.received
    && |after.invoices| == |before.invoices|
    && forall i :: 0 <= i < |before.invoices| ==>
         && after.invoices[i].amountCaptured == before.invoices[i].amountCaptured
         && (before.invoices[i].paidAt.Some? ==> after.invoices[i] == before.invoices[i])
  }

  lemma RefreshKeepsLedger(db: Db, invoice: Invoice, gateway: Gateway, saves: nat, now: Timestamp)
    ensures LedgerKept(db, RefreshAndSettle(db, invoice, gateway, saves, now).0)
  {
    hide RefreshOf, Saved, CalculateInvoicePrice;
  }

  /** Delivering a recorded transaction again, as the gateway may, is answered like the first time but
      neither table of the ledger changes except to be settled; for a paid invoice nothing changes. */
  lemma RedeliveredCallback(db: Db, account: nat, tx: nat, amount: Amount, gateway: Gateway, saves: nat, now: Timestamp)
    requires Inv(db) && Recorded(db.received, tx)
    ensures var after := InboundTx(db, true, Some(account), tx, Some(amount), gateway, saves, now).0;
      && LedgerKept(db, after)
      && ((exists i :: 0 <= i < |db.invoices|
                       && db.invoices[i].accountId == Some(account) && db.invoices[i].paidAt.Some?) ==>
            after == db)
  {
    hide Inv, RefreshOf, RefreshAndSettle;
    forall invoice
      ensures LedgerKept(db, RefreshAndSettle(db, invoice, gateway, saves, now).0)
    {
      RefreshKeepsLedger(db, invoice, gateway, saves, now);
    }
    forall i | 0 <= i < |db.invoices| && db.invoices[i].accountId == Some(account)
      ensures FindByAccount(db.invoices, account) == Some(i)
    {
      LinkedInvoiceIsFound(db, i);
    }
  }

  /** Recalculating an invoice by its id: a paid one only shows its final price, which is also what
      the full history of rates would give; an unpaid crypto one becomes paid exactly if covered. */
  lemma RecalcSettles(db: Db, k: nat, gateway: Gateway, saves: nat, now: Timestamp)
    requires Inv(db) && k < |db.invoices|
    ensures var invoice := db.invoices[k];
      var (after, r) := Recalc(db, invoice.id, gateway, saves, now);
      if invoice.paidAt.Some? then
        && after == db && r.Ok? && r.value.Some?
        && r.value.value.totalPrice == InvoicePrice(db, invoice).totalPrice
                                    == ToSuperUnit(invoice.buyerCurrency, invoice.finalAmountPaid.value)
        && r.value.value.hasMissingRates == InvoicePrice(db, invoice).hasMissingRates
      else if invoice.buyerCurrency.IsFiat() then
        && r.Ok? && |after.invoices| == |db.invoices|
        && (after.invoices[k].paidAt.Some? <==> PriceCovered(db, invoice))
      else
        var quotes := RefreshOf(db, invoice, gateway);
        if quotes.Err? then after == db && r == Err(Internal)
        else if saves < |quotes.value| then
          after == db.(rates := Saved(db.rates, quotes.value[..saves])) && r == Err(Internal)
        else
          && r.Ok? && r.value.Some? && !r.value.value.hasMissingRates
          && |after.invoices| == |db.invoices|
          && OrdersRefreshed(db, after.rates, invoice, gateway)
          && (after.invoices[k].paidAt.Some? <==>
                ToSuperUnit(invoice.buyerCurrency, invoice.amountCaptured) >= PriceAtRates(after, invoice))
  {
    hide Refreshed, Saved, TotalPrice, ActiveOf;
    var invoice := db.invoices[k];
    assert FindById(db.invoices, invoice.id) == Some(k);
    assert Covered(invoice);
    if invoice.paidAt.Some? {
      SamePrice(invoice, OrdersOf(db.orders, invoice.id), db.rates.rows);
    } else if invoice.buyerCurrency.IsFiat() {
      SettlementDecides(db, k, now);
    } else if RefreshOf(db, invoice, gateway).Ok? {
      RefreshedDbIsOk(db, k, gateway);
      SettlementDecides(db.(rates := Saved(db.rates, RefreshOf(db, invoice, gateway).value)), k, now);
    }
  }

  lemma {:induction false} FailureEndsOrders(db: Db, id: nat, orders: seq<NewOrder>, k: nat)
    requires k <= |orders| && AddOrders(db, id, orders[..k]).None?
    ensures AddOrders(db, id, orders).None?
  {
    var n := |orders|;
    if k == n {
      assert orders[..k] == orders;
    } else {
      assert orders[..n - 1][..k] == orders[..k];
      FailureEndsOrders(db, id, orders[..n - 1], k);
    }
  }

  /** The refusals of a callback, in their order. All leave everything as it was; an unknown or unlinked
      account is nevertheless answered with success, so that the gateway does not come again. */
  lemma InboundTxRefuses(db: Db, signed: bool, account: Option<nat>, tx: nat, amount: Option<Amount>, gateway: Gateway,
                         saves: nat, now: Timestamp)
    requires !signed || account.None? || amount.None?
      || forall invoice <- db.invoices :: invoice.accountId != account
    ensures var (after, r) := InboundTx(db, signed, account, tx, amount, gateway, saves, now);
      && after == db
      && r == if !signed then Err(Forbidden)
              else if account.None? then Ok(())
              else if amount.None? then Err(Internal)
              else Ok(())
  {
    if account.Some? && FindByAccount(db.invoices, account.value).Some? {
      assert db.invoices[FindByAccount(db.invoices, account.value).value] in db.invoices;
    }
  }

  // ---- The service ----

  class BillingService {
    var invoices: seq<Invoice>
    var received: seq<Received>
    var orders: seq<Order>
    const rates: OrderExchangeRates
    const events: EventStoreRepo.EventStore

    ghost function State(): Db
      reads this, rates, events
    {
      Db(invoices, received, orders, rates.Table(), events.table)
    }

    constructor (config: Config)
      ensures State() == EMPTY && events.config == config
      ensures fresh(rates) && fresh(events)
    {
      invoices, received, orders := [], [], [];
      rates := new OrderExchangeRates();
      events := new EventStoreRepo.EventStore(config);
    }

    /** Schedules the expiry event, then inserts the invoice, its orders and their rates in one
        transaction, which is rolled back when an id or an account is already in use. */
    method CreateInvoice(id: nat, accountId: nat, buyerCurrency: Currency, intentOk: bool, newOrders: seq<NewOrder>,
                         now: Timestamp, expiresOn: Timestamp) returns (created: bool)
      modifies this`invoices, this`orders, rates, events
      ensures State() == Create(old(State()), id, accountId, buyerCurrency, intentOk, newOrders, now, expiresOn)
      ensures created <==> |invoices| > |old(invoices)|
      ensures !created ==>
        State() == old(State()).(queue := old(events.table) + [NewEntry(PaymentExpired(id), Some(expiresOn), now)])
    {
      var _ := events.AddScheduledEvent(PaymentExpired(id), expiresOn, now);
      if FindById(invoices, id).Some? {
        return false;
      }
      var accepted := if buyerCurrency.IsFiat() then intentOk else FindByAccount(invoices, accountId).None?;
      if !accepted {
        return false;
      }
      var savedInvoices, savedOrders, savedRows, savedId := invoices, orders, rates.rows, rates.nextId;
      invoices := invoices + [NewInvoice(id, accountId, buyerCurrency)];
      ghost var withInvoice := State();
      for i := 0 to |newOrders|
        invariant AddOrders(withInvoice, id, newOrders[..i]) == Some(State())
        invariant invoices == withInvoice.invoices && received == old(received) && events.table == withInvoice.queue
      {
        assert newOrders[..i + 1][..i] == newOrders[..i];
        var quoted := newOrders[i];
        if exists j :: 0 <= j < |orders| && orders[j].id == quoted.order.id {
          FailureEndsOrders(withInvoice, id, newOrders, i + 1);
          invoices, orders, rates.rows, rates.nextId := savedInvoices, savedOrders, savedRows, savedId;
          return false;
        }
        orders := orders + [quoted.order.(invoiceId := id)];
        var _, _ := rates.AddNewActiveRate(NewRate(quoted.order.id, quoted.exchangeId, quoted.exchangeRate));
      }
      assert newOrders[..|newOrders|] == newOrders;
      return true;
    }

    method UnlinkAccount(id: nat) returns (r: Result<Invoice, LedgerError>)
      modifies this`invoices
      ensures State() == Unlinked(old(State()), id)
      ensures |invoices| == |old(invoices)| && forall i :: 0 <= i < |invoices| ==>
        || invoices[i] == old(invoices)[i]
        || (old(invoices)[i].id == id && invoices[i] == old(invoices)[i].(accountId := None))
      ensures r.Err? <==> FindById(old(invoices), id).None?
      ensures r.Ok? ==> r.value in invoices && r.value.id == id && r.value.accountId.None?
    {
      var found := FindById(invoices, id);
      if found.None? {
        return Err(NoInvoice);
      }
      invoices := invoices[found.value := invoices[found.value].(accountId := None)];
      assert invoices[found.value] in invoices;
      return Ok(invoices[found.value]);
    }

    /** Records the transaction and adds its amount, both or neither. */
    method IncreaseAmountCaptured(accountId: nat, tx: nat, amount: Amount) returns (r: Result<Invoice, LedgerError>)
      modifies this`invoices, this`received
      ensures (State(), r) == Receive(old(State()), accountId, tx, amount)
      ensures r.Err? ==> State() == old(State())
      ensures r.Ok? ==>
        && !Recorded(old(received), tx)
        && received == old(received) + [Received(tx, r.value.id, amount)]
        && r.value in invoices && r.value.accountId == Some(accountId)
    {
      var found := FindByAccount(invoices, accountId);
      if found.None? {
        return Err(NoInvoice);
      }
      var invoice := invoices[found.value];
      var captured := CheckedAdd(invoice.amountCaptured, amount);
      if captured.None? {
        return Err(AmountOverflow);
      }
      if exists i :: 0 <= i < |received| && received[i].id == tx {
        return Err(Duplicate);
      }
      received := received + [Received(tx, invoice.id, amount)];
      invoices := invoices[found.value := invoice.(amountCaptured := captured.value)];
      assert invoices[found.value] in invoices;
      return Ok(invoices[found.value]);
    }

    method SetAmountPaid(id: nat, finalAmountPaid: Amount, finalCashbackAmount: Amount, paidAt: Timestamp)
      returns (r: Result<Invoice, LedgerError>)
      modifies this`invoices
      ensures r.Err? <==> FindById(old(invoices), id).None?
      ensures r.Err? ==> r.error == NoInvoice && invoices == old(invoices)
      ensures r.Ok? ==>
        var k := FindById(old(invoices), id).value;
        && r.value == old(invoices)[k].(finalAmountPaid := Some(finalAmountPaid),
                                        finalCashbackAmount := Some(finalCashbackAmount),
                                        paidAt := Some(paidAt))
        && invoices == old(invoices)[k := r.value]
    {
      var found := FindById(invoices, id);
      if found.None? {
        return Err(NoInvoice);
      }
      var invoice := invoices[found.value].(finalAmountPaid := Some(finalAmountPaid),
                                            finalCashbackAmount := Some(finalCashbackAmount),
                                            paidAt := Some(paidAt));
      invoices := invoices[found.value := invoice];
      return Ok(invoice);
    }

    method GetOrderActiveRates(id: nat) returns (r: seq<(Order, Option<Rate>)>)
      ensures r == WithActive(OrdersOf(orders, id), rates.rows)
    {
      var mine := OrdersOf(orders, id);
      r := [];
      for i := 0 to |mine|
        invariant r == WithActive(mine, rates.rows)[..i]
      {
        var rate := rates.GetActiveRateForOrder(mine[i].id);
        r := r + [(mine[i], rate)];
      }
    }

    method GetOrderRateHistory(id: nat) returns (r: seq<(Order, seq<Rate>)>)
      ensures r == WithHistory(OrdersOf(orders, id), rates.rows)
    {
      var mine := OrdersOf(orders, id);
      r := [];
      for i := 0 to |mine|
        invariant r == WithHistory(mine, rates.rows)[..i]
      {
        var history := rates.GetAllRatesForOrder(mine[i].id);
        r := r + [(mine[i], history)];
      }
    }

    method GetInvoicePrice(invoice: Invoice) returns (dump: InvoiceDump)
      ensures dump == InvoicePrice(State(), invoice)
      ensures dump.id == invoice.id && dump.buyerCurrency == invoice.buyerCurrency
      ensures dump.amountCaptured == ToSuperUnit(invoice.buyerCurrency, invoice.amountCaptured)
      ensures invoice.paidAt.None? && OneActive(rates.rows) ==>
        && dump.totalPrice == PriceAtRates(State(), invoice)
        && (dump.hasMissingRates <==> !RatesComplete(invoice.buyerCurrency, OrdersOf(orders, invoice.id), rates.rows))
      ensures invoice.paidAt.Some? && invoice.finalAmountPaid.Some? && invoice.finalCashbackAmount.Some? ==>
        && dump.totalPrice == ToSuperUnit(invoice.buyerCurrency, invoice.finalAmountPaid.value)
        && dump.totalCashback == Some(ToSuperUnit(invoice.buyerCurrency, invoice.finalCashbackAmount.value))
        && dump.paidAt == invoice.paidAt
    {
      if invoice.paidAt.None? && OneActive(rates.rows) {
        PriceOfUnpaid(State(), invoice);
      }
      var withRates := GetOrderRateHistory(invoice.id);
      return CalculateInvoicePrice(invoice, withRates);
    }

    /** One transaction: the price, and if it is covered for the first time, the final amounts and the event. */
    method CalculateInvoicePriceAndSetFinalPriceIfPaid(id: nat, now: Timestamp) returns (s: Settlement)
      modifies this`invoices, events
      ensures (State(), s) == Settle(old(State()), id, now)
      ensures Inv(old(State())) ==> forall k :: 0 <= k < |invoices| == |old(invoices)| && invoices[k].id == id ==>
        (invoices[k].paidAt.Some? <==> old(invoices)[k].paidAt.Some? || PriceCovered(old(State()), old(invoices)[k]))
      ensures Inv(old(State())) ==> Inv(State()) && !s.Panicked?
    {
      ghost var before := State();
      if Inv(before) {
        SettlementCovers(before, id, now);
        SettleKeepsInv(before, id, now);
        forall k | 0 <= k < |invoices| && invoices[k].id == id && invoices[k].paidAt.None?
          ensures Settle(before, id, now).0.invoices[k].paidAt.Some? <==> PriceCovered(before, invoices[k])
        {
          SettlementDecides(before, k, now);
        }
      }
      var found := FindById(invoices, id);
      if found.None? {
        return Missing;
      }
      var invoice := invoices[found.value];
      var dump := GetInvoicePrice(invoice);
      if invoice.paidAt.Some? {
        return Priced(dump);
      }
      var hasBecomePaid :=
        !dump.hasMissingRates && ToSuperUnit(dump.buyerCurrency, invoice.amountCaptured) >= dump.totalPrice;
      if !hasBecomePaid {
        return Priced(dump);
      }
      var finalAmountPaid := FromSuperUnit(dump.buyerCurrency, dump.totalPrice);
      var finalCashbackAmount := FromSuperUnit(Stq, if dump.totalCashback.Some? then dump.totalCashback.value else 0.0);
      if finalAmountPaid.None? || finalCashbackAmount.None? {
        return Panicked;
      }
      var _ := SetAmountPaid(id, finalAmountPaid.value, finalCashbackAmount.value, now);
      var _ := events.AddEvent(InvoicePaid(invoice.id), now);
      return Priced(dump);
    }

    method SaveRates(quotes: seq<NewRate>, saves: nat) returns (ok: bool)
      modifies rates
      ensures ok <==> |quotes| <= saves
      ensures rates.Table() == Saved(old(rates.Table()), if ok then quotes else quotes[..saves])
    {
      for i := 0 to |quotes|
        invariant i <= saves && rates.Table() == Saved(old(rates.Table()), quotes[..i])
      {
        if i == saves {
          return false;
        }
        assert quotes[..i + 1][..i] == quotes[..i];
        var _, _ := rates.AddNewActiveRate(quotes[i]);
      }
      assert quotes[..|quotes|] == quotes;
      return true;
    }

    method RefreshAndSettleInvoice(invoice: Invoice, gateway: Gateway, saves: nat, now: Timestamp)
      returns (r: Result<InvoiceDump, ServiceError>)
      modifies this`invoices, rates, events
      ensures (State(), r) == RefreshAndSettle(old(State()), invoice, gateway, saves, now)
    {
      var current := GetOrderActiveRates(invoice.id);
      if invoice.buyerCurrency.IsFiat() {
        return Err(Internal);
      }
      var quotes := RefreshRates(invoice.buyerCurrency, current, Replies(|current|, gateway));
      if quotes.Err? {
        return Err(Internal);
      }
      var saved := SaveRates(quotes.value, saves);
      if !saved {
        return Err(Internal);
      }
      var settlement := CalculateInvoicePriceAndSetFinalPriceIfPaid(invoice.id, now);
      return Answered(settlement);
    }

    method HandleInboundTx(signed: bool, account: Option<nat>, tx: nat, amount: Option<Amount>, gateway: Gateway,
                           saves: nat, now: Timestamp)
      returns (r: Result<(), ServiceError>)
      modifies this`invoices, this`received, rates, events
      ensures (State(), r) == InboundTx(old(State()), signed, account, tx, amount, gateway, saves, now)
      ensures Reachable(events.config, old(State())) ==> Reachable(events.config, State())
    {
      ghost var before := State();
      if Reachable(events.config, before) {
        CallsAreRuns(events.config, before, signed, account, tx, amount, 0, gateway, saves, now);
      }
      if !signed {
        return Err(Forbidden);
      }
      if account.None? {
        return Ok(());
      }
      if amount.None? {
        return Err(Internal);
      }
      if FindByAccount(invoices, account.value).None? {
        return Ok(());
      }
      var increased := IncreaseAmountCaptured(account.value, tx, amount.value);
      var invoice: Invoice;
      match increased {
        case Ok(updated) =>
          invoice := updated;
        case Err(Duplicate) =>
          invoice := invoices[FindByAccount(invoices, account.value).value];
        case Err(_) =>
          return Err(Internal);
      }
      if invoice.paidAt.Some? {
        return Ok(());
      }
      var dump := RefreshAndSettleInvoice(invoice, gateway, saves, now);
      return Acknowledged(dump);
    }

    method RecalcInvoice(id: nat, gateway: Gateway, saves: nat, now: Timestamp)
      returns (r: Result<Option<InvoiceDump>, ServiceError>)
      modifies this`invoices, rates, events
      ensures (State(), r) == Recalc(old(State()), id, gateway, saves, now)
      ensures (forall invoice <- old(invoices) :: invoice.id != id) <==> r == Ok(None)
      ensures (forall invoice <- old(invoices) :: invoice.id == id ==> invoice.paidAt.Some?) ==>
        State() == old(State()) && r.Ok?
      ensures Reachable(events.config, old(State())) ==> Reachable(events.config, State())
    {
      ghost var before := State();
      if Reachable(events.config, before) {
        CallsAreRuns(events.config, before, true, None, 0, None, id, gateway, saves, now);
      }
      var found := FindById(invoices, id);
      if found.None? {
        return Ok(None);
      }
      var invoice := invoices[found.value];
      var current := GetOrderActiveRates(id);
      if invoice.paidAt.Some? {
        var withRates: seq<(Order, seq<Rate>)> := AsLists(current);
        return Ok(Some(CalculateInvoicePrice(invoice, withRates)));
      }
      var dump: Result<InvoiceDump, ServiceError>;
      if invoice.buyerCurrency.IsFiat() {
        var settlement := CalculateInvoicePriceAndSetFinalPriceIfPaid(id, now);
        dump := Answered(settlement);
      } else {
        dump := RefreshAndSettleInvoice(invoice, gateway, saves, now);
      }
      return if dump.Err? then Err(dump.error) else Ok(Some(dump.value));
    }
  }
}
