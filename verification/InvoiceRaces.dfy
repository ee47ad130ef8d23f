/** The ledger's two read-then-write steps, taken apart so that they may overlap: receiving reads the
    invoice before the transaction that writes the new sum, and settling writes without reading again. */
module InvoiceRaces {
  import opened Wrappers
  import opened Amounts
  import opened EventQueue
  import opened ExchangeRates
  import opened InvoicePrices
  import opened InvoiceLedger
  import opened InvoiceRuns

  datatype Receiving = Receiving(invoiceId: nat, tx: nat, amount: Amount, captured: Amount)

  /** The read: finds the invoice and adds to what it had captured. */
  function BeginReceive(db: Db, accountId: nat, tx: nat, amount: Amount): Option<Receiving> {
    var found := FindByAccount(db.invoices, accountId);
    if found.None? then None
    else
      var invoice := db.invoices[found.value];
      var captured := CheckedAdd(invoice.amountCaptured, amount);
      if captured.None? then None else Some(Receiving(invoice.id, tx, amount, captured.value))
  }

  /** The transaction: inserts the amount and sets the sum, or is rolled back by the primary key. */
  function CommitReceive(db: Db, r: Receiving): Db {
    var found := FindById(db.invoices, r.invoiceId);
    if found.None? || Recorded(db.received, r.tx) then db
    else
      db.(invoices := db.invoices[found.value := db.invoices[found.value].(amountCaptured := r.captured)],
          received := db.received + [Received(r.tx, r.invoiceId, r.amount)])
  }

  /** With nothing in between, the two halves are the ledger's one step. */
  lemma HalvesMakeReceive(db: Db, accountId: nat, tx: nat, amount: Amount)
    requires InvoicesApart(db.invoices)
    ensures var begun := BeginReceive(db, accountId, tx, amount);
      Receive(db, accountId, tx, amount).0 == if begun.None? then db else CommitReceive(db, begun.value)
  {
    var found := FindByAccount(db.invoices, accountId);
    if found.Some? {
      assert FindById(db.invoices, db.invoices[found.value].id) == found;
    }
  }

  /** A late commit keeps the ledger conserved exactly if nothing was captured since it read. */
  lemma CommitConservesExactlyIf(db: Db, r: Receiving)
    requires InvoicesApart(db.invoices) && Conserved(db)
    requires FindById(db.invoices, r.invoiceId).Some? && !Recorded(db.received, r.tx)
    ensures var invoice := db.invoices[FindById(db.invoices, r.invoiceId).value];
      Conserved(CommitReceive(db, r)) <==>
        invoice.buyerCurrency.IsFiat() || r.captured == invoice.amountCaptured + r.amount
  {
    var after := CommitReceive(db, r);
    var k := FindById(db.invoices, r.invoiceId).value;
    assert after.received[..|db.received|] == db.received;
    assert SumReceived(after.received, r.invoiceId) == SumReceived(db.received, r.invoiceId) + r.amount;
    assert after.invoices[k].amountCaptured == r.captured;
    if db.invoices[k].buyerCurrency.IsFiat() || r.captured == db.invoices[k].amountCaptured + r.amount {
      ReplacedKeeps(db.invoices, k, after.invoices[k]);
      assert InvoiceExists(db.invoices, r.invoiceId);
      forall i, j | 0 <= i < j < |after.received|
        ensures after.received[i].id != after.received[j].id
      {
        assert j == |db.received| ==> !Recorded(db.received, r.tx);
      }
    }
  }

  predicate AllCovered(db: Db) {
    forall i :: 0 <= i < |db.invoices| ==> Covered(db.invoices[i])
  }

  /** A late commit leaves every paid invoice covered exactly if its own is not paid, or for no more
      than the sum it writes. */
  lemma CommitCoversExactlyIf(db: Db, r: Receiving)
    requires AllCovered(db)
    requires FindById(db.invoices, r.invoiceId).Some? && !Recorded(db.received, r.tx)
    ensures var invoice := db.invoices[FindById(db.invoices, r.invoiceId).value];
      AllCovered(CommitReceive(db, r)) <==>
        || invoice.buyerCurrency.IsFiat()
        || invoice.finalAmountPaid.None?
        || invoice.finalAmountPaid.value <= r.captured
  {
    var k := FindById(db.invoices, r.invoiceId).value;
    var after := CommitReceive(db, r);
    assert after.invoices[k] == db.invoices[k].(amountCaptured := r.captured);
    assert Covered(db.invoices[k]);
  }

  /** Two callbacks for one invoice read the same sum, the first commits, the invoice is settled, the
      second commits: all paid invoices stay covered exactly if this one is not paid by then, or for no
      more than the second callback alone would have captured. */
  lemma OverlapCoversExactlyIf(db: Db, k: nat, first: Receiving, second: Receiving, now: Timestamp)
    requires Inv(db) && k < |db.invoices| && db.invoices[k].accountId.Some?
    requires BeginReceive(db, db.invoices[k].accountId.value, first.tx, first.amount) == Some(first)
    requires BeginReceive(db, db.invoices[k].accountId.value, second.tx, second.amount) == Some(second)
    requires !Recorded(db.received, first.tx) && !Recorded(db.received, second.tx) && first.tx != second.tx
    ensures var settled := Settle(CommitReceive(db, first), db.invoices[k].id, now).0;
      && |settled.invoices| == |db.invoices|
      && (AllCovered(CommitReceive(settled, second)) <==>
            || db.invoices[k].buyerCurrency.IsFiat()
            || settled.invoices[k].finalAmountPaid.None?
            || settled.invoices[k].finalAmountPaid.value <= db.invoices[k].amountCaptured + second.amount)
  {
    hide InvoicePrice, HasBecomePaid, Conserved, EventsMatch, RatesOk, OrdersApart, Covered;
    var accountId, id := db.invoices[k].accountId.value, db.invoices[k].id;
    var mid := CommitReceive(db, first);
    assert FindByAccount(db.invoices, accountId) == Some(k) && FindById(db.invoices, id) == Some(k);
    HalvesMakeReceive(db, accountId, first.tx, first.amount);
    ReceiveKeepsInv(db, accountId, first.tx, first.amount);
    SettlementCovers(mid, id, now);
    var settled := Settle(mid, id, now).0;
    SettleKeepsInv(mid, id, now);
    assert settled.invoices[k].id == id;
    assert FindById(settled.invoices, id) == Some(k);
    assert !Recorded(mid.received, second.tx) by {
      assert mid.received == db.received + [Received(first.tx, id, first.amount)];
    }
    CommitCoversExactlyIf(settled, second);
  }

  const PRICE: Amount := 10_000_000_000

  const ORDER := Order(0, 0, Stq, PRICE, 0)

  /** One invoice, linked to account 7, for one order of `PRICE`. */
  function Created(now: Timestamp): Db {
    Create(EMPTY, 0, 7, Stq, true, [NewOrder(ORDER, None, 1.0)], now, now)
  }

  lemma CreatedHolds(now: Timestamp)
    ensures Created(now).invoices == [NewInvoice(0, 7, Stq)]
    ensures Created(now).received == [] && Created(now).orders == [ORDER]
  {
    var orders := [NewOrder(ORDER, None, 1.0)];
    var withInvoice := EMPTY.(
      queue := EMPTY.queue + [NewEntry(PaymentExpired(0), Some(now), now)],
      invoices := EMPTY.invoices + [NewInvoice(0, 7, Stq)]);
    assert AddOrders(withInvoice, 0, orders[..0]) == Some(withInvoice);
    assert AddOrders(withInvoice, 0, orders).Some?;
  }

  lemma PaidByFull(db: Db, now: Timestamp)
    requires db.invoices == [Invoice(0, Some(7), Stq, PRICE, None, None, None)] && db.orders == [ORDER]
    ensures Settle(db, 0, now).0.invoices == [Invoice(0, Some(7), Stq, PRICE, Some(PRICE), Some(0), Some(now))]
  {
    var invoice := db.invoices[0];
    var order := db.orders[0];
    assert OrdersOf(db.orders, 0) == [order] by {
      assert db.orders[..0] == [];
    }
    var withHistory := WithHistory([order], db.rates.rows);
    var dumps := DumpOrders(Stq, withHistory);
    var price := ToSuperUnit(Stq, PRICE);
    assert dumps[..0] == [];
    assert dumps[0].buyerAmounts.value.price == price;
    assert TotalPrice(dumps) == price;
    SuperUnitRoundTrip(Stq, PRICE);
    SuperUnitOfZero(Stq);
    SuperUnitRoundTrip(Stq, 0);
  }

  /** When two callbacks overlap, the later commit can undo the earlier one's sum: a paid invoice then
      shows less captured than its final amount, though both transactions are recorded. */
  lemma OverlapUncoversPaidInvoice(now: Timestamp)
    ensures var db := Created(now);
      var full, part := BeginReceive(db, 7, 1, PRICE), BeginReceive(db, 7, 2, 5);
      && full.Some? && part.Some?
      && var settled := Settle(CommitReceive(db, full.value), 0, now).0;
         var later := CommitReceive(settled, part.value);
         && later.invoices == [Invoice(0, Some(7), Stq, 5, Some(PRICE), Some(0), Some(now))]
         && later.received == [Received(1, 0, PRICE), Received(2, 0, 5)]
  {
    hide Created;
    CreatedHolds(now);
    var mid := CommitReceive(Created(now), Receiving(0, 1, PRICE, PRICE));
    assert mid.received == [Received(1, 0, PRICE)];
    PaidByFull(mid, now);
    var settled := Settle(mid, 0, now).0;
    assert settled.received == mid.received;
    assert !Recorded(settled.received, 2);
  }

  // ---- Settlements that overlap ----

  /** What a settlement writes once it has found the invoice unpaid and covered. */
  datatype Settling = Settling(id: nat, amount: Amount, cashback: Amount, now: Timestamp)

  /** The reads of the settlement's transaction; another one may commit after them. */
  function BeginSettle(db: Db, id: nat, now: Timestamp): Option<Settling> {
    var found := FindById(db.invoices, id);
    if found.None? then None
    else
      var invoice := db.invoices[found.value];
      var dump := InvoicePrice(db, invoice);
      if invoice.paidAt.Some? || !HasBecomePaid(invoice, dump) then None
      else
        var amount := FromSuperUnit(dump.buyerCurrency, dump.totalPrice);
        var cashback := FromSuperUnit(Stq, if dump.totalCashback.Some? then dump.totalCashback.value else 0.0);
        if amount.None? || cashback.None? then None else Some(Settling(id, amount.value, cashback.value, now))
  }

  /** Its writes, which do not look at `paid_at` again. */
  function CommitSettle(db: Db, s: Settling): Db {
    var found := FindById(db.invoices, s.id);
    if found.None? then db
    else
      var paid := db.invoices[found.value].(finalAmountPaid := Some(s.amount),
                                            finalCashbackAmount := Some(s.cashback),
                                            paidAt := Some(s.now));
      db.(invoices := db.invoices[found.value := paid], queue := db.queue + [NewEntry(InvoicePaid(s.id), None, s.now)])
  }

  lemma HalvesMakeSettle(db: Db, id: nat, now: Timestamp)
    ensures var begun := BeginSettle(db, id, now);
      Settle(db, id, now).0 == if begun.None? then db else CommitSettle(db, begun.value)
  {
    hide InvoicePrice;
  }

  /** A late settlement keeps one event per paid invoice exactly if nobody else has settled since it read. */
  lemma CommitPublishesOnceExactlyIf(db: Db, s: Settling)
    requires InvoicesApart(db.invoices) && EventsMatch(db)
    requires FindById(db.invoices, s.id).Some?
    ensures var invoice := db.invoices[FindById(db.invoices, s.id).value];
      EventsMatch(CommitSettle(db, s)) <==> invoice.buyerCurrency.IsFiat() || invoice.paidAt.None?
  {
    var after := CommitSettle(db, s);
    var k := FindById(db.invoices, s.id).value;
    assert after.queue[..|db.queue|] == db.queue;
    assert CountPaidEvents(after.queue, s.id) == CountPaidEvents(db.queue, s.id) + 1;
    ReplacedKeeps(db.invoices, k, after.invoices[k]);
    assert after.invoices[k].id == s.id && after.invoices[k].paidAt.Some?;
    assert MarkedPaid(after.invoices, s.id);
    forall other: nat | !ForCard(db.invoices, other) && other != s.id
      ensures CountPaidEvents(after.queue, other) == if MarkedPaid(after.invoices, other) then 1 else 0
    {
      assert CountPaidEvents(after.queue, other) == CountPaidEvents(db.queue, other);
    }
    if db.invoices[k].buyerCurrency.IsFiat() {
      assert ForCard(after.invoices, s.id);
    } else if db.invoices[k].paidAt.Some? {
      assert MarkedPaid(db.invoices, s.id) && !ForCard(db.invoices, s.id);
      assert CountPaidEvents(after.queue, s.id) == 2;
    } else {
      assert !MarkedPaid(db.invoices, s.id) && !ForCard(db.invoices, s.id);
      assert CountPaidEvents(after.queue, s.id) == 1;
    }
  }

  /** Two settlements of one crypto invoice that both read before either writes publish it twice. */
  lemma OverlapPublishesTwice(db: Db, k: nat, first: Settling, second: Settling)
    requires Inv(db) && k < |db.invoices| && !db.invoices[k].buyerCurrency.IsFiat()
    requires BeginSettle(db, db.invoices[k].id, first.now) == Some(first)
    requires BeginSettle(db, db.invoices[k].id, second.now) == Some(second)
    ensures CountPaidEvents(CommitSettle(CommitSettle(db, first), second).queue, db.invoices[k].id) == 2
  {
    hide InvoicePrice, HasBecomePaid, Conserved, RatesOk;
    var id := db.invoices[k].id;
    var mid := CommitSettle(db, first);
    var after := CommitSettle(mid, second);
    assert FindById(db.invoices, id) == Some(k);
    assert mid.invoices[k].id == id;
    assert mid.queue[..|db.queue|] == db.queue && after.queue[..|mid.queue|] == mid.queue;
    assert !MarkedPaid(db.invoices, id) && !ForCard(db.invoices, id);
  }

  /** It does happen: after one callback has captured the price, any two settlements can be such. */
  lemma OverlapPublishesTwiceHappens(now: Timestamp, later: Timestamp)
    ensures var db := CommitReceive(Created(now), Receiving(0, 1, PRICE, PRICE));
      var first, second := BeginSettle(db, 0, now), BeginSettle(db, 0, later);
      && first.Some? && second.Some?
      && CountPaidEvents(CommitSettle(CommitSettle(db, first.value), second.value).queue, 0) == 2
  {
    hide Created, InvoicePrice, HasBecomePaid, CountPaidEvents;
    CreatedHolds(now);
    CreatedIsOk(now);
    var db := CommitReceive(Created(now), Receiving(0, 1, PRICE, PRICE));
    HalvesMakeReceive(Created(now), 7, 1, PRICE);
    ReceiveKeepsInv(Created(now), 7, 1, PRICE);
    PaidByFull(db, now);
    PaidByFull(db, later);
    HalvesMakeSettle(db, 0, now);
    HalvesMakeSettle(db, 0, later);
    OverlapPublishesTwice(db, 0, BeginSettle(db, 0, now).value, BeginSettle(db, 0, later).value);
  }

  lemma CreatedIsOk(now: Timestamp)
    ensures Inv(Created(now))
  {
    EmptyIsOk();
    CreateKeepsInv(EMPTY, 0, 7, Stq, true, [NewOrder(ORDER, None, 1.0)], now, now);
  }
}
