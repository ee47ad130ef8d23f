/** Collecting subscription payments: group the overdue unpaid rows by store, charge each store once,
    and link every picked row to the payment of its store. */
module SubscriptionPayments {
  import opened Wrappers
  import opened Amounts
  import opened EventQueue
  import opened SubscriptionTables

  datatype PaymentError = NoStoreSubscription | NoOwner | TotalOverflow | WriteFailed

  // ---- Which stores pay ----

  function Oldest(subscriptions: seq<Subscription>, default: Timestamp): (oldest: Timestamp) {
    if subscriptions == [] then default
    else
      var n := |subscriptions| - 1;
      var front := Oldest(subscriptions[..n], subscriptions[n].createdAt);
      if subscriptions[n].createdAt < front then subscriptions[n].createdAt else front
  }

  /** A store is overdue if one of its unpaid rows is older than the period. */
  predicate Overdue(rows: seq<Subscription>, store: nat, now: Timestamp, period: int) {
    exists i :: 0 <= i < |rows| && rows[i].UnpaidBy(store) && now - rows[i].createdAt > period
  }

  lemma {:induction false} OldestIsLeast(subscriptions: seq<Subscription>, default: Timestamp)
    requires subscriptions != []
    ensures exists row <- subscriptions :: row.createdAt == Oldest(subscriptions, default)
    ensures forall row <- subscriptions :: Oldest(subscriptions, default) <= row.createdAt
  {
    var n := |subscriptions| - 1;
    assert subscriptions[n] in subscriptions;
    assert subscriptions == subscriptions[..n] + [subscriptions[n]];
    var least := Oldest(subscriptions[..n], subscriptions[n].createdAt);
    if n > 0 && least <= subscriptions[n].createdAt {
      OldestIsLeast(subscriptions[..n], subscriptions[n].createdAt);
      var row :| row in subscriptions[..n] && row.createdAt == least;
      assert row in subscriptions && row.createdAt == Oldest(subscriptions, default);
    } else {
      if n > 0 {
        OldestIsLeast(subscriptions[..n], subscriptions[n].createdAt);
      }
      assert subscriptions[n].createdAt == Oldest(subscriptions, default);
    }
  }

  /** The oldest unpaid row decides. */
  lemma OldestDecides(rows: seq<Subscription>, store: nat, now: Timestamp, period: int)
    ensures UnpaidOf(rows, store) != [] ==>
      (now - Oldest(UnpaidOf(rows, store), now) > period <==> Overdue(rows, store, now, period))
    ensures UnpaidOf(rows, store) == [] ==> !Overdue(rows, store, now, period)
  {
    var unpaid := UnpaidOf(rows, store);
    UnpaidOfMembers(rows, store);
    if unpaid != [] {
      OldestIsLeast(unpaid, now);
      if now - Oldest(unpaid, now) > period {
        var row :| row in unpaid && row.createdAt == Oldest(unpaid, now);
        var i :| 0 <= i < |rows| && rows[i] == row;
        assert rows[i].UnpaidBy(store);
      }
    }
    if Overdue(rows, store, now, period) {
      var i :| 0 <= i < |rows| && rows[i].UnpaidBy(store) && now - rows[i].createdAt > period;
      assert rows[i] in unpaid;
    }
  }

  /** The store has a row that is not paid and older than the period. */
  lemma OverdueMeans(rows: seq<Subscription>, store: nat, now: Timestamp, period: int)
    ensures Overdue(rows, store, now, period) <==>
      exists row <- rows :: row.storeId == store && row.paymentId.None? && now - row.createdAt > period
  {
    if row :| row in rows && row.storeId == store && row.paymentId.None? && now - row.createdAt > period {
      var i :| 0 <= i < |rows| && rows[i] == row;
      assert rows[i].UnpaidBy(store);
    }
    if Overdue(rows, store, now, period) {
      var i :| 0 <= i < |rows| && rows[i].UnpaidBy(store) && now - rows[i].createdAt > period;
      assert rows[i] in rows;
    }
  }

  /** Keeps exactly the overdue stores, each with all its unpaid rows in order. */
  method SubscriptionsToPay(repo: SubscriptionRepo, now: Timestamp, period: int)
    returns (byStores: map<nat, seq<Subscription>>)
    ensures forall store :: store in byStores <==> Overdue(repo.rows, store, now, period)
    ensures forall store <- byStores :: byStores[store] == UnpaidOf(repo.rows, store) != []
  {
    var unpaid := repo.GetUnpaid();
    byStores := map[];
    for i := 0 to |unpaid|
      invariant forall store :: store in byStores <==> UnpaidOf(unpaid[..i], store) != []
      invariant forall store <- byStores :: byStores[store] == UnpaidOf(unpaid[..i], store)
    {
      assert unpaid[..i + 1][..i] == unpaid[..i];
      assert unpaid[i] in unpaid;
      var store := unpaid[i].storeId;
      var group := if store in byStores then byStores[store] else [];
      byStores := byStores[store := group + [unpaid[i]]];
    }
    assert unpaid[..|unpaid|] == unpaid;
    forall store {
      OldestDecides(repo.rows, store, now, period);
    }
    byStores := map store | store in byStores && now - Oldest(byStores[store], now) > period :: byStores[store];
  }

  // ---- What they pay ----

  function Times(a: int, b: int): int {
    a * b
  }

  /** The sum of quantity times value, with the quantity cast to `u128` as the code casts it. */
  function TrueTotal(value: Amount, subscriptions: seq<Subscription>): (total: int)
    ensures total >= 0
  {
    if subscriptions == [] then 0
    else
      var n := |subscriptions| - 1;
      ProductIsNonnegative(AsU128(subscriptions[n].quantity), value);
      TrueTotal(value, subscriptions[..n]) + Times(AsU128(subscriptions[n].quantity), value)
  }

  lemma ProductIsNonnegative(a: nat, b: nat)
    ensures Times(a, b) >= 0
  {
  }

  function SumQuantities(subscriptions: seq<Subscription>): int {
    if subscriptions == [] then 0
    else
      var n := |subscriptions| - 1;
      SumQuantities(subscriptions[..n]) + subscriptions[n].quantity
  }

  lemma {:induction false} TotalGrows(value: Amount, subscriptions: seq<Subscription>, k: nat)
    requires k <= |subscriptions|
    ensures TrueTotal(value, subscriptions[..k]) <= TrueTotal(value, subscriptions)
  {
    hide Times;
    if k < |subscriptions| {
      var n := |subscriptions| - 1;
      var front := subscriptions[..n];
      TotalGrows(value, front, k);
      assert front[..k] == subscriptions[..k];
      ProductIsNonnegative(AsU128(subscriptions[n].quantity), value);
    } else {
      assert subscriptions[..k] == subscriptions;
    }
  }

  lemma TimesDistributes(a: int, b: int, c: int)
    ensures Times(a + b, c) == Times(a, c) + Times(b, c)
  {
  }

  function Negatives(subscriptions: seq<Subscription>): (n: nat)
    ensures n == 0 <==> forall row <- subscriptions :: row.quantity >= 0
  {
    if subscriptions == [] then 0
    else
      var n := |subscriptions| - 1;
      assert subscriptions == subscriptions[..n] + [subscriptions[n]];
      Negatives(subscriptions[..n]) + if subscriptions[n].quantity < 0 then 1 else 0
  }

  /** What is charged: the value times the number of products, and 2^128 times the value more for every
      negative quantity, because the cast sign-extends. */
  lemma {:induction false} TotalIsExact(value: Amount, subscriptions: seq<Subscription>)
    ensures TrueTotal(value, subscriptions)
         == Times(SumQuantities(subscriptions), value) + Times(Times(U128, Negatives(subscriptions)), value)
  {
    if subscriptions != [] {
      var n := |subscriptions| - 1;
      var front, quantity := subscriptions[..n], subscriptions[n].quantity;
      TotalIsExact(value, front);
      TimesDistributes(SumQuantities(front), quantity, value);
      if quantity < 0 {
        TimesDistributes(U128, quantity, value);
        OneMore(Negatives(front));
        TimesDistributes(Times(U128, Negatives(front)), U128, value);
      }
    } else {
      NothingTimes(value);
    }
  }

  lemma OneMore(n: nat)
    ensures Times(U128, n + 1) == Times(U128, n) + U128
  {
  }

  lemma NothingTimes(value: int)
    ensures Times(0, value) == 0 == Times(Times(U128, 0), value)
  {
  }

  /** So the total is the value times the number of products if and only if the value is 0 or no
      quantity is negative. */
  lemma TotalIsValueTimesQuantityExactlyIf(value: Amount, subscriptions: seq<Subscription>)
    ensures TrueTotal(value, subscriptions) == Times(SumQuantities(subscriptions), value)
       <==> value == 0 || forall row <- subscriptions :: row.quantity >= 0
  {
    TotalIsExact(value, subscriptions);
    ProductIsZeroExactlyIf(U128, Negatives(subscriptions));
    ProductIsZeroExactlyIf(Times(U128, Negatives(subscriptions)), value);
  }

  lemma ProductIsZeroExactlyIf(a: int, b: int)
    ensures Times(a, b) == 0 <==> a == 0 || b == 0
  {
  }

  lemma SignExtendedProduct(quantity: I32, value: Amount)
    requires quantity < 0 && value > 1
    ensures Times(AsU128(quantity), value) >= U128
  {
    assert AsU128(quantity) >= U128 - 0x8000_0000;
    TimesIsMonotone(2, value, AsU128(quantity));
  }

  lemma TimesIsMonotone(a: nat, b: nat, c: nat)
    requires a <= b
    ensures Times(c, a) <= Times(c, b)
  {
  }

  /** A negative quantity makes the total overflow unless the value is 0 or 1. */
  lemma NegativeQuantityOverflows(value: Amount, subscriptions: seq<Subscription>, i: nat)
    requires i < |subscriptions| && subscriptions[i].quantity < 0 && value > 1
    ensures TrueTotal(value, subscriptions) >= U128
  {
    assert subscriptions[..i + 1][..i] == subscriptions[..i];
    SignExtendedProduct(subscriptions[i].quantity, value);
    TotalGrows(value, subscriptions, i + 1);
  }

  /** Fails exactly when the true sum does not fit in 128 bits. */
  method CalculateTotalAmount(store: StoreSubscription, subscriptions: seq<Subscription>) returns (r: Option<Amount>)
    ensures r.Some? <==> TrueTotal(store.value, subscriptions) < U128
    ensures r.Some? ==> r.value == TrueTotal(store.value, subscriptions)
  {
    var total: Amount := 0;
    for i := 0 to |subscriptions|
      invariant total == TrueTotal(store.value, subscriptions[..i])
    {
      assert subscriptions[..i + 1][..i] == subscriptions[..i];
      TotalGrows(store.value, subscriptions, i + 1);
      var product := CheckedMul(AsU128(subscriptions[i].quantity), store.value);
      if product.None? {
        return None;
      }
      var sum := CheckedAdd(total, product.value);
      if sum.None? {
        return None;
      }
      total := sum.value;
    }
    assert subscriptions[..|subscriptions|] == subscriptions;
    return Some(total);
  }

  // ---- How they pay ----

  /** What the role, customer and account tables answer: owners by store, Stripe customers by user,
      accounts by wallet address. */
  datatype Directory = Directory(owners: map<nat, nat>, customers: map<nat, nat>, accounts: map<nat, nat>)

  datatype Preparation =
    | FiatPayment(store: StoreSubscription, subscriptions: seq<Subscription>, total: Amount, customer: nat)
    | CryptoPayment(store: StoreSubscription, subscriptions: seq<Subscription>, total: Amount, account: nat)
    | FailedPayment(store: StoreSubscription, subscriptions: seq<Subscription>, total: Amount)

  function PreparePayment(d: Directory, store: StoreSubscription, subscriptions: seq<Subscription>, owner: nat,
                          total: Amount)
    : (p: Preparation)
    ensures p.store == store && p.subscriptions == subscriptions && p.total == total
    ensures p.FiatPayment? <==> store.currency.IsFiat() && owner in d.customers
    ensures p.FiatPayment? ==> p.customer == d.customers[owner]
    ensures p.CryptoPayment? <==>
      !store.currency.IsFiat() && store.walletAddress.Some? && store.walletAddress.value in d.accounts
    ensures p.CryptoPayment? ==> p.account == d.accounts[store.walletAddress.value]
  {
    if store.currency.IsFiat() then
      if owner in d.customers then FiatPayment(store, subscriptions, total, d.customers[owner])
      else FailedPayment(store, subscriptions, total)
    else if store.walletAddress.Some? && store.walletAddress.value in d.accounts then
      CryptoPayment(store, subscriptions, total, d.accounts[store.walletAddress.value])
    else FailedPayment(store, subscriptions, total)
  }

  /** Why a store cannot be prepared, if it cannot. */
  function PreparationError(d: Directory, stores: Stores, store: nat, subscriptions: seq<Subscription>)
    : Option<PaymentError>
  {
    if store !in stores then Some(NoStoreSubscription)
    else if TrueTotal(stores[store].value, subscriptions) >= U128 then Some(TotalOverflow)
    else if store !in d.owners then Some(NoOwner)
    else None
  }

  /** Each reason means what it says; a missing subscription is found first, a missing owner last. */
  lemma PreparationErrorMeans(d: Directory, stores: Stores, store: nat, subscriptions: seq<Subscription>)
    ensures var error := PreparationError(d, stores, store, subscriptions);
      && (error == Some(NoStoreSubscription) <==> store !in stores)
      && (error == Some(TotalOverflow) <==>
            store in stores && TrueTotal(stores[store].value, subscriptions) >= U128)
      && (error == Some(NoOwner) <==>
            store in stores && TrueTotal(stores[store].value, subscriptions) < U128 && store !in d.owners)
  {
  }

  function PreparationOf(d: Directory, stores: Stores, store: nat, subscriptions: seq<Subscription>): Preparation
    requires PreparationError(d, stores, store, subscriptions).None?
  {
    PreparePayment(d, stores[store], subscriptions, d.owners[store], TrueTotal(stores[store].value, subscriptions))
  }

  /** One preparation per store of the map, in some order, or the error of one of the stores. */
  ghost predicate Prepared(d: Directory, stores: Stores, byStores: map<nat, seq<Subscription>>,
                           preparations: seq<Preparation>)
  {
    && (forall k :: 0 <= k < |preparations| ==>
          var store := preparations[k].store.storeId;
          && store in byStores
          && PreparationError(d, stores, store, byStores[store]).None?
          && preparations[k] == PreparationOf(d, stores, store, byStores[store]))
    && (forall j, k :: 0 <= j < k < |preparations| ==> preparations[j].store.storeId != preparations[k].store.storeId)
  }

  /** The store's own rows and total, asked of its owner's Stripe customer or of the account behind its
      own wallet, if there is one. */
  predicate PreparedFaithfully(d: Directory, stores: Stores, byStores: map<nat, seq<Subscription>>, p: Preparation) {
    var store := p.store.storeId;
    && store in stores && store in byStores && store in d.owners
    && p.store == stores[store]
    && p.subscriptions == byStores[store]
    && p.total == TrueTotal(stores[store].value, byStores[store])
    && (p.FiatPayment? ==> d.owners[store] in d.customers && p.customer == d.customers[d.owners[store]])
    && (p.CryptoPayment? ==>
          && p.store.walletAddress.Some? && p.store.walletAddress.value in d.accounts
          && p.account == d.accounts[p.store.walletAddress.value])
    && (p.FailedPayment? <==>
          if p.store.currency.IsFiat() then d.owners[store] !in d.customers
          else p.store.walletAddress.None? || p.store.walletAddress.value !in d.accounts)
  }

  predicate PreparedFor(preparations: seq<Preparation>, store: nat) {
    exists k :: 0 <= k < |preparations| && preparations[k].store.storeId == store
  }

  method CreatePaymentPreparations(d: Directory, repo: StoreSubscriptionRepo, byStores: map<nat, seq<Subscription>>)
    returns (r: Result<seq<Preparation>, PaymentError>)
    requires StoresOk(repo.stores)
    ensures r.Ok? <==> forall store <- byStores :: PreparationError(d, repo.stores, store, byStores[store]).None?
    ensures r.Ok? <==> forall store <- byStores ::
      store in repo.stores && store in d.owners && TrueTotal(repo.stores[store].value, byStores[store]) < U128
    ensures r.Ok? ==> Prepared(d, repo.stores, byStores, r.value)
    ensures r.Ok? ==> forall p <- r.value :: PreparedFaithfully(d, repo.stores, byStores, p)
    ensures r.Ok? ==> forall store <- byStores :: PreparedFor(r.value, store)
    ensures r.Err? ==>
      exists store <- byStores :: PreparationError(d, repo.stores, store, byStores[store]) == Some(r.error)
  {
    hide TrueTotal, PreparePayment;
    var todo := byStores.Keys;
    var preparations: seq<Preparation> := [];
    while todo != {}
      invariant todo <= byStores.Keys
      invariant Prepared(d, repo.stores, byStores, preparations)
      invariant forall k :: 0 <= k < |preparations| ==> preparations[k].store.storeId !in todo
      invariant forall store <- byStores :: store !in todo ==>
        && PreparationError(d, repo.stores, store, byStores[store]).None?
        && PreparedFor(preparations, store)
      decreases todo
    {
      var store :| store in todo;
      if store !in repo.stores {
        return Err(NoStoreSubscription);
      }
      var total := CalculateTotalAmount(repo.stores[store], byStores[store]);
      if total.None? {
        return Err(TotalOverflow);
      }
      if store !in d.owners {
        return Err(NoOwner);
      }
      var preparation := PreparePayment(d, repo.stores[store], byStores[store], d.owners[store], total.value);
      ghost var before := preparations;
      preparations := preparations + [preparation];
      todo := todo - {store};
      assert preparations[|before|].store.storeId == store;
      assert forall k :: 0 <= k < |before| ==> preparations[k] == before[k];
    }
    return Ok(preparations);
  }

  /** How Stripe and the Payments gateway answer, by store, and the ids they and the service draw. */
  datatype Collector =
    Collector(charge: nat -> Outcome, chargeId: nat -> nat, transfer: nat -> Outcome, transactionId: nat -> nat)

  datatype FinishedPayment = FinishedPayment(subscriptions: seq<Subscription>, payment: Payment)

  function StatusOf(outcome: Outcome): PaymentStatus {
    if outcome.Succeeds? then Collected else NotCollected
  }

  function CollectFiat(c: Collector, p: Preparation): FinishedPayment {
    var store := p.store.storeId;
    var chargeId := if c.charge(store).Succeeds? then Some(c.chargeId(store)) else None;
    FinishedPayment(p.subscriptions,
      Payment(store, p.total, p.store.currency, chargeId, None, StatusOf(c.charge(store))))
  }

  /** The transaction id is drawn first and stays in the payment even if the transfer failed. */
  function CollectTure(c: Collector, p: Preparation): FinishedPayment {
    var store := p.store.storeId;
    FinishedPayment(p.subscriptions,
      Payment(store, p.total, p.store.currency, None, Some(c.transactionId(store)), StatusOf(c.transfer(store))))
  }

  function IntoFinished(p: Preparation): FinishedPayment {
    FinishedPayment(p.subscriptions, Payment(p.store.storeId, p.total, p.store.currency, None, None, NotCollected))
  }

  function Collect(c: Collector, p: Preparation): FinishedPayment {
    match p
    case CryptoPayment(_, _, _, _) => CollectTure(c, p)
    case FiatPayment(_, _, _, _) => CollectFiat(c, p)
    case FailedPayment(_, _, _) => IntoFinished(p)
  }

  /** Whether the client took the money, which a lost reply hides from the service. */
  predicate Taken(c: Collector, p: Preparation) {
    match p
    case CryptoPayment(_, _, _, _) => !c.transfer(p.store.storeId).Fails?
    case FiatPayment(_, _, _, _) => !c.charge(p.store.storeId).Fails?
    case FailedPayment(_, _, _) => false
  }

  predicate ReplyWasLost(c: Collector, p: Preparation) {
    || (p.CryptoPayment? && c.transfer(p.store.storeId).ReplyLost?)
    || (p.FiatPayment? && c.charge(p.store.storeId).ReplyLost?)
  }

  /** Whoever pays and however it ends, the payment names the store, its total and its currency. It is
      recorded as collected if and only if the money was taken and the reply was not lost. */
  lemma CollectedFaithfully(c: Collector, p: Preparation)
    ensures var f := Collect(c, p);
      && f.subscriptions == p.subscriptions
      && f.payment.storeId == p.store.storeId && f.payment.amount == p.total && f.payment.currency == p.store.currency
      && (f.payment.status.Collected? <==> Taken(c, p) && !ReplyWasLost(c, p))
      && (Taken(c, p) <==>
            || (p.FiatPayment? && !c.charge(p.store.storeId).Fails?)
            || (p.CryptoPayment? && !c.transfer(p.store.storeId).Fails?))
      && (f.payment.status.Collected? <==>
            || (p.FiatPayment? && c.charge(p.store.storeId).Succeeds?)
            || (p.CryptoPayment? && c.transfer(p.store.storeId).Succeeds?))
      && f.payment.transactionId == (if p.CryptoPayment? then Some(c.transactionId(p.store.storeId)) else None)
      && f.payment.chargeId
         == if p.FiatPayment? && c.charge(p.store.storeId).Succeeds? then Some(c.chargeId(p.store.storeId)) else None
  {
  }

  function TakenOf(c: Collector, preparations: seq<Preparation>): seq<Payment> {
    if preparations == [] then []
    else
      var n := |preparations| - 1;
      TakenOf(c, preparations[..n]) + if Taken(c, preparations[n]) then [Collect(c, preparations[n]).payment] else []
  }

  /** Stripe and the gateway: the payments for which they have taken money. */
  class PaymentClients {
    var taken: seq<Payment>

    constructor ()
      ensures taken == []
    {
      taken := [];
    }

    method Charge(c: Collector, p: Preparation) returns (f: FinishedPayment)
      modifies this
      ensures f == Collect(c, p)
      ensures taken == old(taken) + if Taken(c, p) then [f.payment] else []
    {
      f := Collect(c, p);
      if Taken(c, p) {
        taken := taken + [f.payment];
      }
    }
  }

  method CollectAll(c: Collector, clients: PaymentClients, preparations: seq<Preparation>)
    returns (finished: seq<FinishedPayment>)
    modifies clients
    ensures |finished| == |preparations|
    ensures forall k :: 0 <= k < |finished| ==> finished[k] == Collect(c, preparations[k])
    ensures clients.taken == old(clients.taken) + TakenOf(c, preparations)
  {
    finished := [];
    for k := 0 to |preparations|
      invariant |finished| == k && forall j :: 0 <= j < k ==> finished[j] == Collect(c, preparations[j])
      invariant clients.taken == old(clients.taken) + TakenOf(c, preparations[..k])
    {
      assert preparations[..k + 1][..k] == preparations[..k];
      var f := clients.Charge(c, preparations[k]);
      finished := finished + [f];
    }
    assert preparations[..|preparations|] == preparations;
  }

  // ---- Writing it down ----

  /** The rows that were unpaid in the store when they were picked are linked, whatever they are now. */
  function Linked(rows: seq<Subscription>, picked: seq<Subscription>, store: nat, paymentId: nat)
    : (after: seq<Subscription>)
    ensures |after| == |rows|
  {
    seq(|rows|, i requires 0 <= i < |rows| =>
      if i < |picked| && picked[i].UnpaidBy(store) then rows[i].(paymentId := Some(paymentId)) else rows[i])
  }

  /** `picked` is the table the subscriptions were picked from; rows may have been added and linked since. */
  method LinkSubscriptions(repo: SubscriptionRepo, subscriptions: seq<Subscription>, store: nat, paymentId: nat,
                           ghost picked: seq<Subscription>)
    requires RowsOk(picked) && |picked| <= |repo.rows|
    requires subscriptions == UnpaidOf(picked, store)
    modifies repo
    ensures repo.rows == Linked(old(repo.rows), picked, store, paymentId)
  {
    ghost var before := repo.rows;
    UnpaidOfMembers(picked, store);
    for k := 0 to |subscriptions|
      invariant |repo.rows| == |before|
      invariant forall i :: 0 <= i < |before| ==>
        repo.rows[i] == if i < |picked| && picked[i] in subscriptions[..k] then before[i].(paymentId := Some(paymentId))
                        else before[i]
    {
      var row := subscriptions[k];
      assert row in subscriptions;
      assert picked[row.id] == row;
      assert subscriptions[..k + 1] == subscriptions[..k] + [row];
      var _ := repo.Update(row.id, paymentId);
    }
    assert subscriptions[..|subscriptions|] == subscriptions;
    assert repo.rows == Linked(before, picked, store, paymentId);
  }

  /** The rows after the finished payments are written, the first of which gets id `base`. */
  function Written(rows: seq<Subscription>, picked: seq<Subscription>, finished: seq<FinishedPayment>, base: nat)
    : (after: seq<Subscription>)
    ensures |after| == |rows|
  {
    if finished == [] then rows
    else
      var n := |finished| - 1;
      Linked(Written(rows, picked, finished[..n], base), picked, finished[n].payment.storeId, base + n)
  }

  predicate StoresApart(finished: seq<FinishedPayment>) {
    forall j, k :: 0 <= j < k < |finished| ==> finished[j].payment.storeId != finished[k].payment.storeId
  }

  /** Each row that was picked carries the payment of its store, even if another run has linked it in
      the meantime; every other row is as before. */
  lemma {:induction false} WrittenAt(rows: seq<Subscription>, picked: seq<Subscription>, finished: seq<FinishedPayment>,
                                     base: nat, i: nat)
    requires i < |rows| && StoresApart(finished)
    ensures i >= |picked| || picked[i].paymentId.Some? ==> Written(rows, picked, finished, base)[i] == rows[i]
    ensures i < |picked| && (forall k :: 0 <= k < |finished| ==> finished[k].payment.storeId != picked[i].storeId) ==>
      Written(rows, picked, finished, base)[i] == rows[i]
    ensures forall k :: 0 <= k < |finished| && i < |picked| && picked[i].UnpaidBy(finished[k].payment.storeId) ==>
      Written(rows, picked, finished, base)[i] == rows[i].(paymentId := Some(base + k))
  {
    if finished != [] {
      var front := finished[..|finished| - 1];
      WrittenAt(rows, picked, front, base, i);
      assert forall k :: 0 <= k < |front| ==> front[k] == finished[k];
    }
  }

  function PaymentsOf(finished: seq<FinishedPayment>): (payments: seq<Payment>)
    ensures |payments| == |finished|
  {
    seq(|finished|, k requires 0 <= k < |finished| => finished[k].payment)
  }

  /** One transaction: each payment is inserted and its subscriptions are linked to it. */
  method WritePayments(repo: SubscriptionRepo, payments: SubscriptionPaymentRepo, finished: seq<FinishedPayment>,
                       ghost picked: seq<Subscription>)
    requires RowsOk(picked) && |picked| <= |repo.rows|
    requires forall k :: 0 <= k < |finished| ==>
      finished[k].subscriptions == UnpaidOf(picked, finished[k].payment.storeId)
    modifies repo, payments
    ensures repo.rows == Written(old(repo.rows), picked, finished, |old(payments.payments)|)
    ensures payments.payments == old(payments.payments) + PaymentsOf(finished)
  {
    hide UnpaidOf, Linked, RowsOk;
    ghost var before, base := repo.rows, |payments.payments|;
    for k := 0 to |finished|
      invariant repo.rows == Written(before, picked, finished[..k], base)
      invariant payments.payments == old(payments.payments) + PaymentsOf(finished)[..k]
    {
      assert finished[..k + 1][..k] == finished[..k];
      var paymentId := payments.Create(finished[k].payment);
      LinkSubscriptions(repo, finished[k].subscriptions, finished[k].payment.storeId, paymentId, picked);
    }
    assert finished[..|finished|] == finished;
  }

  // ---- The whole run ----

  function LinkedTo(rows: seq<Subscription>, paymentId: nat): seq<Subscription> {
    if rows == [] then []
    else
      var last := rows[|rows| - 1];
      LinkedTo(rows[..|rows| - 1], paymentId) + if last.paymentId == Some(paymentId) then [last] else []
  }

  predicate Picked(rows: seq<Subscription>, row: Subscription, now: Timestamp, period: int) {
    row.paymentId.None? && Overdue(rows, row.storeId, now, period)
  }

  /** What a run does to one row. */
  predicate RowPaid(rows: seq<Subscription>, before: Subscription, after: Subscription, oldCount: nat,
                    payments: seq<Payment>, now: Timestamp, period: int)
  {
    if Picked(rows, before, now, period) then
      && after.paymentId.Some?
      && after == before.(paymentId := after.paymentId)
      && oldCount <= after.paymentId.value < |payments|
      && payments[after.paymentId.value].storeId == before.storeId
    else after == before
  }

  /** A successful run: every picked row is linked to exactly one new payment, that of its store; no
      other row changes; each new payment is for another overdue store and amounts to that store's
      value times what the rows linked to it add up to, whether or not it was collected. */
  ghost predicate PaidUp(stores: Stores, rows: seq<Subscription>, after: seq<Subscription>,
                         payments: seq<Payment>, afterPayments: seq<Payment>, now: Timestamp, period: int)
  {
    && |after| == |rows|
    && payments <= afterPayments
    && (forall i :: 0 <= i < |rows| ==> RowPaid(rows, rows[i], after[i], |payments|, afterPayments, now, period))
    && (forall p :: |payments| <= p < |afterPayments| ==>
          && Overdue(rows, afterPayments[p].storeId, now, period)
          && afterPayments[p].storeId in stores
          && afterPayments[p].currency == stores[afterPayments[p].storeId].currency
          && afterPayments[p].amount == TrueTotal(stores[afterPayments[p].storeId].value, LinkedTo(after, p)))
    && (forall p, q :: |payments| <= p < q < |afterPayments| ==> afterPayments[p].storeId != afterPayments[q].storeId)
  }

  /** Linking the unpaid rows of a store to one payment keeps their total. */
  lemma {:induction false} LinkingKeepsTotal(value: Amount, rows: seq<Subscription>, after: seq<Subscription>,
                                             store: nat, p: nat)
    requires |after| == |rows|
    requires forall i :: 0 <= i < |rows| ==> after[i].quantity == rows[i].quantity
    requires forall i :: 0 <= i < |rows| ==> (after[i].paymentId == Some(p) <==> rows[i].UnpaidBy(store))
    ensures TrueTotal(value, LinkedTo(after, p)) == TrueTotal(value, UnpaidOf(rows, store))
  {
    if rows != [] {
      var n := |rows| - 1;
      LinkingKeepsTotal(value, rows[..n], after[..n], store, p);
      var linked, unpaid := LinkedTo(after[..n], p), UnpaidOf(rows[..n], store);
      assert (linked + [after[n]])[..|linked|] == linked;
      assert (unpaid + [rows[n]])[..|unpaid|] == unpaid;
      assert linked + [] == linked && unpaid + [] == unpaid;
    }
  }

  /** How the payments written relate to the stores that are overdue. */
  ghost predicate Collecting(stores: Stores, rows: seq<Subscription>, finished: seq<FinishedPayment>, now: Timestamp,
                             period: int)
  {
    && StoresApart(finished)
    && (forall k :: 0 <= k < |finished| ==>
          var payment := finished[k].payment;
          && Overdue(rows, payment.storeId, now, period)
          && payment.storeId in stores
          && payment.currency == stores[payment.storeId].currency
          && payment.amount == TrueTotal(stores[payment.storeId].value, UnpaidOf(rows, payment.storeId)))
    && forall store :: Overdue(rows, store, now, period) ==> Charged(finished, store)
  }

  predicate Charged(finished: seq<FinishedPayment>, store: nat) {
    exists k :: 0 <= k < |finished| && finished[k].payment.storeId == store
  }

  /** Read for a whole finished run: a row carries the payment of its store, or is as it was. */
  lemma WrittenRow(rows: seq<Subscription>, finished: seq<FinishedPayment>, base: nat, i: nat)
    requires LinksOk(rows, base) && i < |rows| && StoresApart(finished)
    ensures var after := Written(rows, rows, finished, base)[i];
      && after == rows[i].(paymentId := after.paymentId)
      && (rows[i].paymentId.Some? || !Charged(finished, rows[i].storeId) ==> after == rows[i])
      && (rows[i].paymentId.None? && Charged(finished, rows[i].storeId) ==>
            && after.paymentId.Some?
            && base <= after.paymentId.value < base + |finished|
            && finished[after.paymentId.value - base].payment.storeId == rows[i].storeId)
  {
    WrittenAt(rows, rows, finished, base, i);
    if rows[i].paymentId.None? && Charged(finished, rows[i].storeId) {
      var k :| 0 <= k < |finished| && finished[k].payment.storeId == rows[i].storeId;
      assert rows[i].UnpaidBy(finished[k].payment.storeId);
    }
  }

  lemma WrittenRowIsPaid(stores: Stores, rows: seq<Subscription>, finished: seq<FinishedPayment>,
                         payments: seq<Payment>, now: Timestamp, period: int, i: nat)
    requires LinksOk(rows, |payments|) && i < |rows|
    requires Collecting(stores, rows, finished, now, period)
    ensures RowPaid(rows, rows[i], Written(rows, rows, finished, |payments|)[i],
                    |payments|, payments + PaymentsOf(finished), now, period)
  {
    hide TrueTotal, UnpaidOf, Written, Overdue, Charged, Collecting, PaymentsOf, LinksOk, StoresApart;
    ChargedIsOverdue(stores, rows, finished, now, period, rows[i].storeId);
    WrittenRow(rows, finished, |payments|, i);
    var after := Written(rows, rows, finished, |payments|)[i];
    if Picked(rows, rows[i], now, period) {
      PaymentAt(payments, finished, after.paymentId.value);
      assert RowPaid(rows, rows[i], after, |payments|, payments + PaymentsOf(finished), now, period);
    } else {
      assert after == rows[i];
    }
  }

  lemma PaymentAt(payments: seq<Payment>, finished: seq<FinishedPayment>, p: nat)
    requires |payments| <= p < |payments| + |finished|
    ensures |payments + PaymentsOf(finished)| == |payments| + |finished|
    ensures (payments + PaymentsOf(finished))[p] == finished[p - |payments|].payment
  {
  }

  lemma ChargedIsOverdue(stores: Stores, rows: seq<Subscription>, finished: seq<FinishedPayment>, now: Timestamp,
                         period: int, store: nat)
    requires Collecting(stores, rows, finished, now, period)
    ensures StoresApart(finished)
    ensures Charged(finished, store) <==> Overdue(rows, store, now, period)
  {
    hide Overdue, TrueTotal, UnpaidOf;
  }

  lemma WrittenLinks(rows: seq<Subscription>, finished: seq<FinishedPayment>, base: nat, k: nat, i: nat)
    requires LinksOk(rows, base) && i < |rows| && k < |finished| && StoresApart(finished)
    ensures Written(rows, rows, finished, base)[i].paymentId == Some(base + k)
       <==> rows[i].UnpaidBy(finished[k].payment.storeId)
    ensures Written(rows, rows, finished, base)[i].quantity == rows[i].quantity
  {
    hide Written, Charged;
    if rows[i].UnpaidBy(finished[k].payment.storeId) {
      WrittenAt(rows, rows, finished, base, i);
      assert Written(rows, rows, finished, base)[i] == rows[i].(paymentId := Some(base + k));
    } else {
      WrittenRow(rows, finished, base, i);
    }
  }

  lemma WrittenPaymentIsExact(stores: Stores, rows: seq<Subscription>, finished: seq<FinishedPayment>,
                              payments: seq<Payment>, now: Timestamp, period: int, k: nat)
    requires LinksOk(rows, |payments|) && k < |finished|
    requires Collecting(stores, rows, finished, now, period)
    ensures finished[k].payment.amount == TrueTotal(stores[finished[k].payment.storeId].value,
                                                    LinkedTo(Written(rows, rows, finished, |payments|), |payments| + k))
  {
    hide TrueTotal, LinkedTo, UnpaidOf, Written, Overdue, RowPaid, Charged;
    var after := Written(rows, rows, finished, |payments|);
    var store := finished[k].payment.storeId;
    forall i | 0 <= i < |rows|
      ensures after[i].quantity == rows[i].quantity
      ensures after[i].paymentId == Some(|payments| + k) <==> rows[i].UnpaidBy(store)
    {
      WrittenLinks(rows, finished, |payments|, k, i);
    }
    LinkingKeepsTotal(stores[store].value, rows, after, store, |payments| + k);
  }

  lemma WrittenIsPaidUp(stores: Stores, rows: seq<Subscription>, finished: seq<FinishedPayment>, payments: seq<Payment>,
                        now: Timestamp, period: int)
    requires LinksOk(rows, |payments|)
    requires Collecting(stores, rows, finished, now, period)
    ensures PaidUp(stores, rows, Written(rows, rows, finished, |payments|),
                   payments, payments + PaymentsOf(finished), now, period)
  {
    hide TrueTotal, LinkedTo, UnpaidOf, Written, Overdue, RowPaid, Charged;
    var afterPayments := payments + PaymentsOf(finished);
    forall i | 0 <= i < |rows|
      ensures RowPaid(rows, rows[i], Written(rows, rows, finished, |payments|)[i],
                      |payments|, afterPayments, now, period)
    {
      WrittenRowIsPaid(stores, rows, finished, payments, now, period, i);
    }
    forall p | |payments| <= p < |afterPayments|
      ensures afterPayments[p] == finished[p - |payments|].payment
      ensures afterPayments[p].amount
           == TrueTotal(stores[finished[p - |payments|].payment.storeId].value,
                        LinkedTo(Written(rows, rows, finished, |payments|), p))
    {
      WrittenPaymentIsExact(stores, rows, finished, payments, now, period, p - |payments|);
    }
  }

  /** The payment is what preparing and charging its store gives. */
  predicate CollectedAsDue(d: Directory, c: Collector, stores: Stores, rows: seq<Subscription>, payment: Payment) {
    var due := UnpaidOf(rows, payment.storeId);
    && PreparationError(d, stores, payment.storeId, due).None?
    && payment == Collect(c, PreparationOf(d, stores, payment.storeId, due)).payment
  }

  predicate AllAsDue(d: Directory, c: Collector, stores: Stores, rows: seq<Subscription>, payments: seq<Payment>) {
    forall p :: 0 <= p < |payments| ==> CollectedAsDue(d, c, stores, rows, payments[p])
  }

  lemma PreparedIsCollecting(d: Directory, c: Collector, stores: Stores, rows: seq<Subscription>,
                             byStores: map<nat, seq<Subscription>>, preparations: seq<Preparation>,
                             finished: seq<FinishedPayment>, now: Timestamp, period: int)
    requires StoresOk(stores)
    requires forall store :: store in byStores <==> Overdue(rows, store, now, period)
    requires forall store <- byStores :: byStores[store] == UnpaidOf(rows, store)
    requires Prepared(d, stores, byStores, preparations)
    requires forall store <- byStores :: PreparedFor(preparations, store)
    requires |finished| == |preparations|
    requires forall k :: 0 <= k < |finished| ==> finished[k] == Collect(c, preparations[k])
    ensures Collecting(stores, rows, finished, now, period)
    ensures forall k :: 0 <= k < |finished| ==> finished[k].subscriptions == UnpaidOf(rows, finished[k].payment.storeId)
    ensures AllAsDue(d, c, stores, rows, PaymentsOf(finished))
  {
    hide TrueTotal, UnpaidOf, Overdue, PreparedFor, Charged;
    forall store | Overdue(rows, store, now, period)
      ensures Charged(finished, store)
    {
      assert store in byStores;
      PreparedIsCharged(c, preparations, finished, store);
    }
  }

  lemma PreparedIsCharged(c: Collector, preparations: seq<Preparation>, finished: seq<FinishedPayment>, store: nat)
    requires PreparedFor(preparations, store)
    requires |finished| == |preparations|
    requires forall k :: 0 <= k < |finished| ==> finished[k] == Collect(c, preparations[k])
    ensures Charged(finished, store)
  {
    var k :| 0 <= k < |preparations| && preparations[k].store.storeId == store;
    assert finished[k].payment.storeId == store;
  }

  lemma PaidUpKeepsTables(stores: Stores, rows: seq<Subscription>, finished: seq<FinishedPayment>,
                          payments: seq<Payment>, now: Timestamp, period: int)
    requires RowsOk(rows) && LinksOk(rows, |payments|)
    requires Collecting(stores, rows, finished, now, period)
    ensures var after := Written(rows, rows, finished, |payments|);
      RowsOk(after) && LinksOk(after, |payments| + |finished|) && OnlyLinked(rows, after)
  {
    hide TrueTotal, UnpaidOf, Written, Overdue, Collecting;
    forall i | 0 <= i < |rows|
      ensures RowPaid(rows, rows[i], Written(rows, rows, finished, |payments|)[i],
                    |payments|, payments + PaymentsOf(finished), now, period)
    {
      WrittenRowIsPaid(stores, rows, finished, payments, now, period, i);
    }
  }

  /** Some overdue store cannot be prepared. */
  ghost predicate SomeStoreFails(d: Directory, stores: Stores, rows: seq<Subscription>, now: Timestamp, period: int) {
    exists store :: Overdue(rows, store, now, period) && PreparationError(d, stores, store, UnpaidOf(rows, store)).Some?
  }

  /** What the clients take for these finished payments. */
  ghost predicate TakenAsDue(d: Directory, c: Collector, stores: Stores, rows: seq<Subscription>,
                             finished: seq<FinishedPayment>, taken: seq<Payment>)
  {
    exists preparations: seq<Preparation> ::
      && |preparations| == |finished|
      && (forall k :: 0 <= k < |finished| ==>
            var due := UnpaidOf(rows, finished[k].payment.storeId);
            && PreparationError(d, stores, finished[k].payment.storeId, due).None?
            && preparations[k] == PreparationOf(d, stores, finished[k].payment.storeId, due))
      && taken == TakenOf(c, preparations)
  }

  /** Everything before the final transaction: pick, prepare, charge. */
  method CollectPayments(d: Directory, c: Collector, clients: PaymentClients, repo: SubscriptionRepo,
                         stores: StoreSubscriptionRepo, now: Timestamp, period: int)
    returns (r: Result<seq<FinishedPayment>, PaymentError>)
    requires StoresOk(stores.stores)
    modifies clients
    ensures r.Err? <==> SomeStoreFails(d, stores.stores, repo.rows, now, period)
    ensures r.Err? ==> clients.taken == old(clients.taken) && !r.error.WriteFailed?
    ensures r.Ok? ==>
      && Collecting(stores.stores, repo.rows, r.value, now, period)
      && AllAsDue(d, c, stores.stores, repo.rows, PaymentsOf(r.value))
      && (forall k :: 0 <= k < |r.value| ==>
            r.value[k].subscriptions == UnpaidOf(repo.rows, r.value[k].payment.storeId))
      && old(clients.taken) <= clients.taken
      && TakenAsDue(d, c, stores.stores, repo.rows, r.value, clients.taken[|old(clients.taken)|..])
  {
    hide TrueTotal, UnpaidOf, Overdue, Prepared, CollectedAsDue, Collecting, PreparedFor;
    hide TakenAsDue, TakenOf, PaymentsOf;
    var byStores := SubscriptionsToPay(repo, now, period);
    var preparations := CreatePaymentPreparations(d, stores, byStores);
    if preparations.Err? {
      return Err(preparations.error);
    }
    var finished := CollectAll(c, clients, preparations.value);
    PreparedIsCollecting(d, c, stores.stores, repo.rows, byStores, preparations.value, finished, now, period);
    PreparedIsTaken(d, c, stores.stores, repo.rows, byStores, preparations.value, finished);
    assert clients.taken[|old(clients.taken)|..] == TakenOf(c, preparations.value);
    return Ok(finished);
  }

  lemma PreparedIsTaken(d: Directory, c: Collector, stores: Stores, rows: seq<Subscription>,
                        byStores: map<nat, seq<Subscription>>, preparations: seq<Preparation>,
                        finished: seq<FinishedPayment>)
    requires StoresOk(stores) && Prepared(d, stores, byStores, preparations)
    requires forall store <- byStores :: byStores[store] == UnpaidOf(rows, store)
    requires |finished| == |preparations|
    requires forall k :: 0 <= k < |finished| ==> finished[k] == Collect(c, preparations[k])
    ensures TakenAsDue(d, c, stores, rows, finished, TakenOf(c, preparations))
  {
    hide TrueTotal, UnpaidOf, TakenOf;
    forall k | 0 <= k < |finished|
      ensures finished[k].payment.storeId == preparations[k].store.storeId
    {
      CollectedFaithfully(c, preparations[k]);
    }
  }

  /** `pay_subscriptions`. One store that cannot be prepared fails the whole run before any charge. The
      charges come before the final transaction: if that does not commit, money was taken and no row
      or payment shows it. `finished` tells what was charged. */
  method PaySubscriptions(d: Directory, c: Collector, clients: PaymentClients, repo: SubscriptionRepo,
                          stores: StoreSubscriptionRepo, payments: SubscriptionPaymentRepo,
                          now: Timestamp, period: int, write: Outcome)
    returns (r: Result<(), PaymentError>, ghost finished: seq<FinishedPayment>)
    requires RowsOk(repo.rows) && StoresOk(stores.stores) && LinksOk(repo.rows, |payments.payments|)
    modifies clients, repo, payments
    ensures SomeStoreFails(d, stores.stores, old(repo.rows), now, period) ==>
      r.Err? && finished == [] && repo.rows == old(repo.rows) && payments.payments == old(payments.payments)
      && clients.taken == old(clients.taken)
    ensures !SomeStoreFails(d, stores.stores, old(repo.rows), now, period) ==>
      && (r.Ok? <==> write.Succeeds?)
      && Collecting(stores.stores, old(repo.rows), finished, now, period)
      && AllAsDue(d, c, stores.stores, old(repo.rows), PaymentsOf(finished))
      && old(clients.taken) <= clients.taken
      && TakenAsDue(d, c, stores.stores, old(repo.rows), finished, clients.taken[|old(clients.taken)|..])
      && (write.Fails? ==> repo.rows == old(repo.rows) && payments.payments == old(payments.payments))
      && (!write.Fails? ==>
            && payments.payments == old(payments.payments) + PaymentsOf(finished)
            && repo.rows == Written(old(repo.rows), old(repo.rows), finished, |old(payments.payments)|)
            && PaidUp(stores.stores, old(repo.rows), repo.rows, old(payments.payments), payments.payments, now, period))
    ensures RowsOk(repo.rows) && LinksOk(repo.rows, |payments.payments|) && OnlyLinked(old(repo.rows), repo.rows)
  {
    hide Written, Collecting, PaidUp, AllAsDue, SomeStoreFails, OnlyLinked, TakenAsDue;
    OnlyLinkedReflexive(repo.rows);
    finished := [];
    var collected := CollectPayments(d, c, clients, repo, stores, now, period);
    if collected.Err? {
      return Err(collected.error), [];
    }
    finished := collected.value;
    if write == Fails {
      return Err(WriteFailed), finished;
    }
    WrittenIsPaidUp(stores.stores, repo.rows, collected.value, payments.payments, now, period);
    PaidUpKeepsTables(stores.stores, repo.rows, collected.value, payments.payments, now, period);
    WritePayments(repo, payments, collected.value, repo.rows);
    r := if write == Succeeds then Ok(()) else Err(WriteFailed);
  }

  lemma OnlyLinkedReflexive(rows: seq<Subscription>)
    ensures OnlyLinked(rows, rows)
  {
  }

  /** After a run nothing is overdue at that time. */
  lemma NothingStaysOverdue(stores: Stores, rows: seq<Subscription>, after: seq<Subscription>,
                            payments: seq<Payment>, afterPayments: seq<Payment>,
                            now: Timestamp, period: int, store: nat)
    requires PaidUp(stores, rows, after, payments, afterPayments, now, period)
    ensures !Overdue(after, store, now, period)
  {
    if Overdue(after, store, now, period) {
      var i :| 0 <= i < |after| && after[i].UnpaidBy(store) && now - after[i].createdAt > period;
      assert RowPaid(rows, rows[i], after[i], |payments|, afterPayments, now, period);
      assert rows[i] == after[i];
      assert Overdue(rows, store, now, period);
      assert false;
    }
  }

  /** A second run at the same time changes nothing. */
  lemma SecondRunChangesNothing(stores: Stores, rows: seq<Subscription>, after: seq<Subscription>,
                                later: seq<Subscription>,
                                payments: seq<Payment>, afterPayments: seq<Payment>, laterPayments: seq<Payment>,
                                now: Timestamp, period: int)
    requires PaidUp(stores, rows, after, payments, afterPayments, now, period)
    requires PaidUp(stores, after, later, afterPayments, laterPayments, now, period)
    ensures later == after && laterPayments == afterPayments
  {
    forall i | 0 <= i < |after|
      ensures later[i] == after[i]
    {
      NothingStaysOverdue(stores, rows, after, payments, afterPayments, now, period, after[i].storeId);
      assert RowPaid(after, after[i], later[i], |afterPayments|, laterPayments, now, period);
    }
    var p := |afterPayments|;
    if p < |laterPayments| {
      NothingStaysOverdue(stores, rows, after, payments, afterPayments, now, period, laterPayments[p].storeId);
      assert false;
    }
  }

  /** A new payment is its store's value times the products it pays for if and only if the value is 0
      or none of the rows linked to it has a negative quantity. */
  lemma PaymentIsValueTimesQuantityExactlyIf(stores: Stores, rows: seq<Subscription>, after: seq<Subscription>,
                                             payments: seq<Payment>, afterPayments: seq<Payment>,
                                             now: Timestamp, period: int, p: nat)
    requires PaidUp(stores, rows, after, payments, afterPayments, now, period)
    requires |payments| <= p < |afterPayments|
    ensures afterPayments[p].storeId in stores
    ensures var value := stores[afterPayments[p].storeId].value;
      afterPayments[p].amount == Times(SumQuantities(LinkedTo(after, p)), value)
      <==> value == 0 || forall row <- LinkedTo(after, p) :: row.quantity >= 0
  {
    TotalIsValueTimesQuantityExactlyIf(stores[afterPayments[p].storeId].value, LinkedTo(after, p));
  }
}
