/** Creating subscriptions: one row per store and day at most, none during the trial or for free stores. */
module Subscriptions {
  import opened Wrappers
  import opened Amounts
  import opened EventQueue
  import opened SubscriptionTables

  const DEFAULT_EUR_CENTS: Amount := 3

  const MICROS_PER_DAY := 86_400_000_000

  /** Two times have the same year, month and day exactly if this is the same; it rounds down. */
  function DayOf(t: Timestamp): int {
    t / MICROS_PER_DAY
  }

  /** A day is its 24 hours of microseconds, midnight belonging to the day it begins. */
  lemma DayIsADay(t: Timestamp, day: int)
    ensures DayOf(t) == day <==> day * 86_400_000_000 <= t < (day + 1) * 86_400_000_000
  {
  }

  datatype Request = Request(storeId: nat, quantity: I32)

  datatype Db = Db(rows: seq<Subscription>, stores: Stores)

  datatype CreateError = EmptyTrialStart

  predicate UnpaidToday(rows: seq<Subscription>, store: nat, now: Timestamp) {
    exists i :: 0 <= i < |rows| && rows[i].UnpaidBy(store) && DayOf(rows[i].createdAt) == DayOf(now)
  }

  function FindUpdateOrCreate(stores: Stores, store: nat, now: Timestamp): (after: Stores)
    ensures store in after && after[store].trialStartDate.Some?
  {
    if store !in stores then stores[store := StoreSubscription(store, Eur, DEFAULT_EUR_CENTS, None, Some(now), Trial)]
    else if stores[store].trialStartDate.Some? then stores
    else stores[store := stores[store].(trialStartDate := Some(now))]
  }

  /** Whether a store has to pay: its trial is over, or it is marked as paying. */
  predicate Chargeable(store: StoreSubscription, maxTrial: int, now: Timestamp) {
    match store.status
    case Trial => store.trialStartDate.Some? && now - store.trialStartDate.value >= maxTrial
    case Paid => true
    case Free => false
  }

  /** One pass of the loop. */
  function CreateOne(db: Db, request: Request, maxTrial: int, now: Timestamp): Result<Db, CreateError> {
    var stores := FindUpdateOrCreate(db.stores, request.storeId, now);
    var store := stores[request.storeId];
    if store.status.Trial? && store.trialStartDate.None? then Err(EmptyTrialStart)
    else if !Chargeable(store, maxTrial, now) || UnpaidToday(db.rows, request.storeId, now) then Ok(Db(db.rows, stores))
    else Ok(Db(db.rows + [Subscription(|db.rows|, request.storeId, request.quantity, None, now)], stores))
  }

  /** The loop; an error rolls the transaction back. */
  function CreateAll(db: Db, requests: seq<Request>, maxTrial: int, now: Timestamp): Result<Db, CreateError> {
    if requests == [] then Ok(db)
    else
      var front := CreateAll(db, requests[..|requests| - 1], maxTrial, now);
      if front.Err? then front else CreateOne(front.value, requests[|requests| - 1], maxTrial, now)
  }

  method FindUpdateOrCreateStoreSubscription(repo: StoreSubscriptionRepo, store: nat, now: Timestamp)
    returns (found: StoreSubscription)
    modifies repo
    ensures repo.stores == FindUpdateOrCreate(old(repo.stores), store, now)
    ensures found == repo.stores[store]
    ensures repo.stores.Keys == old(repo.stores).Keys + {store}
    ensures forall other <- old(repo.stores) :: other != store ==> repo.stores[other] == old(repo.stores)[other]
    ensures store in old(repo.stores) && old(repo.stores)[store].trialStartDate.Some? ==>
      found == old(repo.stores)[store]
    ensures store in old(repo.stores) && old(repo.stores)[store].trialStartDate.None? ==>
      found == old(repo.stores)[store].(trialStartDate := Some(now))
    ensures store !in old(repo.stores) ==>
      && found.storeId == store && found.currency.Eur? && found.value == 3 && found.walletAddress.None?
      && found.trialStartDate == Some(now) && found.status.Trial?
  {
    var existing := repo.Get(store);
    if existing.Some? {
      if existing.value.trialStartDate.Some? {
        return existing.value;
      }
      var updated := repo.SetTrialStart(store, now);
      return updated.value;
    }
    var created := repo.Create(store, Eur, DEFAULT_EUR_CENTS, None, Some(now));
    return created.value;
  }

  method HasUnpaidToday(repo: SubscriptionRepo, store: nat, now: Timestamp) returns (today: bool)
    ensures today == UnpaidToday(repo.rows, store, now)
  {
    var unpaid := repo.SearchUnpaid(store);
    UnpaidOfMembers(repo.rows, store);
    for j := 0 to |unpaid|
      invariant forall row <- unpaid[..j] :: DayOf(row.createdAt) != DayOf(now)
    {
      if DayOf(unpaid[j].createdAt) == DayOf(now) {
        assert unpaid[j] in unpaid;
        return true;
      }
    }
    assert unpaid[..|unpaid|] == unpaid;
    return false;
  }

  /** `create_all`: one transaction over all the requests. */
  method CreateSubscriptions(subscriptions: SubscriptionRepo, stores: StoreSubscriptionRepo, requests: seq<Request>,
                             maxTrial: int, now: Timestamp)
    returns (r: Result<(), CreateError>)
    modifies subscriptions, stores
    ensures r.Ok?
    ensures CreateAll(Db(old(subscriptions.rows), old(stores.stores)), requests, maxTrial, now)
         == Ok(Db(subscriptions.rows, stores.stores))
  {
    ghost var before := Db(subscriptions.rows, stores.stores);
    NeverEmptyTrial(before, requests, maxTrial, now);
    var k := 0;
    label eachRequest:
    while k < |requests|
      invariant 0 <= k <= |requests|
      invariant CreateAll(before, requests[..k], maxTrial, now) == Ok(Db(subscriptions.rows, stores.stores))
    {
      var request := requests[k];
      k := k + 1;
      assert requests[..k][..k - 1] == requests[..k - 1];
      var store := FindUpdateOrCreateStoreSubscription(stores, request.storeId, now);
      match store.status {
        case Trial =>
          if store.trialStartDate.None? {
            assert false;
          }
          if now - store.trialStartDate.value < maxTrial {
            continue eachRequest;
          }
        case Paid =>
        case Free =>
          continue eachRequest;
      }
      var today := HasUnpaidToday(subscriptions, request.storeId, now);
      if today {
        continue eachRequest;
      }
      subscriptions.Create(request.storeId, request.quantity, now);
    }
    assert requests[..|requests|] == requests;
    return Ok(());
  }

  // ---- One call ----

  /** The "empty trial start" error cannot be reached, whatever the tables hold. */
  lemma {:induction false} NeverEmptyTrial(db: Db, requests: seq<Request>, maxTrial: int, now: Timestamp)
    ensures CreateAll(db, requests, maxTrial, now).Ok?
  {
    if requests != [] {
      NeverEmptyTrial(db, requests[..|requests| - 1], maxTrial, now);
    }
  }

  /** Nothing is lost, and a trial that has started keeps its start. */
  predicate StoresEvolve(before: Stores, after: Stores) {
    forall s <- before ::
      && s in after
      && (before[s].trialStartDate.Some? ==> after[s].trialStartDate == before[s].trialStartDate)
  }

  /** What a call to `create_all` may do to the tables. */
  ghost predicate CreatedRightly(before: Db, after: Db, maxTrial: int, now: Timestamp) {
    && before.rows <= after.rows
    && StoresEvolve(before.stores, after.stores)
    && (forall s <- before.stores ::
          after.stores[s].(trialStartDate := None) == before.stores[s].(trialStartDate := None))
    && forall i :: |before.rows| <= i < |after.rows| ==>
         && after.rows[i].id == i
         && after.rows[i].createdAt == now
         && after.rows[i].paymentId.None?
         && after.rows[i].storeId in after.stores
         && HasToPay(after.stores[after.rows[i].storeId], maxTrial, now)
  }

  /** The store pays: it is not free, and if it is not marked as paying its trial began long enough ago. */
  predicate HasToPay(store: StoreSubscription, maxTrial: int, now: Timestamp) {
    && !store.status.Free?
    && (store.status.Paid? || (store.trialStartDate.Some? && store.trialStartDate.value + maxTrial <= now))
  }

  lemma ChargeableHasToPay(store: StoreSubscription, maxTrial: int, now: Timestamp)
    ensures Chargeable(store, maxTrial, now) <==> HasToPay(store, maxTrial, now)
  {
  }

  /** A row for what some request asks. */
  predicate AskedFor(requests: seq<Request>, row: Subscription) {
    exists k :: 0 <= k < |requests| && requests[k].storeId == row.storeId && requests[k].quantity == row.quantity
  }

  /** Each new row is for the store and the quantity of some request. */
  lemma {:induction false} RowsAreAskedFor(db: Db, requests: seq<Request>, maxTrial: int, now: Timestamp)
    requires CreateAll(db, requests, maxTrial, now).Ok?
    ensures var after := CreateAll(db, requests, maxTrial, now).value;
      db.rows <= after.rows && forall i :: |db.rows| <= i < |after.rows| ==> AskedFor(requests, after.rows[i])
  {
    if requests != [] {
      var n := |requests| - 1;
      var mid, after := CreateAll(db, requests[..n], maxTrial, now).value, CreateAll(db, requests, maxTrial, now).value;
      RowsAreAskedFor(db, requests[..n], maxTrial, now);
      forall i | |db.rows| <= i < |after.rows|
        ensures AskedFor(requests, after.rows[i])
      {
        if i < |mid.rows| {
          var row := mid.rows[i];
          var k :| 0 <= k < n && requests[..n][k].storeId == row.storeId && requests[..n][k].quantity == row.quantity;
          assert requests[k].storeId == row.storeId && requests[k].quantity == row.quantity;
        } else {
          assert requests[n].storeId == after.rows[i].storeId && requests[n].quantity == after.rows[i].quantity;
        }
      }
    }
  }

  /** Only chargeable stores get rows: none is created for a free store or before the trial has passed. */
  lemma {:induction false} CreateAllIsRight(db: Db, requests: seq<Request>, maxTrial: int, now: Timestamp)
    requires CreateAll(db, requests, maxTrial, now).Ok?
    ensures CreatedRightly(db, CreateAll(db, requests, maxTrial, now).value, maxTrial, now)
  {
    if requests != [] {
      hide CreateOne;
      var front, last := requests[..|requests| - 1], requests[|requests| - 1];
      CreateAllIsRight(db, front, maxTrial, now);
      CreateOneIsRight(CreateAll(db, front, maxTrial, now).value, last, maxTrial, now);
    }
  }

  lemma CreateOneIsRight(db: Db, request: Request, maxTrial: int, now: Timestamp)
    requires CreateOne(db, request, maxTrial, now).Ok?
    ensures CreatedRightly(db, CreateOne(db, request, maxTrial, now).value, maxTrial, now)
  {
  }

  predicate Requested(requests: seq<Request>, store: nat) {
    exists k :: 0 <= k < |requests| && requests[k].storeId == store
  }

  lemma RequestedAtEnd(requests: seq<Request>, store: nat)
    requires requests != []
    ensures Requested(requests, store) <==>
      Requested(requests[..|requests| - 1], store) || requests[|requests| - 1].storeId == store
  {
    if Requested(requests, store) {
      var k :| 0 <= k < |requests| && requests[k].storeId == store;
      assert k < |requests| - 1 ==> requests[..|requests| - 1][k].storeId == store;
    }
    if Requested(requests[..|requests| - 1], store) {
      var k :| 0 <= k < |requests| - 1 && requests[..|requests| - 1][k].storeId == store;
      assert requests[k].storeId == store;
    }
  }

  lemma UnpaidTodayAfterAppend(rows: seq<Subscription>, row: Subscription, store: nat, now: Timestamp)
    ensures UnpaidToday(rows + [row], store, now) <==>
      UnpaidToday(rows, store, now) || (row.UnpaidBy(store) && DayOf(row.createdAt) == DayOf(now))
  {
    var after := rows + [row];
    assert after[|rows|] == row;
    if UnpaidToday(rows, store, now) {
      var i :| 0 <= i < |rows| && rows[i].UnpaidBy(store) && DayOf(rows[i].createdAt) == DayOf(now);
      assert after[i] == rows[i];
    }
  }

  /** A store has an unpaid row of today after the call exactly if it had one, or was requested and
      has to pay; repeating it in one payload makes no difference. */
  lemma {:induction false} CreatedExactlyIfDue(db: Db, requests: seq<Request>, maxTrial: int, now: Timestamp,
                                               store: nat)
    requires CreateAll(db, requests, maxTrial, now).Ok?
    ensures var after := CreateAll(db, requests, maxTrial, now).value;
      && (Requested(requests, store) ==> store in after.stores && after.stores[store].trialStartDate.Some?)
      && (!Requested(requests, store) ==>
            && (store in after.stores <==> store in db.stores)
            && (store in db.stores ==> after.stores[store] == db.stores[store]))
      && (UnpaidToday(after.rows, store, now) <==>
            || UnpaidToday(db.rows, store, now)
            || (Requested(requests, store)
                && (|| after.stores[store].status.Paid?
                    || (after.stores[store].status.Trial?
                        && now - after.stores[store].trialStartDate.value >= maxTrial))))
  {
    if requests != [] {
      var n := |requests| - 1;
      var mid := CreateAll(db, requests[..n], maxTrial, now).value;
      CreatedExactlyIfDue(db, requests[..n], maxTrial, now, store);
      RequestedAtEnd(requests, store);
      UnpaidTodayAfterAppend(
        mid.rows, Subscription(|mid.rows|, requests[n].storeId, requests[n].quantity, None, now), store, now);
    }
  }

  // ---- Every run ----

  datatype Step =
    | Create(requests: seq<Request>, now: Timestamp)
    | Pay(paid: seq<Subscription>)
    | AddStore(storeId: nat, currency: Currency, value: Amount, walletAddress: Option<nat>)
    | UpdateStore(storeId: nat, newCurrency: Option<Currency>, newValue: Option<Amount>, newWallet: Option<nat>,
                  newStatus: Option<StoreStatus>)

  function Or<T>(update: Option<T>, current: T): T {
    if update.Some? then update.value else current
  }

  /** `Pay` is any writing of payments, also a late one that links a paid row again; the store service
      neither starts nor moves a trial. */
  function Next(db: Db, step: Step, maxTrial: int): Db {
    match step
    case Create(requests, now) =>
      var r := CreateAll(db, requests, maxTrial, now);
      if r.Ok? then r.value else db
    case Pay(paid) => if PaidStay(db.rows, paid) then db.(rows := paid) else db
    case AddStore(s, currency, value, wallet) =>
      if s in db.stores then db
      else db.(stores := db.stores[s := StoreSubscription(s, currency, value, wallet, None, Trial)])
    case UpdateStore(s, currency, value, wallet, status) =>
      if s !in db.stores then db
      else
        var store := db.stores[s];
        db.(stores := db.stores[s := store.(currency := Or(currency, store.currency), value := Or(value, store.value),
                                            walletAddress := if wallet.Some? then wallet else store.walletAddress,
                                            status := Or(status, store.status))])
  }

  function Run(db: Db, steps: seq<Step>, maxTrial: int): Db {
    if steps == [] then db else Next(Run(db, steps[..|steps| - 1], maxTrial), steps[|steps| - 1], maxTrial)
  }

  /** No store has two unpaid rows of one calendar day. */
  predicate OneUnpaidPerDay(rows: seq<Subscription>) {
    forall i, j :: 0 <= i < j < |rows| && rows[i].paymentId.None? && rows[j].UnpaidBy(rows[i].storeId) ==>
      DayOf(rows[i].createdAt) != DayOf(rows[j].createdAt)
  }

  predicate TablesOk(db: Db) {
    OneUnpaidPerDay(db.rows) && RowsOk(db.rows) && StoresOk(db.stores)
  }

  lemma CreateOneKeepsOk(db: Db, request: Request, maxTrial: int, now: Timestamp)
    requires TablesOk(db) && CreateOne(db, request, maxTrial, now).Ok?
    ensures TablesOk(CreateOne(db, request, maxTrial, now).value)
  {
    var after := CreateOne(db, request, maxTrial, now).value;
    forall i, j | 0 <= i < j < |after.rows|
                  && after.rows[i].paymentId.None? && after.rows[j].UnpaidBy(after.rows[i].storeId)
      ensures DayOf(after.rows[i].createdAt) != DayOf(after.rows[j].createdAt)
    {
      assert after.rows[i] == db.rows[i];
      assert j < |db.rows| ==> after.rows[j] == db.rows[j];
    }
  }

  lemma {:induction false} CreateAllKeepsOk(db: Db, requests: seq<Request>, maxTrial: int, now: Timestamp)
    requires TablesOk(db) && CreateAll(db, requests, maxTrial, now).Ok?
    ensures TablesOk(CreateAll(db, requests, maxTrial, now).value)
  {
    if requests != [] {
      var n := |requests| - 1;
      CreateAllKeepsOk(db, requests[..n], maxTrial, now);
      CreateOneKeepsOk(CreateAll(db, requests[..n], maxTrial, now).value, requests[n], maxTrial, now);
    }
  }

  lemma LinkingKeepsOk(db: Db, paid: seq<Subscription>)
    requires TablesOk(db) && PaidStay(db.rows, paid)
    ensures TablesOk(db.(rows := paid))
  {
    forall i | 0 <= i < |paid|
      ensures paid[i].id == db.rows[i].id && paid[i].storeId == db.rows[i].storeId
      ensures paid[i].createdAt == db.rows[i].createdAt
      ensures paid[i].paymentId.None? ==> db.rows[i].paymentId.None?
    {
      assert paid[i].(paymentId := None) == db.rows[i].(paymentId := None);
    }
  }

  lemma StepKeepsOk(db: Db, step: Step, maxTrial: int)
    requires TablesOk(db)
    ensures TablesOk(Next(db, step, maxTrial))
    ensures StoresEvolve(db.stores, Next(db, step, maxTrial).stores)
  {
    if step.Create? {
      NeverEmptyTrial(db, step.requests, maxTrial, step.now);
      CreateAllIsRight(db, step.requests, maxTrial, step.now);
      CreateAllKeepsOk(db, step.requests, maxTrial, step.now);
    } else if step.Pay? && PaidStay(db.rows, step.paid) {
      LinkingKeepsOk(db, step.paid);
    }
  }

  /** From empty tables, however subscriptions are requested, paid and stores updated: no store ever
      has two unpaid subscriptions of one day. */
  lemma {:induction false} OneUnpaidSubscriptionPerDay(steps: seq<Step>, maxTrial: int)
    ensures TablesOk(Run(Db([], map[]), steps, maxTrial))
    ensures var rows := Run(Db([], map[]), steps, maxTrial).rows;
      forall i, j :: (0 <= i < j < |rows| && rows[i].storeId == rows[j].storeId
                      && rows[i].paymentId.None? && rows[j].paymentId.None?) ==>
        DayOf(rows[i].createdAt) != DayOf(rows[j].createdAt)
  {
    if steps != [] {
      OneUnpaidSubscriptionPerDay(steps[..|steps| - 1], maxTrial);
      StepKeepsOk(Run(Db([], map[]), steps[..|steps| - 1], maxTrial), steps[|steps| - 1], maxTrial);
    }
  }

  /** From any point of a run on, no store disappears and a trial start once set never changes. */
  lemma {:induction false} TrialStartIsFinal(steps: seq<Step>, maxTrial: int, k: nat)
    requires k <= |steps|
    ensures StoresEvolve(Run(Db([], map[]), steps[..k], maxTrial).stores, Run(Db([], map[]), steps, maxTrial).stores)
  {
    if k == |steps| {
      assert steps[..k] == steps;
    } else {
      var front := steps[..|steps| - 1];
      assert front[..k] == steps[..k];
      TrialStartIsFinal(front, maxTrial, k);
      OneUnpaidSubscriptionPerDay(front, maxTrial);
      StepKeepsOk(Run(Db([], map[]), front, maxTrial), steps[|steps| - 1], maxTrial);
    }
  }

  /** Step k created row i, for a store that had to pay at that time. */
  predicate CreatedWhenDue(steps: seq<Step>, maxTrial: int, k: nat, i: nat, row: Subscription)
    requires k < |steps|
  {
    var before, after := Run(Db([], map[]), steps[..k], maxTrial), Run(Db([], map[]), steps[..k + 1], maxTrial);
    && steps[k].Create?
    && row.createdAt == steps[k].now
    && |before.rows| <= i < |after.rows|
    && row.storeId in after.stores
    && HasToPay(after.stores[row.storeId], maxTrial, steps[k].now)
  }

  /** Every row of every reachable table was created by some call, when its store was neither free
      nor still on trial; none was created otherwise. */
  lemma {:induction false} EveryRowWasDue(steps: seq<Step>, maxTrial: int, i: nat)
    requires i < |Run(Db([], map[]), steps, maxTrial).rows|
    ensures exists k ::
      0 <= k < |steps| && CreatedWhenDue(steps, maxTrial, k, i, Run(Db([], map[]), steps, maxTrial).rows[i])
  {
    hide Next, HasToPay;
    var n := |steps| - 1;
    var front, step := steps[..n], steps[n];
    var before, after := Run(Db([], map[]), front, maxTrial), Run(Db([], map[]), steps, maxTrial);
    assert steps[..n + 1] == steps;
    if i < |before.rows| {
      EveryRowWasDue(front, maxTrial, i);
      var k :| 0 <= k < n && CreatedWhenDue(front, maxTrial, k, i, before.rows[i]);
      assert front[..k] == steps[..k] && front[..k + 1] == steps[..k + 1];
      StepKeepsRow(before, step, maxTrial, i);
      assert CreatedWhenDue(steps, maxTrial, k, i, after.rows[i]);
    } else {
      NewRowIsDue(before, step, maxTrial, i);
      assert CreatedWhenDue(steps, maxTrial, n, i, after.rows[i]);
    }
  }

  lemma NewRowIsDue(db: Db, step: Step, maxTrial: int, i: nat)
    requires |db.rows| <= i < |Next(db, step, maxTrial).rows|
    ensures var after := Next(db, step, maxTrial);
      && step.Create?
      && after.rows[i].createdAt == step.now
      && after.rows[i].storeId in after.stores
      && HasToPay(after.stores[after.rows[i].storeId], maxTrial, step.now)
  {
    NeverEmptyTrial(db, step.requests, maxTrial, step.now);
    CreateAllIsRight(db, step.requests, maxTrial, step.now);
  }

  lemma StepKeepsRow(db: Db, step: Step, maxTrial: int, i: nat)
    requires i < |db.rows|
    ensures var after := Next(db, step, maxTrial);
      && |db.rows| <= |after.rows|
      && after.rows[i].(paymentId := None) == db.rows[i].(paymentId := None)
      && (db.rows[i].paymentId.Some? ==> after.rows[i].paymentId.Some?)
  {
    if step.Create? {
      NeverEmptyTrial(db, step.requests, maxTrial, step.now);
      CreateAllIsRight(db, step.requests, maxTrial, step.now);
    }
  }
}
