/** The tables behind subscription billing. Rows are never deleted, so the row with serial id i is at
    position i. */
module SubscriptionTables {
  import opened Wrappers
  import opened Amounts
  import opened EventQueue

  datatype Subscription =
    Subscription(id: nat, storeId: nat, quantity: I32, paymentId: Option<nat>, createdAt: Timestamp)
  {
    predicate UnpaidBy(store: nat) {
      paymentId.None? && storeId == store
    }
  }

  datatype StoreStatus = Trial | Paid | Free

  datatype StoreSubscription = StoreSubscription(
    storeId: nat,
    currency: Currency,
    value: Amount,
    walletAddress: Option<nat>,
    trialStartDate: Option<Timestamp>,
    status: StoreStatus
  )

  /** Keyed by the primary key, `store_id`. */
  type Stores = map<nat, StoreSubscription>

  datatype PaymentStatus = Collected | NotCollected

  datatype Payment = Payment(
    storeId: nat,
    amount: Amount,
    currency: Currency,
    chargeId: Option<nat>,
    transactionId: Option<nat>,
    status: PaymentStatus
  )

  predicate RowsOk(rows: seq<Subscription>) {
    forall i :: 0 <= i < |rows| ==> rows[i].id == i
  }

  predicate StoresOk(stores: Stores) {
    forall s <- stores :: stores[s].storeId == s
  }

  /** The foreign key from subscriptions to payments. */
  predicate LinksOk(rows: seq<Subscription>, paymentCount: nat) {
    forall i :: 0 <= i < |rows| && rows[i].paymentId.Some? ==> rows[i].paymentId.value < paymentCount
  }

  /** The unpaid rows of a store, in table order. */
  function UnpaidOf(rows: seq<Subscription>, store: nat): seq<Subscription> {
    if rows == [] then []
    else
      var last := rows[|rows| - 1];
      UnpaidOf(rows[..|rows| - 1], store) + if last.UnpaidBy(store) then [last] else []
  }

  lemma {:induction false} UnpaidOfMembers(rows: seq<Subscription>, store: nat)
    ensures forall row :: row in UnpaidOf(rows, store) <==> row in rows && row.UnpaidBy(store)
    ensures forall row <- UnpaidOf(rows, store) :: row.storeId == store && row.paymentId.None?
    ensures forall row <- rows :: row.storeId == store && row.paymentId.None? ==> row in UnpaidOf(rows, store)
  {
    if rows != [] {
      UnpaidOfMembers(rows[..|rows| - 1], store);
      assert rows == rows[..|rows| - 1] + [rows[|rows| - 1]];
    }
  }

  lemma {:induction false} UnpaidOfAscends(rows: seq<Subscription>, store: nat)
    requires RowsOk(rows)
    ensures forall i, j :: 0 <= i < j < |UnpaidOf(rows, store)| ==>
      UnpaidOf(rows, store)[i].id < UnpaidOf(rows, store)[j].id
  {
    if rows != [] {
      var n := |rows| - 1;
      var front := UnpaidOf(rows[..n], store);
      UnpaidOfAscends(rows[..n], store);
      UnpaidOfMembers(rows[..n], store);
      forall i | 0 <= i < |front|
        ensures front[i].id < rows[n].id
      {
        assert front[i] in rows[..n];
      }
    }
  }

  /** Rows may only gain a payment they did not have. */
  predicate OnlyLinked(before: seq<Subscription>, after: seq<Subscription>) {
    && |after| == |before|
    && forall i :: 0 <= i < |before| ==>
         && after[i].(paymentId := None) == before[i].(paymentId := None)
         && (before[i].paymentId.Some? ==> after[i] == before[i])
  }

  /** Rows may be linked, also to another payment than before, but a paid row stays paid. */
  predicate PaidStay(before: seq<Subscription>, after: seq<Subscription>) {
    && |after| == |before|
    && forall i :: 0 <= i < |before| ==>
         && after[i].(paymentId := None) == before[i].(paymentId := None)
         && (before[i].paymentId.Some? ==> after[i].paymentId.Some?)
  }

  class SubscriptionRepo {
    var rows: seq<Subscription>

    constructor ()
      ensures rows == []
    {
      rows := [];
    }

    method Create(storeId: nat, quantity: I32, now: Timestamp)
      modifies this
      ensures rows == old(rows) + [Subscription(|old(rows)|, storeId, quantity, None, now)]
    {
      rows := rows + [Subscription(|rows|, storeId, quantity, None, now)];
    }

    method GetUnpaid() returns (unpaid: seq<Subscription>)
      ensures forall store :: UnpaidOf(unpaid, store) == UnpaidOf(rows, store)
      ensures forall row :: row in unpaid <==> row in rows && row.paymentId.None?
    {
      unpaid := [];
      for i := 0 to |rows|
        invariant forall store :: UnpaidOf(unpaid, store) == UnpaidOf(rows[..i], store)
        invariant forall row :: row in unpaid <==> row in rows[..i] && row.paymentId.None?
      {
        assert rows[..i + 1][..i] == rows[..i];
        if rows[i].paymentId.None? {
          assert (unpaid + [rows[i]])[..|unpaid|] == unpaid;
          unpaid := unpaid + [rows[i]];
        }
      }
      assert rows[..|rows|] == rows;
    }

    method SearchUnpaid(store: nat) returns (unpaid: seq<Subscription>)
      ensures unpaid == UnpaidOf(rows, store)
    {
      unpaid := [];
      for i := 0 to |rows|
        invariant unpaid == UnpaidOf(rows[..i], store)
      {
        assert rows[..i + 1][..i] == rows[..i];
        if rows[i].UnpaidBy(store) {
          unpaid := unpaid + [rows[i]];
        }
      }
      assert rows[..|rows|] == rows;
    }

    /** Sets the payment of the row with this id. */
    method Update(id: nat, paymentId: nat) returns (found: bool)
      modifies this
      ensures found <==> id < |old(rows)|
      ensures rows == if found then old(rows)[id := old(rows)[id].(paymentId := Some(paymentId))] else old(rows)
    {
      found := id < |rows|;
      if found {
        rows := rows[id := rows[id].(paymentId := Some(paymentId))];
      }
    }
  }

  class StoreSubscriptionRepo {
    var stores: Stores

    constructor ()
      ensures stores == map[]
    {
      stores := map[];
    }

    method Get(storeId: nat) returns (found: Option<StoreSubscription>)
      ensures found == if storeId in stores then Some(stores[storeId]) else None
    {
      found := if storeId in stores then Some(stores[storeId]) else None;
    }

    /** Inserts a row whose status is the column's default; `None` if the primary key is taken. */
    method Create(storeId: nat, currency: Currency, value: Amount, walletAddress: Option<nat>,
                  trialStartDate: Option<Timestamp>)
      returns (created: Option<StoreSubscription>)
      modifies this
      ensures created == if storeId in old(stores) then None
                         else Some(StoreSubscription(storeId, currency, value, walletAddress, trialStartDate, Trial))
      ensures stores == if created.None? then old(stores) else old(stores)[storeId := created.value]
    {
      if storeId in stores {
        return None;
      }
      created := Some(StoreSubscription(storeId, currency, value, walletAddress, trialStartDate, Trial));
      stores := stores[storeId := created.value];
    }

    /** Sets only the trial start; `None` if there is no such store. */
    method SetTrialStart(storeId: nat, trialStartDate: Timestamp) returns (updated: Option<StoreSubscription>)
      modifies this
      ensures updated == if storeId !in old(stores) then None
                         else Some(old(stores)[storeId].(trialStartDate := Some(trialStartDate)))
      ensures stores == if updated.None? then old(stores) else old(stores)[storeId := updated.value]
    {
      if storeId !in stores {
        return None;
      }
      updated := Some(stores[storeId].(trialStartDate := Some(trialStartDate)));
      stores := stores[storeId := updated.value];
    }
  }

  class SubscriptionPaymentRepo {
    var payments: seq<Payment>

    constructor ()
      ensures payments == []
    {
      payments := [];
    }

    method Create(payment: Payment) returns (id: nat)
      modifies this
      ensures id == |old(payments)| && payments == old(payments) + [payment]
    {
      id := |payments|;
      payments := payments + [payment];
    }
  }
}
