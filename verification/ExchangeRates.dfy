/** The `order_exchange_rates` table: a history of rates per order, of which one may be active. */
module ExchangeRates {
  import opened Wrappers
  import opened Sequences

  type PositiveRate = x: real | x > 0.0 witness 1.0

  datatype RateStatus = Active | Expired

  datatype Rate = Rate(id: nat, orderId: nat, exchangeId: Option<nat>, exchangeRate: PositiveRate, status: RateStatus)

  datatype NewRate = NewRate(orderId: nat, exchangeId: Option<nat>, exchangeRate: PositiveRate)

  datatype RateTable = RateTable(rows: seq<Rate>, nextId: nat)

  /** The first active row of an order, in insertion order. */
  function FindActive(rows: seq<Rate>, orderId: nat): (found: Option<nat>)
    ensures found.Some? ==> found.value < |rows|
    ensures found.Some? ==> rows[found.value].orderId == orderId && rows[found.value].status.Active?
    ensures found.None? ==> forall i :: 0 <= i < |rows| && rows[i].status.Active? ==> rows[i].orderId != orderId
  {
    if rows == [] then None
    else if rows[0].orderId == orderId && rows[0].status.Active? then Some(0)
    else
      var rest := FindActive(rows[1..], orderId);
      if rest.None? then None else Some(rest.value + 1)
  }

  function ActiveOf(rows: seq<Rate>, orderId: nat): Option<Rate> {
    var found := FindActive(rows, orderId);
    if found.None? then None else Some(rows[found.value])
  }

  /** All rates of an order, newest first. */
  function RatesOf(rows: seq<Rate>, orderId: nat): seq<Rate> {
    if rows == [] then []
    else
      var last := rows[|rows| - 1];
      (if last.orderId == orderId then [last] else []) + RatesOf(rows[..|rows| - 1], orderId)
  }

  function Inserted(t: RateTable, quote: NewRate): Rate {
    Rate(t.nextId, quote.orderId, quote.exchangeId, quote.exchangeRate, Active)
  }

  function AddNewActive(t: RateTable, quote: NewRate): RateTable {
    var found := FindActive(t.rows, quote.orderId);
    var rows := if found.None? then t.rows else t.rows[found.value := t.rows[found.value].(status := Expired)];
    RateTable(rows + [Inserted(t, quote)], t.nextId + 1)
  }

  /** The update touches every active row of the order. */
  function ExpireCurrent(t: RateTable, orderId: nat): (after: RateTable)
    ensures |after.rows| == |t.rows|
  {
    t.(rows := seq(|t.rows|, i requires 0 <= i < |t.rows| =>
      if t.rows[i].orderId == orderId && t.rows[i].status.Active? then t.rows[i].(status := Expired) else t.rows[i]))
  }

  datatype RateOp = AddActive(quote: NewRate) | Expire(orderId: nat) | Delete(id: nat) | DeleteByOrder(orderId: nat)

  function Apply(t: RateTable, op: RateOp): RateTable {
    match op
    case AddActive(quote) => AddNewActive(t, quote)
    case Expire(orderId) => ExpireCurrent(t, orderId)
    case Delete(id) => t.(rows := Without(t.rows, (r: Rate) => r.id == id))
    case DeleteByOrder(orderId) => t.(rows := Without(t.rows, (r: Rate) => r.orderId == orderId))
  }

  function Run(ops: seq<RateOp>): RateTable {
    if ops == [] then RateTable([], 0) else Apply(Run(ops[..|ops| - 1]), ops[|ops| - 1])
  }

  // ---- One active rate per order ----

  predicate OneActive(rows: seq<Rate>) {
    forall i, j :: 0 <= i < j < |rows| && rows[i].status.Active? && rows[j].status.Active? ==>
      rows[i].orderId != rows[j].orderId
  }

  predicate IdsAscend(t: RateTable) {
    && (forall i :: 0 <= i < |t.rows| ==> t.rows[i].id < t.nextId)
    && forall i, j :: 0 <= i < j < |t.rows| ==> t.rows[i].id < t.rows[j].id
  }

  predicate RatesOk(t: RateTable) {
    OneActive(t.rows) && IdsAscend(t)
  }

  lemma WithoutKeepsRatesOk(t: RateTable, doomed: Rate -> bool)
    requires RatesOk(t)
    ensures RatesOk(t.(rows := Without(t.rows, doomed)))
  {
    var oneActive := (a: Rate, b: Rate) => !(a.status.Active? && b.status.Active? && a.orderId == b.orderId);
    var ascending := (a: Rate, b: Rate) => a.id < b.id;
    assert Apart(t.rows, oneActive) && Apart(t.rows, ascending);
    WithoutKeepsApart(t.rows, doomed, oneActive);
    WithoutKeepsApart(t.rows, doomed, ascending);
    WithoutMembers(t.rows, doomed);
    var kept := Without(t.rows, doomed);
    forall i, j | 0 <= i < j < |kept|
      ensures oneActive(kept[i], kept[j]) && ascending(kept[i], kept[j])
    {
    }
    forall i | 0 <= i < |kept|
      ensures kept[i].id < t.nextId
    {
      assert kept[i] in t.rows;
    }
  }

  lemma AddKeepsRatesOk(t: RateTable, quote: NewRate)
    requires RatesOk(t)
    ensures RatesOk(AddNewActive(t, quote))
  {
  }

  lemma StepKeepsRatesOk(t: RateTable, op: RateOp)
    requires RatesOk(t)
    ensures RatesOk(Apply(t, op))
  {
    match op
    case AddActive(quote) => AddKeepsRatesOk(t, quote);
    case Expire(_) =>
    case Delete(id) => WithoutKeepsRatesOk(t, (r: Rate) => r.id == id);
    case DeleteByOrder(orderId) => WithoutKeepsRatesOk(t, (r: Rate) => r.orderId == orderId);
  }

  /** In every reachable table an order has at most one active rate. */
  lemma {:induction false} OneActiveRate(ops: seq<RateOp>)
    ensures RatesOk(Run(ops))
  {
    if ops != [] {
      OneActiveRate(ops[..|ops| - 1]);
      StepKeepsRatesOk(Run(ops[..|ops| - 1]), ops[|ops| - 1]);
    }
  }

  /** An active row is the one that is found. */
  lemma ActiveIsFound(rows: seq<Rate>, i: nat)
    requires OneActive(rows) && i < |rows| && rows[i].status.Active?
    ensures FindActive(rows, rows[i].orderId) == Some(i)
  {
    var found := FindActive(rows, rows[i].orderId).value;
    assert !(found < i) && !(i < found);
  }

  lemma NoneIsFound(rows: seq<Rate>, orderId: nat)
    requires forall i :: 0 <= i < |rows| && rows[i].status.Active? ==> rows[i].orderId != orderId
    ensures FindActive(rows, orderId).None?
  {
  }

  /** A new rate becomes the active one of its order and leaves the other orders' alone. */
  lemma NewRateIsActive(t: RateTable, quote: NewRate, orderId: nat)
    requires RatesOk(t)
    ensures ActiveOf(AddNewActive(t, quote).rows, orderId)
         == if orderId == quote.orderId then Some(Inserted(t, quote)) else ActiveOf(t.rows, orderId)
  {
    var after := AddNewActive(t, quote);
    AddKeepsRatesOk(t, quote);
    if orderId == quote.orderId {
      ActiveIsFound(after.rows, |t.rows|);
    } else if FindActive(t.rows, orderId).Some? {
      ActiveIsFound(after.rows, FindActive(t.rows, orderId).value);
    } else {
      NoneIsFound(after.rows, orderId);
    }
  }

  lemma {:induction false} RatesOfMembers(rows: seq<Rate>, orderId: nat)
    ensures forall row :: row in RatesOf(rows, orderId) <==> row in rows && row.orderId == orderId
  {
    if rows != [] {
      RatesOfMembers(rows[..|rows| - 1], orderId);
      assert rows == rows[..|rows| - 1] + [rows[|rows| - 1]];
    }
  }

  lemma {:induction false} RatesOfDescend(rows: seq<Rate>, orderId: nat)
    requires forall i, j :: 0 <= i < j < |rows| ==> rows[i].id < rows[j].id
    ensures forall i, j :: 0 <= i < j < |RatesOf(rows, orderId)| ==>
      RatesOf(rows, orderId)[i].id > RatesOf(rows, orderId)[j].id
  {
    if rows != [] {
      var n := |rows| - 1;
      var older := RatesOf(rows[..n], orderId);
      RatesOfDescend(rows[..n], orderId);
      RatesOfMembers(rows[..n], orderId);
      forall i | 0 <= i < |older|
        ensures older[i].id < rows[n].id
      {
        assert older[i] in rows[..n];
      }
    }
  }

  /** The two deletions take away exactly their rows. */
  lemma DeletionsAreExact(t: RateTable, id: nat, orderId: nat)
    ensures forall row :: row in Apply(t, Delete(id)).rows <==> row in t.rows && row.id != id
    ensures forall row :: row in Apply(t, DeleteByOrder(orderId)).rows <==> row in t.rows && row.orderId != orderId
  {
    WithoutMembers(t.rows, (r: Rate) => r.id == id);
    WithoutMembers(t.rows, (r: Rate) => r.orderId == orderId);
  }

  // ---- The repository ----

  class OrderExchangeRates {
    var rows: seq<Rate>
    var nextId: nat

    ghost function Table(): RateTable
      reads this
    {
      RateTable(rows, nextId)
    }

    constructor ()
      ensures Table() == RateTable([], 0)
    {
      rows, nextId := [], 0;
    }

    method GetActiveRateForOrder(orderId: nat) returns (rate: Option<Rate>)
      ensures rate == ActiveOf(rows, orderId)
      ensures rate.Some? ==> rate.value in rows && rate.value.orderId == orderId && rate.value.status.Active?
      ensures rate.None? ==> forall row <- rows :: row.orderId == orderId ==> row.status.Expired?
    {
      rate := None;
      var i: int := |rows|;
      while i > 0
        invariant 0 <= i <= |rows|
        invariant rate == ActiveOf(rows[i..], orderId)
      {
        i := i - 1;
        assert rows[i..][1..] == rows[i + 1..];
        if rows[i].orderId == orderId && rows[i].status == Active {
          rate := Some(rows[i]);
        }
      }
      assert rows[0..] == rows;
    }

    method GetAllRatesForOrder(orderId: nat) returns (rates: seq<Rate>)
      ensures rates == RatesOf(rows, orderId)
      ensures forall row :: row in rates <==> row in rows && row.orderId == orderId
      ensures IdsAscend(Table()) ==> forall i, j :: 0 <= i < j < |rates| ==> rates[i].id > rates[j].id
    {
      RatesOfMembers(rows, orderId);
      if IdsAscend(Table()) {
        RatesOfDescend(rows, orderId);
      }
      rates := [];
      for i := 0 to |rows|
        invariant rates == RatesOf(rows[..i], orderId)
      {
        assert rows[..i + 1][..i] == rows[..i];
        if rows[i].orderId == orderId {
          rates := [rows[i]] + rates;
        }
      }
      assert rows[..|rows|] == rows;
    }

    /** Expires the active rate of the order, if there is one, and adds the new rate as active. */
    method AddNewActiveRate(quote: NewRate) returns (expired: Option<Rate>, active: Rate)
      modifies this
      ensures Table() == AddNewActive(old(Table()), quote)
      ensures active == Inserted(old(Table()), quote)
      ensures |rows| == |old(rows)| + 1 && rows[|old(rows)|] == active
      ensures active.orderId == quote.orderId && active.exchangeId == quote.exchangeId
      ensures active.exchangeRate == quote.exchangeRate && active.status.Active? && active.id == old(nextId)
      ensures forall i :: 0 <= i < |old(rows)| ==>
        || rows[i] == old(rows)[i]
        || (&& old(rows)[i].orderId == quote.orderId && old(rows)[i].status.Active?
            && rows[i] == old(rows)[i].(status := Expired))
      ensures expired.Some? <==> ActiveOf(old(rows), quote.orderId).Some?
      ensures expired.Some? ==> expired.value == ActiveOf(old(rows), quote.orderId).value.(status := Expired)
      ensures RatesOk(old(Table())) ==> RatesOk(Table()) && ActiveOf(rows, quote.orderId) == Some(active)
    {
      ghost var before := Table();
      var found := FindActive(rows, quote.orderId);
      expired := None;
      if found.Some? {
        var i := found.value;
        rows := rows[i := rows[i].(status := Expired)];
        expired := Some(rows[i]);
      }
      active := Rate(nextId, quote.orderId, quote.exchangeId, quote.exchangeRate, Active);
      rows := rows + [active];
      nextId := nextId + 1;
      if RatesOk(before) {
        AddKeepsRatesOk(before, quote);
        NewRateIsActive(before, quote, quote.orderId);
      }
    }

    /** Answers the row it expired, if there was one. */
    method ExpireCurrentActiveRate(orderId: nat) returns (expired: Option<Rate>)
      modifies this`rows
      ensures Table() == ExpireCurrent(old(Table()), orderId)
      ensures ActiveOf(rows, orderId).None?
      ensures |rows| == |old(rows)| && forall i :: 0 <= i < |rows| ==>
        rows[i] == if old(rows)[i].orderId == orderId && old(rows)[i].status.Active?
                   then old(rows)[i].(status := Expired)
                   else old(rows)[i]
      ensures expired == if ActiveOf(old(rows), orderId).None? then None
                         else Some(ActiveOf(old(rows), orderId).value.(status := Expired))
    {
      ghost var before := rows;
      var first := FindActive(rows, orderId);
      for i := 0 to |rows|
        invariant |rows| == |before|
        invariant forall j :: 0 <= j < i ==> rows[j] == ExpireCurrent(old(Table()), orderId).rows[j]
        invariant forall j :: i <= j < |rows| ==> rows[j] == before[j]
      {
        if rows[i].orderId == orderId && rows[i].status == Active {
          rows := rows[i := rows[i].(status := Expired)];
        }
      }
      assert rows == ExpireCurrent(old(Table()), orderId).rows;
      expired := if first.None? then None else Some(rows[first.value]);
    }
  }
}
