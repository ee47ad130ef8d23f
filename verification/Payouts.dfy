/** The handler of `PayoutInitiated` events. It is a sequence of calls to the database and to the
    Payments gateway, any of which may fail, and after any of which the process may die. */
module PayoutHandling {
  import opened Wrappers
  import opened Amounts

  datatype Payout = Payout(currency: Currency, wallet: nat, grossAmount: Amount, blockchainFee: Amount, completed: bool)

  datatype ExternalTransaction =
    ExternalTransaction(id: nat, to: nat, amount: Amount, currency: Currency, fee: Amount)

  /** What the handler acts on: the gateway's transactions in order of creation, and the payouts. */
  datatype Outside = Outside(transactions: seq<ExternalTransaction>, payouts: map<nat, Payout>)

  /** The call to be made next. */
  datatype Stage =
    | GetPayout
    | GetTransaction(payout: Payout)
    | GetMainAccount(payout: Payout)
    | CreateTransaction(payout: Payout)
    | MarkCompleted
    | Done(ok: bool)

  function TransactionOf(id: nat, payout: Payout): ExternalTransaction {
    ExternalTransaction(id, payout.wallet, payout.grossAmount, payout.currency, payout.blockchainFee)
  }

  predicate Paid(transactions: seq<ExternalTransaction>, id: nat) {
    exists i :: 0 <= i < |transactions| && transactions[i].id == id
  }

  /** The update has no filter: it marks every payout. */
  function AllCompleted(payouts: map<nat, Payout>): map<nat, Payout> {
    map id | id in payouts :: payouts[id].(completed := true)
  }

  function HandlerStep(o: Outside, id: nat, stage: Stage, outcome: Outcome): (Outside, Stage) {
    match stage
    case GetPayout =>
      if !outcome.Succeeds? then (o, Done(false))
      else if id !in o.payouts || o.payouts[id].completed then (o, Done(true))
      else (o, GetTransaction(o.payouts[id]))
    case GetTransaction(payout) =>
      if !outcome.Succeeds? then (o, Done(false))
      else if Paid(o.transactions, id) then (o, MarkCompleted)
      else (o, GetMainAccount(payout))
    case GetMainAccount(payout) =>
      (o, if outcome.Succeeds? then CreateTransaction(payout) else Done(false))
    case CreateTransaction(payout) =>
      if outcome.Fails? then (o, Done(false))
      else (o.(transactions := o.transactions + [TransactionOf(id, payout)]),
            if outcome.Succeeds? then MarkCompleted else Done(false))
    case MarkCompleted =>
      if id !in o.payouts || outcome.Fails? then (o, Done(false))
      else (o.(payouts := AllCompleted(o.payouts)), Done(outcome.Succeeds?))
    case Done(_) => (o, stage)
  }

  /** Calls made until the handler is done, or dies because `fate` ends. */
  function RunHandler(o: Outside, id: nat, stage: Stage, fate: seq<Outcome>): (Outside, Stage)
    decreases fate
  {
    if stage.Done? || fate == [] then (o, stage)
    else
      var (o', stage') := HandlerStep(o, id, stage, fate[0]);
      RunHandler(o', id, stage', fate[1..])
  }

  /** A transaction that pays this payout out as it was asked for. */
  predicate PaysOut(tx: ExternalTransaction, id: nat, payout: Payout) {
    && tx.id == id
    && tx.to == payout.wallet
    && tx.amount == payout.grossAmount
    && tx.currency == payout.currency
    && tx.fee == payout.blockchainFee
  }

  class Services {
    var transactions: seq<ExternalTransaction>
    var payouts: map<nat, Payout>

    constructor (payouts: map<nat, Payout>)
      ensures transactions == [] && this.payouts == payouts
    {
      this.transactions := [];
      this.payouts := payouts;
    }

    ghost function State(): Outside
      reads this
    {
      Outside(transactions, payouts)
    }

    method FindTransaction(id: nat) returns (found: bool)
      ensures found <==> Paid(transactions, id)
    {
      found := false;
      for i := 0 to |transactions|
        invariant found <==> exists j :: 0 <= j < i && transactions[j].id == id
      {
        found := found || transactions[i].id == id;
      }
    }

    /** One delivery of the event. `fate` lists how its calls end; if it is too short the process
        dies there. At most one transaction is created, and only if there was none. */
    method HandlePayoutInitiated(id: nat, fate: seq<Outcome>) returns (stage: Stage)
      modifies this
      ensures (State(), stage) == RunHandler(old(State()), id, GetPayout, fate)
      ensures transactions == old(transactions)
        || (!Paid(old(transactions), id) && id in old(payouts) && !old(payouts[id].completed)
            && |transactions| == |old(transactions)| + 1 && transactions[..|old(transactions)|] == old(transactions)
            && PaysOut(transactions[|old(transactions)|], id, old(payouts[id])))
      ensures fate != [] && fate[0].Succeeds? && (id !in old(payouts) || old(payouts[id].completed)) ==>
        stage == Done(true) && State() == old(State())
      ensures |fate| >= 5 && (forall i :: 0 <= i < 5 ==> fate[i].Succeeds?) ==> stage == Done(true)
      ensures fate != [] && !fate[0].Succeeds? ==> stage == Done(false) && State() == old(State())
      ensures stage == Done(true) ==>
        id !in old(payouts) || old(payouts[id].completed)
        || (Paid(transactions, id) && id in payouts && payouts[id].completed)
    {
      if fate == [] {
        return GetPayout;
      }
      if fate[0] != Succeeds {
        return Done(false);
      }
      if id !in payouts || payouts[id].completed {
        return Done(true);
      }
      stage := PayOut(id, payouts[id], fate[1..]);
    }

    /** `payout` is the row as it was read; the table may have changed since. */
    method PayOut(id: nat, payout: Payout, fate: seq<Outcome>) returns (stage: Stage)
      modifies this
      ensures (State(), stage) == RunHandler(old(State()), id, GetTransaction(payout), fate)
      ensures transactions == old(transactions)
        || (!Paid(old(transactions), id)
            && |transactions| == |old(transactions)| + 1 && transactions[..|old(transactions)|] == old(transactions)
            && PaysOut(transactions[|old(transactions)|], id, payout))
      ensures |fate| >= 4 && (forall i :: 0 <= i < 4 ==> fate[i].Succeeds?) && id in old(payouts) ==>
        stage == Done(true)
      ensures payouts.Keys == old(payouts).Keys
      ensures stage == Done(true) ==> Paid(transactions, id) && id in payouts && payouts[id].completed
    {
      if fate == [] {
        return GetTransaction(payout);
      }
      if fate[0] != Succeeds {
        return Done(false);
      }
      var found := FindTransaction(id);
      if found {
        stage := MarkPayoutAsCompleted(id, fate[1..]);
      } else {
        var rest;
        stage, rest := CreatePayoutTx(id, payout, fate[1..]);
        if stage == MarkCompleted {
          assert transactions[|transactions| - 1].id == id;
          assert fate[1..][0] == fate[1] && fate[1..][1] == fate[2];
          stage := MarkPayoutAsCompleted(id, rest);
        }
      }
    }

    method CreatePayoutTx(id: nat, payout: Payout, fate: seq<Outcome>) returns (stage: Stage, rest: seq<Outcome>)
      modifies this`transactions
      ensures transactions == old(transactions)
        || (|transactions| == |old(transactions)| + 1 && transactions[..|old(transactions)|] == old(transactions)
            && PaysOut(transactions[|old(transactions)|], id, payout))
      ensures transactions != old(transactions) <==> |fate| > 1 && fate[0].Succeeds? && !fate[1].Fails?
      ensures stage == MarkCompleted <==> |fate| > 1 && fate[0].Succeeds? && fate[1].Succeeds?
      ensures stage == MarkCompleted ==> rest == fate[2..]
      ensures stage == MarkCompleted ==> transactions != old(transactions) && |rest| < |fate|
      ensures stage != Done(true)
      ensures RunHandler(old(State()), id, GetMainAccount(payout), fate)
           == if stage == MarkCompleted then RunHandler(State(), id, MarkCompleted, rest) else (State(), stage)
    {
      rest := [];
      if fate == [] {
        return GetMainAccount(payout), rest;
      }
      if fate[0] != Succeeds {
        return Done(false), rest;
      }
      rest := fate[1..];
      assert RunHandler(State(), id, GetMainAccount(payout), fate)
          == RunHandler(State(), id, CreateTransaction(payout), rest);
      if rest == [] {
        return CreateTransaction(payout), rest;
      }
      if rest[0] == Fails {
        assert RunHandler(State(), id, CreateTransaction(payout), rest) == (State(), Done(false));
        return Done(false), rest;
      }
      transactions := transactions + [TransactionOf(id, payout)];
      stage := if rest[0] == Succeeds then MarkCompleted else Done(false);
      rest := rest[1..];
    }

    method MarkPayoutAsCompleted(id: nat, fate: seq<Outcome>) returns (stage: Stage)
      modifies this`payouts
      ensures (State(), stage) == RunHandler(old(State()), id, MarkCompleted, fate)
      ensures payouts.Keys == old(payouts).Keys
      ensures stage == Done(true) ==> id in payouts && payouts[id].completed
      ensures stage == Done(true) <==> fate != [] && id in old(payouts) && fate[0].Succeeds?
      ensures forall other <- payouts ::
        payouts[other] == old(payouts)[other].(completed :=
          old(payouts)[other].completed || (fate != [] && id in old(payouts) && !fate[0].Fails?))
    {
      if fate == [] {
        return MarkCompleted;
      }
      if id !in payouts || fate[0] == Fails {
        return Done(false);
      }
      payouts := AllCompleted(payouts);
      return Done(fate[0] == Succeeds);
    }
  }
}

/** Two deliveries of one payout event that overlap, call by call in any order. */
module PayoutOverlap {
  import opened Wrappers
  import opened PayoutHandling

  function CountPaid(transactions: seq<ExternalTransaction>, id: nat): nat {
    if transactions == [] then 0
    else CountPaid(transactions[..|transactions| - 1], id) + if transactions[|transactions| - 1].id == id then 1 else 0
  }

  lemma {:induction false} CountIsPaid(transactions: seq<ExternalTransaction>, id: nat)
    ensures CountPaid(transactions, id) > 0 <==> Paid(transactions, id)
  {
    if transactions != [] {
      var front := transactions[..|transactions| - 1];
      CountIsPaid(front, id);
      if Paid(front, id) {
        var i :| 0 <= i < |front| && front[i].id == id;
        assert transactions[i].id == id;
      }
    }
  }

  lemma CountAppended(transactions: seq<ExternalTransaction>, tx: ExternalTransaction, id: nat)
    ensures CountPaid(transactions + [tx], id) == CountPaid(transactions, id) + if tx.id == id then 1 else 0
  {
    assert (transactions + [tx])[..|transactions|] == transactions;
  }

  datatype Turn = Turn(first: bool, outcome: Outcome)

  datatype Pair = Pair(outside: Outside, a: Stage, b: Stage)

  function TakeTurn(s: Pair, id: nat, turn: Turn): Pair {
    if turn.first then
      var (o, stage) := HandlerStep(s.outside, id, s.a, turn.outcome);
      Pair(o, stage, s.b)
    else
      var (o, stage) := HandlerStep(s.outside, id, s.b, turn.outcome);
      Pair(o, s.a, stage)
  }

  function Interleave(s: Pair, id: nat, turns: seq<Turn>): Pair
    decreases turns
  {
    if turns == [] then s else Interleave(TakeTurn(s, id, turns[0]), id, turns[1..])
  }

  /** How the calls of one of the two end. */
  function Of(turns: seq<Turn>, first: bool): seq<Outcome> {
    if turns == [] then []
    else (if turns[0].first == first then [turns[0].outcome] else []) + Of(turns[1..], first)
  }

  /** It has looked the transaction up and found none. */
  predicate PastLookup(stage: Stage) {
    stage.GetMainAccount? || stage.CreateTransaction?
  }

  /** From there: the account lookup succeeds and the creation takes effect. */
  predicate Creates(stage: Stage, fate: seq<Outcome>) {
    match stage
    case GetMainAccount(_) => |fate| > 1 && fate[0].Succeeds? && !fate[1].Fails?
    case CreateTransaction(_) => |fate| > 0 && !fate[0].Fails?
    case _ => false
  }

  predicate LooksUpNoMore(stage: Stage) {
    PastLookup(stage) || stage.MarkCompleted? || stage.Done?
  }

  function Adds(stage: Stage, fate: seq<Outcome>): nat {
    if Creates(stage, fate) then 1 else 0
  }

  lemma StepAdds(o: Outside, id: nat, stage: Stage, fate: seq<Outcome>)
    requires LooksUpNoMore(stage) && fate != []
    ensures var (o', stage') := HandlerStep(o, id, stage, fate[0]);
      && LooksUpNoMore(stage')
      && CountPaid(o.transactions, id) + Adds(stage, fate) == CountPaid(o'.transactions, id) + Adds(stage', fate[1..])
  {
    if stage.CreateTransaction? {
      CountAppended(o.transactions, TransactionOf(id, stage.payout), id);
    }
  }

  /** Once neither looks up any more, each creates its transaction if its calls allow. */
  lemma {:induction false} BothAdd(s: Pair, id: nat, turns: seq<Turn>)
    requires LooksUpNoMore(s.a) && LooksUpNoMore(s.b)
    ensures CountPaid(Interleave(s, id, turns).outside.transactions, id)
         == CountPaid(s.outside.transactions, id) + Adds(s.a, Of(turns, true)) + Adds(s.b, Of(turns, false))
    decreases turns
  {
    if turns != [] {
      var mine, theirs := Of(turns, turns[0].first), Of(turns, !turns[0].first);
      assert mine[0] == turns[0].outcome && mine[1..] == Of(turns[1..], turns[0].first);
      assert theirs == Of(turns[1..], !turns[0].first);
      StepAdds(s.outside, id, if turns[0].first then s.a else s.b, mine);
      BothAdd(TakeTurn(s, id, turns[0]), id, turns[1..]);
    }
  }

  /** At turn k both have looked up in vain, and both create afterwards. */
  predicate CollideAt(s: Pair, id: nat, turns: seq<Turn>, k: nat)
    requires k <= |turns|
  {
    var mid := Interleave(s, id, turns[..k]);
    && PastLookup(mid.a) && PastLookup(mid.b)
    && Creates(mid.a, Of(turns[k..], true)) && Creates(mid.b, Of(turns[k..], false))
  }

  lemma {:induction false} InterleaveSplits(s: Pair, id: nat, turns: seq<Turn>, k: nat)
    requires k <= |turns|
    ensures Interleave(s, id, turns) == Interleave(Interleave(s, id, turns[..k]), id, turns[k..])
    decreases turns
  {
    if k > 0 {
      assert turns[..k][1..] == turns[1..][..k - 1] && turns[1..][k - 1..] == turns[k..];
      InterleaveSplits(TakeTurn(s, id, turns[0]), id, turns[1..], k - 1);
    } else {
      assert turns[k..] == turns && turns[..k] == [];
    }
  }

  /** Before both are past their lookups: whoever is has seen no transaction and still sees none. */
  predicate LookupsHold(s: Pair, id: nat) {
    && CountPaid(s.outside.transactions, id) <= 1
    && (PastLookup(s.a) || PastLookup(s.b) ==> CountPaid(s.outside.transactions, id) == 0)
  }

  lemma TurnKeepsLookups(s: Pair, id: nat, turn: Turn)
    requires LookupsHold(s, id) && !(PastLookup(s.a) && PastLookup(s.b))
    ensures LookupsHold(TakeTurn(s, id, turn), id)
  {
    CountIsPaid(s.outside.transactions, id);
    var stage := if turn.first then s.a else s.b;
    if stage.CreateTransaction? {
      CountAppended(s.outside.transactions, TransactionOf(id, stage.payout), id);
    }
  }

  lemma {:induction false} PaidTwiceCollided(s: Pair, id: nat, turns: seq<Turn>)
    requires LookupsHold(s, id) && CountPaid(Interleave(s, id, turns).outside.transactions, id) > 1
    ensures exists k :: 0 <= k <= |turns| && CollideAt(s, id, turns, k)
    decreases turns
  {
    assert turns[..0] == [] && turns[0..] == turns;
    if PastLookup(s.a) && PastLookup(s.b) {
      BothAdd(s, id, turns);
      assert CollideAt(s, id, turns, 0);
    } else {
      TurnKeepsLookups(s, id, turns[0]);
      var next := TakeTurn(s, id, turns[0]);
      PaidTwiceCollided(next, id, turns[1..]);
      var k :| 0 <= k <= |turns| - 1 && CollideAt(next, id, turns[1..], k);
      assert turns[..k + 1][1..] == turns[1..][..k] && turns[1..][k..] == turns[k + 1..];
      assert CollideAt(s, id, turns, k + 1);
    }
  }

  /** Two deliveries, interleaved in any way, with any outcomes: the payout is paid twice if and only if
      at some moment both have looked up in vain and from there both creations take effect. */
  lemma PaysTwiceExactlyIf(o: Outside, id: nat, turns: seq<Turn>)
    requires CountPaid(o.transactions, id) <= 1
    ensures var s := Pair(o, GetPayout, GetPayout);
      CountPaid(Interleave(s, id, turns).outside.transactions, id) > 1
      <==> exists k :: 0 <= k <= |turns| && CollideAt(s, id, turns, k)
  {
    var s := Pair(o, GetPayout, GetPayout);
    if CountPaid(Interleave(s, id, turns).outside.transactions, id) > 1 {
      PaidTwiceCollided(s, id, turns);
    }
    if k :| 0 <= k <= |turns| && CollideAt(s, id, turns, k) {
      InterleaveSplits(s, id, turns, k);
      BothAdd(Interleave(s, id, turns[..k]), id, turns[k..]);
    }
  }

  /** It does happen: both look an unpaid payout up, then both create. */
  lemma OverlapPaysTwice(o: Outside, id: nat)
    requires id in o.payouts && !o.payouts[id].completed && !Paid(o.transactions, id)
    ensures var t, u := Turn(true, Succeeds), Turn(false, Succeeds);
      CountPaid(Interleave(Pair(o, GetPayout, GetPayout), id, [t, t, u, u, t, t, u, u]).outside.transactions, id) == 2
  {
    var t, u := Turn(true, Succeeds), Turn(false, Succeeds);
    var turns := [t, t, u, u, t, t, u, u];
    var s := Pair(o, GetPayout, GetPayout);
    var payout := o.payouts[id];
    var mid := Pair(o, GetMainAccount(payout), GetMainAccount(payout));
    var ttuu, tuu, uu := [t, t, u, u], [t, u, u], [u, u];
    assert ttuu[1..] == tuu && tuu[1..] == uu && uu[1..] == [u] && [u][1..] == [];
    assert Interleave(Pair(o, GetMainAccount(payout), GetPayout), id, uu) == mid by {
      assert Interleave(Pair(o, GetMainAccount(payout), GetTransaction(payout)), id, [u]) == mid;
    }
    assert Interleave(Pair(o, GetTransaction(payout), GetPayout), id, tuu) == mid;
    assert Interleave(s, id, ttuu) == mid;
    InterleaveSplits(s, id, turns, 4);
    assert turns[..4] == ttuu && turns[4..] == ttuu;
    CountIsPaid(o.transactions, id);
    BothAdd(mid, id, ttuu);
    assert Of([u], true) == [] && Of([u], false) == [Succeeds];
    assert Of(uu, true) == [] && Of(uu, false) == [Succeeds, Succeeds];
    assert Of(tuu, true) == [Succeeds] && Of(tuu, false) == [Succeeds, Succeeds];
    assert Of(ttuu, true) == [Succeeds, Succeeds] && Of(ttuu, false) == [Succeeds, Succeeds];
  }
}
