/** Unsigned 128-bit monetary amounts, and their conversion between minimal units (wei, satoshi,
    cents) and super units (ETH, BTC, dollars). A `BigDecimal` is an exact `real` here. */
module Amounts {
  import opened Wrappers

  const U128: nat := 0x1_0000_0000_0000_0000_0000_0000_0000_0000

  type Amount = a: nat | a < 0x1_0000_0000_0000_0000_0000_0000_0000_0000

  type I16 = x: int | -0x8000 <= x < 0x8000

  type I32 = x: int | -0x8000_0000 <= x < 0x8000_0000

  type U32 = x: int | 0 <= x < 0x1_0000_0000

  datatype Currency = Eth | Stq | Btc | Eur | Usd | Rub {
    predicate IsFiat() {
      Eur? || Usd? || Rub?
    }

    /** Minimal units in one super unit. */
    function UnitsPerSuper(): (units: nat)
      ensures units > 0
    {
      match this
      case Eth | Stq => 1_000_000_000_000_000_000
      case Btc => 100_000_000
      case Eur | Usd | Rub => 100
    }

    /** One over the finest super-unit fraction that survives `with_scale`. */
    function FractionsPerSuper(): (fractions: nat)
      ensures fractions > 0
    {
      match this
      case Eth | Stq | Btc => 100_000_000
      case Eur | Usd | Rub => 100
    }

    /** Minimal units in the finest super-unit fraction: 10^10 for ETH and STQ, otherwise 1. */
    function Grain(): (grain: nat)
      ensures grain > 0 && grain * FractionsPerSuper() == UnitsPerSuper()
    {
      match this
      case Eth | Stq => 10_000_000_000
      case Btc | Eur | Usd | Rub => 1
    }
  }

  function CheckedAdd(a: Amount, b: Amount): Option<Amount> {
    if a + b < U128 then Some(a + b) else None
  }

  function CheckedMul(a: Amount, b: Amount): Option<Amount> {
    if a * b < U128 then Some(a * b) else None
  }

  /** The cast of a signed machine integer to `u128`, which sign-extends. */
  function AsU128(x: I32): Amount {
    if x < 0 then U128 + x else x
  }

  function Mul(x: real, y: real): real {
    x * y
  }

  function Div(x: real, y: real): real
    requires y != 0.0
  {
    x / y
  }

  /** `with_scale(0)`: drops the fraction, rounding toward zero. */
  function Truncate(x: real): int {
    if x >= 0.0 then x.Floor else -((-x).Floor)
  }

  function WithScale(x: real, fractions: nat): real
    requires fractions > 0
  {
    Div(Truncate(Mul(x, fractions as real)) as real, fractions as real)
  }

  function Scale(a: Amount, units: nat, fractions: nat): real
    requires units > 0 && fractions > 0
  {
    WithScale(Div(a as real, units as real), fractions)
  }

  /** `None` is the panic of the `unwrap`: the truncated value does not parse as a `u128`. */
  function Unscale(value: real, units: nat): Option<Amount> {
    var truncated := Truncate(Mul(value, units as real));
    if 0 <= truncated < U128 then Some(truncated) else None
  }

  function ToSuperUnit(currency: Currency, a: Amount): real {
    Scale(a, currency.UnitsPerSuper(), currency.FractionsPerSuper())
  }

  function FromSuperUnit(currency: Currency, value: real): Option<Amount> {
    Unscale(value, currency.UnitsPerSuper())
  }

  lemma TruncateBetween(x: real, n: nat)
    requires n as real <= x < n as real + 1.0
    ensures Truncate(x) == n
  {
  }

  lemma CancelFactor(x: real, y: real, g: real)
    requires g > 0.0
    ensures Mul(x, g) <= Mul(y, g) <==> x <= y
  {
  }

  lemma Regroup(x: real, f: real, g: real)
    ensures Mul(Mul(x, f), g) == Mul(x, Mul(g, f))
  {
  }

  lemma ProductAsReal(x: int, y: int)
    ensures (x * y) as real == Mul(x as real, y as real)
  {
  }

  lemma DivThenMul(x: real, y: real)
    requires y != 0.0
    ensures Mul(Div(x, y), y) == x
  {
  }

  /** `a` over `g * f`, scaled back up by `f`, lies in the unit interval above `a / g`. */
  lemma ScaledQuotient(a: nat, g: nat, f: nat, whole: real)
    requires g > 0 && Mul(whole, (g * f) as real) == a as real
    ensures (a / g) as real <= Mul(whole, f as real) < (a / g) as real + 1.0
  {
    var q, scaled := a / g, Mul(whole, f as real);
    assert Mul(scaled, g as real) == a as real by {
      ProductAsReal(g, f);
      Regroup(whole, f as real, g as real);
    }
    assert q * g <= a < (q + 1) * g;
    ProductAsReal(q, g);
    ProductAsReal(q + 1, g);
    CancelFactor(q as real, scaled, g as real);
    CancelFactor((q + 1) as real, scaled, g as real);
  }

  lemma ScaleIsGrains(a: Amount, g: nat, f: nat)
    requires g > 0 && f > 0 && g * f > 0
    ensures Scale(a, g * f, f) == Div((a / g) as real, f as real)
  {
    var whole := Div(a as real, (g * f) as real);
    DivThenMul(a as real, (g * f) as real);
    ScaledQuotient(a, g, f, whole);
    TruncateBetween(Mul(whole, f as real), a / g);
  }

  /** A whole number of grains in super units, times the units per super unit. */
  lemma GrainsInUnits(q: nat, g: nat, f: nat)
    requires g > 0 && f > 0
    ensures Mul(Div(q as real, f as real), (g * f) as real) == (q * g) as real
  {
    ProductAsReal(g, f);
    ProductAsReal(q, g);
    Regroup(Div(q as real, f as real), f as real, g as real);
    DivThenMul(q as real, f as real);
  }

  lemma GrainsConvertBack(q: nat, g: nat, f: nat)
    requires g > 0 && f > 0 && q * g < U128
    ensures Unscale(Div(q as real, f as real), g * f) == Some(q * g)
  {
    GrainsInUnits(q, g, f);
    TruncateBetween((q * g) as real, q * g);
  }

  lemma FloorToMultiple(a: nat, g: nat)
    requires g > 0
    ensures a / g * g == a - a % g <= a
    ensures g == 1 ==> a % g == 0
  {
  }

  /** There and back loses exactly the remainder below the grain: nothing for BTC and fiat. */
  lemma SuperUnitRoundTrip(currency: Currency, a: Amount)
    ensures FromSuperUnit(currency, ToSuperUnit(currency, a)) == Some(a - a % currency.Grain())
    ensures !currency.Eth? && !currency.Stq? ==> FromSuperUnit(currency, ToSuperUnit(currency, a)) == Some(a)
  {
    var g, f := currency.Grain(), currency.FractionsPerSuper();
    FloorToMultiple(a, g);
    ScaleIsGrains(a, g, f);
    GrainsConvertBack(a / g, g, f);
  }

  /** The units of each currency: how many minimal units are one super unit, and how many of them the
      finest fraction is that a super-unit value keeps. */
  lemma OneSuperUnit(currency: Currency)
    ensures var token := currency.Eth? || currency.Stq?;
      var units := if token then 1_000_000_000_000_000_000 else if currency.Btc? then 100_000_000 else 100;
      var finest := if token then 10_000_000_000 else 1;
      && ToSuperUnit(currency, units) == 1.0
      && FromSuperUnit(currency, 1.0) == Some(units)
      && Mul(ToSuperUnit(currency, finest), (units / finest) as real) == 1.0
      && ToSuperUnit(currency, finest - 1) == 0.0
      && (currency.IsFiat() <==> units == 100)
  {
    hide Scale, Unscale, Div, Mul;
    var g, f := currency.Grain(), currency.FractionsPerSuper();
    ScaleIsGrains(f * g, g, f);
    ScaleIsGrains(g, g, f);
    ScaleIsGrains(g - 1, g, f);
    GrainsConvertBack(f, g, f);
    DivByItself(f);
    DivThenMul(1.0, f as real);
    DivOfZero(f as real);
    assert f * g / g == f && g / g == 1 && (g - 1) / g == 0;
  }

  lemma DivByItself(f: nat)
    requires f > 0
    ensures Div(f as real, f as real) == 1.0
  {
  }

  lemma DivOfZero(f: real)
    requires f > 0.0
    ensures Div(0.0, f) == 0.0
  {
  }

  /** Converting back truncates toward zero, and panics exactly if the result is not a 128-bit amount. */
  lemma FromSuperUnitTruncates(currency: Currency, value: real)
    ensures var units := Mul(value, currency.UnitsPerSuper() as real);
      && (FromSuperUnit(currency, value).Some? <==> -1.0 < units < U128 as real)
      && (FromSuperUnit(currency, value).Some? && units >= 0.0 ==>
            FromSuperUnit(currency, value).value as real <= units < FromSuperUnit(currency, value).value as real + 1.0)
      && (FromSuperUnit(currency, value).Some? && units < 0.0 ==> FromSuperUnit(currency, value).value == 0)
  {
  }

  lemma DivMonotone(x: real, y: real, f: real)
    requires f > 0.0 && x <= y
    ensures Div(x, f) <= Div(y, f)
  {
  }

  lemma MulMonotone(x: nat, y: nat, g: nat)
    requires x <= y
    ensures x * g <= y * g
  {
  }

  lemma QuotientMonotone(a: nat, b: nat, g: nat)
    requires g > 0 && a <= b
    ensures a / g <= b / g
  {
    var p, q := a / g, b / g;
    assert p * g <= a && b < (q + 1) * g;
    if p > q {
      MulMonotone(q + 1, p, g);
      assert false;
    }
  }

  lemma ToSuperUnitMonotone(currency: Currency, a: Amount, b: Amount)
    requires a <= b
    ensures ToSuperUnit(currency, a) <= ToSuperUnit(currency, b)
  {
    var g, f := currency.Grain(), currency.FractionsPerSuper();
    ScaleIsGrains(a, g, f);
    ScaleIsGrains(b, g, f);
    QuotientMonotone(a, b, g);
    DivMonotone((a / g) as real, (b / g) as real, f as real);
  }

  /** Covering a price in fractions covers it in minimal units. */
  lemma CoveredConverts(captured: Amount, price: real, g: nat, f: nat)
    requires g > 0 && f > 0 && g * f > 0
    requires 0.0 <= price <= Scale(captured, g * f, f)
    ensures Unscale(price, g * f).Some? && Unscale(price, g * f).value <= captured
  {
    var q := captured / g;
    var units := Mul(price, (g * f) as real);
    ScaleIsGrains(captured, g, f);
    GrainsInUnits(q, g, f);
    FloorToMultiple(captured, g);
    CancelFactor(price, Div(q as real, f as real), (g * f) as real);
    CancelFactor(0.0, price, (g * f) as real);
    assert 0.0 <= units <= captured as real;
    assert 0 <= units.Floor <= captured;
  }

  /** A price covered in super units is covered in minimal units too, and converting it does not
      panic. This is what makes "paid" mean "covered" in spite of the two truncations. */
  lemma CoveredPriceConverts(currency: Currency, captured: Amount, price: real)
    requires 0.0 <= price <= ToSuperUnit(currency, captured)
    ensures FromSuperUnit(currency, price).Some?
    ensures FromSuperUnit(currency, price).value <= captured
  {
    CoveredConverts(captured, price, currency.Grain(), currency.FractionsPerSuper());
  }
}
