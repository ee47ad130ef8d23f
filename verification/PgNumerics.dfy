/** The PostgreSQL NUMERIC codec of `Amount`: base-10000 digits, most significant first, with the
    weight of the first digit. Zero digits at the least significant end are not stored. */
module PgNumerics {
  import opened Wrappers
  import opened Amounts

  type Digit = d: nat | d < 10_000

  datatype PgNumeric =
    | Positive(weight: I16, scale: nat, digits: seq<I16>)
    | Negative(weight: I16, scale: nat, digits: seq<I16>)
    | NaN

  datatype DecodeError =
    | NegativeSign
    | NotANumber
    | NonzeroScale
    | NegativeWeight
    | DigitsOverflow
    | NegativeCorrection
    | CorrectionOverflow

  /** `PowOverflow` is the unchecked power of ten running over: a panic or a wrapped value,
      depending on the build. */
  datatype Decoded = Value(value: Amount) | Rejected(error: DecodeError) | PowOverflow

  // ---- Powers and positional values ----

  function TenPow(e: nat): nat {
    if e == 0 then 1 else 10 * TenPow(e - 1)
  }

  /** `v * 10000^k`. */
  ghost function Shift(v: nat, k: nat): nat {
    if k == 0 then v else 10_000 * Shift(v, k - 1)
  }

  /** Value of digits listed least significant first. */
  ghost function LowFirst(digits: seq<nat>): nat {
    if digits == [] then 0 else digits[0] + 10_000 * LowFirst(digits[1..])
  }

  /** Value of digits listed most significant first, as the decoder accumulates them. */
  ghost function HighFirst(digits: seq<nat>): nat {
    if digits == [] then 0 else 10_000 * HighFirst(digits[..|digits| - 1]) + digits[|digits| - 1]
  }

  /** The number a NUMERIC denotes: digit i stands for digits[i] * 10000^(weight - i). */
  ghost function Denoted(digits: seq<nat>, weight: int): nat
    requires |digits| <= weight + 1
  {
    if digits == [] then 0 else Shift(digits[0], weight) + Denoted(digits[1..], weight - 1)
  }

  ghost function Digits(digits: seq<I16>): (r: seq<nat>)
    ensures |r| == |digits|
  {
    seq(|digits|, i requires 0 <= i < |digits| => AsU128(digits[i]))
  }

  lemma {:induction false} ShiftByTens(v: nat, k: nat)
    ensures Shift(v, k) == v * TenPow(4 * k)
  {
    if k > 0 {
      ShiftByTens(v, k - 1);
      assert TenPow(4 * k) == 10 * TenPow(4 * k - 1) == 100 * TenPow(4 * k - 2) == 1000 * TenPow(4 * k - 3);
      var pow := TenPow(4 * k - 4);
      assert v * (10_000 * pow) == 10_000 * (v * pow);
    }
  }

  lemma {:induction false} ShiftAdds(v: nat, w: nat, j: nat, k: nat)
    ensures Shift(v + w, k) == Shift(v, k) + Shift(w, k)
    ensures Shift(Shift(v, j), k) == Shift(v, j + k)
    ensures v <= Shift(v, k) <= Shift(v + w, k)
  {
    if k > 0 {
      ShiftAdds(v, w, j, k - 1);
    }
  }

  lemma {:induction false} TenPowGrows(d: nat, e: nat)
    requires d <= e
    ensures 0 < TenPow(d) <= TenPow(e)
  {
    if d < e {
      TenPowGrows(d, e - 1);
    } else if d > 0 {
      TenPowGrows(d - 1, d - 1);
    }
  }

  /** The unchecked power fits exactly up to 10^38. */
  lemma TenPowFits(e: nat)
    ensures TenPow(e) < U128 <==> e <= 38
  {
    ShiftByTens(1, 9);
    assert Shift(1, 9) == 1_0000_0000_0000_0000_0000_0000_0000_0000_0000;
    assert TenPow(39) == 10 * TenPow(38) == 100 * TenPow(37) == 1000 * TenPow(36);
    if e <= 38 {
      TenPowGrows(e, 38);
    } else {
      TenPowGrows(39, e);
    }
  }

  // ---- The encoder ----

  function LowDigits(v: nat): (digits: seq<Digit>)
    ensures digits != []
    ensures LowFirst(digits) == v
  {
    if v < 10_000 then [v] else [v % 10_000] + LowDigits(v / 10_000)
  }

  function SkipZeros(digits: seq<Digit>): (kept: seq<Digit>)
    ensures |kept| <= |digits|
    ensures kept != [] ==> kept[0] != 0
  {
    if digits != [] && digits[0] == 0 then SkipZeros(digits[1..]) else digits
  }

  function Reverse(digits: seq<Digit>): (r: seq<Digit>)
    ensures |r| == |digits|
    ensures forall i :: 0 <= i < |r| ==> r[i] == digits[|digits| - 1 - i]
  {
    if digits == [] then [] else Reverse(digits[1..]) + [digits[0]]
  }

  lemma {:induction false} LowDigitsBound(v: nat, k: nat)
    requires k > 0 && v < Shift(1, k)
    ensures |LowDigits(v)| <= k
  {
    if v >= 10_000 {
      assert Shift(1, 1) == 10_000;
      LowDigitsBound(v / 10_000, k - 1);
    }
  }

  lemma AmountHasTenDigits(v: Amount)
    ensures |LowDigits(v)| <= 10
  {
    assert Shift(1, 10) == 1_0000_0000_0000_0000_0000_0000_0000_0000_0000_0000;
    LowDigitsBound(v, 10);
  }

  function Encoding(v: Amount): PgNumeric {
    var low := LowDigits(v);
    AmountHasTenDigits(v);
    Positive(|low| - 1, 0, Reverse(SkipZeros(low)))
  }

  /** Yields the base-10000 digits of a number, least significant first. */
  class ToBase10000 {
    var rest: Option<Amount>

    ghost function Remaining(): seq<Digit>
      reads this
    {
      if rest.None? then [] else LowDigits(rest.value)
    }

    constructor (value: Amount)
      ensures Remaining() == LowDigits(value)
    {
      rest := Some(value);
    }

    method Next() returns (digit: Option<Digit>)
      modifies this
      ensures digit.None? ==> old(Remaining()) == [] && Remaining() == []
      ensures digit.Some? ==> old(Remaining()) == [digit.value] + Remaining()
    {
      if rest.None? {
        return None;
      }
      var v := rest.value;
      rest := None;
      var rem, div := v % 10_000, v / 10_000;
      if div != 0 {
        rest := Some(div);
      }
      return Some(rem);
    }
  }

  method CollectDigits(value: Amount) returns (digits: seq<Digit>)
    ensures digits == LowDigits(value)
  {
    hide LowDigits, Yielded;
    var source := new ToBase10000(value);
    digits := [];
    var next := source.Next();
    YieldedFirst(digits, next, source.Remaining());
    while next.Some?
      invariant LowDigits(value) == digits + Yielded(next, source.Remaining())
      invariant next.None? ==> source.Remaining() == []
      decreases |source.Remaining()|, next.Some?
    {
      ghost var left := source.Remaining();
      YieldedFirst(digits, next, left);
      digits := digits + [next.value];
      next := source.Next();
      YieldedFirst(digits, next, source.Remaining());
    }
    YieldedFirst(digits, next, []);
  }

  /** The digits not yet collected: the one just yielded and those after it. */
  ghost function Yielded(next: Option<Digit>, left: seq<Digit>): seq<Digit> {
    if next.None? then left else [next.value] + left
  }

  lemma YieldedFirst(digits: seq<Digit>, next: Option<Digit>, left: seq<Digit>)
    ensures next.Some? ==> Yielded(next, left) == [next.value] + left
    ensures next.Some? ==> digits + Yielded(next, left) == digits + [next.value] + left
    ensures next.None? ==> Yielded(next, left) == left
    ensures next.None? && left == [] ==> digits + Yielded(next, left) == digits
  {
  }

  /** `skip_while` a digit is zero. */
  method DropZeros(digits: seq<Digit>) returns (kept: seq<Digit>)
    ensures kept == SkipZeros(digits)
  {
    var i := 0;
    while i < |digits| && digits[i] == 0
      invariant 0 <= i <= |digits|
      invariant SkipZeros(digits[i..]) == SkipZeros(digits)
    {
      assert digits[i..][1..] == digits[i + 1..];
      i := i + 1;
    }
    return digits[i..];
  }

  /** Swaps from both ends toward the middle. */
  method ReverseDigits(buffer: array<Digit>)
    modifies buffer
    ensures buffer[..] == Reverse(old(buffer[..]))
  {
    var low, high := 0, buffer.Length;
    while low + 1 < high
      invariant 0 <= low && high == buffer.Length - low && low <= high + 1
      invariant forall k :: low <= k < high ==> buffer[k] == old(buffer[k])
      invariant forall k :: 0 <= k < buffer.Length && !(low <= k < high) ==>
        buffer[k] == old(buffer[buffer.Length - 1 - k])
    {
      high := high - 1;
      buffer[low], buffer[high] := buffer[high], buffer[low];
      low := low + 1;
    }
  }

  method U128ToPgDecimal(value: Amount) returns (numeric: PgNumeric)
    ensures numeric == Encoding(value)
  {
    var digits := CollectDigits(value);
    AmountHasTenDigits(value);
    var weight := |digits| - 1;
    digits := DropZeros(digits);
    var buffer := new Digit[|digits|](i requires 0 <= i < |digits| => digits[i]);
    assert buffer[..] == digits;
    ReverseDigits(buffer);
    numeric := Positive(weight, 0, buffer[..]);
  }

  // ---- The decoder ----

  function CorrectionExp(weight: I16, length: nat): int {
    4 * (weight - length + 1)
  }

  /** What the decoder answers: the checks in their order, on the values the digits stand for. */
  ghost function Decoding(numeric: PgNumeric): Decoded {
    match numeric
    case Negative(_, _, _) => Rejected(NegativeSign)
    case NaN => Rejected(NotANumber)
    case Positive(weight, scale, digits) =>
      var mantissa := HighFirst(Digits(digits));
      var exp := CorrectionExp(weight, |digits|);
      if scale != 0 then Rejected(NonzeroScale)
      else if weight < 0 then Rejected(NegativeWeight)
      else if mantissa >= U128 then Rejected(DigitsOverflow)
      else if exp < 0 then Rejected(NegativeCorrection)
      else if TenPow(exp) >= U128 then PowOverflow
      else if mantissa * TenPow(exp) >= U128 then Rejected(CorrectionOverflow)
      else Value(mantissa * TenPow(exp))
  }

  lemma {:induction false} PrefixIsSmaller(digits: seq<nat>, k: nat)
    requires k <= |digits|
    ensures HighFirst(digits[..k]) <= HighFirst(digits)
  {
    if k < |digits| {
      PrefixIsSmaller(digits[..|digits| - 1], k);
      assert digits[..|digits| - 1][..k] == digits[..k];
    } else {
      assert digits[..k] == digits;
    }
  }

  method PgDecimalToU128(numeric: PgNumeric) returns (r: Decoded)
    ensures r == Decoding(numeric)
    ensures numeric.Negative? <==> r == Rejected(NegativeSign)
    ensures numeric.NaN? <==> r == Rejected(NotANumber)
    ensures numeric.Positive? && numeric.scale != 0 <==> r == Rejected(NonzeroScale)
    ensures numeric.Positive? && numeric.scale == 0 && numeric.weight < 0 <==> r == Rejected(NegativeWeight)
  {
    if numeric.Negative? {
      return Rejected(NegativeSign);
    } else if numeric.NaN? {
      return Rejected(NotANumber);
    }
    var weight, digits := numeric.weight, numeric.digits;
    if numeric.scale != 0 {
      return Rejected(NonzeroScale);
    }
    if weight < 0 {
      return Rejected(NegativeWeight);
    }
    ghost var values := Digits(digits);
    var result: Amount := 0;
    for i := 0 to |digits|
      invariant result == HighFirst(values[..i])
    {
      assert values[..i + 1][..i] == values[..i];
      PrefixIsSmaller(values, i + 1);
      var shifted := CheckedMul(result, 10_000);
      var summed := if shifted.None? then None else CheckedAdd(shifted.value, AsU128(digits[i]));
      if summed.None? {
        return Rejected(DigitsOverflow);
      }
      result := summed.value;
    }
    assert values[..|digits|] == values;
    var exp := CorrectionExp(weight, |digits|);
    if exp < 0 {
      return Rejected(NegativeCorrection);
    }
    TenPowFits(exp);
    if exp > 38 {
      return PowOverflow;
    }
    var corrected := CheckedMul(result, TenPow(exp));
    return if corrected.None? then Rejected(CorrectionOverflow) else Value(corrected.value);
  }

  // ---- What the decoder accepts ----

  lemma {:induction false} HighFirstSplitsFirst(digits: seq<nat>)
    requires digits != []
    ensures HighFirst(digits) == Shift(digits[0], |digits| - 1) + HighFirst(digits[1..])
  {
    var n := |digits|;
    if n > 1 {
      HighFirstSplitsFirst(digits[..n - 1]);
      assert digits[1..][..n - 2] == digits[..n - 1][1..];
    }
  }

  lemma {:induction false} DenotedIsShiftedMantissa(digits: seq<nat>, weight: int)
    requires |digits| <= weight + 1
    ensures Denoted(digits, weight) == Shift(HighFirst(digits), weight + 1 - |digits|)
  {
    var k := weight + 1 - |digits|;
    if digits == [] {
      ShiftAdds(0, 0, 0, k);
    } else {
      DenotedIsShiftedMantissa(digits[1..], weight - 1);
      HighFirstSplitsFirst(digits);
      ShiftAdds(Shift(digits[0], |digits| - 1), HighFirst(digits[1..]), 0, k);
      ShiftAdds(digits[0], 0, |digits| - 1, k);
    }
  }

  /** For every NUMERIC of scale 0: the decoder returns `v` exactly when the digits denote `v` without
      a fractional digit and without needing more than 10^38, and its other two answers are apart. */
  lemma DecoderExact(weight: I16, digits: seq<I16>, v: Amount)
    requires weight >= 0
    ensures Decoding(Positive(weight, 0, digits)) == Value(v)
       <==> |digits| <= weight + 1 && CorrectionExp(weight, |digits|) <= 38 && Denoted(Digits(digits), weight) == v
    ensures CorrectionExp(weight, |digits|) <= 38 ==>
      (Decoding(Positive(weight, 0, digits)).Rejected?
       <==> !(|digits| <= weight + 1 && Denoted(Digits(digits), weight) < U128))
    ensures Decoding(Positive(weight, 0, digits)) == PowOverflow
       <==> CorrectionExp(weight, |digits|) > 38 && HighFirst(Digits(digits)) < U128
  {
    var values := Digits(digits);
    if |digits| <= weight + 1 {
      var k := weight + 1 - |digits|;
      DenotedIsShiftedMantissa(values, weight);
      ShiftByTens(HighFirst(values), k);
      ShiftAdds(HighFirst(values), 0, 0, k);
      TenPowFits(4 * k);
    }
  }

  // ---- Round trips ----

  lemma {:induction false} ReverseValue(digits: seq<Digit>)
    ensures HighFirst(Reverse(digits)) == LowFirst(digits)
  {
    if digits != [] {
      var r := Reverse(digits);
      assert r[..|r| - 1] == Reverse(digits[1..]);
      ReverseValue(digits[1..]);
    }
  }

  lemma {:induction false} SkippedZerosShift(digits: seq<Digit>)
    ensures LowFirst(digits) == Shift(LowFirst(SkipZeros(digits)), |digits| - |SkipZeros(digits)|)
  {
    if digits != [] && digits[0] == 0 {
      SkippedZerosShift(digits[1..]);
    }
  }

  /** Every amount survives the database, and nothing overflows on the way back. */
  lemma DecodeEncoding(v: Amount)
    ensures Decoding(Encoding(v)) == Value(v)
    ensures 0 <= Encoding(v).weight <= 9
    ensures 0 <= CorrectionExp(Encoding(v).weight, |Encoding(v).digits|) <= 36
  {
    hide LowDigits, SkipZeros, Reverse, Shift, HighFirst, Denoted, Decoding, TenPow;
    var low := LowDigits(v);
    var kept := SkipZeros(low);
    var digits := Reverse(kept);
    AmountHasTenDigits(v);
    SomeDigitOrShort(v);
    ReverseValue(kept);
    SkippedZerosShift(low);
    assert Digits(digits) == digits;
    DenotedIsShiftedMantissa(digits, |low| - 1);
    DecoderExact(|low| - 1, digits, v);
  }

  lemma SomeDigitOrShort(v: nat)
    ensures SkipZeros(LowDigits(v)) == [] ==> |LowDigits(v)| == 1
  {
    if SkipZeros(LowDigits(v)) == [] {
      SkippedAllIsZero(LowDigits(v));
    }
  }

  lemma {:induction false} SkippedAllIsZero(digits: seq<Digit>)
    requires SkipZeros(digits) == []
    ensures LowFirst(digits) == 0
  {
    if digits != [] {
      SkippedAllIsZero(digits[1..]);
    }
  }

  ghost predicate Canonical(numeric: PgNumeric) {
    && numeric.Positive?
    && numeric.scale == 0
    && (forall i :: 0 <= i < |numeric.digits| ==> 0 <= numeric.digits[i] < 10_000)
    && |numeric.digits| <= numeric.weight + 1
    && if numeric.digits == [] then numeric.weight == 0
       else numeric.digits[0] != 0 && numeric.digits[|numeric.digits| - 1] != 0
  }

  lemma {:induction false} TopDigitCounts(v: nat)
    ensures v > 0 ==> LowDigits(v)[|LowDigits(v)| - 1] != 0
    ensures v == 0 ==> LowDigits(v) == [0]
  {
    if v >= 10_000 {
      TopDigitCounts(v / 10_000);
    }
  }

  lemma {:induction false} SkippingKeepsTop(digits: seq<Digit>)
    requires digits != [] && digits[|digits| - 1] != 0
    ensures SkipZeros(digits) != [] && SkipZeros(digits)[|SkipZeros(digits)| - 1] == digits[|digits| - 1]
  {
    if digits[0] == 0 {
      SkippingKeepsTop(digits[1..]);
    }
  }

  /** What the encoder makes is canonical, so the two round trips are about the same numerics. */
  lemma EncodingIsCanonical(v: Amount)
    ensures Canonical(Encoding(v))
  {
    TopDigitCounts(v);
    AmountHasTenDigits(v);
    if v > 0 {
      SkippingKeepsTop(LowDigits(v));
    }
  }

  /** Digits without a leading zero are the digits of their value. */
  lemma {:induction false} LowDigitsUnique(digits: seq<Digit>)
    requires digits != [] && (digits == [0] || digits[|digits| - 1] != 0)
    ensures LowDigits(LowFirst(digits)) == digits
  {
    var rest := digits[1..];
    if rest != [] {
      LowDigitsUnique(rest);
      assert LowFirst(rest) > 0;
      assert digits == [digits[0]] + rest;
    }
  }

  function Zeros(k: nat): (zeros: seq<Digit>)
    ensures |zeros| == k
  {
    if k == 0 then [] else [0] + Zeros(k - 1)
  }

  lemma {:induction false} PaddedValue(k: nat, digits: seq<Digit>)
    ensures LowFirst(Zeros(k) + digits) == Shift(LowFirst(digits), k)
  {
    if k == 0 {
      assert Zeros(0) + digits == digits;
    } else {
      assert (Zeros(k) + digits)[1..] == Zeros(k - 1) + digits;
      PaddedValue(k - 1, digits);
    }
  }

  lemma {:induction false} PaddedSkips(k: nat, digits: seq<Digit>)
    requires digits != [] && digits[0] != 0
    ensures SkipZeros(Zeros(k) + digits) == digits
  {
    if k == 0 {
      assert Zeros(0) + digits == digits;
    } else {
      assert (Zeros(k) + digits)[1..] == Zeros(k - 1) + digits;
      PaddedSkips(k - 1, digits);
    }
  }

  lemma ReverseTwice(digits: seq<Digit>)
    ensures Reverse(Reverse(digits)) == digits
  {
  }

  lemma {:induction false} HighFirstPositive(digits: seq<nat>)
    requires digits != [] && digits[0] != 0
    ensures HighFirst(digits) > 0
  {
    if |digits| > 1 {
      HighFirstPositive(digits[..|digits| - 1]);
    }
  }

  lemma LowDigitsOfShifted(digits: seq<Digit>, k: nat)
    requires digits != [] && digits[0] != 0
    ensures LowDigits(Shift(HighFirst(digits), k)) == Zeros(k) + Reverse(digits)
  {
    var reversed := Reverse(digits);
    ReverseTwice(digits);
    ReverseValue(reversed);
    PaddedValue(k, reversed);
    LowDigitsUnique(Zeros(k) + reversed);
  }

  lemma EncodingOfShifted(digits: seq<Digit>, k: nat)
    requires digits != [] && digits[0] != 0 && digits[|digits| - 1] != 0
    requires Shift(HighFirst(digits), k) < U128 && k + |digits| <= 0x8000
    ensures Encoding(Shift(HighFirst(digits), k)) == Positive(k + |digits| - 1, 0, digits)
  {
    LowDigitsOfShifted(digits, k);
    PaddedSkips(k, Reverse(digits));
    ReverseTwice(digits);
  }

  /** Every canonical NUMERIC in range comes back from its value digit for digit. */
  lemma EncodeDecoding(numeric: PgNumeric)
    requires Canonical(numeric) && Denoted(Digits(numeric.digits), numeric.weight) < U128
    ensures Decoding(numeric).Value?
    ensures Encoding(Decoding(numeric).value) == numeric
  {
    var digits: seq<Digit> := numeric.digits;
    var k := numeric.weight + 1 - |digits|;
    assert Digits(digits) == digits;
    DenotedIsShiftedMantissa(digits, numeric.weight);
    ShiftByTens(1, k);
    TenPowFits(4 * k);
    if digits != [] {
      HighFirstPositive(digits);
      ShiftAdds(1, HighFirst(digits) - 1, 0, k);
      EncodingOfShifted(digits, k);
    }
    DecoderExact(numeric.weight, digits, Shift(HighFirst(digits), k));
  }
}
