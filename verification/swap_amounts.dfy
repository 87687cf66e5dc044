/**
 * The amount helpers of the client's `SwapService`: converting a typed
 * decimal amount to a token's base units and back, and the largest amount
 * a user can send once ledger fees are kept back. Decimal values are
 * `real`s, standing for the exact values BigNumber computes with.
 */
module SwapAmounts {
  import opened Wrappers
  import opened NatHelpers

  /** BigNumber's `DECIMAL_PLACES`: divisions keep 36 fractional digits, rounding toward zero. */
  const DIVISION_PLACES: nat := 36

  /**
   * The text a user typed, as the two parsers involved see it: empty;
   * rejected by `Number`; a decimal both accept, with its value; or text
   * `Number` accepts but BigNumber does not (such as blanks only).
   */
  datatype AmountText = Empty | NotANumber | Decimal(value: real) | NumberOnly

  /** 10^d as a real. */
  function Scale(d: nat): (r: real)
    ensures r >= 1.0
  {
    Pow10Positive(d);
    Pow10(d) as real
  }

  lemma {:induction false} Pow10Positive(d: nat)
    ensures Pow10(d) >= 1
  {
    if d > 0 {
      Pow10Positive(d - 1);
    }
  }

  /** Dividing by what was multiplied in gives the value back. */
  lemma MulThenDiv(v: real, s: real)
    requires s > 0.0
    ensures (v * s) / s == v
  {
  }

  /** Multiplying by what was divided out gives the value back. */
  lemma DivThenMul(a: real, s: real)
    requires s > 0.0
    ensures (a / s) * s == a
  {
  }

  /** A non-negative value divided by a positive one stays non-negative. */
  lemma DivNonneg(a: real, s: real)
    requires s > 0.0
    ensures a >= 0.0 ==> a / s >= 0.0
  {
  }

  /** `v` scaled to base units. */
  function InBaseUnits(v: real, decimals: nat): real {
    v * Scale(decimals)
  }

  /** `x` has no fractional part. */
  predicate IsInteger(x: real) {
    x.Floor as real == x
  }

  /**
   * `toBigInt`: empty or non-numeric text gives 0; otherwise the value is
   * scaled to base units, and `BigInt` refuses a result with a fractional
   * part (too many decimals typed) or a value BigNumber cannot read.
   */
  function ToBigInt(amount: AmountText, decimals: nat): (r: Result<int, string>)
    ensures amount.Empty? || amount.NotANumber? ==> r == Ok(0)
    ensures amount.NumberOnly? ==> r.Err?
    ensures amount.Decimal? ==> (r.Ok? <==> IsInteger(InBaseUnits(amount.value, decimals)))
    ensures amount.Decimal? && r.Ok? ==> r.value as real / Scale(decimals) == amount.value
  {
    match amount
    case Empty => Ok(0)
    case NotANumber => Ok(0)
    case NumberOnly => Err("Cannot convert to a BigInt")
    case Decimal(v) =>
      var x := InBaseUnits(v, decimals);
      if IsInteger(x) then
        MulThenDiv(v, Scale(decimals));
        Ok(x.Floor)
      else Err("Cannot convert to a BigInt")
  }

  /** Integer division rounding toward zero, as BigNumber's `ROUND_DOWN`. */
  function DivTowardZero(a: int, b: int): (q: int)
    requires b > 0
    ensures a >= 0 ==> q >= 0 && q * b <= a < q * b + b
    ensures a < 0 ==> q * b - b < a <= q * b
  {
    if a >= 0 then
      DivBounds(a, b);
      a / b
    else
      DivBounds(-a, b);
      NegMul((-a) / b, b);
      -((-a) / b)
  }

  lemma NegMul(k: int, b: int)
    ensures (-k) * b == -(k * b)
  {
  }

  /**
   * `fromBigInt`: the base-unit amount divided by 10^decimals, kept to 36
   * fractional digits. The division cannot give NaN or throw for a
   * `bigint`, so the "0" fallbacks never apply.
   */
  function FromBigInt(amount: int, decimals: nat): (r: real)
    ensures decimals <= DIVISION_PLACES ==> r * Scale(decimals) == amount as real
    ensures amount >= 0 ==> r >= 0.0
  {
    if decimals <= DIVISION_PLACES then
      DivThenMul(amount as real, Scale(decimals));
      amount as real / Scale(decimals)
    else Truncated(amount, decimals, DIVISION_PLACES)
  }

  /** `amount / 10^decimals` kept to `places` fractional digits, rounding toward zero. */
  function Truncated(amount: int, decimals: nat, places: nat): (r: real)
    ensures amount >= 0 ==> r >= 0.0
  {
    Pow10Positive(decimals);
    Pow10Positive(places);
    var n := amount * Pow10(places);
    assert amount >= 0 ==> n >= 0 by {
      if amount >= 0 {
        MulLe(0, amount, Pow10(places));
      }
    }
    var q := DivTowardZero(n, Pow10(decimals));
    DivNonneg(q as real, Scale(places));
    q as real / Scale(places)
  }

  /** A base-unit amount survives the trip to decimal text and back. */
  lemma FromThenTo(amount: int, decimals: nat)
    requires decimals <= DIVISION_PLACES
    ensures ToBigInt(Decimal(FromBigInt(amount, decimals)), decimals) == Ok(amount)
  {
    var x := InBaseUnits(FromBigInt(amount, decimals), decimals);
    assert x == amount as real;
    assert x.Floor == amount;
  }

  /** A decimal amount that converts to base units converts back to itself. */
  lemma ToThenFrom(v: real, decimals: nat)
    requires decimals <= DIVISION_PLACES
    requires ToBigInt(Decimal(v), decimals).Ok?
    ensures FromBigInt(ToBigInt(Decimal(v), decimals).value, decimals) == v
  {
  }

  /**
   * The fee kept back by `calculateMaxAmount`: the token's fee in whole
   * units (0 when absent), once for an ICRC-1 transfer and twice otherwise
   * (approve and transfer-from). The division is BigNumber's, so beyond
   * `DIVISION_PLACES` decimals it truncates as `FromBigInt` does.
   */
  function GasFee(fee: Option<nat>, decimals: nat, is_icrc1: bool): (g: real)
    ensures g >= 0.0
    ensures fee.None? ==> g == 0.0
    ensures fee.Some? && decimals <= DIVISION_PLACES ==>
      g == (if is_icrc1 then 1.0 else 2.0) * (fee.value as real / Scale(decimals))
    ensures fee.Some? ==> g == (if is_icrc1 then 1.0 else 2.0) * FromBigInt(fee.value, decimals)
  {
    var base := if fee.Some? && fee.value != 0 then FromBigInt(fee.value, decimals) else 0.0;
    if is_icrc1 then base else base * 2.0
  }

  /** `calculateMaxAmount`: the balance less the fee kept back, never below zero. */
  function CalculateMaxAmount(fee: Option<nat>, balance: real, decimals: nat, is_icrc1: bool): (r: real)
    ensures r >= 0.0
    ensures balance >= GasFee(fee, decimals, is_icrc1) ==> r + GasFee(fee, decimals, is_icrc1) == balance
    ensures balance < GasFee(fee, decimals, is_icrc1) ==> r == 0.0
  {
    var maxAmount := balance - GasFee(fee, decimals, is_icrc1);
    if maxAmount > 0.0 then maxAmount else 0.0
  }

  /** A larger balance never allows a smaller maximum, and the maximum never exceeds a non-negative balance. */
  lemma MaxAmountMonotone(fee: Option<nat>, b1: real, b2: real, decimals: nat, is_icrc1: bool)
    requires b1 <= b2
    ensures CalculateMaxAmount(fee, b1, decimals, is_icrc1) <= CalculateMaxAmount(fee, b2, decimals, is_icrc1)
    ensures b1 >= 0.0 ==> CalculateMaxAmount(fee, b1, decimals, is_icrc1) <= b1
  {
  }
}
