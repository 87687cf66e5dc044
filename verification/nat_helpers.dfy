/**
 * The backend's arithmetic helpers on unbounded naturals (`candid::Nat`).
 * Their source file is not part of this model; each is given the meaning
 * its name and its call sites rely on.
 */
module NatHelpers {
  import opened Wrappers

  /** 10 to the power `k`. */
  function Pow10(k: nat): (p: nat)
    ensures p >= 1
  {
    if k == 0 then 1 else 10 * Pow10(k - 1)
  }

  /** `nat_subtract`: `a - b`, or `None` when that would go below zero. */
  function NatSubtract(a: nat, b: nat): (r: Option<nat>)
    ensures r.Some? <==> b <= a
    ensures r.Some? ==> r.value + b == a
  {
    if b <= a then Some(a - b) else None
  }

  /** `nat_subtract(a, b).unwrap_or(nat_zero())`: subtraction saturating at zero. */
  function SaturatingSub(a: nat, b: nat): (r: nat)
    ensures r <= a
    ensures b <= a ==> r + b == a
    ensures a < b ==> r == 0
  {
    NatSubtract(a, b).GetOr(0)
  }

  /** `nat_divide`: floor division, `None` on a zero divisor. */
  function NatDivide(n: nat, d: nat): (r: Option<nat>)
    ensures r.Some? <==> d != 0
    ensures r.Some? ==> r.value * d <= n < (r.value + 1) * d
  {
    if d == 0 then None
    else
      DivBounds(n, d);
      Some(n / d)
  }

  /** Floor division brackets `n` between two consecutive multiples of `d`. */
  lemma DivBounds(n: nat, d: nat)
    requires d > 0
    ensures n / d >= 0
    ensures (n / d) * d <= n < (n / d) * d + d
    ensures n < (n / d + 1) * d
  {
    var q := n / d;
    assert n == q * d + n % d;
    Distribute(q, 1, d);
  }

  /** Products of naturals associate. */
  lemma MulAssoc(a: nat, b: nat, c: nat)
    ensures a * (b * c) == (a * b) * c
  {
  }

  /**
   * `nat_to_decimal_precision`: re-expresses an amount held with `from`
   * decimals in `to` decimals, multiplying by 10^(to-from) when gaining
   * precision and truncating when losing it.
   */
  function ToDecimalPrecision(n: nat, from: nat, to: nat): (r: nat)
    ensures from <= to ==> r == n * Pow10(to - from)
    ensures to < from ==> r * Pow10(from - to) <= n < (r + 1) * Pow10(from - to)
  {
    if from <= to then n * Pow10(to - from)
    else
      DivBounds(n, Pow10(from - to));
      n / Pow10(from - to)
  }

  /** `nat_sqrt`: the floor of the square root. */
  function NatSqrt(n: nat): (r: nat)
    ensures r * r <= n < (r + 1) * (r + 1)
    decreases n
  {
    if n < 4 then (if n == 0 then 0 else 1)
    else
      var h := NatSqrt(n / 4);
      var c := 2 * h + 1;
      SqrtStep(n, h);
      if c * c <= n then c else 2 * h
  }

  /** The doubling step of `NatSqrt`: from the root of n/4 to two candidates for n. */
  lemma SqrtStep(n: nat, h: nat)
    requires h * h <= n / 4 < (h + 1) * (h + 1)
    ensures (2 * h) * (2 * h) <= n < (2 * h + 2) * (2 * h + 2)
  {
    var q := n / 4;
    assert (2 * h) * (2 * h) == 4 * (h * h);
    assert (2 * h + 2) * (2 * h + 2) == 4 * ((h + 1) * (h + 1));
    assert q + 1 <= (h + 1) * (h + 1);
    assert n < 4 * q + 4;
  }

  /** The floor square root is the unique `r` with r^2 <= n < (r+1)^2. */
  lemma SqrtUnique(n: nat, r: nat)
    requires r * r <= n < (r + 1) * (r + 1)
    ensures NatSqrt(n) == r
  {
    var s := NatSqrt(n);
    if s < r {
      MulMono(s + 1, r);
      assert false;
    } else if r < s {
      MulMono(r + 1, s);
      assert false;
    }
  }

  /** Squaring is monotone on naturals. */
  lemma MulMono(a: nat, b: nat)
    requires a <= b
    ensures a * a <= b * b
  {
    assert a * a <= a * b <= b * b;
  }

  /** Multiplying by a positive factor and dividing by it again is the identity. */
  lemma MulDivCancel(n: nat, p: nat)
    requires p > 0
    ensures (n * p) / p == n
  {
    var m := n * p;
    var q := m / p;
    var r := m % p;
    assert m == q * p + r;
    if q < n {
      var d := n - q;
      Distribute(q, d, p);
      assert r == d * p;
      MulAtLeast(d, p);
      assert false;
    } else if n < q {
      var d := q - n;
      Distribute(n, d, p);
      assert 0 == d * p + r;
      MulAtLeast(d, p);
      assert false;
    }
  }

  lemma Distribute(a: nat, d: nat, p: nat)
    ensures (a + d) * p == a * p + d * p
  {
  }

  lemma MulAtLeast(d: nat, p: nat)
    requires d >= 1
    ensures d * p >= p
  {
  }

  /** Rescaling up to more decimals and back down again is the identity. */
  lemma PrecisionRoundTrip(n: nat, from: nat, to: nat)
    requires from <= to
    ensures ToDecimalPrecision(ToDecimalPrecision(n, from, to), to, from) == n
  {
    if from < to {
      MulDivCancel(n, Pow10(to - from));
    }
  }

  /** Floor division is the unique `q` with q*d <= n < (q+1)*d. */
  lemma DivUnique(n: nat, d: nat, q: nat)
    requires d > 0
    requires q * d <= n < (q + 1) * d
    ensures n / d == q
  {
    var q' := n / d;
    var r := n % d;
    assert n == q' * d + r;
    if q' < q {
      assert q' + 1 <= q;
      MulLe(q' + 1, q, d);
      Distribute(q', 1, d);
      assert false;
    } else if q < q' {
      assert q + 1 <= q';
      MulLe(q + 1, q', d);
      assert false;
    }
  }

  lemma MulLe(a: nat, b: nat, d: nat)
    requires a <= b
    ensures a * d <= b * d
  {
  }

  /** Scaling numerator and divisor by the same positive factor leaves the quotient alone. */
  lemma DivScaled(x: nat, y: nat, p: nat)
    requires y > 0 && p > 0
    ensures (x * p) / (y * p) == x / y
  {
    var q := x / y;
    DivBounds(x, y);
    MulLe(q * y, x, p);
    MulLe(x + 1, (q + 1) * y, p);
    Distribute(x, 1, p);
    MulAssoc(q, y, p);
    MulAssoc(q + 1, y, p);
    DivUnique(x * p, y * p, q);
  }

  /** Rescaling between equal precisions is the identity. */
  lemma SamePrecision(n: nat, d: nat)
    ensures ToDecimalPrecision(n, d, d) == n
  {
  }
}
