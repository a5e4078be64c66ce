/** Exact arithmetic helpers used by the simulation: Python's `min`, `max`,
    `**` with a natural exponent, `round(x, 2)`, `round(x, 3)` and the running total
    that pandas computes with `cumsum`. Amounts are exact reals. */
module Numeric {

  /** Python's `min(a, b)`: the first argument unless the second is smaller. */
  function Min(a: real, b: real): real {
    if b < a then b else a
  }

  /** Python's `max(a, b)`: the first argument unless the second is larger. */
  function Max(a: real, b: real): real {
    if b > a then b else a
  }

  /** `b ** n` for a natural exponent. */
  function Pow(b: real, n: nat): real {
    if n == 0 then 1.0 else b * Pow(b, n - 1)
  }

  lemma {:induction false} PowOfOne(n: nat)
    ensures Pow(1.0, n) == 1.0
  {
    if n > 0 {
      PowOfOne(n - 1);
    }
  }

  /** For a base of at least one, a larger exponent gives a larger power. */
  lemma {:induction false} PowMonotone(b: real, m: nat, n: nat)
    requires b >= 1.0 && m <= n
    ensures 1.0 <= Pow(b, m) <= Pow(b, n)
    decreases n
  {
    if n > 0 {
      if m == n {
        PowMonotone(b, m - 1, n - 1);
      } else {
        PowMonotone(b, m, n - 1);
      }
      var q := Pow(b, n - 1);
      assert b * q - q == (b - 1.0) * q;
      assert (b - 1.0) * q >= 0.0;
    }
  }

  /** For a base between zero and one, every power stays between zero and
      one. */
  lemma {:induction false} PowAtMostOne(b: real, n: nat)
    requires 0.0 <= b <= 1.0
    ensures 0.0 <= Pow(b, n) <= 1.0
  {
    if n > 0 {
      PowAtMostOne(b, n - 1);
      var q := Pow(b, n - 1);
      assert q - b * q == (1.0 - b) * q;
      assert (1.0 - b) * q >= 0.0;
      assert b * q >= 0.0;
    }
  }

  /** The integer nearest to `y`, ties going to the even one. */
  function NearestEven(y: real): (k: int)
    ensures -0.5 <= k as real - y <= 0.5
    ensures (k as real - y == 0.5 || k as real - y == -0.5) ==> k % 2 == 0
  {
    var f := y.Floor;
    var frac := y - f as real;
    if frac > 0.5 then f + 1
    else if frac < 0.5 then f
    else if f % 2 == 0 then f else f + 1
  }

  /** `y` has no fractional part. */
  predicate IsWhole(y: real) {
    y.Floor as real == y
  }

  /** Python's `round(x, 2)` on an exact value: a whole number of hundredths,
      at most half a hundredth away from `x`, and on a tie the one whose last
      digit is even. */
  function Round2(x: real): (r: real)
    ensures -0.005 <= r - x <= 0.005
    ensures IsWhole(r * 100.0)
    ensures (r - x == 0.005 || r - x == -0.005) ==> (r * 100.0).Floor % 2 == 0
  {
    NearestEven(x * 100.0) as real / 100.0
  }

  /** Python's `round(x, 3)` on an exact value, in thousandths. */
  function Round3(x: real): (r: real)
    ensures -0.0005 <= r - x <= 0.0005
    ensures IsWhole(r * 1000.0)
    ensures (r - x == 0.0005 || r - x == -0.0005) ==> (r * 1000.0).Floor % 2 == 0
  {
    NearestEven(x * 1000.0) as real / 1000.0
  }

  /** The sum of a sequence, taken from the front to the back. */
  function Sum(xs: seq<real>): real {
    if xs == [] then 0.0 else Sum(xs[..|xs| - 1]) + xs[|xs| - 1]
  }

  /** Appending a value adds it to the sum. */
  lemma SumAppend(xs: seq<real>, x: real)
    ensures Sum(xs + [x]) == Sum(xs) + x
  {
    assert (xs + [x])[..|xs|] == xs;
  }

  lemma {:induction false} SumFront(xs: seq<real>, k: nat)
    requires k < |xs|
    ensures Sum(xs[..k + 1]) == xs[0] + Sum(xs[1..k + 1])
  {
    assert xs[..k + 1][..k] == xs[..k];
    if k > 0 {
      SumFront(xs, k - 1);
      assert xs[1..k + 1][..k - 1] == xs[1..k];
    } else {
      assert xs[..0] == [];
    }
  }

  /** The running totals of `xs`, starting from `acc` (pandas' `cumsum` for
      `acc == 0.0`). */
  function RunningTotals(acc: real, xs: seq<real>): (r: seq<real>)
    ensures |r| == |xs|
    decreases xs
  {
    if xs == [] then [] else [acc + xs[0]] + RunningTotals(acc + xs[0], xs[1..])
  }

  /** pandas' `cumsum`: entry `k` is the sum of the first `k + 1` values. */
  function CumulativeSum(xs: seq<real>): (r: seq<real>)
    ensures |r| == |xs|
  {
    RunningTotals(0.0, xs)
  }

  lemma {:induction false} RunningTotalsArePrefixSums(acc: real, xs: seq<real>, k: nat)
    requires k < |xs|
    ensures RunningTotals(acc, xs)[k] == acc + Sum(xs[..k + 1])
    decreases k
  {
    SumFront(xs, k);
    if k == 0 {
      assert xs[1..1] == [];
    } else {
      RunningTotalsArePrefixSums(acc + xs[0], xs[1..], k - 1);
      assert xs[1..][..k] == xs[1..k + 1];
    }
  }

  lemma CumulativeSumIsPrefixSum(xs: seq<real>)
    ensures forall k :: 0 <= k < |xs| ==> CumulativeSum(xs)[k] == Sum(xs[..k + 1])
    ensures |xs| > 0 ==> CumulativeSum(xs)[|xs| - 1] == Sum(xs)
  {
    forall k | 0 <= k < |xs|
      ensures CumulativeSum(xs)[k] == Sum(xs[..k + 1])
    {
      RunningTotalsArePrefixSums(0.0, xs, k);
    }
    if |xs| > 0 {
      assert xs[..|xs|] == xs;
    }
  }
}
