/**
 Amounts are whole hundredths of an EGP. An intermediate value that is not whole is kept as an exact
 fraction num/den of a hundredth and rounded where the services call toFixed(2).
 */
module Money {

  /**
   Number(x.toFixed(2)) for x = num/den hundredths: the nearest whole hundredth, the larger neighbour of
   a tie in absolute value (section 21.1.3.3 of ECMA-262).
   */
  function ToFixed(num: int, den: int): (r: int)
    requires den > 0
    ensures num >= 0 ==> -den < 2 * (r * den - num) <= den && r >= 0
    ensures num < 0 ==> -den <= 2 * (r * den - num) < den
  {
    if num >= 0 then
      HalfUpBounds(num, den);
      (2 * num + den) / (2 * den)
    else
      HalfUpBounds(-num, den);
      -((-2 * num + den) / (2 * den))
  }

  lemma HalfUpBounds(num: nat, den: int)
    requires den > 0
    ensures var q := (2 * num + den) / (2 * den); q >= 0 && -den < 2 * (q * den - num) <= den
    ensures var q := (2 * num + den) / (2 * den); -den < 2 * ((-q) * den + num) + den + den <= 3 * den
  {
    var x, d := 2 * num + den, 2 * den;
    var q := x / d;
    assert x == q * d + x % d;
    assert q * d == 2 * (q * den);
    assert (-q) * den == -(q * den);
  }

  /** The bounds ToFixed promises leave room for one value only. */
  lemma {:induction false} ToFixedUnique(num: int, den: int, r: int)
    requires den > 0
    requires if num >= 0 then -den < 2 * (r * den - num) <= den else -den <= 2 * (r * den - num) < den
    ensures r == ToFixed(num, den)
  {
    var q := ToFixed(num, den);
    if r > q {
      MulGap(r, q, den);
    } else if q > r {
      MulGap(q, r, den);
    }
  }

  lemma MulGap(a: int, b: int, d: int)
    requires d >= 0
    requires a > b
    ensures a * d >= b * d + d
  {
    assert (a - b - 1) * d >= 0;
  }

  /** A whole amount is its own rounding. */
  lemma {:induction false} ToFixedWhole(n: int, den: int)
    requires den > 0
    ensures ToFixed(n * den, den) == n
  {
    assert n >= 0 ==> n * den >= 0;
    assert n < 0 ==> n * den < 0;
    ToFixedUnique(n * den, den, n);
  }

  lemma {:induction false} ToFixedMonotone(a: int, b: int, den: int)
    requires den > 0 && 0 <= a <= b
    ensures ToFixed(a, den) <= ToFixed(b, den)
  {
    var x, y := ToFixed(a, den), ToFixed(b, den);
    if x > y {
      MulGap(x, y, den);
    }
  }

  function Sum(s: seq<int>): int {
    if |s| == 0 then 0 else Sum(s[..|s| - 1]) + s[|s| - 1]
  }

  lemma SumSnoc(s: seq<int>, x: int)
    ensures Sum(s + [x]) == Sum(s) + x
  {
    assert (s + [x])[..|s|] == s;
  }

  lemma SumTake(s: seq<int>, k: nat)
    requires k < |s|
    ensures Sum(s[..k + 1]) == Sum(s[..k]) + s[k]
  {
    assert s[..k + 1] == s[..k] + [s[k]];
    SumSnoc(s[..k], s[k]);
  }

  /** Sums respect a pointwise order, and one term never exceeds a sum of non-negative terms. */
  lemma {:induction false} SumMonotone(a: seq<int>, b: seq<int>)
    requires |a| == |b| && forall i :: 0 <= i < |a| ==> a[i] <= b[i]
    ensures Sum(a) <= Sum(b)
  {
    if |a| > 0 {
      SumMonotone(a[..|a| - 1], b[..|b| - 1]);
    }
  }

  lemma {:induction false} SumMember(s: seq<int>, i: nat)
    requires i < |s| && forall j :: 0 <= j < |s| ==> s[j] >= 0
    ensures 0 <= s[i] <= Sum(s)
  {
    SumNonNegative(s[..|s| - 1]);
    if i < |s| - 1 {
      SumMember(s[..|s| - 1], i);
    }
  }

  lemma {:induction false} SumNonNegative(s: seq<int>)
    requires forall j :: 0 <= j < |s| ==> s[j] >= 0
    ensures Sum(s) >= 0
  {
    if |s| > 0 {
      SumNonNegative(s[..|s| - 1]);
    }
  }

  /** Replacing one term moves the sum by the difference. */
  lemma {:induction false} SumUpdate(s: seq<int>, i: nat, x: int)
    requires i < |s|
    ensures Sum(s[i := x]) == Sum(s) - s[i] + x
  {
    var t := s[i := x];
    if i < |s| - 1 {
      assert t[..|s| - 1] == s[..|s| - 1][i := x];
      SumUpdate(s[..|s| - 1], i, x);
    } else {
      assert t[..|s| - 1] == s[..|s| - 1];
    }
  }

  /** Linear combination of two sums taken term by term. */
  lemma {:induction false} SumDifference(a: seq<int>, b: seq<int>, c: seq<int>)
    requires |a| == |b| == |c| && forall i :: 0 <= i < |a| ==> c[i] == a[i] - b[i]
    ensures Sum(c) == Sum(a) - Sum(b)
  {
    if |a| > 0 {
      SumDifference(a[..|a| - 1], b[..|a| - 1], c[..|a| - 1]);
    }
  }

  /** `amount` divided in proportion to `weights` out of `total`, each share rounded on its own. */
  function Shares(weights: seq<int>, amount: nat, total: int): (s: seq<int>)
    requires total > 0
    ensures |s| == |weights|
  {
    seq(|weights|, i requires 0 <= i < |weights| => ToFixed(weights[i] * amount, total))
  }

  lemma DriftStep(s: int, x: int, w: int, y: int, n: int, amount: int, total: int)
    requires -(n * total) <= 2 * (s * total - w * amount) <= n * total
    requires -total < 2 * (x * total - y * amount) <= total
    ensures -((n + 1) * total) <= 2 * ((s + x) * total - (w + y) * amount) <= (n + 1) * total
  {
    assert (s + x) * total == s * total + x * total;
    assert (w + y) * amount == w * amount + y * amount;
    assert (n + 1) * total == n * total + total;
  }

  /** Independent rounding drifts from the exact proportional amount by at most half a cent a share. */
  lemma {:induction false} SharesDrift(weights: seq<int>, amount: nat, total: int)
    requires total > 0 && forall i :: 0 <= i < |weights| ==> weights[i] >= 0
    ensures -(|weights| * total) <= 2 * (Sum(Shares(weights, amount, total)) * total - Sum(weights) * amount)
            <= |weights| * total
  {
    if |weights| > 0 {
      var n := |weights| - 1;
      var w, s := weights[..n], Shares(weights, amount, total);
      assert s[..n] == Shares(w, amount, total);
      SharesDrift(w, amount, total);
      assert weights[n] * amount >= 0;
      DriftStep(Sum(s[..n]), s[n], Sum(w), weights[n], n, amount, total);
    }
  }

  /** A share of an amount below the total lies between zero and its weight. */
  lemma {:induction false} ShareWithinWeight(weight: nat, amount: nat, total: int)
    requires total > 0 && amount <= total
    ensures 0 <= ToFixed(weight * amount, total) <= weight
  {
    assert 0 <= weight * amount <= weight * total;
    ToFixedMonotone(weight * amount, weight * total, total);
    ToFixedWhole(weight, total);
  }
}
