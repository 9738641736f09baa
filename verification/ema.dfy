/** The exponential moving average helper `MACDCrossover.ema` of macd.py.

    Python keeps the later of two `init` definitions in the class body, so the
    strategy actually takes its MACD lines from the `ta` package and this helper
    is never called; it is still a self-contained numeric routine. */
module Ema {
  import opened Values

  /** The two ways the helper raises: `2 / (n + 1)` with n == -1, and `arr[0]`
      on an empty array (the division comes first). */
  datatype EmaError = ZeroDivision | EmptyInput

  /** Smoothing factor alpha = 2 / (n + 1). */
  function Alpha(n: int): real
    requires n != -1
  {
    2.0 / (n as real + 1.0)
  }

  /** For any period n >= 1 the factor lies in (0, 1], and it is exactly 1 for n == 1. */
  lemma AlphaInUnitInterval(n: int)
    requires n >= 1
    ensures 0.0 < Alpha(n) <= 1.0
    ensures n == 1 ==> Alpha(n) == 1.0
  {
  }

  /** r is the exponential smoothing of arr with factor alpha: seeded with the
      first input, then each output mixes the current input with the previous
      output. */
  ghost predicate IsEma(r: seq<real>, arr: seq<real>, alpha: real)
  {
    && |arr| > 0
    && |r| == |arr|
    && r[0] == arr[0]
    && forall i :: 1 <= i < |arr| ==> r[i] == alpha * arr[i] + (1.0 - alpha) * r[i - 1]
  }

  /** The helper itself: one pass over the input, filling the output array. */
  method ComputeEma(arr: seq<real>, n: int) returns (r: Result<seq<real>, EmaError>)
    ensures n == -1 <==> r == Failure(ZeroDivision)
    ensures n != -1 && |arr| == 0 <==> r == Failure(EmptyInput)
    ensures r.Success? ==> n != -1 && IsEma(r.value, arr, Alpha(n))
  {
    if n == -1 {
      return Failure(ZeroDivision);
    }
    var alpha := Alpha(n);
    if |arr| == 0 {
      return Failure(EmptyInput);
    }
    var out := [arr[0]];
    for i := 1 to |arr|
      invariant |out| == i
      invariant out[0] == arr[0]
      invariant forall j :: 1 <= j < i ==> out[j] == alpha * arr[j] + (1.0 - alpha) * out[j - 1]
    {
      out := out + [alpha * arr[i] + (1.0 - alpha) * out[i - 1]];
    }
    return Success(out);
  }

  /** The recurrence leaves no freedom: two smoothings of the same input agree. */
  lemma {:induction false} EmaUnique(r1: seq<real>, r2: seq<real>, arr: seq<real>, alpha: real)
    requires IsEma(r1, arr, alpha) && IsEma(r2, arr, alpha)
    ensures r1 == r2
  {
    forall i | 0 <= i < |arr|
      ensures r1[i] == r2[i]
    {
      EmaUniqueUpTo(r1, r2, arr, alpha, i);
    }
  }

  lemma {:induction false} EmaUniqueUpTo(r1: seq<real>, r2: seq<real>, arr: seq<real>, alpha: real, i: nat)
    requires IsEma(r1, arr, alpha) && IsEma(r2, arr, alpha)
    requires i < |arr|
    ensures r1[i] == r2[i]
    decreases i
  {
    if i > 0 {
      EmaUniqueUpTo(r1, r2, arr, alpha, i - 1);
    }
  }

  /** With a period of 1 the factor is 1 and the average is the input itself. */
  lemma EmaPeriodOneIsIdentity(r: seq<real>, arr: seq<real>)
    requires IsEma(r, arr, Alpha(1))
    ensures r == arr
  {
    assert Alpha(1) == 1.0;
    forall i | 0 <= i < |arr|
      ensures r[i] == arr[i]
    {
      if i > 0 {
        assert r[i] == Alpha(1) * arr[i] + (1.0 - Alpha(1)) * r[i - 1];
      }
    }
  }

  /** Nonlinear step the solver does not take on its own inside MixBetween. */
  lemma MulNonNegative(a: real, b: real)
    requires a >= 0.0 && b >= 0.0
    ensures a * b >= 0.0
  {
  }

  /** One smoothing step stays between any bounds that hold of both its inputs. */
  lemma MixBetween(alpha: real, x: real, y: real, lo: real, hi: real)
    requires 0.0 <= alpha <= 1.0
    requires lo <= x <= hi && lo <= y <= hi
    ensures lo <= alpha * x + (1.0 - alpha) * y <= hi
  {
    MulNonNegative(alpha, x - lo);
    MulNonNegative(1.0 - alpha, y - lo);
    MulNonNegative(alpha, hi - x);
    MulNonNegative(1.0 - alpha, hi - y);
    assert alpha * x + (1.0 - alpha) * y - lo == alpha * (x - lo) + (1.0 - alpha) * (y - lo);
    assert hi - (alpha * x + (1.0 - alpha) * y) == alpha * (hi - x) + (1.0 - alpha) * (hi - y);
  }

  /** Each output is a convex combination of the inputs seen so far, so it lies
      within any bounds of arr[0..i] (in particular between their minimum and
      maximum). */
  lemma {:induction false} EmaBounded(r: seq<real>, arr: seq<real>, alpha: real, i: nat, lo: real, hi: real)
    requires 0.0 < alpha <= 1.0
    requires IsEma(r, arr, alpha)
    requires i < |arr|
    requires forall j :: 0 <= j <= i ==> lo <= arr[j] <= hi
    ensures lo <= r[i] <= hi
    decreases i
  {
    if i > 0 {
      EmaBounded(r, arr, alpha, i - 1, lo, hi);
      MixBetween(alpha, arr[i], r[i - 1], lo, hi);
    }
  }

  /** A constant input has a constant average, for every period the helper
      accepts: each step mixes c with c, whatever the factor. */
  lemma EmaOfConstant(r: seq<real>, arr: seq<real>, n: int, c: real)
    requires n != -1
    requires IsEma(r, arr, Alpha(n))
    requires forall j :: 0 <= j < |arr| ==> arr[j] == c
    ensures forall i :: 0 <= i < |r| ==> r[i] == c
  {
    forall i | 0 <= i < |r|
      ensures r[i] == c
    {
      EmaOfConstantUpTo(r, arr, Alpha(n), c, i);
    }
  }

  lemma {:induction false} EmaOfConstantUpTo(r: seq<real>, arr: seq<real>, alpha: real, c: real, i: nat)
    requires IsEma(r, arr, alpha)
    requires forall j :: 0 <= j < |arr| ==> arr[j] == c
    requires i < |arr|
    ensures r[i] == c
    decreases i
  {
    if i > 0 {
      EmaOfConstantUpTo(r, arr, alpha, c, i - 1);
      assert r[i] == alpha * c + (1.0 - alpha) * c;
    }
  }
}
