/** The simple-average RSI that `RSIMeanReversion.init` computes with pandas
    (main.py): price differences, split into gains and losses, averaged over a
    rolling window of n bars, then turned into 100 - 100 / (1 + RS). */
module RsiIndicator {
  import opened Values

  /** `close.diff().where(delta > 0, 0)` at bar i. The difference at bar 0 is
      NaN, which fails the test and is replaced by 0. */
  function Gain(close: seq<real>, i: nat): (g: real)
    requires i < |close|
    ensures g >= 0.0
  {
    if i == 0 then 0.0
    else if close[i] - close[i - 1] > 0.0 then close[i] - close[i - 1]
    else 0.0
  }

  /** `-close.diff().where(delta < 0, 0)` at bar i; 0 at bar 0 as for gains. */
  function Loss(close: seq<real>, i: nat): (l: real)
    requires i < |close|
    ensures l >= 0.0
  {
    if i == 0 then 0.0
    else if close[i] - close[i - 1] < 0.0 then -(close[i] - close[i - 1])
    else 0.0
  }

  /** Gain and loss split the price change: at most one of them is non-zero and
      their difference is the change itself; at bar 0 both are 0. */
  lemma GainLossSplitChange(close: seq<real>, i: nat)
    requires i < |close|
    ensures i == 0 ==> Gain(close, i) == 0.0 && Loss(close, i) == 0.0
    ensures i > 0 ==> Gain(close, i) - Loss(close, i) == close[i] - close[i - 1]
    ensures Gain(close, i) == 0.0 || Loss(close, i) == 0.0
  {
  }

  function Gains(close: seq<real>): (g: seq<real>)
    ensures |g| == |close|
    ensures forall i :: 0 <= i < |g| ==> g[i] >= 0.0
  {
    seq(|close|, i requires 0 <= i < |close| => Gain(close, i))
  }

  function Losses(close: seq<real>): (l: seq<real>)
    ensures |l| == |close|
    ensures forall i :: 0 <= i < |l| ==> l[i] >= 0.0
  {
    seq(|close|, i requires 0 <= i < |close| => Loss(close, i))
  }

  function Sum(xs: seq<real>): real
  {
    if |xs| == 0 then 0.0 else xs[0] + Sum(xs[1..])
  }

  lemma {:induction false} SumNonNegative(xs: seq<real>)
    requires forall k :: 0 <= k < |xs| ==> xs[k] >= 0.0
    ensures Sum(xs) >= 0.0
  {
    if |xs| > 0 {
      SumNonNegative(xs[1..]);
    }
  }

  lemma {:induction false} SumOfZeros(xs: seq<real>)
    requires forall k :: 0 <= k < |xs| ==> xs[k] == 0.0
    ensures Sum(xs) == 0.0
  {
    if |xs| > 0 {
      SumOfZeros(xs[1..]);
    }
  }

  lemma {:induction false} SumPositive(xs: seq<real>, k: nat)
    requires forall j :: 0 <= j < |xs| ==> xs[j] >= 0.0
    requires k < |xs| && xs[k] > 0.0
    ensures Sum(xs) > 0.0
  {
    if k == 0 {
      SumNonNegative(xs[1..]);
    } else {
      SumPositive(xs[1..], k - 1);
    }
  }

  /** The n values ending at bar i. */
  function Window(xs: seq<real>, n: nat, i: nat): (w: seq<real>)
    requires 1 <= n <= i + 1 && i < |xs|
    ensures |w| == n
    ensures forall j :: 0 <= j < n ==> w[j] == xs[i + 1 - n + j]
  {
    xs[i + 1 - n .. i + 1]
  }

  /** `xs.rolling(window=n, min_periods=n).mean()` at bar i, for a series
      without NaN: undefined until n values are available, then the mean of the
      last n. */
  function RollingMean(xs: seq<real>, n: nat, i: nat): (m: Option<real>)
    requires n >= 1 && i < |xs|
    ensures m.None? <==> i + 1 < n
    ensures m.Some? ==> m.value * (n as real) == Sum(Window(xs, n, i))
    ensures m.Some? && (forall k :: 0 <= k < |xs| ==> xs[k] >= 0.0) ==> m.value >= 0.0
  {
    if i + 1 < n then None
    else
      WindowSumNonNegative(xs, n, i);
      Some(Sum(Window(xs, n, i)) / n as real)
  }

  /** Over a non-negative series every window sums to a non-negative value. */
  lemma WindowSumNonNegative(xs: seq<real>, n: nat, i: nat)
    requires 1 <= n <= i + 1 && i < |xs|
    ensures (forall k :: 0 <= k < |xs| ==> xs[k] >= 0.0) ==> Sum(Window(xs, n, i)) >= 0.0
  {
    if forall k :: 0 <= k < |xs| ==> xs[k] >= 0.0 {
      SumNonNegative(Window(xs, n, i));
    }
  }

  function AvgGain(close: seq<real>, n: nat, i: nat): (g: Option<real>)
    requires n >= 1 && i < |close|
    ensures g.None? <==> i + 1 < n
    ensures g.Some? ==> g.value >= 0.0
  {
    RollingMean(Gains(close), n, i)
  }

  function AvgLoss(close: seq<real>, n: nat, i: nat): (l: Option<real>)
    requires n >= 1 && i < |close|
    ensures l.None? <==> i + 1 < n
    ensures l.Some? ==> l.value >= 0.0
  {
    RollingMean(Losses(close), n, i)
  }

  /** `100 - 100 / (1 + avg_gain / avg_loss)` with pandas' float division:
      g / 0 is +inf for g > 0 (so the RSI is 100) and 0 / 0 is NaN. The result
      is the gain's share of all movement, scaled to 0..100, and it is defined
      exactly when both averages are defined and not both zero. */
  function RsiValue(g: Option<real>, l: Option<real>): (r: Option<real>)
    requires g.Some? ==> g.value >= 0.0
    requires l.Some? ==> l.value >= 0.0
    ensures r.Some? <==> g.Some? && l.Some? && g.value + l.value > 0.0
    ensures r.Some? ==> r.value == 100.0 * g.value / (g.value + l.value)
    ensures r.Some? ==> 0.0 <= r.value <= 100.0
  {
    if g.None? || l.None? then None
    else if l.value > 0.0 then
      RsiFormula(g.value, l.value);
      Some(100.0 - 100.0 / (1.0 + g.value / l.value))
    else if g.value > 0.0 then Some(100.0)
    else None
  }

  lemma CancelFactor(a: real, b: real)
    requires b != 0.0
    ensures (a * b) / b == a
  {
  }

  lemma Quotient(x: real, y: real, b: real)
    requires b != 0.0 && x * b == y
    ensures x == y / b
  {
  }

  lemma RsiFormula(g: real, l: real)
    requires g >= 0.0 && l > 0.0
    ensures 100.0 - 100.0 / (1.0 + g / l) == 100.0 * g / (g + l)
    ensures 0.0 <= 100.0 * g / (g + l) <= 100.0
  {
    var s := g + l;
    var d := 1.0 + g / l;
    CancelFactor(g, l);
    assert d * l == s by {
      assert (g / l) * l == g;
    }
    assert d == s / l;
    var t := 100.0 / d;
    assert t * s == 100.0 * l;
    assert t == 100.0 * l / s;
    assert (100.0 - t) * s == 100.0 * g;
    Quotient(100.0 - t, 100.0 * g, s);
    Quotient(1.0, s, s);
    assert 100.0 * g <= 100.0 * s;
  }

  /** The RSI series of the strategy: aligned with the closes, undefined during
      the first n - 1 bars, and within 0..100 wherever it is defined. */
  function Rsi(close: seq<real>, n: nat): (r: seq<Option<real>>)
    requires n >= 1
    ensures |r| == |close|
    ensures forall i :: 0 <= i < |r| && i + 1 < n ==> r[i].None?
    ensures forall i :: 0 <= i < |r| && r[i].Some? ==> 0.0 <= r[i].value <= 100.0
  {
    seq(|close|, i requires 0 <= i < |close| => RsiValue(AvgGain(close, n, i), AvgLoss(close, n, i)))
  }

  predicate StrictlyIncreasing(close: seq<real>)
  {
    forall j :: 1 <= j < |close| ==> close[j - 1] < close[j]
  }

  /** On strictly rising closes there are no losses, so the RSI is exactly 100
      at every bar from the first full window on, except when that window holds
      only bar 0 (period 1), where 0 / 0 leaves it undefined. */
  lemma RsiOnRisingPrices(close: seq<real>, n: nat, i: nat)
    requires n >= 1 && i < |close|
    requires StrictlyIncreasing(close)
    ensures Rsi(close, n)[i] == if i + 1 >= n && i >= 1 then Some(100.0) else None
  {
    if i + 1 >= n {
      var wl := Window(Losses(close), n, i);
      SumOfZeros(wl);
      assert AvgLoss(close, n, i) == Some(0.0);
      var wg := Window(Gains(close), n, i);
      if i >= 1 {
        assert wg[n - 1] == Gain(close, i) > 0.0;
        SumPositive(wg, n - 1);
      } else {
        SumOfZeros(wg);
      }
    }
  }

  /** A flat price series never moves, so its RSI is undefined everywhere. */
  lemma RsiOnConstantPrices(close: seq<real>, n: nat, i: nat)
    requires n >= 1 && i < |close|
    requires forall j :: 0 <= j < |close| ==> close[j] == close[0]
    ensures Rsi(close, n)[i].None?
  {
    if i + 1 >= n {
      SumOfZeros(Window(Losses(close), n, i));
      SumOfZeros(Window(Gains(close), n, i));
    }
  }
}
