# Forex strategy decisions, modelled in Dafny

The repository holds three trading strategies for EUR/USD written against the
`backtesting.py` library: an RSI mean-reversion strategy (main.py), a MACD
crossover strategy (macd.py) and a trend-filtered RSI strategy with an ATR
stop-loss (trendfilteredrsi.py). The backtest engine, its order matching and its
metrics live in that library; what the repository itself contributes is the
indicator arithmetic it writes out by hand and the per-bar decision logic of
each strategy's `next`. This project models exactly that:

- `Values` — pandas floats as `Option<real>`: NaN is `None`, and every
  comparison with NaN is false (`Lt`, `Gt`).
- `Trading` — the exclusive position (`Flat | Long | Short`), the one action a
  bar produces (`NoOrder | Buy(stop) | Sell(stop) | Close`) and the strict
  two-bar crossover test.
- `Ema` — the `MACDCrossover.ema` helper, including the two ways it raises.
- `RsiIndicator` — the simple-average RSI of `RSIMeanReversion.init`: price
  differences, gains and losses, rolling means with `min_periods = n`, and
  `100 - 100 / (1 + RS)` with pandas' division (g/0 is +inf, 0/0 is NaN) made
  explicit.
- `RsiMeanReversion`, `MacdCrossover`, `TrendFilteredRsi` — one pure `Decide`
  per strategy, from the position and the current (and previous) indicator
  values to exactly one action.

Notes on the source:

- macd.py defines `init` and `next` twice in the same class body. Python keeps
  the later definitions, so the MACD and signal lines come from the `ta`
  package (macd.py:70-73) and `ema` is never called. Both `next` bodies are
  identical; `MacdCrossover.Decide` models them once.
- `crossover` in trendfilteredrsi.py:102-103 is a `backtesting.lib` function
  whose code is not part of this model. It is modelled as "previous a < previous b
  and current a > current b" (`Trading.CrossesAbove`), the same strict two-bar
  test macd.py spells out at macd.py:80-90. A missing previous value (the
  library's IndexError path) or a NaN makes it false.
- The RSI is 100 when the average loss is 0 and the average gain is positive,
  but it is not 100 whenever the average loss is 0: with no gains either it is
  NaN, e.g. on a constant price series.
- In exact arithmetic, with the default multiplier k = 2.0 and the ATR guard
  (ATR > 0), the stop rejection branches of trendfilteredrsi.py:114-115 and
  121-122 cannot be reached; they only fire for k <= 0, and then for every
  entry. In doubles a positive k*ATR below half the spacing between adjacent
  doubles at the close can still reach them (see "## Left out").

## Model

| member | source | states |
|---|---|---|
| Values.NaNComparesFalse | main.py:48-57 | a NaN operand makes both `<` and `>` false; no value is both below and above another; equal values compare neither way |
| Trading.CrossesAbove | trendfilteredrsi.py:102-103 | the assumed `backtesting.lib.crossover`: a crossing needs all four values defined, and the gap a - b changes sign strictly between the two bars (its product over the two bars is negative) |
| Trading.CrossingsExclusive | macd.py:80-84 | a crossing above and a crossing below cannot hold on the same two bars, and a tie on either bar is no crossing |
| Trading.NoCrossingTwiceInARow | trendfilteredrsi.py:102-103 | two crossings in the same direction never occur on consecutive bars |
| Ema.AlphaInUnitInterval | macd.py:56 | for n >= 1 the factor 2/(n+1) lies in (0, 1], and is 1 for n = 1 |
| Ema.ComputeEma | macd.py:50-60 | fails with a division error exactly when n = -1, with an empty-input error exactly when the input is empty otherwise, and otherwise returns a series of the input's length seeded with arr[0] that follows ema[i] = alpha*arr[i] + (1-alpha)*ema[i-1] |
| Ema.EmaUnique | macd.py:57-59 | the seed and the recurrence determine the output completely |
| Ema.EmaPeriodOneIsIdentity | macd.py:56-59 | with n = 1 the average equals its input |
| Ema.EmaBounded | macd.py:56-59 | for 0 < alpha <= 1 every ema[i] lies within any bounds of arr[0..i], hence between their minimum and maximum |
| Ema.EmaOfConstant | macd.py:56-59 | a constant input gives a constant output, for every period n != -1 the helper accepts |
| RsiIndicator.Gain | main.py:32-33 | the gain at a bar is never negative |
| RsiIndicator.Loss | main.py:32-34 | the loss at a bar is never negative |
| RsiIndicator.GainLossSplitChange | main.py:32-34 | both are 0 at bar 0 (the NaN difference fails the test); afterwards gain - loss is the price change and at most one of them is non-zero |
| RsiIndicator.Gains | main.py:33 | the gain series is aligned with the closes and non-negative |
| RsiIndicator.Losses | main.py:34 | the loss series is aligned with the closes and non-negative |
| RsiIndicator.RollingMean | main.py:36-37 | the rolling mean is undefined exactly for the first n - 1 bars, afterwards n times it is the sum of the last n values, and it is non-negative over a non-negative series |
| RsiIndicator.AvgGain | main.py:36 | the average gain is undefined exactly before bar n - 1 and never negative |
| RsiIndicator.AvgLoss | main.py:37 | the average loss is undefined exactly before bar n - 1 and never negative |
| RsiIndicator.RsiValue | main.py:39-40 | the RSI is defined exactly when both averages are defined and not both zero, and then equals 100*g/(g+l), within [0, 100] (100 when only the loss is 0) |
| RsiIndicator.RsiFormula | main.py:39-40 | for a positive average loss, 100 - 100/(1 + g/l) equals 100*g/(g+l) and lies in [0, 100] |
| RsiIndicator.Rsi | main.py:29-42 | the RSI series is aligned with the closes, undefined for the first n - 1 bars and within [0, 100] wherever defined |
| RsiIndicator.RsiOnRisingPrices | main.py:32-40 | on strictly rising closes the RSI is exactly 100 from bar max(n-1, 1) on and undefined before |
| RsiIndicator.RsiOnConstantPrices | main.py:32-40 | on a constant price series the RSI is undefined at every bar |
| RsiMeanReversion.Decide | main.py:45-57 | a Buy only when flat and RSI < oversold, a Sell only when flat and RSI > overbought, both without stop; a Close only for a long above the exit level or a short below it; nothing on a NaN RSI |
| RsiMeanReversion.FlatEntries | main.py:47-51 | when flat: Buy exactly when RSI < oversold, Sell exactly when not and RSI > overbought, never Close |
| RsiMeanReversion.PositionedExits | main.py:52-57 | when positioned there is no entry; a long closes exactly when RSI > exit level, a short exactly when RSI < exit level |
| RsiMeanReversion.NoBuyOnRisingPrices | main.py:32-49 | on strictly rising closes, with oversold <= 100, no bar ever yields a Buy |
| RsiMeanReversion.DefaultsNeverBuyOnRisingPrices | main.py:24-49 | with the class defaults (period 14, oversold 30) no bar of a strictly rising series yields a Buy |
| RsiMeanReversion.NoOrderOnConstantPrices | main.py:32-57 | on a constant price series no bar yields any order |
| MacdCrossover.Decide | macd.py:75-90 | nothing with fewer than two values of either line; a Buy only when flat on a bullish crossing, a Sell only when flat on a bearish one, a Close only for a long on bearish or a short on bullish |
| MacdCrossover.SignalsExclusive | macd.py:80-84 | bullish and bearish crossings never coincide, and equality of the lines on either bar triggers neither |
| MacdCrossover.DecisionTable | macd.py:79-90 | with two values of each line: flat buys exactly on bullish and sells exactly on bearish; a long closes exactly on bearish, a short exactly on bullish; no entry and no same-bar reversal while positioned |
| MacdCrossover.NoRepeatedCloseSignal | macd.py:86-90 | after a Close signal, the next bar never signals a Close again for the same position |
| TrendFilteredRsi.WarmUp | trendfilteredrsi.py:75 | the warm-up length is the largest of the three indicator periods |
| TrendFilteredRsi.LongStop | trendfilteredrsi.py:89 | price - k*ATR: strictly below the close when k > 0 and ATR > 0, at or above it when k <= 0 |
| TrendFilteredRsi.ShortStop | trendfilteredrsi.py:90 | price + k*ATR: strictly above the close when k > 0 and ATR > 0, at or below it when k <= 0 |
| TrendFilteredRsi.Decide | trendfilteredrsi.py:70-132 | nothing before the warm-up, on any NaN indicator or a non-positive ATR; a Buy only when flat in an uptrend with RSI < oversold, with stop price - k*ATR strictly below price; a Sell only when flat in a downtrend with RSI > overbought, with stop price + k*ATR strictly above price; a Close only on the exit-level crossing matching the position |
| TrendFilteredRsi.Diagnostic | trendfilteredrsi.py:112-122 | a warning is issued only when flat, past both guards, with an entry signal whose computed stop (price - k*ATR or price + k*ATR) is on the wrong side of the close, and then no order is placed |
| TrendFilteredRsi.EntrySignalsExclusive | trendfilteredrsi.py:95-98 | the long and short entry signals exclude each other, and a close equal to the EMA gives neither |
| TrendFilteredRsi.FlatEntries | trendfilteredrsi.py:107-122 | when flat: Buy exactly when the guards pass, the long signal holds and its stop is below the close; Sell exactly likewise for short with the stop above; never Close |
| TrendFilteredRsi.NoEntryAtEma | trendfilteredrsi.py:95-96 | a close equal to the trend EMA never enters |
| TrendFilteredRsi.PositiveMultiplierStopsProtect | trendfilteredrsi.py:89-122 | for k > 0 and ATR > 0 the long stop is below and the short stop above the close, no warning is ever issued and every guarded signal enters |
| TrendFilteredRsi.NonPositiveMultiplierRejectsEntries | trendfilteredrsi.py:89-122 | for k <= 0 no entry is ever placed and every guarded signal while flat yields a warning |
| TrendFilteredRsi.RejectedStopPlacesNoOrder | trendfilteredrsi.py:112-115 | a rejected long stop yields no order and the illogical-stop warning with that stop and price |
| TrendFilteredRsi.RejectedShortStopPlacesNoOrder | trendfilteredrsi.py:116-122 | a rejected short stop yields no order and the illogical-stop warning with that stop and price |
| TrendFilteredRsi.PositionedExits | trendfilteredrsi.py:100-132 | when positioned there is no entry; a long closes exactly when guarded and RSI went from below to above the exit level, a short exactly when it went from above to below |
| TrendFilteredRsi.NoRepeatedCloseSignal | trendfilteredrsi.py:102-132 | after a Close signal, a following bar whose previous RSI is this bar's RSI never signals a Close again |
| TrendFilteredRsi.DefaultsWarmUpAndStops | trendfilteredrsi.py:38-44 | with the default parameters the warm-up is 200 bars and the long stop is two ATRs below the close |
| TrendFilteredRsi.NegativeLongStopAccepted | trendfilteredrsi.py:111-113 | as written, close 1.0, EMA 0.5, RSI 20 and ATR 1.0 with the defaults give a Buy with stop -1.0 |
| TrendFilteredRsi.DecideNonNegativeStop | trendfilteredrsi.py:111-113 | the decision with the intended long-entry check: every Buy's stop is non-negative and below the close, and it differs from the code only by skipping a long entry whose stop is negative |
| TrendFilteredRsi.CorrectedEntriesHaveNonNegativeStops | trendfilteredrsi.py:111-120 | with a positive close, the corrected decision's Buy stops are non-negative and its Sell stops positive; the counterexample bar places no order |

## Findings

| source | as written | input that shows it | evidently intended | confidence | as-written member | corrected member |
|---|---|---|---|---|---|---|
| trendfilteredrsi.py:111-113 | the check before a long entry, commented as keeping the stop "not negative or illogical", only tests `long_stop_loss < current_price` | defaults, 200 bars seen, close 1.0, EMA 0.5, RSI 20, ATR 1.0: stop 1.0 - 2*1.0 = -1.0 and `buy(sl=-1.0)` is called | also reject a long entry whose stop is negative | low: not executed; it needs an ATR above half the close, far from EUR/USD volatility | TrendFilteredRsi.NegativeLongStopAccepted | TrendFilteredRsi.DecideNonNegativeStop |

`TrendFilteredRsi.Decide` keeps the behaviour as written, because it is what
the strategy does. Every lemma about it carries over to
`DecideNonNegativeStop` wherever the long stop is non-negative: the two agree
there, as that function's contract states.

## Left out

- Data loading (`load_data` in all three files): spreadsheet I/O and column renaming.
- `run_backtest` and the command-line entry points: library calls, printing and plotting.
- The `backtesting.py` engine: which bars `next` is called on, fill prices and timing, stop-loss triggering, the exclusive-orders mechanics, commission, the equity curve and the reported metrics. Its code is not part of this model, so the position a decision sees is an input.
- The `ta` indicators (RSI, EMA and ATR in trendfilteredrsi.py:55-65, MACD and signal in macd.py:72-73): their outputs are inputs of `Decide`, NaN included.
- The first `MACDCrossover.init` (macd.py:24-30) and its MACD lambda: Python discards it in favour of the later definition.
- The warning printed by `TrendFilteredRSI.init` (trendfilteredrsi.py:49-52): it changes nothing.
- IEEE double rounding, +inf and NaN as values: arithmetic is over `real`, and NaN/inf appear only through the explicit cases above.
- TrendFilteredRsi.PositiveMultiplierStopsProtect: holds over the reals only; in doubles, when k*ATR is below half the spacing between adjacent doubles at the close (close 1.1, ATR 1e-17), `price - k*ATR` rounds back to the close, so the rejection branch and its warning are reached. Rounding is not modelled.
- Ema.ComputeEma: an integer-typed input array would make `np.empty_like` truncate every output to an integer; the model treats the input as floats, as the price and MACD series are.
- RsiIndicator.Rsi: requires a window of at least 1; pandas' behaviour for a window of 0 is not modelled.
