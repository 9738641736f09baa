/** `TrendFilteredRSI.next` of trendfilteredrsi.py: RSI mean-reversion entries
    filtered by a long EMA trend, protected by a stop at k times the ATR, and
    left when the RSI crosses the exit level. RSI, EMA and ATR come from the
    `ta` package and enter here as already-computed values (NaN while warming
    up). */
module TrendFilteredRsi {
  import opened Values
  import opened Trading

  datatype Params = Params(
    rsiPeriod: int,
    emaPeriod: int,
    atrPeriod: int,
    oversold: real,
    overbought: real,
    exitLevel: real,
    stopAtrMultiplier: real)

  /** The class attributes of the strategy. */
  const Defaults := Params(14, 200, 14, 30.0, 70.0, 50.0, 2.0)

  /** What `next` reads at the current bar: how many bars have been seen so far
      (`len(self.data.Close)`), the close, and the indicator values. `prevRsi`
      is the RSI one bar back, `None` when it is NaN or when there is no
      previous bar. */
  datatype Bar = Bar(
    seen: nat,
    price: real,
    rsi: Option<real>,
    prevRsi: Option<real>,
    ema: Option<real>,
    atr: Option<real>)

  function Max(a: int, b: int): int
  {
    if a < b then b else a
  }

  /** The number of bars `next` waits for before looking at anything. */
  function WarmUp(p: Params): (w: int)
    ensures w >= p.rsiPeriod && w >= p.emaPeriod && w >= p.atrPeriod
    ensures w == p.rsiPeriod || w == p.emaPeriod || w == p.atrPeriod
  {
    Max(Max(p.rsiPeriod, p.emaPeriod), p.atrPeriod)
  }

  /** Both guards of `next` pass: enough bars, every indicator defined, and a
      positive ATR. */
  predicate Ready(p: Params, x: Bar)
  {
    && x.seen >= WarmUp(p)
    && x.rsi.Some? && x.ema.Some? && x.atr.Some?
    && x.atr.value > 0.0
  }

  /** Stop level for a long entry: k ATRs below the close. */
  function LongStop(p: Params, x: Bar): (s: real)
    requires x.atr.Some?
    ensures p.stopAtrMultiplier > 0.0 && x.atr.value > 0.0 ==> s < x.price
    ensures p.stopAtrMultiplier <= 0.0 && x.atr.value > 0.0 ==> s >= x.price
  {
    x.price - p.stopAtrMultiplier * x.atr.value
  }

  /** Stop level for a short entry: k ATRs above the close. */
  function ShortStop(p: Params, x: Bar): (s: real)
    requires x.atr.Some?
    ensures p.stopAtrMultiplier > 0.0 && x.atr.value > 0.0 ==> s > x.price
    ensures p.stopAtrMultiplier <= 0.0 && x.atr.value > 0.0 ==> s <= x.price
  {
    x.price + p.stopAtrMultiplier * x.atr.value
  }

  /** Uptrend and oversold. */
  predicate LongSignal(p: Params, x: Bar)
  {
    x.ema.Some? && x.rsi.Some? && x.price > x.ema.value && x.rsi.value < p.oversold
  }

  /** Downtrend and overbought. */
  predicate ShortSignal(p: Params, x: Bar)
  {
    x.ema.Some? && x.rsi.Some? && x.price < x.ema.value && x.rsi.value > p.overbought
  }

  /** `crossover(self.rsi, self.exit_level)`. */
  predicate CrossedAboveExit(p: Params, x: Bar)
  {
    CrossesAbove(x.prevRsi, x.rsi, Some(p.exitLevel), Some(p.exitLevel))
  }

  /** `crossover(self.exit_level, self.rsi)`. */
  predicate CrossedBelowExit(p: Params, x: Bar)
  {
    CrossesAbove(Some(p.exitLevel), Some(p.exitLevel), x.prevRsi, x.rsi)
  }

  function Decide(p: Params, pos: Position, x: Bar): (a: Action)
    ensures x.seen < WarmUp(p) ==> a == NoOrder
    ensures x.rsi.None? || x.ema.None? || x.atr.None? ==> a == NoOrder
    ensures x.atr.Some? && x.atr.value <= 0.0 ==> a == NoOrder
    ensures a.Buy? ==> && pos.Flat? && Ready(p, x)
                       && x.price > x.ema.value && x.rsi.value < p.oversold
                       && a.stop == Some(LongStop(p, x))
                       && a.stop.value < x.price
    ensures a.Sell? ==> && pos.Flat? && Ready(p, x)
                        && x.price < x.ema.value && x.rsi.value > p.overbought
                        && a.stop == Some(ShortStop(p, x))
                        && a.stop.value > x.price
    ensures a.Close? ==> Ready(p, x) && ((pos.Long? && CrossedAboveExit(p, x)) || (pos.Short? && CrossedBelowExit(p, x)))
  {
    if !Ready(p, x) then NoOrder
    else if pos.Flat? then
      if LongSignal(p, x) then
        if LongStop(p, x) < x.price then Buy(Some(LongStop(p, x))) else NoOrder
      else if ShortSignal(p, x) then
        if ShortStop(p, x) > x.price then Sell(Some(ShortStop(p, x))) else NoOrder
      else NoOrder
    else if pos.Long? && CrossedAboveExit(p, x) then Close
    else if pos.Short? && CrossedBelowExit(p, x) then Close
    else NoOrder
  }

  /** The diagnostic printed when a computed stop is on the wrong side of the
      close; the trade is skipped. */
  datatype Warning =
    | IllogicalBuyStop(stop: real, price: real)
    | IllogicalSellStop(stop: real, price: real)

  function Diagnostic(p: Params, pos: Position, x: Bar): (w: Option<Warning>)
    ensures w.Some? ==> pos.Flat? && Ready(p, x) && Decide(p, pos, x) == NoOrder
    ensures w.Some? && w.value.IllogicalBuyStop? ==>
              LongSignal(p, x) && w.value.stop == LongStop(p, x) && w.value.stop >= w.value.price == x.price
    ensures w.Some? && w.value.IllogicalSellStop? ==>
              ShortSignal(p, x) && w.value.stop == ShortStop(p, x) && w.value.stop <= w.value.price == x.price
  {
    if !Ready(p, x) || !pos.Flat? then None
    else if LongSignal(p, x) then
      if LongStop(p, x) < x.price then None else Some(IllogicalBuyStop(LongStop(p, x), x.price))
    else if ShortSignal(p, x) then
      if ShortStop(p, x) > x.price then None else Some(IllogicalSellStop(ShortStop(p, x), x.price))
    else None
  }

  /** The trend filter makes the two entry signals exclusive, and a close equal
      to the EMA gives neither. */
  lemma EntrySignalsExclusive(p: Params, x: Bar)
    ensures !(LongSignal(p, x) && ShortSignal(p, x))
    ensures x.ema == Some(x.price) ==> !LongSignal(p, x) && !ShortSignal(p, x)
  {
  }

  /** While flat, a Buy is placed exactly when the guards pass, the long signal
      holds and its stop is below the close; a Sell exactly when the guards pass,
      the short signal holds and its stop is above the close. */
  lemma FlatEntries(p: Params, x: Bar)
    ensures Decide(p, Flat, x).Buy? <==> Ready(p, x) && LongSignal(p, x) && LongStop(p, x) < x.price
    ensures Decide(p, Flat, x).Sell? <==> Ready(p, x) && ShortSignal(p, x) && ShortStop(p, x) > x.price
    ensures Decide(p, Flat, x) != Close
  {
    EntrySignalsExclusive(p, x);
  }

  /** A close equal to the trend EMA never enters. */
  lemma NoEntryAtEma(p: Params, pos: Position, x: Bar)
    requires x.ema == Some(x.price)
    ensures !IsEntry(Decide(p, pos, x))
  {
    EntrySignalsExclusive(p, x);
  }

  /** With a positive multiplier and a positive ATR the long stop is below and
      the short stop above the close, so no entry is ever rejected and a flat
      strategy enters on every signal that passes the guards. */
  lemma PositiveMultiplierStopsProtect(p: Params, pos: Position, x: Bar)
    requires p.stopAtrMultiplier > 0.0
    requires x.atr.Some? && x.atr.value > 0.0
    ensures LongStop(p, x) < x.price < ShortStop(p, x)
    ensures Diagnostic(p, pos, x) == None
    ensures Decide(p, Flat, x).Buy? <==> Ready(p, x) && LongSignal(p, x)
    ensures Decide(p, Flat, x).Sell? <==> Ready(p, x) && ShortSignal(p, x)
  {
    assert p.stopAtrMultiplier * x.atr.value > 0.0;
    FlatEntries(p, x);
  }

  /** With a multiplier of zero or less every entry signal is rejected with a
      diagnostic, and no entry is ever placed. */
  lemma NonPositiveMultiplierRejectsEntries(p: Params, pos: Position, x: Bar)
    requires p.stopAtrMultiplier <= 0.0
    ensures !IsEntry(Decide(p, pos, x))
    ensures pos.Flat? && Ready(p, x) && (LongSignal(p, x) || ShortSignal(p, x)) ==> Diagnostic(p, pos, x).Some?
  {
    if x.atr.Some? && x.atr.value > 0.0 {
      assert p.stopAtrMultiplier * x.atr.value <= 0.0;
    }
  }

  /** A rejected stop places no order: the only effect is the diagnostic. */
  lemma RejectedStopPlacesNoOrder(p: Params, x: Bar)
    requires Ready(p, x) && LongSignal(p, x) && LongStop(p, x) >= x.price
    ensures Decide(p, Flat, x) == NoOrder
    ensures Diagnostic(p, Flat, x) == Some(IllogicalBuyStop(LongStop(p, x), x.price))
  {
  }

  /** The same for shorts: a rejected short stop places no order. */
  lemma RejectedShortStopPlacesNoOrder(p: Params, x: Bar)
    requires Ready(p, x) && ShortSignal(p, x) && ShortStop(p, x) <= x.price
    ensures Decide(p, Flat, x) == NoOrder
    ensures Diagnostic(p, Flat, x) == Some(IllogicalSellStop(ShortStop(p, x), x.price))
  {
    EntrySignalsExclusive(p, x);
  }

  /** While positioned there is never an entry: a long closes exactly when the
      guards pass and the RSI went from below the exit level to above it, a
      short exactly when it went from above to below. */
  lemma PositionedExits(p: Params, pos: Position, x: Bar)
    requires !pos.Flat?
    ensures !IsEntry(Decide(p, pos, x))
    ensures pos.Long? ==> (Decide(p, pos, x) == Close <==>
              Ready(p, x) && x.prevRsi.Some? && x.prevRsi.value < p.exitLevel < x.rsi.value)
    ensures pos.Short? ==> (Decide(p, pos, x) == Close <==>
              Ready(p, x) && x.prevRsi.Some? && x.rsi.value < p.exitLevel < x.prevRsi.value)
  {
  }

  /** A position is never asked to close on two consecutive bars: the crossing
      that closed it leaves the RSI on the far side of the exit level, which is
      where the next crossing in the same direction would have to start. */
  lemma NoRepeatedCloseSignal(p: Params, pos: Position, x: Bar, y: Bar)
    requires Decide(p, pos, x) == Close
    requires y.prevRsi == x.rsi
    ensures Decide(p, pos, y) != Close
  {
    var e := Some(p.exitLevel);
    if pos.Long? {
      NoCrossingTwiceInARow(x.prevRsi, x.rsi, y.rsi, e, e, e);
    } else {
      NoCrossingTwiceInARow(e, e, e, x.prevRsi, x.rsi, y.rsi);
    }
  }

  /** With the default parameters the strategy waits for 200 bars (the EMA
      period) and its stops are two ATRs from the close. */
  lemma DefaultsWarmUpAndStops(x: Bar)
    requires x.atr.Some? && x.atr.value > 0.0
    ensures WarmUp(Defaults) == 200
    ensures x.seen < 200 ==> Decide(Defaults, Flat, x) == NoOrder
    ensures LongStop(Defaults, x) == x.price - 2.0 * x.atr.value < x.price
  {
  }

  /** The check before a long entry only compares the stop with the close, so a
      k-ATR distance larger than the close gives a Buy with a negative stop,
      although the check is meant to reject negative stops too. */
  lemma NegativeLongStopAccepted()
    ensures Decide(Defaults, Flat, Bar(200, 1.0, Some(20.0), None, Some(0.5), Some(1.0))) == Buy(Some(-1.0))
  {
  }

  /** The decision with the long-entry check as intended: a long stop must be
      both below the close and non-negative. It differs from `Decide` only by
      skipping a long entry whose stop is negative. */
  function DecideNonNegativeStop(p: Params, pos: Position, x: Bar): (a: Action)
    ensures a.Buy? ==> a.stop.Some? && 0.0 <= a.stop.value < x.price
    ensures a != Decide(p, pos, x) ==> a == NoOrder && Decide(p, pos, x).Buy? && LongStop(p, x) < 0.0
    ensures x.atr.Some? && LongStop(p, x) >= 0.0 ==> a == Decide(p, pos, x)
  {
    var a := Decide(p, pos, x);
    if a.Buy? && LongStop(p, x) < 0.0 then NoOrder else a
  }

  /** With a positive close and a positive multiplier the short stop is above
      the close and so never negative: only the long side needs the extra check,
      and with the corrected check every Buy carries a usable stop. */
  lemma CorrectedEntriesHaveNonNegativeStops(p: Params, pos: Position, x: Bar)
    requires x.price > 0.0
    ensures DecideNonNegativeStop(p, pos, x).Buy? ==> DecideNonNegativeStop(p, pos, x).stop.value >= 0.0
    ensures DecideNonNegativeStop(p, pos, x).Sell? ==> DecideNonNegativeStop(p, pos, x).stop.value > 0.0
    ensures DecideNonNegativeStop(Defaults, Flat, Bar(200, 1.0, Some(20.0), None, Some(0.5), Some(1.0))) == NoOrder
  {
  }
}
