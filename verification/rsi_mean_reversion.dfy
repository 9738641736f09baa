/** `RSIMeanReversion.next` of main.py: one decision per bar from the current
    RSI value and the open position. */
module RsiMeanReversion {
  import opened Values
  import opened Trading
  import RsiIndicator

  datatype Params = Params(rsiPeriod: nat, oversold: real, overbought: real, exitLevel: real)

  /** The class attributes of the strategy. */
  const Defaults := Params(14, 30.0, 70.0, 50.0)

  /** When flat, buy below the oversold level, otherwise sell above the
      overbought level; when positioned, close a long above the exit level and a
      short below it. Orders are placed without a stop-loss. */
  function Decide(p: Params, pos: Position, rsi: Option<real>): (a: Action)
    ensures a.Buy? ==> pos.Flat? && Lt(rsi, Some(p.oversold)) && a.stop.None?
    ensures a.Sell? ==> pos.Flat? && Gt(rsi, Some(p.overbought)) && a.stop.None?
    ensures a.Close? ==> (pos.Long? && Gt(rsi, Some(p.exitLevel))) || (pos.Short? && Lt(rsi, Some(p.exitLevel)))
    ensures rsi.None? ==> a == NoOrder
  {
    if pos.Flat? then
      if Lt(rsi, Some(p.oversold)) then Buy(None)
      else if Gt(rsi, Some(p.overbought)) then Sell(None)
      else NoOrder
    else if pos.Long? && Gt(rsi, Some(p.exitLevel)) then Close
    else if pos.Short? && Lt(rsi, Some(p.exitLevel)) then Close
    else NoOrder
  }

  /** While flat: a Buy exactly when the RSI is below the oversold level, a Sell
      exactly when it is not but is above the overbought level (so an RSI that
      satisfies both thresholds buys), and never a Close. */
  lemma FlatEntries(p: Params, rsi: Option<real>)
    ensures Decide(p, Flat, rsi) == Buy(None) <==> Lt(rsi, Some(p.oversold))
    ensures Decide(p, Flat, rsi) == Sell(None) <==> !Lt(rsi, Some(p.oversold)) && Gt(rsi, Some(p.overbought))
    ensures Decide(p, Flat, rsi) != Close
  {
  }

  /** While positioned there is never an entry: a long closes exactly when the
      RSI is above the exit level, a short exactly when it is below it. */
  lemma PositionedExits(p: Params, pos: Position, rsi: Option<real>)
    requires !pos.Flat?
    ensures !IsEntry(Decide(p, pos, rsi))
    ensures pos.Long? ==> (Decide(p, pos, rsi) == Close <==> Gt(rsi, Some(p.exitLevel)))
    ensures pos.Short? ==> (Decide(p, pos, rsi) == Close <==> Lt(rsi, Some(p.exitLevel)))
  {
  }

  /** On strictly rising closes every defined RSI is 100, so with an oversold
      level of at most 100 the strategy never buys, at any bar. */
  lemma NoBuyOnRisingPrices(p: Params, pos: Position, close: seq<real>, i: nat)
    requires p.rsiPeriod >= 1 && i < |close|
    requires p.oversold <= 100.0
    requires RsiIndicator.StrictlyIncreasing(close)
    ensures !Decide(p, pos, RsiIndicator.Rsi(close, p.rsiPeriod)[i]).Buy?
  {
    RsiIndicator.RsiOnRisingPrices(close, p.rsiPeriod, i);
  }

  /** A flat price series leaves the RSI undefined, so the strategy never
      places an order of any kind. */
  lemma NoOrderOnConstantPrices(p: Params, pos: Position, close: seq<real>, i: nat)
    requires p.rsiPeriod >= 1 && i < |close|
    requires forall j :: 0 <= j < |close| ==> close[j] == close[0]
    ensures Decide(p, pos, RsiIndicator.Rsi(close, p.rsiPeriod)[i]) == NoOrder
  {
    RsiIndicator.RsiOnConstantPrices(close, p.rsiPeriod, i);
  }

  /** With the shipped parameters (oversold 30) rising closes never buy. */
  lemma DefaultsNeverBuyOnRisingPrices(pos: Position, close: seq<real>, i: nat)
    requires i < |close|
    requires RsiIndicator.StrictlyIncreasing(close)
    ensures !Decide(Defaults, pos, RsiIndicator.Rsi(close, Defaults.rsiPeriod)[i]).Buy?
  {
    NoBuyOnRisingPrices(Defaults, pos, close, i);
  }
}
