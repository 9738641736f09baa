/** `MACDCrossover.next` of macd.py: trade the crossings of the MACD line and
    its signal line. The two lines are whatever the `ta` package produced up to
    the current bar (NaN while warming up); only the last two values of each
    are read. */
module MacdCrossover {
  import opened Values
  import opened Trading

  /** MACD crossed above the signal line from the previous bar to this one. */
  predicate Bullish(macd: seq<Option<real>>, signal: seq<Option<real>>)
    requires |macd| >= 2 && |signal| >= 2
  {
    CrossesAbove(macd[|macd| - 2], macd[|macd| - 1], signal[|signal| - 2], signal[|signal| - 1])
  }

  /** MACD crossed below the signal line from the previous bar to this one. */
  predicate Bearish(macd: seq<Option<real>>, signal: seq<Option<real>>)
    requires |macd| >= 2 && |signal| >= 2
  {
    CrossesAbove(signal[|signal| - 2], signal[|signal| - 1], macd[|macd| - 2], macd[|macd| - 1])
  }

  /** Nothing before two values of each line exist; then enter on a crossing
      while flat, and leave a long on a bearish, a short on a bullish crossing. */
  function Decide(pos: Position, macd: seq<Option<real>>, signal: seq<Option<real>>): (a: Action)
    ensures |macd| < 2 || |signal| < 2 ==> a == NoOrder
    ensures a.Buy? ==> pos.Flat? && Bullish(macd, signal) && a.stop.None?
    ensures a.Sell? ==> pos.Flat? && Bearish(macd, signal) && a.stop.None?
    ensures a.Close? ==> (pos.Long? && Bearish(macd, signal)) || (pos.Short? && Bullish(macd, signal))
  {
    if |macd| < 2 || |signal| < 2 then NoOrder
    else if pos.Flat? && Bullish(macd, signal) then Buy(None)
    else if pos.Flat? && Bearish(macd, signal) then Sell(None)
    else if pos.Long? && Bearish(macd, signal) then Close
    else if pos.Short? && Bullish(macd, signal) then Close
    else NoOrder
  }

  /** The two crossings never coincide, and a tie on either bar is neither. */
  lemma SignalsExclusive(macd: seq<Option<real>>, signal: seq<Option<real>>)
    requires |macd| >= 2 && |signal| >= 2
    ensures !(Bullish(macd, signal) && Bearish(macd, signal))
    ensures macd[|macd| - 2] == signal[|signal| - 2] ==> !Bullish(macd, signal) && !Bearish(macd, signal)
    ensures macd[|macd| - 1] == signal[|signal| - 1] ==> !Bullish(macd, signal) && !Bearish(macd, signal)
  {
    CrossingsExclusive(macd[|macd| - 2], macd[|macd| - 1], signal[|signal| - 2], signal[|signal| - 1]);
  }

  /** With enough history the decision is fully determined by the crossing and
      the position: flat buys on bullish and sells on bearish, a long closes
      exactly on bearish, a short exactly on bullish, and a positioned strategy
      never enters (no same-bar reversal). */
  lemma DecisionTable(pos: Position, macd: seq<Option<real>>, signal: seq<Option<real>>)
    requires |macd| >= 2 && |signal| >= 2
    ensures pos.Flat? ==> (Decide(pos, macd, signal) == Buy(None) <==> Bullish(macd, signal))
    ensures pos.Flat? ==> (Decide(pos, macd, signal) == Sell(None) <==> Bearish(macd, signal))
    ensures pos.Long? ==> (Decide(pos, macd, signal) == Close <==> Bearish(macd, signal))
    ensures pos.Short? ==> (Decide(pos, macd, signal) == Close <==> Bullish(macd, signal))
    ensures !pos.Flat? ==> !IsEntry(Decide(pos, macd, signal))
  {
    SignalsExclusive(macd, signal);
  }

  /** A position is never asked to close on two consecutive bars: a bearish
      crossing leaves MACD below the signal line, so the next bar cannot start
      another bearish one (and likewise for bullish crossings and shorts). */
  lemma NoRepeatedCloseSignal(pos: Position, macd: seq<Option<real>>, signal: seq<Option<real>>,
                              m: Option<real>, s: Option<real>)
    requires !pos.Flat?
    requires Decide(pos, macd, signal) == Close
    ensures Decide(pos, macd + [m], signal + [s]) == NoOrder
  {
    var n, k := |macd|, |signal|;
    assert (macd + [m])[n - 1] == macd[n - 1] && (signal + [s])[k - 1] == signal[k - 1];
    if pos.Long? {
      NoCrossingTwiceInARow(signal[k - 2], signal[k - 1], s, macd[n - 2], macd[n - 1], m);
    } else {
      NoCrossingTwiceInARow(macd[n - 2], macd[n - 1], m, signal[k - 2], signal[k - 1], s);
    }
  }
}
