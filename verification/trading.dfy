/** The vocabulary a strategy's per-bar decision is written in: the position it
    holds, the order it places, and the two-bar crossover test. */
module Trading {
  import opened Values

  /** The engine runs with exclusive orders, so at most one position is open:
      it is flat, long or short. */
  datatype Position = Flat | Long | Short

  /** What one call of a strategy's `next` does. `Buy` and `Sell` carry the
      stop-loss passed as `sl=` (or `None` when the call passes none). */
  datatype Action =
    | NoOrder
    | Buy(stop: Option<real>)
    | Sell(stop: Option<real>)
    | Close

  predicate IsEntry(a: Action)
  {
    a.Buy? || a.Sell?
  }

  /** Series a crosses above series b between the previous and the current bar:
      a was strictly below b and is now strictly above it. A missing or NaN
      value on either bar makes it false. A crossing is a strict sign change
      of the gap a - b between the two bars: their product is negative. */
  predicate CrossesAbove(prevA: Option<real>, curA: Option<real>, prevB: Option<real>, curB: Option<real>)
    ensures CrossesAbove(prevA, curA, prevB, curB) ==>
              && prevA.Some? && curA.Some? && prevB.Some? && curB.Some?
              && (prevA.value - prevB.value) * (curA.value - curB.value) < 0.0
  {
    Lt(prevA, prevB) && Gt(curA, curB)
  }

  /** A crossing in one direction excludes a crossing in the other on the same
      pair of bars, and equality on either bar is no crossing at all. */
  lemma CrossingsExclusive(prevA: Option<real>, curA: Option<real>, prevB: Option<real>, curB: Option<real>)
    ensures !(CrossesAbove(prevA, curA, prevB, curB) && CrossesAbove(prevB, curB, prevA, curA))
    ensures prevA == prevB || curA == curB ==>
              !CrossesAbove(prevA, curA, prevB, curB) && !CrossesAbove(prevB, curB, prevA, curA)
  {
  }

  /** Two crossings in the same direction can never happen on consecutive bars:
      the first leaves a above b, the second needs a below b on that same bar. */
  lemma NoCrossingTwiceInARow(a0: Option<real>, a1: Option<real>, a2: Option<real>,
                              b0: Option<real>, b1: Option<real>, b2: Option<real>)
    requires CrossesAbove(a0, a1, b0, b1)
    ensures !CrossesAbove(a1, a2, b1, b2)
  {
  }
}
