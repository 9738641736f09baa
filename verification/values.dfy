/** Values that a pandas float column can hold, as the strategies see them.

    A float that pandas reports as not-a-number (an indicator still warming up,
    0/0 inside the RSI formula) is `None`; every other value is `Some(v)` with v
    a real. Rounding of IEEE doubles is not modelled. */
module Values {

  datatype Option<+T> = None | Some(value: T)

  /** Success or an error, for operations that raise in Python. */
  datatype Result<+T, +E> = Success(value: T) | Failure(error: E)

  /** Python's `a < b` on floats: false as soon as either side is NaN. */
  predicate Lt(a: Option<real>, b: Option<real>)
  {
    a.Some? && b.Some? && a.value < b.value
  }

  /** Python's `a > b` on floats: false as soon as either side is NaN. */
  predicate Gt(a: Option<real>, b: Option<real>)
  {
    Lt(b, a)
  }

  /** A NaN operand makes both orderings false, and no two values are both
      below and above each other. */
  lemma NaNComparesFalse(a: Option<real>, b: Option<real>)
    ensures a.None? || b.None? ==> !Lt(a, b) && !Gt(a, b)
    ensures !(Lt(a, b) && Gt(a, b))
    ensures a.Some? && b.Some? && a.value == b.value ==> !Lt(a, b) && !Gt(a, b)
  {
  }
}
