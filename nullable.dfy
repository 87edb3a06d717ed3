/** Nullable column values and arguments, and the truthiness tests the tools
    apply to them: a value is "given" when it is present and not empty or zero. */
module Nullable {

  datatype Option<T> = None | Some(value: T)

  /** A text argument or column is given when it is present and non-empty. */
  predicate TextGiven(o: Option<string>)
  {
    o.Some? && o.value != ""
  }

  /** A count column (price, mileage, hours) is given when present and non-zero. */
  predicate CountGiven(o: Option<nat>)
  {
    o.Some? && o.value != 0
  }

  /** An integer argument (a price bound) is given when present and non-zero. */
  predicate IntGiven(o: Option<int>)
  {
    o.Some? && o.value != 0
  }
}
