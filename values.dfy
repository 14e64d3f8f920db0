/** Optional values and results, standing in for JavaScript's `undefined`
    and for exceptions that propagate out of a call. */
module Outcomes {

  datatype Option<+T> = None | Some(value: T)

  datatype Result<+R, +E> = Success(value: R) | Failure(error: E)
}

/** The JavaScript values that flow through an intercepted call. */
module JsValues {

  /** A value passed to or returned from a method of the substitute object.
      Numbers are represented by their integer value, plus the single number
      NaN that strict equality does not equate with itself; objects and
      functions are represented by their identity. */
  datatype Value =
    | Undefined
    | Null
    | Bool(b: bool)
    | Num(n: int)
    | NaN
    | Str(s: string)
    | Ref(id: nat)

  /** The `arguments` of one call, in order. */
  type Args = seq<Value>

  /** JavaScript's strict equality `===` on these values: equal values are
      strictly equal, except NaN, which is strictly equal to nothing. */
  predicate StrictEquals(x: Value, y: Value)
  {
    x == y && !x.NaN?
  }

  /** True when some position of `a` holds NaN. */
  predicate HasNaN(a: Args)
  {
    exists i :: 0 <= i < |a| && a[i].NaN?
  }
}
