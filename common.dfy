/** Optional values and results, standing in for JavaScript's `null`/`undefined` and for thrown errors. */
module Common {

  /** `None` is JavaScript's missing value (`null` or `undefined`). */
  datatype Option<+T> = None | Some(value: T)

  /** A computation that either produces a value or throws `error`. */
  datatype Result<+T, +E> = Success(value: T) | Failure(error: E)

  /** Concatenation is associative. */
  lemma ConcatAssoc<T>(a: seq<T>, b: seq<T>, c: seq<T>)
    ensures a + (b + c) == (a + b) + c
  {
  }
}
