/** Shared failure-free wrappers. */
module Common {

  /** A nullable column or an optional result. */
  datatype Option<+T> = None | Some(value: T)

  /** A value, or the error the source raises. */
  datatype Result<+T, +E> = Ok(value: T) | Err(error: E)

  lemma ConcatAssociative<T>(a: seq<T>, b: seq<T>, c: seq<T>)
    ensures a + b + c == a + (b + c)
  {
  }
}
