/** Shared option and outcome types. */
module Common {
  datatype Option<+T> = None | Some(value: T)

  /** A transaction either commits with a value or is rolled back with an error. */
  datatype Outcome<+T, +E> = Ok(value: T) | Err(error: E)

  lemma SubsetSize<T>(small: set<T>, large: set<T>)
    requires small <= large
    ensures |small| <= |large|
  {
    assert large == small + (large - small);
  }
}
