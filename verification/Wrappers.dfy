/** Optional and fallible values, in place of the source's nil pointers and error returns. */
module Wrappers {
  datatype Option<+T> = None | Some(value: T)

  datatype Result<+T, +E> = Success(value: T) | Failure(error: E)

  lemma EmptyIf<T>(s: set<T>)
    requires forall x :: x !in s
    ensures s == {}
  {}

  /** The loops that range over a map pick any key that is left. */
  lemma SomeKey(s: set<int>)
    requires s != {}
    ensures exists x :: x in s
  {
    if forall x :: x !in s { EmptyIf(s); }
  }
}
