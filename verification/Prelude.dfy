/** Shared types and facts. */
module Prelude {

  datatype Option<+T> = None | Some(value: T)

  lemma SubsetIsNotLarger<T>(a: set<T>, b: set<T>)
    requires a <= b
    ensures |a| <= |b|
  {
    assert b == a + (b - a);
  }
}
