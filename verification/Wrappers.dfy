/** Results, bytes and the size of a subset, shared by all modules. */
module Wrappers {
  datatype Option<+T> = None | Some(value: T)

  datatype Result<+T, +E> = Ok(value: T) | Err(error: E)

  newtype byte = x: int | 0 <= x < 256

  lemma SubsetCount<T>(a: set<T>, b: set<T>)
    requires a <= b
    ensures |a| <= |b|
    ensures |a| == |b| <==> a == b
  {
    assert |b| == |a| + |b - a| by { assert b == a + (b - a); }
    if |a| == |b| {
      assert b - a == {};
    }
  }
}
