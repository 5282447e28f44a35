/** Failure-free wrappers shared by every module. */
module Prelude {
  datatype Option<+T> = None | Some(value: T)

  datatype Result<+T, +E> = Ok(value: T) | Err(error: E)

  /** `order` lists every element of `s` exactly once: the insertion order of a dictionary. */
  ghost predicate Enumerates<T(!new)>(order: seq<T>, s: set<T>) {
    && (forall i, j :: 0 <= i < j < |order| ==> order[i] != order[j])
    && (forall x :: x in order <==> x in s)
  }

  predicate Empty(text: string) {
    |text| == 0
  }

  function Max(a: int, b: int): int {
    if a >= b then a else b
  }
}
