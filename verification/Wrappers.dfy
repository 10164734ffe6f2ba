/** Small types and facts shared by the modules below. */
module Wrappers {

  datatype Option<+T> = None | Some(value: T)

  /** A condition as a number, for counting. */
  function One(b: bool): nat {
    if b then 1 else 0
  }

  function Max(a: int, b: int): int {
    if a > b then a else b
  }

  /** No element occurs twice. */
  ghost predicate Distinct<T>(s: seq<T>) {
    forall i, j :: 0 <= i < j < |s| ==> s[i] != s[j]
  }
}
