/** What every other module may use. */
module Basics {
  datatype Option<T> = None | Some(value: T)

  type Byte = x: int | 0 <= x < 256

  predicate Distinct(s: seq<nat>) {
    forall i, j :: 0 <= i < j < |s| ==> s[i] != s[j]
  }
}
