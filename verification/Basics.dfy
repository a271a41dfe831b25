/** Small vocabulary shared by the models. */
module Basics {
  datatype Option<+T> = None | Some(value: T)

  type pos = n: nat | n > 0 witness 1

  type byte = b: int | 0 <= b < 256

  function Min(a: int, b: int): int { if a < b then a else b }

  predicate Distinct(s: seq<nat>) {
    forall i, j :: 0 <= i < j < |s| ==> s[i] != s[j]
  }
}
