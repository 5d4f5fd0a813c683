/**
 * Two generic building blocks the other modules share: an optional value
 * (a PHP value that may be absent or null) and duplicate-free lists.
 */
module Basics {

  datatype Option<T> = None | Some(value: T)

  /** A list in which no value occurs twice. */
  predicate NoDup<T(==)>(s: seq<T>) {
    forall i, j :: 0 <= i < j < |s| ==> s[i] != s[j]
  }
}
