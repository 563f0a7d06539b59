/** What the other modules share. */
module Basics {

  /** A row's id: a 64-bit one the database or `next_id` made, so never
      negative. */
  type Id = nat

  datatype Option<+T> = None | Some(value: T)

  ghost predicate Distinct<T>(s: seq<T>) {
    forall i, j :: 0 <= i < j < |s| ==> s[i] != s[j]
  }
}
