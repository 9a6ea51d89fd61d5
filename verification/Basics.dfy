/**
 What several modules need.
 */
module Basics {

  datatype Option<+T> = None | Some(value: T)

  lemma LastSplit<T>(s: seq<T>)
    requires s != []
    ensures s == s[..|s| - 1] + [s[|s| - 1]]
  {
  }
}
