/** What several parts need. */
module Wrappers {
  datatype Option<T> = None | Some(value: T)
}

module Sequences {

  /** No element occurs twice. */
  ghost predicate Distinct<T>(s: seq<T>) {
    forall i, j :: 0 <= i < j < |s| ==> s[i] != s[j]
  }
}
