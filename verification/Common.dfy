/** Small notions that several components share. */
module Common {
  datatype Option<+T> = None | Some(value: T)

  /** Whole seconds of some clock. */
  type Time = int

  predicate Distinct<T(==)>(s: seq<T>) {
    forall i, j :: 0 <= i < j < |s| ==> s[i] != s[j]
  }
}
