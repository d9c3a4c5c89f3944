/** What every module shares: a value that may be missing, and sequences without repetitions. */
module Common {

  datatype Option<+T> = None | Some(value: T)

  ghost predicate Distinct<T>(s: seq<T>)
  {
    forall i, j :: 0 <= i < j < |s| ==> s[i] != s[j]
  }
}
