/** Values that may be missing, and sequences used as sets. */
module Wrappers {
  datatype Option<T> = None | Some(value: T)

  predicate Distinct(ts: seq<int>) {
    forall i, j :: 0 <= i < j < |ts| ==> ts[i] != ts[j]
  }

  function SetOf(ts: seq<int>): set<int> {
    set t | t in ts
  }
}
