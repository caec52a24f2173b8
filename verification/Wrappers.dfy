// Notions that several parts share.
module Wrappers {
  // A value that may be missing.
  datatype Option<+T> = None | Some(value: T)

  predicate NoDup<T(==)>(s: seq<T>) {
    forall i, j :: 0 <= i < j < |s| ==> s[i] != s[j]
  }

  lemma {:induction false} SubsetSize<T>(s: set<T>, t: set<T>)
    requires s <= t
    ensures |s| <= |t| && (|s| == |t| ==> s == t)
    decreases |s|
  {
    if s != {} {
      var a :| a in s;
      SubsetSize(s - {a}, t - {a});
      assert s == s - {a} + {a} && t == t - {a} + {a};
    }
  }
}
