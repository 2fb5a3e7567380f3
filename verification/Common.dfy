// Small vocabulary shared by the other modules.
module Common {
  datatype Option<+T> = None | Some(value: T)

  // A sequence without repetitions.
  ghost predicate Distinct<T>(s: seq<T>)
  {
    forall i, j :: 0 <= i < j < |s| ==> s[i] != s[j]
  }

  lemma Regroup<T>(a: seq<T>, b: seq<T>, c: seq<T>)
    ensures (a + b) + c == a + (b + c)
  {
  }

  // A sequence without repetitions is no longer than a set that holds its entries.
  lemma {:induction false} DistinctFits<T>(s: seq<T>, names: set<T>)
    requires Distinct(s) && forall x :: x in s ==> x in names
    ensures |s| <= |names|
    decreases |s|
  {
    if s != [] {
      DistinctFits(s[1..], names - {s[0]});
    }
  }

  // A subset is no larger than the set it is part of.
  lemma SubsetSize<T>(a: set<T>, b: set<T>)
    requires a <= b
    ensures |a| <= |b|
    ensures a != b ==> |a| < |b|
  {
    assert b == a + (b - a);
    assert |b| == |a| + |b - a|;
    if a != b {
      assert b - a != {};
    }
  }
}
