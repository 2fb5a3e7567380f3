/** The range and tag checks of validateMessage and validateEnum in parser/validate.go:
    sort, adjacent scan, two-pointer sweep and binary search together report nothing
    exactly when nothing overlaps and no number is used twice. */
module Ranges {
  // Messages use half-open ranges. Enums use closed ones: there `end` is the last number,
  // and the same checks are made with `end` shifted by one.
  datatype TagRange = TagRange(start: int, end: int)

  function End(r: TagRange, closed: bool): int {
    if closed then r.end + 1 else r.end
  }

  ghost predicate NonEmpty(s: seq<TagRange>, closed: bool) {
    forall i :: 0 <= i < |s| ==> s[i].start < End(s[i], closed)
  }

  predicate Contains(r: TagRange, n: int, closed: bool) {
    r.start <= n < End(r, closed)
  }

  // The two ranges have a number in common.
  ghost predicate Overlap(a: TagRange, b: TagRange, closed: bool) {
    exists n :: Contains(a, n, closed) && Contains(b, n, closed)
  }

  ghost predicate PairwiseDisjoint(s: seq<TagRange>, closed: bool) {
    forall i, j :: 0 <= i < j < |s| ==> !Overlap(s[i], s[j], closed)
  }

  lemma OverlapByStart(a: TagRange, b: TagRange, closed: bool)
    requires a.start < End(a, closed) && b.start < End(b, closed)
    ensures Overlap(a, b, closed) <==> Contains(a, b.start, closed) || Contains(b, a.start, closed)
  {
    if Contains(a, b.start, closed) {
      assert Contains(b, b.start, closed);
    } else if Contains(b, a.start, closed) {
      assert Contains(a, a.start, closed);
    }
  }

  // --- Sorting -----------------------------------------------------------------------

  predicate Less(a: TagRange, b: TagRange) {
    a.start < b.start || (a.start == b.start && a.end < b.end)
  }

  ghost predicate Sorted(s: seq<TagRange>) {
    forall i, j :: 0 <= i < j < |s| ==> !Less(s[j], s[i])
  }

  // Stands for sort.Sort, whose algorithm is not part of the repository.
  method Sort(rs: seq<TagRange>) returns (s: seq<TagRange>)
    ensures Sorted(s) && multiset(s) == multiset(rs)
  {
    s := [];
    for k := 0 to |rs|
      invariant Sorted(s) && multiset(s) == multiset(rs[..k])
    {
      s := InsertSorted(s, rs[k]);
      assert rs[..k + 1] == rs[..k] + [rs[k]];
    }
    assert rs[..|rs|] == rs;
  }

  method InsertSorted(s: seq<TagRange>, r: TagRange) returns (t: seq<TagRange>)
    requires Sorted(s)
    ensures Sorted(t) && multiset(t) == multiset(s) + multiset{r}
  {
    var i := 0;
    while i < |s| && Less(s[i], r)
      invariant 0 <= i <= |s| && forall j :: 0 <= j < i ==> Less(s[j], r)
    {
      i := i + 1;
    }
    t := s[..i] + [r] + s[i..];
    InsertedSorted(s, r, i);
    InsertedSame(s, r, i);
  }

  lemma InsertedSorted(s: seq<TagRange>, r: TagRange, i: nat)
    requires Sorted(s) && i <= |s| && (forall j :: 0 <= j < i ==> Less(s[j], r)) && (i < |s| ==> !Less(s[i], r))
    ensures Sorted(s[..i] + [r] + s[i..])
  {
  }

  lemma InsertedSame(s: seq<TagRange>, r: TagRange, i: nat)
    requires i <= |s|
    ensures multiset(s[..i] + [r] + s[i..]) == multiset(s) + multiset{r}
  {
    assert s == s[..i] + s[i..];
  }

  // Disjointness does not depend on the order of the ranges.
  lemma DisjointAnyOrder(s: seq<TagRange>, t: seq<TagRange>, closed: bool)
    requires multiset(s) == multiset(t) && NonEmpty(s, closed) && PairwiseDisjoint(s, closed)
    ensures PairwiseDisjoint(t, closed)
  {
    forall i, j | 0 <= i < j < |t|
      ensures !Overlap(t[i], t[j], closed)
    {
      PlacesOf(s, t, i, j);
      var p, q :| 0 <= p < |s| && 0 <= q < |s| && p != q && s[p] == t[i] && s[q] == t[j];
      assert !Overlap(s[if p < q then p else q], s[if p < q then q else p], closed);
    }
  }

  // Two places of one sequence have two places in a permutation of it.
  lemma PlacesOf(s: seq<TagRange>, t: seq<TagRange>, i: int, j: int)
    requires multiset(s) == multiset(t) && 0 <= i < j < |t|
    ensures exists p, q :: 0 <= p < |s| && 0 <= q < |s| && p != q && s[p] == t[i] && s[q] == t[j]
  {
    var p := PlaceOf(s, t, t[i], i);
    Remainder(s, p);
    Remainder(t, i);
    assert Without(t, i)[j - 1] == t[j];
    var k := PlaceOf(Without(s, p), Without(t, i), t[j], j - 1);
    var q := if k < p then k else k + 1;
    assert s[q] == t[j];
  }

  lemma PlaceOf(s: seq<TagRange>, t: seq<TagRange>, x: TagRange, i: nat) returns (p: nat)
    requires multiset(s) == multiset(t) && i < |t| && t[i] == x
    ensures p < |s| && s[p] == x
  {
    assert x in multiset(t);
    assert x in s;
    p :| p < |s| && s[p] == x;
  }

  ghost function Without(s: seq<TagRange>, i: nat): seq<TagRange>
    requires i < |s|
  {
    s[..i] + s[i + 1..]
  }

  lemma Remainder(s: seq<TagRange>, i: nat)
    requires i < |s|
    ensures multiset(Without(s, i)) == multiset(s) - multiset{s[i]}
  {
    assert s == s[..i] + [s[i]] + s[i + 1..];
  }

  lemma NonEmptyAnyOrder(s: seq<TagRange>, t: seq<TagRange>, closed: bool)
    requires multiset(s) == multiset(t) && NonEmpty(s, closed)
    ensures NonEmpty(t, closed)
  {
    forall i | 0 <= i < |t|
      ensures t[i].start < End(t[i], closed)
    {
      assert t[i] in multiset(t);
      assert t[i] in s;
    }
  }

  // In a sorted list it is enough to compare neighbours.
  lemma {:induction false} NeighboursSuffice(s: seq<TagRange>, closed: bool, i: int, j: int)
    requires Sorted(s) && NonEmpty(s, closed) && 0 <= i < j < |s|
    requires forall k :: 1 <= k < |s| ==> End(s[k - 1], closed) <= s[k].start
    ensures End(s[i], closed) <= s[j].start
    decreases j - i
  {
    if i + 1 < j {
      NeighboursSuffice(s, closed, i, j - 1);
      assert End(s[j - 1], closed) <= s[j].start;
    }
  }

  lemma DisjointBySort(s: seq<TagRange>, closed: bool)
    requires Sorted(s) && NonEmpty(s, closed)
    ensures PairwiseDisjoint(s, closed) <==> forall k :: 1 <= k < |s| ==> End(s[k - 1], closed) <= s[k].start
  {
    if forall k :: 1 <= k < |s| ==> End(s[k - 1], closed) <= s[k].start {
      forall i, j | 0 <= i < j < |s|
        ensures !Overlap(s[i], s[j], closed)
      {
        NeighboursSuffice(s, closed, i, j);
      }
    } else {
      var k :| 1 <= k < |s| && !(End(s[k - 1], closed) <= s[k].start);
      assert !Less(s[k], s[k - 1]);
      OverlapByStart(s[k - 1], s[k], closed);
      assert Overlap(s[k - 1], s[k], closed);
    }
  }

  // --- The checks, each with the number of errors reported so far ----------------------

  // `aborts` is the reporter's answer to the n-th error; after a non-nil answer the
  // checks return at once.
  method CheckNeighbours(s: seq<TagRange>, closed: bool, aborts: nat -> bool, before: nat)
      returns (errs: nat, stop: bool)
    requires Sorted(s) && NonEmpty(s, closed)
    ensures errs >= before && (stop ==> errs > before)
    ensures errs == before <==> PairwiseDisjoint(s, closed)
  {
    DisjointBySort(s, closed);
    errs, stop := before, false;
    var k := 1;
    while k < |s|
      invariant 1 <= k && errs >= before
      invariant errs == before <==> forall j :: 1 <= j < k && j < |s| ==> End(s[j - 1], closed) <= s[j].start
    {
      if s[k].start < End(s[k - 1], closed) {
        errs := errs + 1;
        if aborts(errs) {
          return errs, true;
        }
      }
      k := k + 1;
    }
  }

  ghost predicate NoneMeet(a: seq<TagRange>, b: seq<TagRange>) {
    forall i, j :: 0 <= i < |a| && 0 <= j < |b| ==> !Overlap(a[i], b[j], false)
  }

  // The sweep over reserved and extension ranges. It moves on by start alone and so can
  // skip an overlapping pair, but only after it has reported another one.
  method Sweep(rsvd: seq<TagRange>, exts: seq<TagRange>, aborts: nat -> bool, before: nat)
      returns (errs: nat, stop: bool)
    requires Sorted(rsvd) && Sorted(exts) && NonEmpty(rsvd, false) && NonEmpty(exts, false)
    ensures errs >= before && (stop ==> errs > before)
    ensures errs == before <==> NoneMeet(rsvd, exts)
  {
    errs, stop := before, false;
    var i, j := 0, 0;
    while i < |rsvd| && j < |exts|
      invariant 0 <= i <= |rsvd| && 0 <= j <= |exts| && errs >= before
      invariant errs == before ==>
          forall p, q ::
            0 <= p < |rsvd| && 0 <= q < |exts| && (p < i || q < j) ==> !Overlap(rsvd[p], exts[q], false)
      invariant errs > before ==> !NoneMeet(rsvd, exts)
      decreases |rsvd| - i + |exts| - j
    {
      OverlapByStart(rsvd[i], exts[j], false);
      if (rsvd[i].start >= exts[j].start && rsvd[i].start < exts[j].end) ||
         (exts[j].start >= rsvd[i].start && exts[j].start < rsvd[i].end)
      {
        assert Overlap(rsvd[i], exts[j], false);
        errs := errs + 1;
        if aborts(errs) {
          return errs, true;
        }
      }
      if rsvd[i].start < exts[j].start {
        assert forall q :: j <= q < |exts| ==> exts[j].start <= exts[q].start;
        i := i + 1;
      } else {
        assert forall p :: i <= p < |rsvd| ==> rsvd[i].start <= rsvd[p].start;
        j := j + 1;
      }
    }
  }

  // sort.Search: the answer for a predicate that need not be monotone.
  method SearchEnd(s: seq<TagRange>, n: int, closed: bool) returns (k: nat)
    ensures k <= |s| && (k < |s| ==> n < End(s[k], closed)) && (k > 0 ==> End(s[k - 1], closed) <= n)
  {
    var i, j := 0, |s|;
    while i < j
      invariant 0 <= i <= j <= |s|
      invariant (i > 0 ==> End(s[i - 1], closed) <= n) && (j < |s| ==> n < End(s[j], closed))
    {
      var h := (i + j) / 2;
      if n < End(s[h], closed) {
        j := h;
      } else {
        i := h + 1;
      }
    }
    return i;
  }

  // For disjoint sorted ranges, the range found by the search is the only one that can
  // hold the number.
  lemma SearchFindsIt(s: seq<TagRange>, n: int, closed: bool, k: nat)
    requires Sorted(s) && NonEmpty(s, closed) && PairwiseDisjoint(s, closed)
    requires k <= |s| && (k < |s| ==> n < End(s[k], closed)) && (k > 0 ==> End(s[k - 1], closed) <= n)
    ensures (k < |s| && s[k].start <= n) <==> exists i :: 0 <= i < |s| && Contains(s[i], n, closed)
  {
    DisjointBySort(s, closed);
    forall i | 0 <= i < |s| && i != k
      ensures !Contains(s[i], n, closed) || (k < |s| && s[k].start <= n)
    {
      if i < k {
        if i < k - 1 {
          NeighboursSuffice(s, closed, i, k - 1);
        }
      } else {
        NeighboursSuffice(s, closed, k, i);
      }
    }
    if k < |s| && s[k].start <= n {
      assert Contains(s[k], n, closed);
    }
  }

  datatype Numbered = Numbered(name: string, number: int)

  ghost predicate Outside(n: int, s: seq<TagRange>, closed: bool) {
    forall i :: 0 <= i < |s| ==> !Contains(s[i], n, closed)
  }

  method CheckOutside(f: Numbered, s: seq<TagRange>, closed: bool, aborts: nat -> bool, before: nat)
      returns (errs: nat, stop: bool)
    requires Sorted(s) && NonEmpty(s, closed)
    ensures errs >= before && (stop ==> errs > before)
    ensures errs > before ==> !Outside(f.number, s, closed)
    ensures PairwiseDisjoint(s, closed) && Outside(f.number, s, closed) ==> errs == before
    ensures PairwiseDisjoint(s, closed) && !Outside(f.number, s, closed) ==> errs > before
  {
    errs, stop := before, false;
    var r := SearchEnd(s, f.number, closed);
    if r < |s| && s[r].start <= f.number {
      assert Contains(s[r], f.number, closed);
      errs := errs + 1;
      stop := aborts(errs);
    } else if PairwiseDisjoint(s, closed) {
      SearchFindsIt(s, f.number, closed, r);
    }
  }

  ghost predicate DistinctNumbers(fs: seq<Numbered>) {
    forall i, j :: 0 <= i < j < |fs| ==> fs[i].number != fs[j].number
  }

  ghost predicate AllOutside(fs: seq<Numbered>, rsvd: seq<TagRange>, exts: seq<TagRange>) {
    forall i :: 0 <= i < |fs| ==> Outside(fs[i].number, rsvd, false) && Outside(fs[i].number, exts, false)
  }

  // The loop over the fields. A number is taken as used when a non-empty name is recorded
  // for it; the grammar leaves no field without a name.
  method CheckFields(fs: seq<Numbered>, rsvd: seq<TagRange>, exts: seq<TagRange>, aborts: nat -> bool, before: nat)
      returns (errs: nat)
    requires Sorted(rsvd) && Sorted(exts) && NonEmpty(rsvd, false) && NonEmpty(exts, false)
    requires forall i :: 0 <= i < |fs| ==> fs[i].name != ""
    ensures errs >= before
    ensures errs > before ==> !(DistinctNumbers(fs) && AllOutside(fs, rsvd, exts))
    ensures errs == before && PairwiseDisjoint(rsvd, false) && PairwiseDisjoint(exts, false) ==>
              DistinctNumbers(fs) && AllOutside(fs, rsvd, exts)
  {
    errs := before;
    var tags: map<int, string> := map[];
    var stop;
    for k := 0 to |fs|
      invariant errs >= before
      invariant forall n :: n in tags <==> exists i :: 0 <= i < k && fs[i].number == n
      invariant forall n :: n in tags ==> tags[n] != ""
      invariant errs > before ==> !(DistinctNumbers(fs) && AllOutside(fs, rsvd, exts))
      invariant errs == before ==> DistinctNumbers(fs[..k])
      invariant errs == before && PairwiseDisjoint(rsvd, false) && PairwiseDisjoint(exts, false) ==>
                  AllOutside(fs[..k], rsvd, exts)
    {
      var f := fs[k];
      if f.number in tags && tags[f.number] != "" {
        ghost var i :| 0 <= i < k && fs[i].number == f.number;
        assert !DistinctNumbers(fs);
        errs := errs + 1;
        if aborts(errs) {
          return;
        }
      }
      tags := tags[f.number := f.name];
      errs, stop := CheckOutside(f, rsvd, false, aborts, errs);
      if stop {
        return;
      }
      errs, stop := CheckOutside(f, exts, false, aborts, errs);
      if stop {
        return;
      }
    }
    assert fs[..|fs|] == fs;
  }

  // What a message must satisfy, said about the declarations in any order.
  ghost predicate TagsOk(rsvd: seq<TagRange>, exts: seq<TagRange>, fs: seq<Numbered>) {
    && PairwiseDisjoint(rsvd, false)
    && PairwiseDisjoint(exts, false)
    && NoneMeet(rsvd, exts)
    && DistinctNumbers(fs)
    && AllOutside(fs, rsvd, exts)
  }

  lemma TagsOkAnyOrder(r: seq<TagRange>, r': seq<TagRange>, e: seq<TagRange>, e': seq<TagRange>, fs: seq<Numbered>)
    requires multiset(r) == multiset(r') && multiset(e) == multiset(e')
    requires NonEmpty(r, false) && NonEmpty(e, false) && TagsOk(r, e, fs)
    ensures TagsOk(r', e', fs)
  {
    DisjointAnyOrder(r, r', false);
    DisjointAnyOrder(e, e', false);
    forall i | 0 <= i < |r'|
      ensures r'[i] in r
    {
      assert r'[i] in multiset(r');
    }
    forall i | 0 <= i < |e'|
      ensures e'[i] in e
    {
      assert e'[i] in multiset(e');
    }
  }

  /** The range and tag part of validateMessage: nothing is reported if and only if the
      declarations are in order. */
  method ValidateMessageTags(rsvd0: seq<TagRange>, exts0: seq<TagRange>, fs: seq<Numbered>, aborts: nat -> bool)
      returns (errs: nat)
    requires NonEmpty(rsvd0, false) && NonEmpty(exts0, false)
    requires forall i :: 0 <= i < |fs| ==> fs[i].name != ""
    ensures errs == 0 <==> TagsOk(rsvd0, exts0, fs)
  {
    var rsvd := Sort(rsvd0);
    var exts := Sort(exts0);
    NonEmptyAnyOrder(rsvd0, rsvd, false);
    NonEmptyAnyOrder(exts0, exts, false);
    if TagsOk(rsvd0, exts0, fs) {
      TagsOkAnyOrder(rsvd0, rsvd, exts0, exts, fs);
    }
    if TagsOk(rsvd, exts, fs) {
      TagsOkAnyOrder(rsvd, rsvd0, exts, exts0, fs);
    }
    var stop;
    errs, stop := CheckNeighbours(rsvd, false, aborts, 0);
    if stop {
      return;
    }
    errs, stop := CheckNeighbours(exts, false, aborts, errs);
    if stop {
      return;
    }
    errs, stop := Sweep(rsvd, exts, aborts, errs);
    if stop {
      return;
    }
    errs := CheckFields(fs, rsvd, exts, aborts, errs);
  }

  /** The same for validateEnum, whose reserved ranges include their last number. */
  method ValidateEnumNumbers(rsvd0: seq<TagRange>, values: seq<Numbered>, aborts: nat -> bool) returns (errs: nat)
    requires NonEmpty(rsvd0, true)
    ensures errs == 0 <==>
        && PairwiseDisjoint(rsvd0, true)
        && forall i :: 0 <= i < |values| ==> Outside(values[i].number, rsvd0, true)
  {
    var rsvd := Sort(rsvd0);
    NonEmptyAnyOrder(rsvd0, rsvd, true);
    assert PairwiseDisjoint(rsvd0, true) <==> PairwiseDisjoint(rsvd, true) by {
      if PairwiseDisjoint(rsvd0, true) {
        DisjointAnyOrder(rsvd0, rsvd, true);
      } else if PairwiseDisjoint(rsvd, true) {
        DisjointAnyOrder(rsvd, rsvd0, true);
      }
    }
    forall n
      ensures Outside(n, rsvd0, true) <==> Outside(n, rsvd, true)
    {
      SameOutside(rsvd0, rsvd, n);
    }
    var stop;
    errs, stop := CheckNeighbours(rsvd, true, aborts, 0);
    if stop {
      return;
    }
    for k := 0 to |values|
      invariant errs > 0 ==>
          && !(PairwiseDisjoint(rsvd, true)
          && forall i :: 0 <= i < |values| ==> Outside(values[i].number, rsvd, true))
      invariant errs == 0 ==>
          && PairwiseDisjoint(rsvd, true)
          && forall i :: 0 <= i < k ==> Outside(values[i].number, rsvd, true)
    {
      errs, stop := CheckOutside(values[k], rsvd, true, aborts, errs);
      if stop {
        return;
      }
    }
  }

  lemma SameOutside(s: seq<TagRange>, t: seq<TagRange>, n: int)
    requires multiset(s) == multiset(t)
    ensures Outside(n, s, true) <==> Outside(n, t, true)
  {
    forall i | 0 <= i < |s|
      ensures s[i] in t
    {
      assert s[i] in multiset(s);
    }
    forall i | 0 <= i < |t|
      ensures t[i] in s
    {
      assert t[i] in multiset(t);
    }
  }
}
