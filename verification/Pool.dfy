/** The allocation pool of linker/pool.go and the requests that the construction of
    descriptors in linker/descriptors.go makes of it. */
module Pool {

  datatype Kind = Messages | Fields | Oneofs | Enums | EnumValues | Extensions | Services | Methods

  // What matters of a file descriptor: how many elements of each kind are where. An enum is the
  // number of its values, a service the number of its methods.
  datatype Message = Message(fields: nat, oneofs: nat, nested: seq<Message>, enums: seq<nat>, extensions: nat)

  datatype File = File(messages: seq<Message>, enums: seq<nat>, extensions: nat, services: seq<nat>)

  // --- How many elements of kind `k` there are -------------------------------------------------------

  function If(b: bool, n: nat): nat { if b then n else 0 }

  // The messages of the list and everything inside them.
  function InMessages(k: Kind, ms: seq<Message>): nat
    decreases ms, |ms| + 1
  {
    If(k == Messages, |ms|) + BelowMessages(k, ms, |ms|)
  }

  // Everything inside the first `n` messages.
  function BelowMessages(k: Kind, ms: seq<Message>, n: nat): nat
    requires n <= |ms|
    decreases ms, n
  {
    if n == 0 then 0 else BelowMessages(k, ms, n - 1) + InMessage(k, ms[n - 1])
  }

  function InMessage(k: Kind, m: Message): nat
    decreases m
  {
    If(k == Fields, m.fields) + If(k == Oneofs, m.oneofs) + InMessages(k, m.nested) + InEnums(k, m.enums) +
    If(k == Extensions, m.extensions)
  }

  function Sum(ns: seq<nat>, n: nat): nat
    requires n <= |ns|
  {
    if n == 0 then 0 else Sum(ns, n - 1) + ns[n - 1]
  }

  function InEnums(k: Kind, es: seq<nat>): nat {
    If(k == Enums, |es|) + If(k == EnumValues, Sum(es, |es|))
  }

  function InServices(k: Kind, ss: seq<nat>): nat {
    If(k == Services, |ss|) + If(k == Methods, Sum(ss, |ss|))
  }

  function InFile(k: Kind, f: File): nat {
    InMessages(k, f.messages) + InEnums(k, f.enums) + If(k == Extensions, f.extensions) + InServices(k, f.services)
  }

  // --- The slices handed out --------------------------------------------------------------------------

  datatype Slice = Slice(kind: Kind, start: nat, length: nat)

  // How many places of kind `k` the slices take.
  function Handed(ss: seq<Slice>, k: Kind): nat {
    if ss == [] then 0 else Handed(ss[..|ss| - 1], k) + If(ss[|ss| - 1].kind == k, ss[|ss| - 1].length)
  }

  // Each slice starts where the one before of its kind ended.
  ghost predicate InSequence(ss: seq<Slice>) {
    forall i: nat :: i < |ss| ==> StartsAfter(ss, i)
  }

  ghost predicate StartsAfter(ss: seq<Slice>, i: nat) {
    i < |ss| && ss[i].start == Handed(ss[..i], ss[i].kind)
  }

  lemma InSequenceAdd(ss: seq<Slice>, s: Slice)
    requires InSequence(ss) && s.start == Handed(ss, s.kind)
    ensures InSequence(ss + [s])
    ensures forall k :: Handed(ss + [s], k) == Handed(ss, k) + If(s.kind == k, s.length)
  {
    var ss' := ss + [s];
    assert ss'[..|ss|] == ss;
    forall i: nat | i < |ss'|
      ensures StartsAfter(ss', i)
    {
      assert i < |ss| ==> StartsAfter(ss, i);
      assert ss'[..i] == ss[..i];
    }
  }

  predicate Holds(s: Slice, k: Kind, x: nat) { s.kind == k && s.start <= x < s.start + s.length }

  lemma {:induction false} HandedGrows(ss: seq<Slice>, i: nat, k: Kind)
    requires i <= |ss|
    ensures Handed(ss[..i], k) <= Handed(ss, k)
    decreases |ss|
  {
    if i < |ss| {
      assert ss[..|ss| - 1][..i] == ss[..i];
      HandedGrows(ss[..|ss| - 1], i, k);
    } else {
      assert ss[..i] == ss;
    }
  }

  lemma HandedNext(ss: seq<Slice>, i: nat, k: Kind)
    requires i < |ss|
    ensures Handed(ss[..i + 1], k) == Handed(ss[..i], k) + If(ss[i].kind == k, ss[i].length)
  {
    assert ss[..i + 1][..i] == ss[..i];
  }

  /** No two slices share a place. */
  lemma SlicesAreDisjoint(ss: seq<Slice>, i: nat, j: nat, k: Kind, x: nat)
    requires InSequence(ss) && i < j < |ss|
    ensures !(Holds(ss[i], k, x) && Holds(ss[j], k, x))
  {
    assert StartsAfter(ss, i) && StartsAfter(ss, j);
    HandedNext(ss, i, k);
    assert ss[..j][..i + 1] == ss[..i + 1];
    HandedGrows(ss[..j], i + 1, k);
  }

  /** Every place that has been handed out lies in a slice. */
  lemma {:induction false} SlicesCover(ss: seq<Slice>, k: Kind, x: nat) returns (i: nat)
    requires InSequence(ss) && x < Handed(ss, k)
    ensures i < |ss| && Holds(ss[i], k, x)
    decreases |ss|
  {
    var n := |ss| - 1;
    var rest := ss[..n];
    assert StartsAfter(ss, n);
    if x < Handed(rest, k) {
      forall j: nat | j < n
        ensures StartsAfter(rest, j)
      {
        assert StartsAfter(ss, j);
        assert rest[..j] == ss[..j];
      }
      i := SlicesCover(rest, k, x);
    } else {
      i := n;
    }
  }

  // Some slice holds the place.
  ghost predicate Covered(ss: seq<Slice>, k: Kind, x: nat) {
    exists i: nat :: i < |ss| && Holds(ss[i], k, x)
  }

  // Slices `i` and later ones have no place in common, and slice `i` lies below the limit.
  ghost predicate Apart(ss: seq<Slice>, i: nat, j: nat) {
    forall k, x: nat :: i < j < |ss| && Holds(ss[i], k, x) ==> !Holds(ss[j], k, x)
  }

  // The slices lie apart and together are all `n(k)` places of each kind.
  ghost predicate ExactFit(ss: seq<Slice>, n: Kind -> nat) {
    && (forall i: nat, j: nat :: i < j < |ss| ==> Apart(ss, i, j))
    && (forall k, x: nat :: x < n(k) <==> Covered(ss, k, x))
  }

  lemma CoveredIsBelow(ss: seq<Slice>, k: Kind, x: nat, i: nat)
    requires InSequence(ss) && i < |ss| && Holds(ss[i], k, x)
    ensures x < Handed(ss, k)
  {
    assert StartsAfter(ss, i);
    HandedNext(ss, i, k);
    HandedGrows(ss, i + 1, k);
  }

  lemma FitsExactly(ss: seq<Slice>, n: Kind -> nat)
    requires InSequence(ss) && forall k :: Handed(ss, k) == n(k)
    ensures ExactFit(ss, n)
  {
    forall i: nat, j: nat | i < j < |ss|
      ensures Apart(ss, i, j)
    {
      forall k, x: nat | Holds(ss[i], k, x)
        ensures !Holds(ss[j], k, x)
      {
        SlicesAreDisjoint(ss, i, j, k, x);
      }
    }
    forall k, x: nat
      ensures x < n(k) <==> Covered(ss, k, x)
    {
      assert Handed(ss, k) == n(k);
      if x < n(k) {
        var i := SlicesCover(ss, k, x);
      }
      if Covered(ss, k, x) {
        var i: nat :| i < |ss| && Holds(ss[i], k, x);
        CoveredIsBelow(ss, k, x, i);
      }
    }
  }

  // --- The pool -----------------------------------------------------------------------------------------

  lemma {:induction false} BelowGrows(k: Kind, ms: seq<Message>, i: nat, n: nat)
    requires i <= n <= |ms|
    ensures BelowMessages(k, ms, i) <= BelowMessages(k, ms, n)
    decreases n
  {
    if i < n {
      BelowGrows(k, ms, i, n - 1);
    }
  }

  lemma {:induction false} SumGrows(ns: seq<nat>, i: nat, n: nat)
    requires i <= n <= |ns|
    ensures Sum(ns, i) <= Sum(ns, n)
    decreases n
  {
    if i < n {
      SumGrows(ns, i, n - 1);
    }
  }

  type Counts = Kind -> nat

  ghost predicate Balanced(ss: seq<Slice>, left: Counts, num: Counts, k: Kind) {
    Handed(ss, k) + left(k) == num(k)
  }

  function With(c: Counts, k: Kind, n: nat): Counts {
    (j: Kind) => if j == k then n else c(j)
  }

  lemma Rebalance(ss: seq<Slice>, left: Counts, num: Counts, s: Slice, ss': seq<Slice>, left': Counts)
    requires InSequence(ss) && (forall k :: Balanced(ss, left, num, k)) && s.start == Handed(ss, s.kind)
    requires s.length <= left(s.kind) && ss' == ss + [s] && left' == With(left, s.kind, left(s.kind) - s.length)
    ensures InSequence(ss') && forall k :: Balanced(ss', left', num, k)
  {
    InSequenceAdd(ss, s);
    forall k
      ensures Balanced(ss', left', num, k)
    {
      assert Balanced(ss, left, num, k);
    }
  }

  // `num` are the counters, `left` the lengths of the slices that remain, one of each for every
  // kind; `slices` is history.
  class AllocPool {
    var num: Counts
    var left: Counts
    ghost var slices: seq<Slice>

    ghost predicate Valid()
      reads this
    {
      InSequence(slices) && forall k :: Balanced(slices, left, num, k)
    }

    /** newAllocPool. */
    constructor (f: File)
      ensures Valid() && (forall k :: num(k) == InFile(k, f)) && left == num && slices == []
    {
      num, left, slices := (k: Kind) => 0, (k: Kind) => 0, [];
      new;
      CountElements(f);
      left := num;
    }

    method Count(k: Kind, n: nat)
      modifies this`num
      ensures forall j :: num(j) == old(num(j)) + If(j == k, n)
    {
      num := With(num, k, num(k) + n);
    }

    method CountElements(f: File)
      modifies this`num
      ensures forall k :: num(k) == old(num(k)) + InFile(k, f)
    {
      CountInMessages(f.messages);
      CountInEnums(f.enums);
      Count(Extensions, f.extensions);
      Count(Services, |f.services|);
      ghost var before := num;
      for i := 0 to |f.services|
        invariant forall k :: num(k) == before(k) + If(k == Methods, Sum(f.services, i))
      {
        Count(Methods, f.services[i]);
      }
    }

    method CountInMessages(ms: seq<Message>)
      modifies this`num
      ensures forall k :: num(k) == old(num(k)) + InMessages(k, ms)
      decreases ms
    {
      Count(Messages, |ms|);
      ghost var before := num;
      for i := 0 to |ms|
        invariant forall k :: num(k) == before(k) + BelowMessages(k, ms, i)
      {
        var m := ms[i];
        Count(Fields, m.fields);
        Count(Oneofs, m.oneofs);
        CountInMessages(m.nested);
        CountInEnums(m.enums);
        Count(Extensions, m.extensions);
      }
    }

    method CountInEnums(es: seq<nat>)
      modifies this`num
      ensures forall k :: num(k) == old(num(k)) + InEnums(k, es)
    {
      Count(Enums, |es|);
      ghost var before := num;
      for i := 0 to |es|
        invariant forall k :: num(k) == before(k) + If(k == EnumValues, Sum(es, i))
      {
        Count(EnumValues, es[i]);
      }
    }

    // getMessages and its seven siblings. Slicing beyond the end would panic.
    method Get(k: Kind, count: nat) returns (start: nat)
      requires Valid() && count <= left(k)
      modifies this`left, this`slices
      ensures Valid() && slices == old(slices) + [Slice(k, start, count)]
      ensures forall j :: left(j) + If(j == k, count) == old(left(j))
    {
      start := num(k) - left(k);
      assert Balanced(slices, left, num, k);
      var rest := With(left, k, left(k) - count);
      Rebalance(slices, left, num, Slice(k, start, count), slices + [Slice(k, start, count)], rest);
      left, slices := rest, slices + [Slice(k, start, count)];
    }

    method CreateMessages(ms: seq<Message>)
      requires Valid() && forall k :: InMessages(k, ms) <= left(k)
      modifies this`left, this`slices
      ensures Valid() && forall k :: left(k) + InMessages(k, ms) == old(left(k))
      decreases ms
    {
      var start := Get(Messages, |ms|);
      ghost var before := left;
      for i := 0 to |ms|
        invariant Valid() && forall k :: left(k) + BelowMessages(k, ms, i) == before(k)
      {
        forall k: Kind
          ensures InMessage(k, ms[i]) <= left(k)
        {
          BelowGrows(k, ms, i + 1, |ms|);
        }
        CreateMessage(ms[i]);
      }
    }

    // createMessageDescriptor
    method CreateMessage(m: Message)
      requires Valid() && forall k :: InMessage(k, m) <= left(k)
      modifies this`left, this`slices
      ensures Valid() && forall k :: left(k) + InMessage(k, m) == old(left(k))
      decreases m
    {
      var fields := Get(Fields, m.fields);
      var oneofs := Get(Oneofs, m.oneofs);
      CreateMessages(m.nested);
      CreateEnums(m.enums);
      var extensions := Get(Extensions, m.extensions);
    }

    method CreateEnums(es: seq<nat>)
      requires Valid() && forall k :: InEnums(k, es) <= left(k)
      modifies this`left, this`slices
      ensures Valid() && forall k :: left(k) + InEnums(k, es) == old(left(k))
    {
      var start := Get(Enums, |es|);
      ghost var before := left;
      for i := 0 to |es|
        invariant Valid() && forall k :: left(k) + If(k == EnumValues, Sum(es, i)) == before(k)
      {
        SumGrows(es, i + 1, |es|);
        var values := Get(EnumValues, es[i]);
      }
    }

    method CreateServices(ss: seq<nat>)
      requires Valid() && forall k :: InServices(k, ss) <= left(k)
      modifies this`left, this`slices
      ensures Valid() && forall k :: left(k) + InServices(k, ss) == old(left(k))
    {
      var start := Get(Services, |ss|);
      ghost var before := left;
      for i := 0 to |ss|
        invariant Valid() && forall k :: left(k) + If(k == Methods, Sum(ss, i)) == before(k)
      {
        SumGrows(ss, i + 1, |ss|);
        var methods := Get(Methods, ss[i]);
      }
    }
  }

  /** The construction of the descriptors of a file: the pool that was counted out for it serves
      every request, and nothing remains. */
  method CreateFile(f: File) returns (pool: AllocPool)
    ensures fresh(pool) && (forall k :: pool.left(k) == 0) && ExactFit(pool.slices, (k: Kind) => InFile(k, f))
  {
    pool := new AllocPool(f);
    pool.CreateMessages(f.messages);
    pool.CreateEnums(f.enums);
    var extensions := pool.Get(Extensions, f.extensions);
    pool.CreateServices(f.services);
    forall k
      ensures Handed(pool.slices, k) == InFile(k, f)
    {
      assert Balanced(pool.slices, pool.left, pool.num, k);
    }
    FitsExactly(pool.slices, (k: Kind) => InFile(k, f));
  }
}
