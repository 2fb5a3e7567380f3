/** Dotted names: the prefixes that end before a dot, as `nameEnumerator` of
    linker/symbols.go produces them and as CreatePrefixList of internal/util.go lists them. */
module Names {
  import opened Common

  type FullName = string

  // The last dot, or -1.
  function LastDot(n: string): (i: int)
    ensures -1 <= i < |n|
    ensures i >= 0 ==> n[i] == '.'
    ensures forall j :: i < j < |n| ==> n[j] != '.'
  {
    if n == "" then -1 else if n[|n| - 1] == '.' then |n| - 1 else LastDot(n[..|n| - 1])
  }

  // The name without its last component.
  function Parent(n: FullName): (p: Option<FullName>)
    ensures p.Some? ==> |p.value| < |n| && p.value == n[..|p.value|] && n[|p.value|] == '.'
  {
    if LastDot(n) < 0 then None else Some(n[..LastDot(n)])
  }

  // All prefixes that end before a dot, shortest first, and the name itself.
  function Prefixes(n: FullName): (r: seq<FullName>)
    ensures |r| > 0 && r[|r| - 1] == n
    decreases |n|
  {
    match Parent(n)
    case None => [n]
    case Some(p) => Prefixes(p) + [n]
  }

  // What encloses entry `k` of the prefixes.
  function Enclosing(n: FullName, k: nat): Option<FullName>
    requires k <= |Prefixes(n)|
  {
    if k == 0 then None else Some(Prefixes(n)[k - 1])
  }

  lemma {:induction false} PrefixParent(n: FullName, k: nat)
    requires k < |Prefixes(n)|
    ensures Parent(Prefixes(n)[k]) == Enclosing(n, k)
    decreases |n|
  {
    if Parent(n).Some? && k < |Prefixes(n)| - 1 {
      PrefixParent(Parent(n).value, k);
    }
  }

  // The first dot at or after `from`, or -1 (strings.IndexByte).
  function NextDot(n: string, from: nat): (i: int)
    requires from <= |n|
    ensures i == -1 || (from <= i < |n| && n[i] == '.')
    ensures forall j :: from <= j < (if i == -1 then |n| else i) ==> n[j] != '.'
    decreases |n| - from
  {
    if from == |n| then -1 else if n[from] == '.' then from else NextDot(n, from + 1)
  }

  // What an enumerator positioned at `start` still produces; -1 marks the end.
  ghost function Remaining(n: FullName, start: int): seq<FullName>
    requires start <= |n|
    decreases |n| - start
  {
    if start < 0 then []
    else if NextDot(n, start) == -1 then [n]
    else [n[..NextDot(n, start)]] + Remaining(n, NextDot(n, start) + 1)
  }

  // `start` follows a dot or is the beginning.
  ghost predicate AtComponent(n: FullName, start: int) {
    0 <= start <= |n| && (start > 0 ==> n[start - 1] == '.')
  }

  // The prefixes up to the component at `start`.
  ghost function Produced(n: FullName, start: int): seq<FullName>
    requires AtComponent(n, start)
  {
    if start == 0 then [] else Prefixes(n[..start - 1])
  }

  // All prefixes, as seen from the component at `start`.
  ghost function Both(n: FullName, start: int): seq<FullName>
    requires AtComponent(n, start)
  {
    Produced(n, start) + Remaining(n, start)
  }

  lemma {:induction false} ProducedThenRemaining(n: FullName, start: int)
    requires AtComponent(n, start)
    ensures Both(n, start) == Prefixes(n)
    decreases |n| - start
  {
    if NextDot(n, start) == -1 {
      LastOne(n, start);
    } else {
      var next := OneMore(n, start);
      ProducedThenRemaining(n, next);
    }
  }

  lemma LastOne(n: FullName, start: int)
    requires AtComponent(n, start) && NextDot(n, start) == -1
    ensures Both(n, start) == Prefixes(n)
  {
    ComponentEndsAt(n, start, |n|);
    assert n[..|n|] == n;
    assert Remaining(n, start) == [n];
  }

  lemma OneMore(n: FullName, start: int) returns (next: int)
    requires AtComponent(n, start) && NextDot(n, start) != -1
    ensures next == NextDot(n, start) + 1 && start < next
    ensures AtComponent(n, next) && Both(n, start) == Both(n, next)
  {
    next := NextDot(n, start) + 1;
    ProducedOne(n, start);
    RemainingOne(n, start);
    Regroup(Produced(n, start), [n[..next - 1]], Remaining(n, next));
  }

  lemma RemainingOne(n: FullName, start: int)
    requires AtComponent(n, start) && NextDot(n, start) != -1
    ensures var i := NextDot(n, start); Remaining(n, start) == [n[..i]] + Remaining(n, i + 1)
  {
  }

  lemma ProducedOne(n: FullName, start: int)
    requires AtComponent(n, start) && NextDot(n, start) != -1
    ensures var i := NextDot(n, start);
            AtComponent(n, i + 1) && Produced(n, i + 1) == Produced(n, start) + [n[..i]]
  {
    ComponentEndsAt(n, start, NextDot(n, start));
  }

  lemma ComponentEndsAt(n: FullName, start: int, end: int)
    requires AtComponent(n, start) && start <= end <= |n| && forall j :: start <= j < end ==> n[j] != '.'
    ensures Prefixes(n[..end]) == Produced(n, start) + [n[..end]]
  {
    var head := n[..end];
    LastDotIs(head, start - 1);
    assert start > 0 ==> head[..start - 1] == n[..start - 1];
  }

  lemma LastDotIs(n: string, i: int)
    requires -1 <= i < |n| || (i == -1 && n == "")
    requires i >= 0 ==> n[i] == '.'
    requires forall j :: i < j < |n| ==> n[j] != '.'
    ensures LastDot(n) == i
  {
  }

  // `produced` is history: the number of prefixes handed out.
  class NameEnumerator {
    const name: FullName
    var start: int
    ghost var produced: nat

    ghost predicate Valid()
      reads this
    {
      && (start == -1 || AtComponent(name, start))
      && produced <= |Prefixes(name)|
      && Remaining(name, start) == Prefixes(name)[produced..]
    }

    constructor (name: FullName)
      ensures this.name == name && Valid() && produced == 0
    {
      this.name := name;
      start := 0;
      produced := 0;
      new;
      ProducedThenRemaining(name, 0);
    }

    // The prefixes come shortest first, each once, and then nothing more.
    method Next() returns (p: Option<FullName>)
      requires Valid()
      modifies this
      ensures Valid()
      ensures p == if old(produced) < |Prefixes(name)| then Some(Prefixes(name)[old(produced)]) else None
      ensures p.Some? ==> produced == old(produced) + 1
      ensures p.None? ==> produced == old(produced)
    {
      ghost var rest := Remaining(name, start);
      if start < 0 {
        return None;
      }
      assert rest != [] && produced < |Prefixes(name)| && rest[0] == Prefixes(name)[produced];
      assert rest[1..] == Prefixes(name)[produced + 1..];
      produced := produced + 1;
      var pos := NextDot(name, start);
      if pos == -1 {
        start := -1;
        return Some(name);
      }
      start := pos + 1;
      return Some(name[..pos]);
    }
  }

  // --- CreatePrefixList ---------------------------------------------------------------

  function Reverse<T>(s: seq<T>): (r: seq<T>)
    ensures |r| == |s| && forall i :: 0 <= i < |s| ==> r[i] == s[|s| - 1 - i]
  {
    if s == [] then [] else Reverse(s[1..]) + [s[0]]
  }

  lemma ReverseSnoc<T>(s: seq<T>, x: T)
    ensures Reverse(s + [x]) == [x] + Reverse(s)
  {
  }

  // The search order for a package: the package, its enclosing packages, the root.
  function PrefixList(pkg: string): seq<string> {
    if pkg == "" then [""] else Reverse(Prefixes(pkg)) + [""]
  }

  function Dots(n: string): nat {
    if n == "" then 0 else Dots(n[..|n| - 1]) + if n[|n| - 1] == '.' then 1 else 0
  }

  lemma {:induction false} PrefixCount(n: string)
    ensures |Prefixes(n)| == Dots(n) + 1
    decreases |n|
  {
    var i := LastDot(n);
    if i >= 0 {
      PrefixCount(n[..i]);
      DotsAfter(n, i + 1);
      assert n[..i + 1][..i] == n[..i];
    } else {
      DotsAfter(n, 0);
    }
  }

  lemma {:induction false} DotsAfter(n: string, i: nat)
    requires i <= |n| && forall j :: i <= j < |n| ==> n[j] != '.'
    ensures Dots(n) == Dots(n[..i])
    decreases |n|
  {
    if i < |n| {
      DotsAfter(n[..|n| - 1], i);
      assert n[..|n| - 1][..i] == n[..i];
    } else {
      assert n[..i] == n;
    }
  }

  lemma PrefixesAtDot(n: string, i: nat)
    requires i < |n| && n[i] == '.'
    ensures Dots(n[..i]) < |Prefixes(n)| && Prefixes(n)[Dots(n[..i])] == n[..i]
  {
    PrefixCount(n[..i]);
    ProducedThenRemaining(n, i + 1);
    assert Produced(n, i + 1) == Prefixes(n[..i]);
  }

  method CreatePrefixList(pkg: string) returns (prefixes: seq<string>)
    ensures prefixes == PrefixList(pkg)
  {
    if pkg == "" {
      return [""];
    }
    var numDots := 0;
    for i := 0 to |pkg|
      invariant numDots == Dots(pkg[..i])
    {
      assert pkg[..i + 1][..i] == pkg[..i];
      if pkg[i] == '.' {
        numDots := numDots + 1;
      }
    }
    assert pkg[..|pkg|] == pkg;
    PrefixCount(pkg);
    if numDots == 0 {
      return [pkg, ""];
    }
    prefixes := FillPrefixes(pkg, numDots);
  }

  // The array is filled from its end, as the dots are met.
  method FillPrefixes(pkg: string, total: nat) returns (prefixes: seq<string>)
    requires pkg != "" && total == Dots(pkg) && |Prefixes(pkg)| == total + 1
    ensures prefixes == PrefixList(pkg)
  {
    ghost var ps := Prefixes(pkg);
    var numDots := total;
    var a := new string[numDots + 2](_ => "");
    for i := 0 to |pkg|
      invariant numDots == total - Dots(pkg[..i]) && a[total + 1] == ""
      invariant forall k :: 0 <= k <= total && numDots < k ==> a[k] == ps[total - k]
    {
      assert pkg[..i + 1][..i] == pkg[..i];
      if pkg[i] == '.' {
        PrefixesAtDot(pkg, i);
        a[numDots] := pkg[..i];
        numDots := numDots - 1;
      }
    }
    assert pkg[..|pkg|] == pkg;
    a[0] := pkg;
    prefixes := a[..];
    IsPrefixList(pkg, prefixes);
  }

  lemma IsPrefixList(pkg: string, s: seq<string>)
    requires pkg != "" && |s| == |Prefixes(pkg)| + 1 && s[|s| - 1] == ""
    requires forall k :: 0 <= k < |s| - 1 ==> s[k] == Prefixes(pkg)[|s| - 2 - k]
    ensures s == PrefixList(pkg)
  {
  }
}
