/** The package trie of linker/symbols.go as a value: a list of nodes, node 0 being the
    root, with children given by index. Importing a package or a file touches one node
    under that node's lock; module Importers runs such updates concurrently. */
module Trie {
  import opened Common
  import opened Names

  type Span = int

  datatype SymbolEntry = SymbolEntry(span: Span, isEnumValue: bool, isPackage: bool)

  // `scope` and `up` are history: the package the node stands for (None for the root),
  // and the node it was created from.
  datatype PackageSymbols = PackageSymbols(
    children: map<FullName, nat>,
    files: set<int>,
    symbols: map<FullName, SymbolEntry>,
    scope: Option<FullName>,
    up: nat)

  type Nodes = seq<PackageSymbols>

  const EMPTY: Nodes := [PackageSymbols(map[], {}, map[], None, 0)]

  predicate IsPackage(t: Nodes, i: nat, n: FullName) {
    i < |t| && n in t[i].symbols && t[i].symbols[n].isPackage
  }

  predicate IsElement(t: Nodes, i: nat, n: FullName) {
    i < |t| && n in t[i].symbols && !t[i].symbols[n].isPackage
  }

  // --- Files -----------------------------------------------------------------------

  // An element in the order of the walk over the file's descriptors.
  datatype Element = Element(name: FullName, span: Span, isEnumValue: bool)

  // `fromSource` tells a link result from a file of another origin.
  datatype File = File(id: int, pkg: FullName, elements: seq<Element>, fromSource: bool)

  function PackageScope(pkg: FullName): Option<FullName> {
    if pkg == "" then None else Some(pkg)
  }

  ghost predicate Declares(f: File, n: FullName) {
    exists e :: e in f.elements && e.name == n
  }

  // Every element is directly in the package or inside another element of the file.
  ghost predicate ParentClosed(f: File) {
    forall n :: Declares(f, n) ==>
      Parent(n) == PackageScope(f.pkg) || (Parent(n).Some? && Declares(f, Parent(n).value))
  }

  // --- What one node holds, and how nodes hang together -------------------------------

  ghost predicate ChildrenOk(t: Nodes, i: nat)
    requires i < |t|
  {
    && (forall n :: n in t[i].children <==> IsPackage(t, i, n))
    && (forall n :: n in t[i].children ==> 0 < t[i].children[n] < |t| && t[t[i].children[n]].scope == Some(n))
  }

  ghost predicate SymbolsOk(t: Nodes, i: nat)
    requires i < |t|
  {
    forall n :: n in t[i].symbols ==>
      Parent(n) == t[i].scope || (!t[i].symbols[n].isPackage && Parent(n).Some? && IsElement(t, i, Parent(n).value))
  }

  ghost predicate NodeOk(t: Nodes, i: nat)
    requires i < |t|
  {
    && ChildrenOk(t, i)
    && SymbolsOk(t, i)
    && (i == 0 <==> t[i].scope.None?)
    && (i > 0 ==> t[i].up < |t| && t[i].scope.value != "" &&
                  t[t[i].up].scope == Parent(t[i].scope.value) && IsPackage(t, t[i].up, t[i].scope.value))
  }

  ghost predicate TrieOk(t: Nodes) {
    && |t| > 0
    && (forall i: nat :: i < |t| ==> NodeOk(t, i))
    && (forall i: nat, j: nat :: i < j < |t| ==> ScopesDiffer(t, i, j))
  }

  ghost predicate ScopesDiffer(t: Nodes, i: nat, j: nat) {
    i < j < |t| && t[i].scope != t[j].scope
  }

  lemma SameScope(t: Nodes, i: nat, j: nat)
    requires TrieOk(t) && i < |t| && j < |t| && t[i].scope == t[j].scope
    ensures i == j
  {
    assert i < j ==> ScopesDiffer(t, i, j);
    assert j < i ==> ScopesDiffer(t, j, i);
  }

  /** Every fully-qualified name, of an element or of a package, is in at most one node,
      although each node only ever compares names with its own. */
  lemma {:induction false} NamesAreUnique(t: Nodes, n: FullName, i: nat, j: nat)
    requires TrieOk(t) && i < |t| && j < |t| && n in t[i].symbols && n in t[j].symbols
    ensures i == j
    decreases |n|, 0
  {
    assert NodeOk(t, i) && NodeOk(t, j);
    var p := Parent(n);
    if p == t[i].scope && p == t[j].scope {
      SameScope(t, i, j);
    } else if p == t[i].scope {
      PackageIsNoElement(t, p.value, i, j);
    } else if p == t[j].scope {
      PackageIsNoElement(t, p.value, j, i);
    } else {
      NamesAreUnique(t, p.value, i, j);
    }
  }

  // A package that has a node is not an element anywhere.
  lemma {:induction false} PackageIsNoElement(t: Nodes, p: FullName, i: nat, j: nat)
    requires TrieOk(t) && i < |t| && t[i].scope == Some(p)
    ensures !IsElement(t, j, p)
    decreases |p|, 1
  {
    assert NodeOk(t, i);
    assert IsPackage(t, t[i].up, p);
    if IsElement(t, j, p) {
      NamesAreUnique(t, p, t[i].up, j);
    }
  }

  // --- Walking down ------------------------------------------------------------------

  // A walk along the prefixes of `n` has taken `k` steps, stands at node `c`, and stops
  // there: there are no more prefixes, or the next one is not a child.
  ghost predicate StopsAt(t: Nodes, n: FullName, c: nat, k: nat) {
    && c < |t| && k <= |Prefixes(n)| && t[c].scope == Enclosing(n, k)
    && (k < |Prefixes(n)| ==> Prefixes(n)[k] !in t[c].children)
  }

  lemma StopsAtForParent(t: Nodes, n: FullName, c: nat, k: nat)
    requires StopsAt(t, n, c, k) && k < |Prefixes(n)| - 1
    ensures Parent(n).Some? && StopsAt(t, Parent(n).value, c, k) && k < |Prefixes(Parent(n).value)|
  {
    assert Prefixes(n) == Prefixes(Parent(n).value) + [n];
  }

  // The walk along a package name does not stop before the package's node.
  lemma {:induction false} PackageIsReached(t: Nodes, p: FullName, i: nat, c: nat, k: nat)
    requires TrieOk(t) && i < |t| && t[i].scope == Some(p) && StopsAt(t, p, c, k)
    ensures k == |Prefixes(p)|
    decreases |p|
  {
    assert NodeOk(t, i) && NodeOk(t, c);
    if k == |Prefixes(p)| - 1 {
      PrefixParent(p, k);
      SameScope(t, c, t[i].up);
    } else if k < |Prefixes(p)| - 1 {
      StopsAtForParent(t, p, c, k);
      PackageIsReached(t, Parent(p).value, t[i].up, c, k);
    }
  }

  // The walk along an element's name stops at the node that holds the element.
  lemma {:induction false} ElementIsReached(t: Nodes, n: FullName, i: nat, c: nat, k: nat)
    requires TrieOk(t) && IsElement(t, i, n) && StopsAt(t, n, c, k)
    ensures c == i
    decreases |n|
  {
    assert NodeOk(t, i);
    if k == |Prefixes(n)| {
      PackageIsNoElement(t, n, c, i);
    } else if k == |Prefixes(n)| - 1 {
      PrefixParent(n, k);
      if Parent(n) == t[i].scope {
        SameScope(t, i, c);
      } else {
        PackageIsNoElement(t, Parent(n).value, c, i);
      }
    } else {
      StopsAtForParent(t, n, c, k);
      if Parent(n) == t[i].scope {
        PackageIsReached(t, Parent(n).value, i, c, k);
      } else {
        ElementIsReached(t, Parent(n).value, i, c, k);
      }
    }
  }

  // A node holds only names below its own package.
  lemma {:induction false} SymbolsAreBelow(t: Nodes, n: FullName, i: nat)
    requires TrieOk(t) && i < |t| && n in t[i].symbols
    ensures t[i].scope.Some? ==> |t[i].scope.value| < |n|
    decreases |n|
  {
    assert NodeOk(t, i);
    if Parent(n) != t[i].scope {
      SymbolsAreBelow(t, Parent(n).value, i);
    }
  }

  // What the node at the end of the walk has for the name is an element, not a package.
  lemma FoundIsElement(t: Nodes, n: FullName, c: nat, k: nat)
    requires TrieOk(t) && StopsAt(t, n, c, k) && n in t[c].symbols
    ensures IsElement(t, c, n)
  {
    SymbolsAreBelow(t, n, c);
    PackageIsChild(t, n, c);
    ChildIsNext(t, n, c, k);
  }

  lemma PackageIsChild(t: Nodes, n: FullName, c: nat)
    requires TrieOk(t) && c < |t|
    ensures IsPackage(t, c, n) ==> n in t[c].children && Parent(n) == t[c].scope
  {
    assert NodeOk(t, c);
  }

  // A walk along a name does not stop where the name is a child.
  lemma ChildIsNext(t: Nodes, n: FullName, c: nat, k: nat)
    requires StopsAt(t, n, c, k) && (t[c].scope.Some? ==> |t[c].scope.value| < |n|)
    ensures !(n in t[c].children && Parent(n) == t[c].scope)
  {
    LastPrefix(n);
    if Parent(n) == t[c].scope {
      PrefixesShorten(n, k);
      PrefixParent(n, |Prefixes(n)| - 1);
    }
  }

  lemma LastPrefix(n: FullName)
    ensures Prefixes(n) != [] && Prefixes(n)[|Prefixes(n)| - 1] == n
  {
  }

  lemma {:induction false} PrefixesShorten(n: FullName, k: nat)
    requires k <= |Prefixes(n)|
    ensures k < |Prefixes(n)| - 1 ==> Enclosing(n, k) != Enclosing(n, |Prefixes(n)| - 1)
    decreases |n|
  {
    if k < |Prefixes(n)| - 1 {
      var m := Parent(n).value;
      assert Prefixes(n) == Prefixes(m) + [n];
      if k > 0 {
        PrefixLengths(m, k - 1);
      }
    }
  }

  // All prefixes but the last are shorter than the name.
  lemma {:induction false} PrefixLengths(n: FullName, k: nat)
    requires k < |Prefixes(n)|
    ensures k < |Prefixes(n)| - 1 ==> |Prefixes(n)[k]| < |n|
    decreases |n|
  {
    if k < |Prefixes(n)| - 1 {
      PrefixLengths(Parent(n).value, k);
    }
  }

  lemma NoUnnamedPackage(t: Nodes)
    requires TrieOk(t)
    ensures "" !in t[0].children
  {
    forall i: nat | i < |t|
      ensures t[i].scope != Some("")
    {
      assert NodeOk(t, i);
    }
    assert NodeOk(t, 0);
  }

  // --- Updates -----------------------------------------------------------------------

  // importPackage, when the name is free: a package entry and an empty child node.
  function WithPackage(t: Nodes, i: nat, p: FullName, span: Span): Nodes
    requires i < |t|
  {
    var node := t[i].(symbols := t[i].symbols[p := SymbolEntry(span, false, true)],
                      children := t[i].children[p := |t|]);
    t[i := node] + [PackageSymbols(map[], {}, map[], Some(p), i)]
  }

  lemma WithPackageOk(t: Nodes, i: nat, p: FullName, span: Span)
    requires TrieOk(t) && i < |t| && p != "" && Parent(p) == t[i].scope && p !in t[i].symbols
    ensures TrieOk(WithPackage(t, i, p, span))
  {
    var t' := WithPackage(t, i, p, span);
    forall j: nat | j < |t|
      ensures t[j].scope != Some(p)
    {
      assert NodeOk(t, j);
      if t[j].scope == Some(p) {
        SameScope(t, i, t[j].up);
      }
    }
    forall j: nat | j < |t'|
      ensures NodeOk(t', j)
    {
      if j < |t| {
        assert NodeOk(t, j);
        OldNodeOk(t, i, p, span, j);
      }
    }
    forall j: nat, k: nat | j < k < |t'|
      ensures ScopesDiffer(t', j, k)
    {
      assert k < |t| ==> ScopesDiffer(t, j, k);
    }
  }

  lemma OldNodeOk(t: Nodes, i: nat, p: FullName, span: Span, j: nat)
    requires i < |t| && p != "" && Parent(p) == t[i].scope && p !in t[i].symbols
    requires j < |t| && NodeOk(t, j)
    ensures NodeOk(WithPackage(t, i, p, span), j)
  {
    OldSymbolsOk(t, i, p, span, j);
    OldChildrenOk(t, i, p, span, j);
    var t' := WithPackage(t, i, p, span);
    assert forall k :: 0 <= k < |t| ==> t'[k].scope == t[k].scope && t'[k].up == t[k].up;
    assert forall k: nat, n :: IsPackage(t, k, n) ==> IsPackage(t', k, n);
  }

  lemma OldSymbolsOk(t: Nodes, i: nat, p: FullName, span: Span, j: nat)
    requires i < |t| && Parent(p) == t[i].scope && p !in t[i].symbols && j < |t| && SymbolsOk(t, j)
    ensures SymbolsOk(WithPackage(t, i, p, span), j)
  {
    var t' := WithPackage(t, i, p, span);
    assert forall n :: IsElement(t, j, n) ==> IsElement(t', j, n);
  }

  lemma OldChildrenOk(t: Nodes, i: nat, p: FullName, span: Span, j: nat)
    requires i < |t| && p !in t[i].symbols && j < |t| && ChildrenOk(t, j)
    ensures ChildrenOk(WithPackage(t, i, p, span), j)
  {
  }

  // The entries that commitFileLocked writes for the elements, in walk order.
  function Entries(es: seq<Element>): (m: map<FullName, SymbolEntry>)
    ensures forall n :: n in m <==> exists e :: e in es && e.name == n
    ensures forall n :: n in m ==> !m[n].isPackage
  {
    if es == [] then map[]
    else
      var e := es[|es| - 1];
      var m := Entries(es[..|es| - 1]);
      assert forall x :: x in es <==> x in es[..|es| - 1] || x == e;
      m[e.name := SymbolEntry(e.span, e.isEnumValue, false)]
  }

  /** A name is entered with the span and the kind of the last element that has it. */
  lemma {:induction false} EntriesLast(es: seq<Element>, k: nat)
    requires k < |es| && forall j :: k < j < |es| ==> es[j].name != es[k].name
    ensures es[k].name in Entries(es)
    ensures Entries(es)[es[k].name] == SymbolEntry(es[k].span, es[k].isEnumValue, false)
    decreases |es|
  {
    if k < |es| - 1 {
      EntriesLast(es[..|es| - 1], k);
    }
  }

  // commitFileLocked
  function WithFile(t: Nodes, i: nat, f: File): Nodes
    requires i < |t|
  {
    t[i := t[i].(symbols := t[i].symbols + Entries(f.elements), files := t[i].files + {f.id})]
  }

  lemma WithFileOk(t: Nodes, i: nat, f: File)
    requires TrieOk(t) && i < |t| && t[i].scope == PackageScope(f.pkg) && ParentClosed(f)
    requires forall e :: e in f.elements ==> e.name !in t[i].symbols
    ensures TrieOk(WithFile(t, i, f))
  {
    var t' := WithFile(t, i, f);
    forall n | Declares(f, n)
      ensures n !in t[i].symbols && IsElement(t', i, n)
    {
    }
    forall j: nat | j < |t'|
      ensures NodeOk(t', j)
    {
      assert NodeOk(t, j);
      if j == i {
        forall n | n in t'[i].symbols
          ensures Parent(n) == t'[i].scope ||
                  (!t'[i].symbols[n].isPackage && Parent(n).Some? && IsElement(t', i, Parent(n).value))
        {
          if n !in t[i].symbols {
            assert Declares(f, n);
          }
        }
      }
      assert SymbolsOk(t', j);
      assert ChildrenOk(t', j);
    }
    forall j: nat, k: nat | j < k < |t'|
      ensures ScopesDiffer(t', j, k)
    {
      assert ScopesDiffer(t, j, k);
    }
  }

  // --- Single updates -------------------------------------------------------------------

  // One locked section of an import: create a package below a node, or commit a file to
  // the node of its package.
  datatype Update = AddPackage(node: nat, name: FullName, span: Span) | AddFile(node: nat, file: File)

  ghost predicate Allowed(t: Nodes, u: Update) {
    u.node < |t| &&
    match u
    case AddPackage(i, p, _) => p != "" && Parent(p) == t[i].scope && p !in t[i].symbols
    case AddFile(i, f) =>
      && t[i].scope == PackageScope(f.pkg) && ParentClosed(f)
      && forall e :: e in f.elements ==> e.name !in t[i].symbols
  }

  function Apply(t: Nodes, u: Update): Nodes
    requires u.node < |t|
  {
    match u
    case AddPackage(i, p, span) => WithPackage(t, i, p, span)
    case AddFile(i, f) => WithFile(t, i, f)
  }

  // A node keeps its place and its package while others work on the trie, so a caller may
  // go on with a node it found earlier.
  ghost predicate Extends(t: Nodes, t': Nodes) {
    |t| <= |t'| && forall i: nat :: i < |t| ==> NodeExtends(t, t', i)
  }

  ghost predicate NodeExtends(t: Nodes, t': Nodes, i: nat) {
    && i < |t| <= |t'| && t'[i].scope == t[i].scope && t[i].files <= t'[i].files
    && (forall n :: n in t[i].symbols ==> n in t'[i].symbols && t'[i].symbols[n] == t[i].symbols[n])
  }

  lemma ExtendsTransitive(t: Nodes, t': Nodes, t'': Nodes)
    requires Extends(t, t') && Extends(t', t'')
    ensures Extends(t, t'')
  {
    forall i: nat | i < |t|
      ensures NodeExtends(t, t'', i)
    {
      assert NodeExtends(t, t', i) && NodeExtends(t', t'', i);
    }
  }

  lemma ApplyExtends(t: Nodes, i: nat, f: File)
    requires i < |t| && forall e :: e in f.elements ==> e.name !in t[i].symbols
    ensures Extends(t, WithFile(t, i, f))
  {
  }
}
