/** The symbol table of linker/symbols.go: one flat namespace kept as a package trie. */
module Symbols {
  import opened Common
  import opened Names
  import opened Trie

  // The error handler: it counts what was reported; `aborts` is the reporter's answer to
  // the n-th report, true for a non-nil error.
  class Handler {
    var reported: nat
    const aborts: nat -> bool

    constructor (aborts: nat -> bool)
      ensures this.aborts == aborts && reported == 0
    {
      this.aborts := aborts;
      reported := 0;
    }

    method Report() returns (abort: bool)
      modifies this
      ensures reported == old(reported) + 1 && abort == aborts(old(reported))
    {
      abort := aborts(reported);
      reported := reported + 1;
    }
  }

  // The elements of all nodes taken together.
  ghost predicate FlatOk(t: Nodes, flat: map<FullName, SymbolEntry>) {
    && (forall i: nat, n :: IsElement(t, i, n) ==> FlatAt(t, flat, i, n))
    && (forall n :: n in flat ==> SomeElement(t, n))
  }

  ghost predicate FlatAt(t: Nodes, flat: map<FullName, SymbolEntry>, i: nat, n: FullName) {
    i < |t| && n in t[i].symbols && n in flat && flat[n] == t[i].symbols[n]
  }

  ghost predicate SomeElement(t: Nodes, n: FullName) { exists i: nat :: IsElement(t, i, n) }

  predicate ClashFree(t: Nodes, i: nat, f: File)
    requires i < |t|
  {
    && (forall e :: e in f.elements ==> e.name !in t[i].symbols)
    && (f.fromSource ==> forall j, k :: 0 <= j < k < |f.elements| ==> f.elements[j].name != f.elements[k].name)
  }

  lemma FlatWithPackage(t: Nodes, i: nat, p: FullName, span: Span, flat: map<FullName, SymbolEntry>)
    requires i < |t| && p !in t[i].symbols && FlatOk(t, flat)
    ensures FlatOk(WithPackage(t, i, p, span), flat)
  {
    var t' := WithPackage(t, i, p, span);
    forall j: nat, n
      ensures IsElement(t, j, n) <==> IsElement(t', j, n)
    {
    }
  }

  // The names that a file adds to its node are new to the whole table.
  lemma FlatWithFile(t: Nodes, i: nat, f: File, flat: map<FullName, SymbolEntry>)
    requires TrieOk(t) && FlatOk(t, flat) && i < |t| && t[i].scope == PackageScope(f.pkg) && ParentClosed(f)
    requires forall e :: e in f.elements ==> e.name !in t[i].symbols
    ensures FlatOk(WithFile(t, i, f), flat + Entries(f.elements))
    ensures flat.Keys !! Entries(f.elements).Keys
  {
    var t' := WithFile(t, i, f);
    WithFileOk(t, i, f);
    forall n | n in Entries(f.elements)
      ensures n !in flat && IsElement(t', i, n)
    {
      if n in flat {
        var j: nat :| IsElement(t, j, n);
        NamesAreUnique(t', n, i, j);
      }
    }
    forall j: nat, n | IsElement(t', j, n)
      ensures n in flat + Entries(f.elements) && (flat + Entries(f.elements))[n] == t'[j].symbols[n]
    {
      if j == i && n in Entries(f.elements) {
      } else {
        assert IsElement(t, j, n);
      }
    }
    forall n | n in flat
      ensures exists j: nat :: IsElement(t', j, n)
    {
      var j: nat :| IsElement(t, j, n);
      assert IsElement(t', j, n);
    }
  }

  // A package that has a node is not in the flat table.
  lemma PackageIsNotFlat(t: Nodes, flat: map<FullName, SymbolEntry>, i: nat, p: FullName)
    requires TrieOk(t) && FlatOk(t, flat) && i < |t| && t[i].scope == Some(p)
    ensures p !in flat
  {
    if p in flat {
      var j: nat :| IsElement(t, j, p);
      PackageIsNoElement(t, p, i, j);
    }
  }

  // What the creation of a package leads to.
  lemma PackageCreated(t: Nodes, flat: map<FullName, SymbolEntry>, i: nat, p: FullName, span: Span)
    requires TrieOk(t) && FlatOk(t, flat) && i < |t| && p != "" && Parent(p) == t[i].scope && p !in t[i].symbols
    ensures var t' := WithPackage(t, i, p, span);
            && TrieOk(t') && FlatOk(t', flat) && Extends(t, t') && p !in flat
            && |t'| == |t| + 1 && t'[|t|].scope == Some(p)
  {
    var t' := WithPackage(t, i, p, span);
    WithPackageOk(t, i, p, span);
    FlatWithPackage(t, i, p, span, flat);
    PackageIsNotFlat(t', flat, |t|, p);
    forall j: nat | j < |t|
      ensures NodeExtends(t, t', j)
    {
    }
  }

  // What a node has for a name that could be a package below it.
  lemma TakenIsFlat(t: Nodes, flat: map<FullName, SymbolEntry>, i: nat, p: FullName)
    requires TrieOk(t) && FlatOk(t, flat) && i < |t| && p in t[i].symbols
    ensures !t[i].symbols[p].isPackage <==> p in flat
    ensures t[i].symbols[p].isPackage ==>
              p in t[i].children && t[i].children[p] < |t| && t[t[i].children[p]].scope == Some(p)
  {
    assert NodeOk(t, i);
    if t[i].symbols[p].isPackage {
      PackageIsNotFlat(t, flat, t[i].children[p], p);
    } else {
      assert IsElement(t, i, p);
    }
  }

  // One of the first `k` prefixes of the package is an element.
  ghost predicate Collides(flat: map<FullName, SymbolEntry>, pkg: FullName, k: nat) {
    exists j: nat :: j < k && TakenAt(flat, pkg, j)
  }

  ghost predicate TakenAt(flat: map<FullName, SymbolEntry>, pkg: FullName, j: nat) {
    j < |Prefixes(pkg)| && Prefixes(pkg)[j] in flat
  }

  lemma CollidesNext(flat: map<FullName, SymbolEntry>, pkg: FullName, k: nat)
    requires k < |Prefixes(pkg)|
    ensures Collides(flat, pkg, k + 1) <==> Collides(flat, pkg, k) || Prefixes(pkg)[k] in flat
    ensures Prefixes(pkg)[k] in flat ==> Collides(flat, pkg, |Prefixes(pkg)|)
  {
    assert Prefixes(pkg)[k] in flat ==> TakenAt(flat, pkg, k);
  }

  /** What Lookup answers for the names of a file that has just been committed: the span of the
      last element of that name. */
  lemma CommittedSpan(flat: map<FullName, SymbolEntry>, f: File, k: nat)
    requires k < |f.elements| && forall j :: k < j < |f.elements| ==> f.elements[j].name != f.elements[k].name
    ensures var flat' := flat + Entries(f.elements);
            f.elements[k].name in flat' && flat'[f.elements[k].name].span == f.elements[k].span
  {
    EntriesLast(f.elements, k);
  }

  class Symbols {
    var nodes: Nodes
    ghost var flat: map<FullName, SymbolEntry>

    ghost predicate Valid()
      reads this
    {
      TrieOk(nodes) && FlatOk(nodes, flat)
    }

    constructor ()
      ensures Valid() && nodes == EMPTY && flat == map[]
    {
      nodes := EMPTY;
      flat := map[];
    }

    // importPackage: a look under the read lock and, if that finds nothing, a second one under
    // the write lock. Module Importers has the same steps with other importers in between.
    method ImportPackage(i: nat, span: Span, p: FullName, h: Handler) returns (child: Option<nat>, err: bool)
      requires Valid() && i < |nodes| && p != "" && Parent(p) == nodes[i].scope
      modifies this, h
      ensures Valid() && flat == old(flat) && Extends(old(nodes), nodes)
      ensures child.Some? <==> p !in flat
      ensures child.Some? ==> !err && h.reported == old(h.reported) &&
                              child.value < |nodes| && nodes[child.value].scope == Some(p)
      ensures child.None? ==>
          && nodes == old(nodes) && h.reported == old(h.reported) + 1
          && err == h.aborts(old(h.reported))
    {
      assert NodeOk(nodes, i);
      if p in nodes[i].symbols {
        TakenIsFlat(nodes, flat, i, p);
        if nodes[i].symbols[p].isPackage {
          return Some(nodes[i].children[p]), false;
        }
        err := h.Report();
        return None, err;
      }
      child, err := CreatePackage(i, span, p, h);
    }

    // The write-locked section: look again, and create the package if it is still missing. A
    // name taken by an element is a collision.
    method CreatePackage(i: nat, span: Span, p: FullName, h: Handler) returns (child: Option<nat>, err: bool)
      requires Valid() && i < |nodes| && p != "" && Parent(p) == nodes[i].scope
      modifies this, h
      ensures Valid() && flat == old(flat) && Extends(old(nodes), nodes)
      ensures child.Some? <==> p !in flat
      ensures child.Some? ==> !err && h.reported == old(h.reported) &&
                              child.value < |nodes| && nodes[child.value].scope == Some(p)
      ensures child.None? ==>
          && nodes == old(nodes) && h.reported == old(h.reported) + 1
          && err == h.aborts(old(h.reported))
    {
      assert NodeOk(nodes, i);
      if p in nodes[i].symbols {
        TakenIsFlat(nodes, flat, i, p);
        if nodes[i].symbols[p].isPackage {
          return Some(nodes[i].children[p]), false;
        }
        err := h.Report();
        return None, err;
      }
      PackageCreated(nodes, flat, i, p, span);
      child, err := Some(|nodes|), false;
      nodes := WithPackage(nodes, i, p, span);
    }

    // importPackages: the node of the package, creating what is missing on the way.
    method ImportPackages(span: Span, pkg: FullName, h: Handler) returns (node: Option<nat>, err: bool)
      requires Valid() && (pkg != "" ==> pkg[0] != '.')
      modifies this, h
      ensures Valid() && flat == old(flat) && Extends(old(nodes), nodes)
      ensures node.Some? ==> !err && h.reported == old(h.reported) &&
                             node.value < |nodes| && nodes[node.value].scope == PackageScope(pkg)
      ensures node.None? ==> h.reported == old(h.reported) + 1 && err == h.aborts(old(h.reported))
      ensures node.None? <==> pkg != "" && Collides(old(flat), pkg, |Prefixes(pkg)|)
    {
      if pkg == "" {
        assert NodeOk(nodes, 0);
        return Some(0), false;
      }
      var cur: nat, k: nat := 0, 0;
      var enumerator := new NameEnumerator(pkg);
      assert NodeOk(nodes, 0);
      while true
        invariant Valid() && flat == old(flat) && Extends(old(nodes), nodes) && h.reported == old(h.reported)
        invariant fresh(enumerator) && enumerator.name == pkg && enumerator.Valid()
        invariant enumerator.produced == k <= |Prefixes(pkg)|
        invariant cur < |nodes| && nodes[cur].scope == Enclosing(pkg, k)
        invariant !Collides(flat, pkg, k)
        decreases |Prefixes(pkg)| - k
      {
        var p := enumerator.Next();
        if p.None? {
          return Some(cur), false;
        }
        PrefixParent(pkg, k);
        PrefixIsNamed(pkg, k);
        ghost var was := nodes;
        var child;
        child, err := ImportPackage(cur, span, p.value, h);
        ExtendsTransitive(old(nodes), was, nodes);
        CollidesNext(flat, pkg, k);
        if child.None? {
          return None, err;
        }
        cur, k := child.value, k + 1;
      }
    }

    // importFile and importResult: check every element, then commit all or nothing.
    method ImportFile(i: nat, f: File, h: Handler) returns (imported: bool, err: bool)
      requires Valid() && i < |nodes| && nodes[i].scope == PackageScope(f.pkg) && ParentClosed(f)
      modifies this, h
      ensures Valid() && Extends(old(nodes), nodes)
      ensures imported <==> f.id !in old(nodes)[i].files && old(h.reported) == 0 && ClashFree(old(nodes), i, f)
      ensures imported ==> f.id in nodes[i].files && flat == old(flat) + Entries(f.elements) &&
                           old(flat).Keys !! Entries(f.elements).Keys
      ensures !imported ==> nodes == old(nodes) && flat == old(flat)
      ensures err <==> !imported && f.id !in old(nodes)[i].files
    {
      if f.id in nodes[i].files {
        return false, false;
      }
      ghost var before := h.reported;
      var resultSyms: set<FullName> := {};
      for k := 0 to |f.elements|
        invariant nodes == old(nodes) && flat == old(flat) && before <= h.reported
        invariant f.fromSource ==> forall n :: n in resultSyms <==> exists j :: 0 <= j < k && f.elements[j].name == n
        invariant !f.fromSource ==> resultSyms == {}
        invariant h.reported == before <==>
                  (forall j :: 0 <= j < k ==> f.elements[j].name !in nodes[i].symbols) &&
                  (f.fromSource ==> forall j, m :: 0 <= j < m < k ==> f.elements[j].name != f.elements[m].name)
      {
        var n := f.elements[k].name;
        if n in nodes[i].symbols {
          var abort := h.Report();
          if abort {
            assert f.elements[k] in f.elements;
            return false, true;
          }
        }
        if f.fromSource {
          if n in resultSyms {
            var abort := h.Report();
            if abort {
              return false, true;
            }
          }
          resultSyms := resultSyms + {n};
        }
      }
      if h.reported > 0 {
        return false, true;
      }
      assert ClashFree(nodes, i, f);
      WithFileOk(nodes, i, f);
      FlatWithFile(nodes, i, f, flat);
      ApplyExtends(nodes, i, f);
      nodes := WithFile(nodes, i, f);
      flat := flat + Entries(f.elements);
      return true, false;
    }

    // getPackage: the deepest package node on the way to the name, or with `exact` the
    // node of the name itself.
    method GetPackage(name: FullName, exact: bool) returns (node: Option<nat>)
      requires Valid()
      ensures !exact ==> node.Some? && exists k: nat :: StopsAt(nodes, name, node.value, k)
      ensures exact ==> (node.Some? <==> exists i :: 0 <= i < |nodes| && nodes[i].scope == PackageScope(name))
      ensures exact && node.Some? ==> node.value < |nodes| && nodes[node.value].scope == PackageScope(name)
    {
      assert NodeOk(nodes, 0);
      if name == "" {
        NoUnnamedPackage(nodes);
        assert StopsAt(nodes, name, 0, 0);
        return Some(0);
      }
      var cur: nat, k: nat := 0, 0;
      var enumerator := new NameEnumerator(name);
      while true
        invariant fresh(enumerator) && enumerator.name == name && enumerator.Valid()
        invariant enumerator.produced == k <= |Prefixes(name)|
        invariant cur < |nodes| && nodes[cur].scope == Enclosing(name, k)
        decreases |Prefixes(name)| - k
      {
        var p := enumerator.Next();
        if p.None? {
          assert StopsAt(nodes, name, cur, k);
          return Some(cur);
        }
        if p.value !in nodes[cur].children {
          assert StopsAt(nodes, name, cur, k);
          if exact {
            forall i: nat | i < |nodes|
              ensures nodes[i].scope != Some(name)
            {
              if nodes[i].scope == Some(name) {
                PackageIsReached(nodes, name, i, cur, k);
              }
            }
            return None;
          }
          return Some(cur);
        }
        assert NodeOk(nodes, cur);
        cur, k := nodes[cur].children[p.value], k + 1;
      }
    }

    // Lookup answers for element names only, and exactly as the flat table would.
    method Lookup(name: FullName) returns (span: Option<Span>)
      requires Valid()
      ensures span == if name in flat then Some(flat[name].span) else None
    {
      var node := GetPackage(name, false);
      var c := node.value;
      ghost var k: nat :| StopsAt(nodes, name, c, k);
      if name in flat {
        ghost var i: nat :| IsElement(nodes, i, name);
        ElementIsReached(nodes, name, i, c, k);
      }
      if name in nodes[c].symbols {
        FoundIsElement(nodes, name, c, k);
        return Some(nodes[c].symbols[name].span);
      }
      return None;
    }
  }

  // No prefix of a name that does not start with a dot is empty.
  lemma {:induction false} PrefixIsNamed(n: FullName, k: nat)
    requires n != "" && n[0] != '.' && k < |Prefixes(n)|
    ensures Prefixes(n)[k] != ""
    decreases |n|
  {
    if Parent(n).Some? && k < |Prefixes(n)| - 1 {
      PrefixIsNamed(Parent(n).value, k);
    }
  }
}
