/** Removal of source-retention options, options/source_retention_options.go.

    The source has one function per kind of element; they differ in the tag of the options
    and in the lists they visit. Here the kind is data and there is one function. What
    stripping means is defined on values. The operations work on objects in a store, which
    they compare by reference, copy on write and share with their input. */
module Retention {
  import opened Common

  type Path = seq<int>

  datatype Kind = File | Message | Field | Oneof | ExtensionRange | Enum | EnumValue | Service | Method

  // Field numbers of descriptor.proto.
  function OptionsTag(k: Kind): int {
    match k
    case File => 8
    case Message => 7
    case Field => 8
    case Oneof => 2
    case ExtensionRange => 3
    case Enum => 3
    case EnumValue => 3
    case Service => 3
    case Method => 4
  }

  datatype Visit = Visit(tag: int, kind: Kind)

  // The lists of an element of each kind, in the order in which they are visited.
  function Lists(k: Kind): seq<Visit> {
    match k
    case File => [Visit(4, Message), Visit(5, Enum), Visit(7, Field), Visit(6, Service)]
    case Message =>
      [Visit(2, Field), Visit(8, Oneof), Visit(5, ExtensionRange), Visit(3, Message), Visit(4, Enum), Visit(6, Field)]
    case Enum => [Visit(2, EnumValue)]
    case Service => [Visit(2, Method)]
    case _ => []
  }

  // An option field that is set: whether it is for the source only, and its value.
  datatype Opt = Opt(sourceOnly: bool, value: string)

  type Options = map<int, Opt>

  // `rest` stands for everything else in the element. One group per list.
  datatype Element = Element(kind: Kind, rest: string, options: Option<Options>, groups: seq<Group>)

  datatype Group = Group(tag: int, items: seq<Element>)

  ghost predicate FormedAs(e: Element, k: Kind) {
    && e.kind == k && |e.groups| == |Lists(k)|
    && (forall j :: 0 <= j < |e.groups| ==> GroupFormed(e.groups[j], Lists(k)[j]))
  }

  ghost predicate GroupFormed(g: Group, v: Visit) {
    g.tag == v.tag && forall i :: 0 <= i < |g.items| ==> FormedAs(g.items[i], v.kind)
  }

  // --- What stripping means -------------------------------------------------------------------

  predicate AnySource(o: Options) { exists f :: f in o && o[f].sourceOnly }

  predicate AnyKept(o: Options) { exists f :: f in o && !o[f].sourceOnly }

  function KeptFields(o: Options): Options { map f | f in o && !o[f].sourceOnly :: o[f] }

  // Options that would be left without a field go away altogether.
  function StripOptions(o: Option<Options>): Option<Options> {
    if o.None? || !AnySource(o.value) then o
    else if !AnyKept(o.value) then None
    else Some(KeptFields(o.value))
  }

  function Strip(e: Element): Element {
    Element(e.kind, e.rest, StripOptions(e.options),
      seq(|e.groups|, j requires 0 <= j < |e.groups| => StripGroup(e.groups[j])))
  }

  function StripGroup(g: Group): Group {
    Group(g.tag, seq(|g.items|, i requires 0 <= i < |g.items| => Strip(g.items[i])))
  }

  // Some option at some level is for the source only.
  predicate HasSource(e: Element) {
    (e.options.Some? && AnySource(e.options.value)) || exists j :: 0 <= j < |e.groups| && GroupHasSource(e.groups[j])
  }

  predicate GroupHasSource(g: Group) {
    exists i :: 0 <= i < |g.items| && HasSource(g.items[i])
  }

  // The element without any options.
  function Bare(e: Element): Element {
    Element(e.kind, e.rest, None, seq(|e.groups|, j requires 0 <= j < |e.groups| => BareGroup(e.groups[j])))
  }

  function BareGroup(g: Group): Group {
    Group(g.tag, seq(|g.items|, i requires 0 <= i < |g.items| => Bare(g.items[i])))
  }

  /** Nothing but options changes: elements, their number and their order stay. */
  lemma {:induction false} StripKeepsElements(e: Element)
    ensures Bare(Strip(e)) == Bare(e)
  {
    forall j | 0 <= j < |e.groups|
      ensures BareGroup(StripGroup(e.groups[j])) == BareGroup(e.groups[j])
    {
      var g := e.groups[j];
      forall i | 0 <= i < |g.items|
        ensures Bare(Strip(g.items[i])) == Bare(g.items[i])
      {
        StripKeepsElements(g.items[i]);
      }
    }
  }

  /** No source-only option is left at any level. */
  lemma {:induction false} StripRemovesAll(e: Element)
    ensures !HasSource(Strip(e))
  {
    forall j | 0 <= j < |e.groups|
      ensures !GroupHasSource(Strip(e).groups[j])
    {
      var g := e.groups[j];
      forall i | 0 <= i < |g.items|
        ensures !HasSource(StripGroup(g).items[i])
      {
        StripRemovesAll(g.items[i]);
      }
    }
  }

  /** The result equals the input exactly when there is nothing to remove. */
  lemma {:induction false} StripsNothingIffClean(e: Element)
    ensures Strip(e) == e <==> !HasSource(e)
  {
    if HasSource(e) {
      StripRemovesAll(e);
    } else {
      forall j | 0 <= j < |e.groups|
        ensures StripGroup(e.groups[j]) == e.groups[j]
      {
        var g := e.groups[j];
        assert !GroupHasSource(g);
        forall i | 0 <= i < |g.items|
          ensures Strip(g.items[i]) == g.items[i]
        {
          StripsNothingIffClean(g.items[i]);
        }
      }
    }
  }

  lemma StripIsIdempotent(e: Element)
    ensures Strip(Strip(e)) == Strip(e)
  {
    StripRemovesAll(e);
    StripsNothingIffClean(Strip(e));
  }

  // --- Options by path ---------------------------------------------------------------------------

  // The item that the first two steps of a path lead to.
  ghost predicate StepsTo(e: Element, q: Path, j: nat) {
    && |q| >= 2 && q[0] != OptionsTag(e.kind) && j < |e.groups|
    && e.groups[j].tag == q[0] && 0 <= q[1] < |e.groups[j].items|
  }

  // The path of an option, or a path below it, that stripping takes away.
  ghost predicate StripsPath(e: Element, q: Path)
    decreases |q|
  {
    if q != [] && q[0] == OptionsTag(e.kind) then StripsOption(e.options, q[1..])
    else exists j: nat :: StepsTo(e, q, j) && StripsPath(e.groups[j].items[q[1]], q[2..])
  }

  predicate StripsOption(o: Option<Options>, q: Path) {
    o.Some? && AnySource(o.value) && (!AnyKept(o.value) || (|q| > 0 && q[0] in o.value && o.value[q[0]].sourceOnly))
  }

  // The paths that are recorded as removed: of a single field, or of all options at once.
  ghost predicate Marks(e: Element, q: Path)
    decreases |q|
  {
    if q != [] && q[0] == OptionsTag(e.kind) then MarksOption(e.options, q[1..])
    else exists j: nat :: StepsTo(e, q, j) && Marks(e.groups[j].items[q[1]], q[2..])
  }

  predicate MarksOption(o: Option<Options>, q: Path) {
    && o.Some? && AnySource(o.value)
    && (if !AnyKept(o.value) then q == [] else |q| == 1 && q[0] in o.value && o.value[q[0]].sourceOnly)
  }

  ghost predicate MarksPrefix(e: Element, q: Path, k: nat) { k <= |q| && Marks(e, q[..k]) }

  // A path is stripped exactly when one of its prefixes is recorded.
  lemma {:induction false} StripsIffMarked(e: Element, q: Path)
    ensures StripsPath(e, q) <==> exists k: nat :: MarksPrefix(e, q, k)
    decreases |q|
  {
    if q == [] {
      assert !Marks(e, []);
    } else if q[0] == OptionsTag(e.kind) {
      StripsOptionIffMarked(e, q);
    } else {
      forall k: nat | MarksPrefix(e, q, k)
        ensures StripsPath(e, q)
      {
        MarkedBelow(e, q, k);
      }
      if StripsPath(e, q) {
        var j: nat :| StepsTo(e, q, j) && StripsPath(e.groups[j].items[q[1]], q[2..]);
        var item := e.groups[j].items[q[1]];
        StripsIffMarked(item, q[2..]);
        var k: nat :| MarksPrefix(item, q[2..], k);
        assert q[..k + 2][2..] == q[2..][..k];
        assert StepsTo(e, q[..k + 2], j);
        assert MarksPrefix(e, q, k + 2);
      }
    }
  }

  lemma MarkedBelow(e: Element, q: Path, k: nat)
    requires q != [] && q[0] != OptionsTag(e.kind) && MarksPrefix(e, q, k)
    ensures StripsPath(e, q)
    decreases |q|, 0
  {
    var p := q[..k];
    var j: nat :| StepsTo(e, p, j) && Marks(e.groups[j].items[p[1]], p[2..]);
    var item := e.groups[j].items[q[1]];
    assert p[2..] == q[2..][..k - 2];
    assert MarksPrefix(item, q[2..], k - 2);
    StripsIffMarked(item, q[2..]);
    assert StepsTo(e, q, j);
  }

  lemma StripsOptionIffMarked(e: Element, q: Path)
    requires q != [] && q[0] == OptionsTag(e.kind)
    ensures StripsPath(e, q) <==> exists k: nat :: MarksPrefix(e, q, k)
  {
    forall k: nat | MarksPrefix(e, q, k)
      ensures StripsPath(e, q)
    {
      if k > 0 {
        assert q[..k][1..] == q[1..][..k - 1];
      }
    }
    if StripsPath(e, q) {
      var k := if AnyKept(e.options.value) then 2 else 1;
      assert q[..k][1..] == q[1..][..k - 1];
      assert MarksPrefix(e, q, k);
    }
  }

  predicate SetTo(o: Option<Options>, f: int, v: Opt) { o.Some? && f in o.value && o.value[f] == v }

  lemma StripOptionsKeepsTheOthers(o: Option<Options>, f: int, v: Opt)
    ensures SetTo(StripOptions(o), f, v) <==> SetTo(o, f, v) && !v.sourceOnly
  {
  }

  /** Options are left out if and only if all of them were for the source only, so that none are
      left empty that were not. */
  lemma NoneLeftEmpty(o: Options)
    ensures StripOptions(Some(o)).None? <==> o != map[] && forall f :: f in o ==> o[f].sourceOnly
    ensures StripOptions(Some(o)) == Some(map[]) <==> o == map[]
  {
    if forall f :: f !in o {
      assert o == map[];
    }
    if AnyKept(o) {
      var f :| f in o && !o[f].sourceOnly;
      assert f in KeptFields(o);
    }
  }

  // The option field at a path is set to `v`.
  ghost predicate HasOption(e: Element, q: Path, v: Opt)
    decreases |q|
  {
    if q != [] && q[0] == OptionsTag(e.kind) then |q| == 2 && SetTo(e.options, q[1], v)
    else exists j: nat :: OptionBelow(e, q, v, j)
  }

  ghost predicate OptionBelow(e: Element, q: Path, v: Opt, j: nat)
    decreases |q|, 0
  {
    StepsTo(e, q, j) && HasOption(e.groups[j].items[q[1]], q[2..], v)
  }

  /** Exactly the fields that are not for the source only remain, at every level. */
  lemma {:induction false} StripKeepsTheOthers(e: Element, q: Path, v: Opt)
    ensures HasOption(Strip(e), q, v) <==> HasOption(e, q, v) && !v.sourceOnly
    decreases |q|
  {
    if q != [] && q[0] == OptionsTag(e.kind) {
      if |q| == 2 {
        StripOptionsKeepsTheOthers(e.options, q[1], v);
      }
    } else {
      forall j: nat
        ensures OptionBelow(Strip(e), q, v, j) <==> OptionBelow(e, q, v, j) && !v.sourceOnly
      {
        if StepsTo(e, q, j) {
          StripKeepsTheOthers(e.groups[j].items[q[1]], q[2..], v);
        }
      }
    }
  }

  // --- The trie of removed paths ---------------------------------------------------------------------

  datatype Trie = Trie(removed: bool, children: map<int, Trie>)

  const EMPTY := Trie(false, map[])

  function Add(t: Trie, p: Path): Trie
    decreases |p|
  {
    if p == [] then t.(removed := true)
    else t.(children := t.children[p[0] := Add(if p[0] in t.children then t.children[p[0]] else EMPTY, p[1..])])
  }

  // The path has been added.
  ghost predicate Has(t: Trie, q: Path)
    decreases |q|
  {
    if q == [] then t.removed else q[0] in t.children && Has(t.children[q[0]], q[1..])
  }

  predicate IsRemoved(t: Trie, p: Path)
    decreases |p|
  {
    t.removed || (p != [] && p[0] in t.children && IsRemoved(t.children[p[0]], p[1..]))
  }

  lemma {:induction false} AddAddsOne(t: Trie, p: Path, q: Path)
    ensures Has(Add(t, p), q) <==> Has(t, q) || q == p
    decreases |p|
  {
    if p != [] && q != [] && p[0] == q[0] {
      var child := if p[0] in t.children then t.children[p[0]] else EMPTY;
      AddAddsOne(child, p[1..], q[1..]);
      assert q == p <==> q[1..] == p[1..] by {
        assert q == [q[0]] + q[1..] && p == [p[0]] + p[1..];
      }
      assert !Has(EMPTY, q[1..]);
    }
  }

  ghost predicate HasPrefix(t: Trie, p: Path, k: nat) { k <= |p| && Has(t, p[..k]) }

  lemma {:induction false} RemovedIffPrefix(t: Trie, p: Path)
    ensures IsRemoved(t, p) <==> exists k: nat :: HasPrefix(t, p, k)
    decreases |p|
  {
    if t.removed {
      assert HasPrefix(t, p, 0);
    } else if p != [] && p[0] in t.children {
      var child := t.children[p[0]];
      RemovedIffPrefix(child, p[1..]);
      forall k: nat | k < |p|
        ensures HasPrefix(t, p, k + 1) <==> HasPrefix(child, p[1..], k)
      {
        assert p[..k + 1][1..] == p[1..][..k];
      }
      assert forall k: nat :: HasPrefix(t, p, k) ==> k > 0 && HasPrefix(child, p[1..], k - 1);
      assert forall k: nat :: HasPrefix(child, p[1..], k) ==> HasPrefix(t, p, k + 1);
    } else {
      assert forall k: nat :: HasPrefix(t, p, k) ==> k > 0;
    }
  }

  ghost function Paths(t: Trie): iset<Path> { iset q | Has(t, q) }

  class SourcePathTrie {
    var root: Trie

    constructor ()
      ensures Paths(root) == iset{}
    {
      root := EMPTY;
    }

    method AddPath(p: Path)
      modifies this
      ensures Paths(root) == old(Paths(root)) + iset{p}
    {
      forall q
        ensures Has(Add(root, p), q) <==> Has(root, q) || q == p
      {
        AddAddsOne(root, p, q);
      }
      root := Add(root, p);
    }
  }

  // --- The paths recorded for an element at `path`, part by part ------------------------------------

  ghost function Marked(e: Element, path: Path): iset<Path> {
    iset q | path <= q && Marks(e, q[|path|..])
  }

  ghost function OptionsMarked(o: Option<Options>, path: Path): iset<Path> {
    iset q | path <= q && MarksOption(o, q[|path|..])
  }

  ghost predicate ItemMarked(items: seq<Element>, path: Path, i: nat, q: Path) {
    i < |items| && q in Marked(items[i], path + [i])
  }

  // The first `n` items of a list.
  ghost function ItemsMarked(items: seq<Element>, path: Path, n: nat): iset<Path> {
    iset q | SomeItemMarked(items, path, n, q)
  }

  ghost predicate SomeItemMarked(items: seq<Element>, path: Path, n: nat, q: Path) {
    exists i: nat :: i < n && ItemMarked(items, path, i, q)
  }

  ghost predicate GroupMarked(groups: seq<Group>, path: Path, j: nat, q: Path) {
    j < |groups| && q in ItemsMarked(groups[j].items, path + [groups[j].tag], |groups[j].items|)
  }

  ghost function GroupsMarked(groups: seq<Group>, path: Path, n: nat): iset<Path> {
    iset q | SomeGroupMarked(groups, path, n, q)
  }

  ghost predicate SomeGroupMarked(groups: seq<Group>, path: Path, n: nat, q: Path) {
    exists j: nat :: j < n && GroupMarked(groups, path, j, q)
  }

  lemma GroupMarkedMeans(e: Element, path: Path, j: nat, q: Path)
    requires j < |e.groups| && e.groups[j].tag != OptionsTag(e.kind)
    ensures GroupMarked(e.groups, path, j, q) <==>
              path <= q && var r := q[|path|..]; StepsTo(e, r, j) && Marks(e.groups[j].items[r[1]], r[2..])
  {
    var items, tag := e.groups[j].items, e.groups[j].tag;
    if GroupMarked(e.groups, path, j, q) {
      var i: nat :| i < |items| && ItemMarked(items, path + [tag], i, q);
      assert path + [tag] + [i] <= q;
      var r := q[|path|..];
      assert r[0] == tag && r[1] == i && r[2..] == q[|path + [tag] + [i]|..];
    }
    if path <= q {
      var r := q[|path|..];
      if StepsTo(e, r, j) && Marks(items[r[1]], r[2..]) {
        var i: nat := r[1];
        assert q == path + [tag] + [i] + r[2..];
        assert ItemMarked(items, path + [tag], i, q);
      }
    }
  }

  lemma MarkedInParts(e: Element, path: Path)
    requires forall j :: 0 <= j < |e.groups| ==> e.groups[j].tag != OptionsTag(e.kind)
    ensures Marked(e, path) ==
            OptionsMarked(e.options, path + [OptionsTag(e.kind)]) + GroupsMarked(e.groups, path, |e.groups|)
  {
    var tag := OptionsTag(e.kind);
    forall q
      ensures q in Marked(e, path) <==>
              q in OptionsMarked(e.options, path + [tag]) || q in GroupsMarked(e.groups, path, |e.groups|)
    {
      forall j: nat | j < |e.groups|
        ensures GroupMarked(e.groups, path, j, q) <==>
                  path <= q && var r := q[|path|..]; StepsTo(e, r, j) && Marks(e.groups[j].items[r[1]], r[2..])
      {
        GroupMarkedMeans(e, path, j, q);
      }
      if path <= q {
        var r := q[|path|..];
        assert path + [tag] <= q <==> r != [] && r[0] == tag;
        assert r != [] ==> r[1..] == q[|path + [tag]|..];
      }
    }
  }

  // --- Objects -----------------------------------------------------------------------------------------

  type Ref = nat

  // An element with a reference to its options, if any, and to the slice of each of its lists;
  // an options message; a slice of references to elements.
  datatype Cell =
    | ElementCell(kind: Kind, rest: string, options: Option<Ref>, lists: seq<Ref>)
    | OptionsCell(fields: Options)
    | SliceCell(items: seq<Ref>)

  type Cells = map<Ref, Cell>

  // No object is changed; new ones may have been made.
  ghost predicate Extends(h: Cells, h': Cells) {
    forall r :: r in h ==> r in h' && h'[r] == h[r]
  }

  ghost predicate IsOptions(h: Cells, o: Option<Ref>, v: Option<Options>) {
    && (o.None? <==> v.None?)
    && (o.Some? ==> o.value in h && h[o.value] == OptionsCell(v.value))
  }

  // The reference stands for the element.
  ghost predicate IsElement(h: Cells, r: Ref, e: Element)
    decreases e
  {
    && r in h && h[r].ElementCell? && h[r].kind == e.kind && h[r].rest == e.rest
    && IsOptions(h, h[r].options, e.options) && |h[r].lists| == |e.groups|
    && (forall j: nat :: j < |e.groups| ==> IsList(h, h[r].lists[j], e.groups[j]))
  }

  ghost predicate IsList(h: Cells, l: Ref, g: Group)
    decreases g
  {
    && l in h && h[l].SliceCell? && |h[l].items| == |g.items|
    && (forall i: nat :: i < |g.items| ==> IsElement(h, h[l].items[i], g.items[i]))
  }

  lemma {:induction false} ElementStays(h: Cells, h': Cells, r: Ref, e: Element)
    requires Extends(h, h') && IsElement(h, r, e)
    ensures IsElement(h', r, e)
    decreases e
  {
    forall j: nat | j < |e.groups|
      ensures IsList(h', h[r].lists[j], e.groups[j])
    {
      ListStays(h, h', h[r].lists[j], e.groups[j]);
    }
  }

  lemma {:induction false} ListStays(h: Cells, h': Cells, l: Ref, g: Group)
    requires Extends(h, h') && IsList(h, l, g)
    ensures IsList(h', l, g)
    decreases g
  {
    forall i: nat | i < |g.items|
      ensures IsElement(h', h[l].items[i], g.items[i])
    {
      ElementStays(h, h', h[l].items[i], g.items[i]);
    }
  }

  class Store {
    var cells: Cells
    var next: Ref

    ghost predicate Valid()
      reads this
    {
      forall r :: r in cells ==> r < next
    }

    constructor (cells: Cells, next: Ref)
      requires forall r :: r in cells ==> r < next
      ensures Valid() && this.cells == cells
    {
      this.cells, this.next := cells, next;
    }

    method New(c: Cell) returns (r: Ref)
      requires Valid()
      modifies this
      ensures Valid() && r !in old(cells) && cells == old(cells)[r := c]
    {
      r := next;
      cells := cells[r := c];
      next := next + 1;
    }
  }

  // The result of an operation on an object: the same reference when there is nothing to
  // remove, and otherwise a new object.
  ghost predicate CopiedIf(dirty: bool, before: Cells, r: Ref, r': Ref) {
    if dirty then r' !in before else r' == r
  }

  // --- The operations -----------------------------------------------------------------------------------

  // addPath, which does nothing for a nil trie.
  method Record(trie: SourcePathTrie?, p: Path)
    modifies if trie == null then {} else {trie}
    ensures trie != null ==> Paths(trie.root) == old(Paths(trie.root)) + iset{p}
  {
    if trie != null {
      trie.AddPath(p);
    }
  }

  ghost predicate IsFieldPath(o: Options, f: int, path: Path, q: Path) {
    f in o && o[f].sourceOnly && q == path + [f]
  }

  ghost function FieldPaths(o: Options, fields: set<int>, path: Path): iset<Path> {
    iset q | SomeFieldPath(o, fields, path, q)
  }

  ghost predicate SomeFieldPath(o: Options, fields: set<int>, path: Path, q: Path) {
    exists f :: f in fields && IsFieldPath(o, f, path, q)
  }

  /** stripSourceRetentionOptions. */
  method StripOptionsOf(store: Store, o: Option<Ref>, ghost v: Option<Options>, path: Path, trie: SourcePathTrie?)
    returns (o': Option<Ref>)
    requires store.Valid() && IsOptions(store.cells, o, v)
    modifies store, if trie == null then {} else {trie}
    ensures store.Valid() && Extends(old(store.cells), store.cells) && IsOptions(store.cells, o', StripOptions(v))
    ensures o' == o <==> !(v.Some? && AnySource(v.value))
    ensures o' != o && o'.Some? ==> o'.value !in old(store.cells)
    ensures trie != null ==> Paths(trie.root) == old(Paths(trie.root)) + OptionsMarked(v, path)
  {
    if o.None? {
      return o;
    }
    var fields := store.cells[o.value].fields;
    var hasFieldToStrip, numFieldsToKeep := CountFields(fields);
    if !hasFieldToStrip {
      return o;
    }
    if numFieldsToKeep == 0 {
      Record(trie, path);
      assert forall q :: q in OptionsMarked(v, path) <==> q == path;
      return None;
    }
    var kept := CopyKept(fields, path, trie);
    FieldPathsAre(fields, path);
    var r := store.New(OptionsCell(kept));
    return Some(r);
  }

  lemma FieldPathsAre(o: Options, path: Path)
    requires AnySource(o) && AnyKept(o)
    ensures FieldPaths(o, o.Keys, path) == OptionsMarked(Some(o), path)
  {
    forall q
      ensures q in FieldPaths(o, o.Keys, path) <==> q in OptionsMarked(Some(o), path)
    {
      if q in OptionsMarked(Some(o), path) {
        assert IsFieldPath(o, q[|path|..][0], path, q);
      }
    }
  }

  method PickOne<T>(s: set<T>) returns (f: T)
    requires s != {}
    ensures f in s
  {
    f :| f in s;
  }

  method CountFields(o: Options) returns (hasFieldToStrip: bool, numFieldsToKeep: nat)
    ensures hasFieldToStrip <==> AnySource(o)
    ensures numFieldsToKeep > 0 <==> AnyKept(o)
  {
    hasFieldToStrip, numFieldsToKeep := false, 0;
    var todo := o.Keys;
    while todo != {}
      invariant todo <= o.Keys
      invariant hasFieldToStrip <==> exists f :: f in o && f !in todo && o[f].sourceOnly
      invariant numFieldsToKeep > 0 <==> exists f :: f in o && f !in todo && !o[f].sourceOnly
    {
      var f := PickOne(todo);
      todo := todo - {f};
      if o[f].sourceOnly {
        hasFieldToStrip := true;
      } else {
        numFieldsToKeep := numFieldsToKeep + 1;
      }
    }
  }

  method CopyKept(o: Options, path: Path, trie: SourcePathTrie?) returns (kept: Options)
    modifies if trie == null then {} else {trie}
    ensures kept == KeptFields(o)
    ensures trie != null ==> Paths(trie.root) == old(Paths(trie.root)) + FieldPaths(o, o.Keys, path)
  {
    kept := map[];
    var todo := o.Keys;
    while todo != {}
      invariant todo <= o.Keys
      invariant kept == map f | f in o && f !in todo && !o[f].sourceOnly :: o[f]
      invariant trie != null ==> Paths(trie.root) == old(Paths(trie.root)) + FieldPaths(o, o.Keys - todo, path)
    {
      var f := PickOne(todo);
      OneMoreField(o, o.Keys - todo, f, path);
      assert o.Keys - (todo - {f}) == o.Keys - todo + {f};
      todo := todo - {f};
      if o[f].sourceOnly {
        Record(trie, path + [f]);
      } else {
        kept := kept[f := o[f]];
      }
    }
    assert o.Keys - todo == o.Keys;
  }

  lemma OneMoreField(o: Options, fields: set<int>, f: int, path: Path)
    requires f in o
    ensures FieldPaths(o, fields + {f}, path) ==
            FieldPaths(o, fields, path) + if o[f].sourceOnly then iset{path + [f]} else iset{}
  {
    assert o[f].sourceOnly ==> IsFieldPath(o, f, path, path + [f]);
  }

  /** The updateFunc of every kind of element: copy on write, and share everything else. */
  method StripElement(store: Store, r: Ref, ghost e: Element, path: Path, trie: SourcePathTrie?) returns (r': Ref)
    requires store.Valid() && IsElement(store.cells, r, e) && FormedAs(e, e.kind)
    modifies store, if trie == null then {} else {trie}
    ensures store.Valid() && Extends(old(store.cells), store.cells) && IsElement(store.cells, r', Strip(e))
    ensures CopiedIf(HasSource(e), old(store.cells), r, r')
    ensures trie != null ==> Paths(trie.root) == old(Paths(trie.root)) + Marked(e, path)
    decreases e, 1
  {
    ghost var h := store.cells;
    ghost var before := if trie == null then iset{} else Paths(trie.root);
    TagsDiffer(e);
    MarkedInParts(e, path);
    var element := store.cells[r];
    var tag := OptionsTag(element.kind);
    var opts := StripOptionsOf(store, element.options, e.options, path + [tag], trie);
    ghost var h1 := store.cells;
    ElementStays(h, h1, r, e);
    var lists := StripLists(store, element.kind, element.lists, e, path, trie);
    ghost var h2 := store.cells;
    Associate(before, OptionsMarked(e.options, path + [tag]), GroupsMarked(e.groups, path, |e.groups|));
    SameLists(h1, h2, element.lists, lists, e.groups);
    if opts == element.options && lists == element.lists {
      StripsNothingIffClean(e);
      ElementStays(h, h2, r, e);
      return r;
    }
    r' := store.New(ElementCell(element.kind, element.rest, opts, lists));
    NewElement(h1, h2, store.cells, r', e, opts, element.lists, lists);
  }

  // Stripped list `j`, in state `h`.
  ghost predicate ListDone(h: Cells, before: Cells, lists: seq<Ref>, done: seq<Ref>, gs: seq<Group>, j: nat) {
    && j < |gs| == |lists| && j < |done| && IsList(h, done[j], StripGroup(gs[j]))
    && CopiedIf(GroupHasSource(gs[j]), before, lists[j], done[j])
  }

  ghost predicate ListsDone(h: Cells, before: Cells, lists: seq<Ref>, done: seq<Ref>, gs: seq<Group>) {
    forall j: nat :: j < |done| ==> ListDone(h, before, lists, done, gs, j)
  }

  // All lists are the ones of the element exactly when none has anything to remove.
  lemma SameLists(before: Cells, h: Cells, lists: seq<Ref>, done: seq<Ref>, gs: seq<Group>)
    requires ListsDone(h, before, lists, done, gs) && |done| == |lists| == |gs|
    requires forall j: nat :: j < |lists| ==> lists[j] in before
    ensures done == lists <==> forall j :: 0 <= j < |gs| ==> !GroupHasSource(gs[j])
  {
    forall j: nat | j < |gs|
      ensures done[j] == lists[j] <==> !GroupHasSource(gs[j])
    {
      assert ListDone(h, before, lists, done, gs, j);
    }
  }

  lemma NewElement(h1: Cells, h2: Cells, h3: Cells, r: Ref, e: Element, opts: Option<Ref>, lists: seq<Ref>,
      done: seq<Ref>)
    requires Extends(h1, h2) && Extends(h2, h3) && IsOptions(h1, opts, StripOptions(e.options))
    requires ListsDone(h2, h1, lists, done, e.groups) && |done| == |e.groups|
    requires r in h3 && h3[r] == ElementCell(e.kind, e.rest, opts, done)
    ensures IsElement(h3, r, Strip(e))
  {
    forall j: nat | j < |e.groups|
      ensures IsList(h3, done[j], Strip(e).groups[j])
    {
      assert ListDone(h2, h1, lists, done, e.groups, j);
      ListStays(h2, h3, done[j], StripGroup(e.groups[j]));
    }
  }

  lemma TagsDiffer(e: Element)
    requires FormedAs(e, e.kind)
    ensures forall j :: 0 <= j < |e.groups| ==> e.groups[j].tag != OptionsTag(e.kind)
  {
    forall j | 0 <= j < |e.groups|
      ensures e.groups[j].tag != OptionsTag(e.kind)
    {
      assert GroupFormed(e.groups[j], Lists(e.kind)[j]);
    }
  }

  ghost predicate AreLists(h: Cells, lists: seq<Ref>, gs: seq<Group>) {
    |lists| == |gs| && forall j: nat :: j < |gs| ==> IsList(h, lists[j], gs[j])
  }

  lemma OneMoreList(before: Cells, h: Cells, h': Cells, lists: seq<Ref>, done: seq<Ref>, gs: seq<Group>, l: Ref)
    requires ListsDone(h, before, lists, done, gs) && Extends(before, h) && Extends(h, h') && |done| < |lists| == |gs|
    requires IsList(h', l, StripGroup(gs[|done|])) && CopiedIf(GroupHasSource(gs[|done|]), h, lists[|done|], l)
    ensures ListsDone(h', before, lists, done + [l], gs)
  {
    forall j: nat | j < |done + [l]|
      ensures ListDone(h', before, lists, done + [l], gs, j)
    {
      if j < |done| {
        assert ListDone(h, before, lists, done, gs, j);
        ListStays(h, h', done[j], StripGroup(gs[j]));
      }
    }
  }

  // The calls of stripOptionsFromAll for the lists of an element.
  method StripLists(store: Store, kind: Kind, lists: seq<Ref>, ghost e: Element, path: Path, trie: SourcePathTrie?)
    returns (done: seq<Ref>)
    requires store.Valid() && FormedAs(e, kind) && AreLists(store.cells, lists, e.groups)
    modifies store, if trie == null then {} else {trie}
    ensures store.Valid() && Extends(old(store.cells), store.cells)
    ensures |done| == |lists| && ListsDone(store.cells, old(store.cells), lists, done, e.groups)
    ensures trie != null ==> Paths(trie.root) == old(Paths(trie.root)) + GroupsMarked(e.groups, path, |e.groups|)
    decreases e, 0
  {
    ghost var h := store.cells;
    ghost var before := if trie == null then iset{} else Paths(trie.root);
    done := [];
    for j := 0 to |lists|
      invariant store.Valid() && Extends(h, store.cells) && |done| == j
          && ListsDone(store.cells, h, lists, done, e.groups)
      invariant trie != null ==> Paths(trie.root) == before + GroupsMarked(e.groups, path, j)
    {
      ghost var g, h1 := e.groups[j], store.cells;
      assert GroupFormed(g, Lists(kind)[j]) && IsList(h, lists[j], g);
      ListStays(h, h1, lists[j], g);
      var l := StripAll(store, lists[j], g, Lists(kind)[j].kind, path + [Lists(kind)[j].tag], trie);
      OneMoreGroup(e.groups, path, j);
      Associate(before, GroupsMarked(e.groups, path, j), ItemsMarked(g.items, path + [g.tag], |g.items|));
      OneMoreList(h, h1, store.cells, lists, done, e.groups, l);
      done := done + [l];
    }
  }

  // Stripped item `i`, in state `h`.
  ghost predicate ItemDone(h: Cells, before: Cells, items: seq<Ref>, done: seq<Ref>, es: seq<Element>, i: nat) {
    && i < |es| == |items| && i < |done| && IsElement(h, done[i], Strip(es[i]))
    && CopiedIf(HasSource(es[i]), before, items[i], done[i])
  }

  ghost predicate ItemsDone(h: Cells, before: Cells, items: seq<Ref>, done: seq<Ref>, es: seq<Element>) {
    forall i: nat :: i < |done| ==> ItemDone(h, before, items, done, es, i)
  }

  lemma OneMoreDone(before: Cells, h: Cells, h': Cells, items: seq<Ref>, done: seq<Ref>, es: seq<Element>, r: Ref)
    requires ItemsDone(h, before, items, done, es) && Extends(before, h) && Extends(h, h') && |done| < |items| == |es|
    requires IsElement(h', r, Strip(es[|done|])) && CopiedIf(HasSource(es[|done|]), h, items[|done|], r)
    ensures ItemsDone(h', before, items, done + [r], es)
  {
    forall i: nat | i < |done + [r]|
      ensures ItemDone(h', before, items, done + [r], es, i)
    {
      if i < |done| {
        assert ItemDone(h, before, items, done, es, i);
        ElementStays(h, h', done[i], Strip(es[i]));
      }
    }
  }

  // The items are all the same exactly when none has anything to remove.
  lemma SameItems(before: Cells, h: Cells, items: seq<Ref>, done: seq<Ref>, g: Group)
    requires ItemsDone(h, before, items, done, g.items) && |done| == |items| == |g.items|
    requires forall i: nat :: i < |items| ==> items[i] in before
    ensures done == items <==> !GroupHasSource(g)
  {
    forall i: nat | i < |items|
      ensures done[i] == items[i] <==> !HasSource(g.items[i])
    {
      assert ItemDone(h, before, items, done, g.items, i);
    }
  }

  lemma NewSlice(before: Cells, h: Cells, h': Cells, l: Ref, items: seq<Ref>, done: seq<Ref>, g: Group)
    requires ItemsDone(h, before, items, done, g.items) && Extends(h, h') && |done| == |items| == |g.items|
    requires l in h' && h'[l] == SliceCell(done)
    ensures IsList(h', l, StripGroup(g))
  {
    forall i: nat | i < |g.items|
      ensures IsElement(h', done[i], StripGroup(g).items[i])
    {
      assert ItemDone(h, before, items, done, g.items, i);
      ElementStays(h, h', done[i], Strip(g.items[i]));
    }
  }

  /** stripOptionsFromAll: a new slice is made when the first item changes. */
  method StripAll(store: Store, l: Ref, ghost g: Group, ghost kind: Kind, path: Path, trie: SourcePathTrie?)
    returns (l': Ref)
    requires store.Valid() && IsList(store.cells, l, g) && forall i :: 0 <= i < |g.items| ==> FormedAs(g.items[i], kind)
    modifies store, if trie == null then {} else {trie}
    ensures store.Valid() && Extends(old(store.cells), store.cells) && IsList(store.cells, l', StripGroup(g))
    ensures CopiedIf(GroupHasSource(g), old(store.cells), l, l')
    ensures trie != null ==> Paths(trie.root) == old(Paths(trie.root)) + ItemsMarked(g.items, path, |g.items|)
    decreases g
  {
    ghost var h := store.cells;
    ghost var before := if trie == null then iset{} else Paths(trie.root);
    var items := store.cells[l].items;
    var updated: Option<seq<Ref>> := None;
    ghost var done: seq<Ref> := [];
    for i := 0 to |items|
      invariant store.Valid() && Extends(h, store.cells) && |done| == i
          && ItemsDone(store.cells, h, items, done, g.items)
      invariant updated == if done == items[..i] then None else Some(done)
      invariant trie != null ==> Paths(trie.root) == before + ItemsMarked(g.items, path, i)
    {
      var item := StripItem(store, items, i, g, kind, path, trie, h, done);
      MarkedNext(before, g.items, path, i);
      Advanced(updated, items, done, item);
      updated := WithItem(updated, items, i, item);
      done := done + [item];
    }
    assert items[..|items|] == items;
    l' := SliceOf(store, l, updated, g, h, items, done);
  }

  // One turn of the loop: the next item is stripped.
  method StripItem(store: Store, items: seq<Ref>, i: nat, ghost g: Group, ghost kind: Kind, path: Path,
      trie: SourcePathTrie?, ghost h: Cells, ghost done: seq<Ref>) returns (item: Ref)
    requires store.Valid() && Extends(h, store.cells) && |done| == i < |items| == |g.items|
    requires ItemsDone(store.cells, h, items, done, g.items)
    requires IsElement(h, items[i], g.items[i]) && FormedAs(g.items[i], kind)
    modifies store, if trie == null then {} else {trie}
    ensures store.Valid() && Extends(h, store.cells) && ItemsDone(store.cells, h, items, done + [item], g.items)
    ensures trie != null ==> Paths(trie.root) == old(Paths(trie.root)) + Marked(g.items[i], path + [i])
    decreases g, 0
  {
    ghost var h1 := store.cells;
    ElementStays(h, h1, items[i], g.items[i]);
    item := StripElement(store, items[i], g.items[i], path + [i], trie);
    OneMoreDone(h, h1, store.cells, items, done, g.items, item);
  }

  // The new slice, once there is one.
  function WithItem(updated: Option<seq<Ref>>, items: seq<Ref>, i: nat, item: Ref): Option<seq<Ref>>
    requires i < |items|
  {
    if updated.Some? then Some(updated.value + [item])
    else if item != items[i] then Some(items[..i] + [item])
    else None
  }

  // The slice it was, if no item has changed, or else a new one.
  method SliceOf(store: Store, l: Ref, updated: Option<seq<Ref>>, ghost g: Group, ghost h: Cells, ghost items: seq<Ref>,
      ghost done: seq<Ref>) returns (l': Ref)
    requires store.Valid() && Extends(h, store.cells) && IsList(h, l, g) && h[l] == SliceCell(items)
    requires |done| == |items| && ItemsDone(store.cells, h, items, done, g.items)
    requires updated == if done == items then None else Some(done)
    modifies store
    ensures store.Valid() && Extends(h, store.cells) && IsList(store.cells, l', StripGroup(g))
    ensures CopiedIf(GroupHasSource(g), h, l, l')
  {
    ghost var h2 := store.cells;
    SameItems(h, h2, items, done, g);
    if updated.None? {
      CleanGroup(g);
      ListStays(h, h2, l, g);
      return l;
    }
    l' := store.New(SliceCell(updated.value));
    NewSlice(h, h2, store.cells, l', items, done, g);
  }

  lemma CleanGroup(g: Group)
    requires !GroupHasSource(g)
    ensures StripGroup(g) == g
  {
    forall i | 0 <= i < |g.items|
      ensures Strip(g.items[i]) == g.items[i]
    {
      StripsNothingIffClean(g.items[i]);
    }
  }

  lemma Advanced(updated: Option<seq<Ref>>, items: seq<Ref>, done: seq<Ref>, item: Ref)
    requires |done| < |items| && updated == if done == items[..|done|] then None else Some(done)
    ensures var n := |done|;
            WithItem(updated, items, n, item) == if done + [item] == items[..n + 1] then None else Some(done + [item])
  {
    var n := |done|;
    assert items[..n + 1] == items[..n] + [items[n]];
    assert (done + [item])[..n] == done && items[..n + 1][..n] == items[..n];
    assert (done + [item])[n] == item && items[..n + 1][n] == items[n];
  }

  lemma MarkedNext(before: iset<Path>, items: seq<Element>, path: Path, i: nat)
    requires i < |items|
    ensures before + ItemsMarked(items, path, i) + Marked(items[i], path + [i])
         == before + ItemsMarked(items, path, i + 1)
  {
    OneMoreItem(items, path, i);
    Associate(before, ItemsMarked(items, path, i), Marked(items[i], path + [i]));
  }

  lemma OneMoreGroup(groups: seq<Group>, path: Path, j: nat)
    requires j < |groups|
    ensures GroupsMarked(groups, path, j + 1) ==
            GroupsMarked(groups, path, j) + ItemsMarked(groups[j].items, path + [groups[j].tag], |groups[j].items|)
  {
    assert forall q :: q in ItemsMarked(groups[j].items, path + [groups[j].tag], |groups[j].items|) ==>
      GroupMarked(groups, path, j, q);
  }

  lemma Associate(a: iset<Path>, b: iset<Path>, c: iset<Path>)
    ensures (a + b) + c == a + (b + c)
  {
  }

  lemma OneMoreItem(items: seq<Element>, path: Path, i: nat)
    requires i < |items|
    ensures ItemsMarked(items, path, i + 1) == ItemsMarked(items, path, i) + Marked(items[i], path + [i])
  {
    assert forall q :: q in Marked(items[i], path + [i]) ==> ItemMarked(items, path, i, q);
  }

  // --- Files --------------------------------------------------------------------------------------------

  datatype Location = Location(path: Path, rest: string)

  datatype FileProto = FileProto(element: Element, locations: seq<Location>)

  // Those of the first `n` locations that do not lie at or below a removed option.
  ghost function KeptLocations(e: Element, locs: seq<Location>, n: nat): seq<Location>
    requires n <= |locs|
  {
    if n == 0 then []
    else KeptLocations(e, locs, n - 1) + if StripsPath(e, locs[n - 1].path) then [] else [locs[n - 1]]
  }

  lemma TrieStrips(e: Element, t: Trie, p: Path)
    requires Paths(t) == Marked(e, [])
    ensures IsRemoved(t, p) <==> StripsPath(e, p)
  {
    RemovedIffPrefix(t, p);
    StripsIffMarked(e, p);
    forall k: nat
      ensures HasPrefix(t, p, k) <==> MarksPrefix(e, p, k)
    {
      if k <= |p| {
        assert p[..k][0..] == p[..k];
        assert p[..k] in Paths(t) <==> p[..k] in Marked(e, []);
      }
    }
  }

  /** stripSourcePathsForSourceRetentionOptions. */
  method StripLocations(ghost e: Element, locs: seq<Location>, trie: SourcePathTrie) returns (kept: seq<Location>)
    requires Paths(trie.root) == Marked(e, [])
    ensures kept == KeptLocations(e, locs, |locs|)
  {
    kept := [];
    for i := 0 to |locs|
      invariant kept == KeptLocations(e, locs, i)
    {
      TrieStrips(e, trie.root, locs[i].path);
      if !IsRemoved(trie.root, locs[i].path) {
        kept := kept + [locs[i]];
      }
    }
  }

  lemma {:induction false} NothingToRemove(e: Element, q: Path)
    requires !HasSource(e)
    ensures !StripsPath(e, q)
    decreases |q|
  {
    if !(q != [] && q[0] == OptionsTag(e.kind)) {
      forall j: nat | StepsTo(e, q, j)
        ensures !StripsPath(e.groups[j].items[q[1]], q[2..])
      {
        assert !GroupHasSource(e.groups[j]);
        NothingToRemove(e.groups[j].items[q[1]], q[2..]);
      }
    }
  }

  /** StripSourceRetentionOptionsFromFile. No object of the store changes. The file itself is
      returned exactly when it has no source-only option anywhere, and otherwise a new one. */
  method StripFile(store: Store, file: Ref, ghost e: Element, locations: seq<Location>)
    returns (file': Ref, locations': seq<Location>)
    requires store.Valid() && IsElement(store.cells, file, e) && FormedAs(e, File)
    modifies store
    ensures store.Valid() && Extends(old(store.cells), store.cells)
    ensures IsElement(store.cells, file, e) && IsElement(store.cells, file', Strip(e))
    ensures file' == file <==> !HasSource(e)
    ensures file' != file ==> file' !in old(store.cells)
    ensures locations' == KeptLocations(e, locations, |locations|)
  {
    var trie: SourcePathTrie? := null;
    if |locations| > 0 {
      trie := new SourcePathTrie();
    }
    file' := StripElement(store, file, e, [], trie);
    ElementStays(old(store.cells), store.cells, file, e);
    if file' == file {
      AllKept(e, locations, |locations|);
      assert locations[..|locations|] == locations;
      return file, locations;
    }
    locations' := locations;
    if trie != null {
      locations' := StripLocations(e, locations, trie);
    }
  }

  /** Stripping what has been stripped returns that very object. */
  method StripTwice(store: Store, file: Ref, ghost e: Element, locations: seq<Location>) returns (once: Ref, twice: Ref)
    requires store.Valid() && IsElement(store.cells, file, e) && FormedAs(e, File)
    modifies store
    ensures once == twice && IsElement(store.cells, once, Strip(e))
  {
    var kept;
    once, kept := StripFile(store, file, e, locations);
    StripRemovesAll(e);
    StripKeepsForm(e, File);
    ghost var h := store.cells;
    twice, kept := StripFile(store, once, Strip(e), kept);
  }

  lemma {:induction false} StripKeepsForm(e: Element, k: Kind)
    requires FormedAs(e, k)
    ensures FormedAs(Strip(e), k)
  {
    forall j | 0 <= j < |e.groups|
      ensures GroupFormed(Strip(e).groups[j], Lists(k)[j])
    {
      var g, v := e.groups[j], Lists(k)[j];
      assert GroupFormed(g, v);
      forall i | 0 <= i < |g.items|
        ensures FormedAs(StripGroup(g).items[i], v.kind)
      {
        StripKeepsForm(g.items[i], v.kind);
      }
    }
  }

  lemma {:induction false} AllKept(e: Element, locs: seq<Location>, n: nat)
    requires !HasSource(e) && n <= |locs|
    ensures KeptLocations(e, locs, n) == locs[..n]
  {
    if n > 0 {
      AllKept(e, locs, n - 1);
      NothingToRemove(e, locs[n - 1].path);
      assert locs[..n] == locs[..n - 1] + [locs[n - 1]];
    }
  }
}
