/** The walk of walk/walk.go with the callbacks of resolveReferences, which push a scope
    on entering a message or service and pop it on leaving. */
module ScopeWalk {
  import opened Common
  import opened Names
  import opened Resolution

  datatype EnumTree = EnumTree(name: string, values: seq<string>)

  datatype MessageTree = MessageTree(
    name: string,
    fields: seq<string>,
    oneofs: seq<string>,
    nested: seq<MessageTree>,
    enums: seq<EnumTree>,
    extensions: seq<string>)

  datatype ServiceTree = ServiceTree(name: string, methods: seq<string>)

  datatype FileTree = FileTree(
    pkg: FullName,
    messages: seq<MessageTree>,
    enums: seq<EnumTree>,
    extensions: seq<string>,
    services: seq<ServiceTree>)

  // The full name of an element in a message, a service or a package.
  function Join(container: FullName, name: string): FullName {
    if container == "" then name else container + "." + name
  }

  // A single component.
  ghost predicate Simple(name: string) {
    name != "" && forall i :: 0 <= i < |name| ==> name[i] != '.'
  }

  ghost predicate SimpleNames(names: seq<string>) {
    forall i :: 0 <= i < |names| ==> Simple(names[i])
  }

  ghost predicate SimpleEnums(es: seq<EnumTree>) {
    forall i :: 0 <= i < |es| ==> Simple(es[i].name) && SimpleNames(es[i].values)
  }

  ghost predicate SimpleMessage(m: MessageTree)
    decreases m
  {
    && Simple(m.name) && SimpleNames(m.fields) && SimpleNames(m.oneofs)
    && (forall i :: 0 <= i < |m.nested| ==> SimpleMessage(m.nested[i]))
    && SimpleEnums(m.enums) && SimpleNames(m.extensions)
  }

  ghost predicate SimpleMessages(ms: seq<MessageTree>) {
    forall i :: 0 <= i < |ms| ==> SimpleMessage(ms[i])
  }

  ghost predicate SimpleServices(ss: seq<ServiceTree>) {
    forall i :: 0 <= i < |ss| ==> Simple(ss[i].name) && SimpleNames(ss[i].methods)
  }

  // The names in a file are single components, as the grammar has them.
  ghost predicate SimpleFile(f: FileTree) {
    SimpleMessages(f.messages) && SimpleEnums(f.enums) && SimpleNames(f.extensions) && SimpleServices(f.services)
  }

  // One more component in front of the prefix list.
  lemma JoinPrefixes(container: FullName, name: string)
    requires Simple(name)
    ensures PrefixList(Join(container, name)) == [Join(container, name)] + PrefixList(container)
    ensures |Join(container, name)| > |container|
  {
    var n := Join(container, name);
    if container == "" {
      LastDotIs(n, -1);
      assert Prefixes(n) == [n];
      ReverseSnoc([], n);
    } else {
      LastDotIs(n, |container|);
      assert n[..|container|] == container;
      assert Prefixes(n) == Prefixes(container) + [n];
      ReverseSnoc(Prefixes(container), n);
      Regroup([n], Reverse(Prefixes(container)), [""]);
    }
  }

  // `inner` is `outer` with one more component.
  ghost predicate Inside(outer: FullName, inner: FullName) {
    exists name: string :: Simple(name) && inner == Join(outer, name)
  }

  // What encloses entry `i` of a scope stack.
  function Outer(scopes: seq<FullName>, pkg: FullName, i: nat): FullName
    requires i <= |scopes|
  {
    if i == 0 then pkg else scopes[i - 1]
  }

  // The stack leads from the package, one component at a time, to the container.
  ghost predicate Nested(scopes: seq<FullName>, pkg: FullName, container: FullName) {
    Outer(scopes, pkg, |scopes|) == container && forall i: nat :: i < |scopes| ==> StepAt(scopes, pkg, i)
  }

  ghost predicate StepAt(scopes: seq<FullName>, pkg: FullName, i: nat) {
    i < |scopes| && Inside(Outer(scopes, pkg, i), scopes[i])
  }

  // The last entry of a stack, and the rest of it.
  lemma NestedFront(scopes: seq<FullName>, pkg: FullName, container: FullName) returns (outer: FullName, name: string)
    requires Nested(scopes, pkg, container) && scopes != []
    ensures Nested(scopes[..|scopes| - 1], pkg, outer) && Simple(name) && container == Join(outer, name)
    ensures scopes == scopes[..|scopes| - 1] + [container]
  {
    var n := |scopes| - 1;
    outer := Outer(scopes, pkg, n);
    assert StepAt(scopes, pkg, n);
    name :| Simple(name) && scopes[n] == Join(outer, name);
    forall i: nat | i < n
      ensures StepAt(scopes[..n], pkg, i)
    {
      assert StepAt(scopes, pkg, i);
    }
  }

  lemma {:induction false} NestedIsAligned(scopes: seq<FullName>, pkg: FullName, container: FullName)
    requires Nested(scopes, pkg, container)
    ensures Aligned(scopes, pkg, container) && |container| >= |pkg|
    decreases |scopes|
  {
    if scopes == [] {
      assert Reverse(scopes) + PrefixList(pkg) == PrefixList(pkg);
    } else {
      var front := scopes[..|scopes| - 1];
      var outer, name := NestedFront(scopes, pkg, container);
      NestedIsAligned(front, pkg, outer);
      PushAligned(front, pkg, outer, name);
    }
  }

  lemma PushAligned(scopes: seq<FullName>, pkg: FullName, container: FullName, name: string)
    requires Aligned(scopes, pkg, container) && Simple(name) && |container| >= |pkg|
    ensures Aligned(scopes + [Join(container, name)], pkg, Join(container, name))
    ensures |Join(container, name)| > |container|
  {
    var n := Join(container, name);
    JoinPrefixes(container, name);
    ReverseSnoc(scopes, n);
    Regroup([n], Reverse(scopes), PrefixList(pkg));
  }

  lemma PushNested(scopes: seq<FullName>, pkg: FullName, container: FullName, name: string)
    requires Nested(scopes, pkg, container) && Simple(name)
    ensures Nested(scopes + [Join(container, name)], pkg, Join(container, name))
  {
    var s := scopes + [Join(container, name)];
    forall i: nat | i < |s|
      ensures StepAt(s, pkg, i)
    {
      assert i < |scopes| ==> StepAt(scopes, pkg, i);
    }
  }

  // An element, where it is declared, and the scopes with which its references and
  // options are resolved.
  datatype Visit = Visit(element: FullName, container: FullName, scopes: seq<FullName>)

  // The element is declared in the container, and the scopes lead to the container.
  ghost predicate Placed(v: Visit, pkg: FullName) {
    Inside(v.container, v.element) && Nested(v.scopes, pkg, v.container)
  }

  ghost predicate AllPlaced(visits: seq<Visit>, pkg: FullName) {
    forall i :: 0 <= i < |visits| ==> Placed(visits[i], pkg)
  }

  /** The scopes of a visit, inside out, and then the package prefixes are exactly the
      dot-prefixes of what encloses the element. */
  ghost predicate ScopesFit(v: Visit, pkg: FullName) {
    Reverse(v.scopes) + PrefixList(pkg) == PrefixList(v.element)[1..]
  }

  lemma PlacedFits(v: Visit, pkg: FullName)
    requires Placed(v, pkg)
    ensures ScopesFit(v, pkg) && Aligned(v.scopes, pkg, v.container)
        && PrefixList(v.container) == PrefixList(v.element)[1..]
  {
    var name: string :| Simple(name) && v.element == Join(v.container, name);
    JoinPrefixes(v.container, name);
    NestedIsAligned(v.scopes, pkg, v.container);
    assert ([v.element] + PrefixList(v.container))[1..] == PrefixList(v.container);
  }

  // --- The elements in pre-order -------------------------------------------------------------

  function Leaves(container: FullName, names: seq<string>): seq<FullName> {
    seq(|names|, i requires 0 <= i < |names| => Join(container, names[i]))
  }

  // Enum values are in the scope of their enum, not below it.
  function EnumsOf(container: FullName, es: seq<EnumTree>): seq<FullName> {
    if es == [] then []
    else
      EnumsOf(container, es[..|es| - 1]) + [Join(container, es[|es| - 1].name)]
      + Leaves(container, es[|es| - 1].values)
  }

  function MessageOf(container: FullName, m: MessageTree): seq<FullName>
    decreases m, 0
  {
    var n := Join(container, m.name);
    [n] + Leaves(n, m.fields) + Leaves(n, m.oneofs) + ContainerOf(n, m.nested, m.enums, m.extensions)
  }

  function ContainerOf(container: FullName, ms: seq<MessageTree>, es: seq<EnumTree>, xs: seq<string>): seq<FullName>
    decreases ms, 1
  {
    MessagesOf(container, ms) + EnumsOf(container, es) + Leaves(container, xs)
  }

  function MessagesOf(container: FullName, ms: seq<MessageTree>): seq<FullName>
    decreases ms, 0
  {
    if ms == [] then [] else MessagesOf(container, ms[..|ms| - 1]) + MessageOf(container, ms[|ms| - 1])
  }

  function ServicesOf(container: FullName, ss: seq<ServiceTree>): seq<FullName> {
    if ss == [] then []
    else
      var s := ss[|ss| - 1];
      ServicesOf(container, ss[..|ss| - 1]) + [Join(container, s.name)] + Leaves(Join(container, s.name), s.methods)
  }

  function FileOf(f: FileTree): seq<FullName> {
    ContainerOf(f.pkg, f.messages, f.enums, f.extensions) + ServicesOf(f.pkg, f.services)
  }

  function Visited(visits: seq<Visit>): seq<FullName> {
    seq(|visits|, i requires 0 <= i < |visits| => visits[i].element)
  }

  // --- The walk -------------------------------------------------------------------------------

  class Walker {
    const pkg: FullName
    var scopes: seq<FullName>
    var visits: seq<Visit>
    ghost var seen: seq<FullName>  // the visited elements, in order

    constructor (pkg: FullName)
      ensures this.pkg == pkg && scopes == [] && visits == [] && seen == []
    {
      this.pkg := pkg;
      scopes, visits, seen := [], [], [];
    }

    // The stack fits the container, and so did it for all visits so far.
    ghost predicate At(container: FullName)
      reads this
    {
      Nested(scopes, pkg, container) && AllPlaced(visits, pkg) && seen == Visited(visits)
    }

    // An element whose visit does not change the scopes.
    method EnterLeaf(container: FullName, name: string)
      requires At(container) && Simple(name)
      modifies this`visits, this`seen
      ensures At(container) && seen == old(seen) + [Join(container, name)]
    {
      visits := visits + [Visit(Join(container, name), container, scopes)];
      seen := seen + [Join(container, name)];
    }

    method EnterLeaves(container: FullName, names: seq<string>)
      requires At(container) && SimpleNames(names)
      modifies this`visits, this`seen
      ensures At(container) && seen == old(seen) + Leaves(container, names)
    {
      for i := 0 to |names|
        invariant At(container) && seen == old(seen) + Leaves(container, names)[..i]
      {
        EnterLeaf(container, names[i]);
      }
    }

    method WalkEnums(container: FullName, es: seq<EnumTree>)
      requires At(container) && SimpleEnums(es)
      modifies this`visits, this`seen
      ensures At(container) && seen == old(seen) + EnumsOf(container, es)
    {
      for i := 0 to |es|
        invariant At(container) && seen == old(seen) + EnumsOf(container, es[..i])
      {
        assert es[..i + 1][..i] == es[..i];
        EnterLeaf(container, es[i].name);
        EnterLeaves(container, es[i].values);
      }
      assert es[..|es|] == es;
    }

    // Options of a message or service are resolved before its own scope is pushed.
    method Push(container: FullName, name: string)
      requires At(container) && Simple(name)
      modifies this
      ensures At(Join(container, name)) && scopes == old(scopes) + [Join(container, name)]
      ensures seen == old(seen) + [Join(container, name)]
    {
      EnterLeaf(container, name);
      PushNested(scopes, pkg, container, name);
      scopes := scopes + [Join(container, name)];
    }

    method WalkMessage(container: FullName, m: MessageTree)
      requires At(container) && SimpleMessage(m)
      modifies this
      ensures At(container) && scopes == old(scopes)
      ensures seen == old(seen) + MessageOf(container, m)
      decreases m, 1
    {
      var n := Join(container, m.name);
      ghost var v0 := seen;
      Push(container, m.name);
      EnterLeaves(n, m.fields);
      EnterLeaves(n, m.oneofs);
      ghost var own := [n] + Leaves(n, m.fields) + Leaves(n, m.oneofs);
      assert seen == v0 + own;
      WalkContainer(n, m.nested, m.enums, m.extensions);
      Regroup(v0, own, ContainerOf(n, m.nested, m.enums, m.extensions));
      Popped(container, n, old(scopes));
      scopes := scopes[..|scopes| - 1];
    }

    // Below a container the stack is the container's own, one entry longer.
    lemma Popped(container: FullName, n: FullName, before: seq<FullName>)
      requires scopes == before + [n] && Nested(before, pkg, container)
      ensures scopes[..|scopes| - 1] == before
    {
    }

    method WalkContainer(container: FullName, ms: seq<MessageTree>, es: seq<EnumTree>, xs: seq<string>)
      requires At(container) && SimpleMessages(ms) && SimpleEnums(es) && SimpleNames(xs)
      modifies this
      ensures At(container) && scopes == old(scopes)
      ensures seen == old(seen) + ContainerOf(container, ms, es, xs)
      decreases ms, 1
    {
      ghost var v0 := seen;
      WalkMessages(container, ms);
      WalkEnums(container, es);
      Regroup(v0, MessagesOf(container, ms), EnumsOf(container, es));
      EnterLeaves(container, xs);
      Regroup(v0, MessagesOf(container, ms) + EnumsOf(container, es), Leaves(container, xs));
    }

    method WalkMessages(container: FullName, ms: seq<MessageTree>)
      requires At(container) && SimpleMessages(ms)
      modifies this
      ensures At(container) && scopes == old(scopes)
      ensures seen == old(seen) + MessagesOf(container, ms)
      decreases ms, 0
    {
      for i := 0 to |ms|
        invariant At(container) && scopes == old(scopes)
        invariant seen == old(seen) + MessagesOf(container, ms[..i])
      {
        assert ms[..i + 1][..i] == ms[..i];
        WalkMessage(container, ms[i]);
        Regroup(old(seen), MessagesOf(container, ms[..i]), MessageOf(container, ms[i]));
      }
      assert ms[..|ms|] == ms;
    }

    method WalkServices(container: FullName, ss: seq<ServiceTree>)
      requires At(container) && SimpleServices(ss)
      modifies this
      ensures At(container) && scopes == old(scopes)
      ensures seen == old(seen) + ServicesOf(container, ss)
    {
      for i := 0 to |ss|
        invariant At(container) && scopes == old(scopes)
        invariant seen == old(seen) + ServicesOf(container, ss[..i])
      {
        assert ss[..i + 1][..i] == ss[..i];
        Push(container, ss[i].name);
        EnterLeaves(Join(container, ss[i].name), ss[i].methods);
        scopes := scopes[..|scopes| - 1];
      }
      assert ss[..|ss|] == ss;
    }
  }

  /** The whole walk: every element is visited once, in pre-order, and each with a scope
      stack that stands for the dot-prefixes of the place where it is declared. */
  method WalkFile(f: FileTree) returns (visits: seq<Visit>)
    requires SimpleFile(f)
    ensures Visited(visits) == FileOf(f) && AllPlaced(visits, f.pkg)
    ensures forall i :: 0 <= i < |visits| ==> ScopesFit(visits[i], f.pkg)
  {
    var w := new Walker(f.pkg);
    w.WalkContainer(f.pkg, f.messages, f.enums, f.extensions);
    w.WalkServices(f.pkg, f.services);
    Regroup([], ContainerOf(f.pkg, f.messages, f.enums, f.extensions), ServicesOf(f.pkg, f.services));
    visits := w.visits;
    forall i | 0 <= i < |visits|
      ensures ScopesFit(visits[i], f.pkg)
    {
      PlacedFits(visits[i], f.pkg);
    }
  }

  // --- References of visited elements -------------------------------------------------------------

  // A package name as the grammar has it.
  ghost predicate DottedName(n: FullName) { n == "" || Plain(n) }

  lemma {:induction false} ContainerIsPlain(scopes: seq<FullName>, pkg: FullName, container: FullName)
    requires Nested(scopes, pkg, container) && DottedName(pkg)
    ensures DottedName(container)
    decreases |scopes|
  {
    if scopes != [] {
      var outer, name := NestedFront(scopes, pkg, container);
      ContainerIsPlain(scopes[..|scopes| - 1], pkg, outer);
    }
  }

  /** For every element that the walk visits, resolving a reference with the scopes of the visit
      is trying the dot-prefixes of what encloses the element, in order. */
  lemma VisitResolves(env: Env, v: Visit, name: string, onlyTypes: bool)
    requires Linked(env) && Placed(v, env.files[env.root].pkg) && !(|name| > 0 && name[0] == '.')
    ensures Resolve(env, name, onlyTypes, v.scopes) ==
            TryPrefixes(env, PrefixList(v.element)[1..], name, onlyTypes, None)
  {
    PlacedFits(v, env.files[env.root].pkg);
    ResolveIsDeclarative(env, name, onlyTypes, v.scopes, v.container);
  }

  /** The rewritten reference of a visited element resolves to the same descriptor from any scope. */
  lemma VisitRewrites(env: Env, v: Visit, name: string, onlyTypes: bool, other: seq<FullName>)
    requires Linked(env) && Placed(v, env.files[env.root].pkg) && DottedName(env.files[env.root].pkg) && Plain(name)
    requires var r := Resolve(env, name, onlyTypes, v.scopes); r.Some? && r.value.Found?
    ensures var d := Resolve(env, name, onlyTypes, v.scopes).value;
            Resolve(env, "." + d.name, onlyTypes, other) == Some(d)
  {
    var pkg := env.files[env.root].pkg;
    PlacedFits(v, pkg);
    ContainerIsPlain(v.scopes, pkg, v.container);
    RewritingKeepsReferent(env, name, onlyTypes, v.scopes, v.container, other);
  }
}
