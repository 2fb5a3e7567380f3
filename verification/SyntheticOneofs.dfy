/** processProto3OptionalFields of parser/result.go: a synthetic oneof with a fresh name
    for every proto3 optional field. */
module SyntheticOneofs {
  import opened Common
  import Paths

  datatype Field = Field(name: string, oneofIndex: Option<nat>, proto3Optional: bool)

  datatype Enum = Enum(name: string, values: seq<string>)

  datatype Message = Message(
    fields: seq<Field>,
    oneofs: seq<string>,
    extensions: seq<string>,
    enums: seq<Enum>,
    nested: seq<string>)

  // Every name that is declared directly in the message. Enum values count, since they
  // live in the scope of their enum.
  ghost function Declared(m: Message): set<string> {
    (set f | f in m.fields :: f.name)
    + (set o | o in m.oneofs)
    + (set x | x in m.extensions)
    + (set e | e in m.enums :: e.name)
    + (set e, v | e in m.enums && v in e.values :: v)
    + (set n | n in m.nested)
  }

  // The fields of oneofs written in the source refer to one of them; optional fields are
  // not in a oneof yet.
  ghost predicate WellFormed(m: Message) {
    forall i :: 0 <= i < |m.fields| ==>
      var f := m.fields[i];
      (f.proto3Optional ==> f.oneofIndex.None?) && (f.oneofIndex.Some? ==> f.oneofIndex.value < |m.oneofs|)
  }

  function Base(name: string): string {
    if |name| > 0 && name[0] == '_' then name else "_" + name
  }

  function Xs(n: nat): string {
    if n == 0 then "" else "X" + Xs(n - 1)
  }

  // The first of base, Xbase, XXbase, ... that is not used.
  ghost predicate FirstFree(used: set<string>, base: string, name: string) {
    name !in used && exists n: nat :: name == Xs(n) + base && forall k: nat :: k < n ==> Xs(k) + base in used
  }

  method UniqueName(used: set<string>, fieldName: string) returns (name: string)
    ensures FirstFree(used, Base(fieldName), name)
  {
    var base := Base(fieldName);
    name := base;
    ghost var n: nat := 0;
    while name in used
      invariant name == Xs(n) + base && forall k: nat :: k < n ==> Xs(k) + base in used
      decreases set u | u in used && |u| >= |name|
    {
      ghost var longer := set u | u in used && |u| >= |name|;
      assert name in longer;
      ghost var was := name;
      name := "X" + name;
      n := n + 1;
      assert was !in (set u | u in used && |u| >= |name|);
    }
  }

  lemma {:induction false} OnlyXs(n: nat)
    ensures |Xs(n)| == n && forall i :: 0 <= i < n ==> Xs(n)[i] == 'X'
  {
    if n > 0 {
      OnlyXs(n - 1);
    }
  }

  /** A synthetic name is the name of the field, preceded by an underscore if it does not begin with
      one, and that preceded by as few X's as make it free. */
  lemma SyntheticName(used: set<string>, fieldName: string, name: string) returns (n: nat)
    requires FirstFree(used, Base(fieldName), name)
    ensures n < |name| && name !in used && name[n] == '_' && (forall i :: 0 <= i < n ==> name[i] == 'X')
    ensures name[n..] == fieldName || (name[n + 1..] == fieldName && !("_" <= fieldName))
    ensures forall k :: 0 < k <= n ==> name[k..] in used
  {
    n :| name == Xs(n) + Base(fieldName) && forall k: nat :: k < n ==> Xs(k) + Base(fieldName) in used;
    OnlyXs(n);
    assert name[n..] == Base(fieldName);
    forall k | 0 < k <= n
      ensures name[k..] in used
    {
      DropXs(n, k);
      assert name[k..] == Xs(n - k) + Base(fieldName);
    }
  }

  lemma {:induction false} DropXs(n: nat, k: nat)
    requires k <= n
    ensures |Xs(n)| == n && Xs(n)[k..] == Xs(n - k)
    decreases k
  {
    OnlyXs(n);
    if k > 0 {
      DropXs(n - 1, k - 1);
      assert Xs(n)[k..] == Xs(n - 1)[k - 1..];
    }
  }

  method AddAll(names: set<string>, more: seq<string>) returns (r: set<string>)
    ensures r == names + set x | x in more
  {
    r := names;
    for i := 0 to |more|
      invariant r == names + set x | x in more[..i]
    {
      r := r + {more[i]};
      assert more[..i + 1] == more[..i] + [more[i]];
    }
    assert more[..|more|] == more;
  }

  // The lazily made set of all names.
  method AllNames(m: Message) returns (names: set<string>)
    ensures names == Declared(m)
  {
    names := set f | f in m.fields :: f.name;
    names := AddAll(names, m.oneofs);
    names := AddAll(names, m.extensions);
    ghost var before := names;
    for i := 0 to |m.enums|
      invariant names == before + (set e | e in m.enums[..i] :: e.name)
          + (set e, v | e in m.enums[..i] && v in e.values :: v)
    {
      assert m.enums[..i + 1] == m.enums[..i] + [m.enums[i]];
      names := AddAll(names + {m.enums[i].name}, m.enums[i].values);
    }
    assert m.enums[..|m.enums|] == m.enums;
    names := AddAll(names, m.nested);
  }

  // Number of optional fields among the first `n`.
  function Optionals(fs: seq<Field>, n: nat): nat
    requires n <= |fs|
  {
    if n == 0 then 0 else Optionals(fs, n - 1) + if fs[n - 1].proto3Optional then 1 else 0
  }

  // Optional fields are numbered in order, after the oneofs of the source; nothing else
  // about the fields changes.
  ghost predicate Renumbered(m: Message, m': Message, n: nat) {
    && |m'.fields| == |m.fields| && n <= |m.fields|
    && (forall i: nat :: i < n ==> RenumberedAt(m, m', i))
    && (forall i :: n <= i < |m.fields| ==> m'.fields[i] == m.fields[i])
  }

  ghost predicate RenumberedAt(m: Message, m': Message, i: nat) {
    i < |m.fields| == |m'.fields| &&
    m'.fields[i] == if m.fields[i].proto3Optional
                    then m.fields[i].(oneofIndex := Some(|m.oneofs| + Optionals(m.fields, i)))
                    else m.fields[i]
  }

  // The oneofs of the source keep their places, and each new one has a name that nothing
  // declared has and no other new one has.
  ghost predicate FreshOneofs(declared: set<string>, from: seq<string>, oneofs: seq<string>) {
    && from <= oneofs
    && (forall k :: |from| <= k < |oneofs| ==> oneofs[k] !in declared)
    && (forall j, k :: |from| <= j < k < |oneofs| ==> oneofs[j] != oneofs[k])
  }

  // The names in use when oneof `k` gets its own.
  ghost function Used(declared: set<string>, oneofs: seq<string>, k: nat): set<string>
    requires k <= |oneofs|
  {
    declared + (set o | o in oneofs[..k])
  }

  // If field `i` is optional, its oneof has the first free name for it.
  ghost predicate NamedAt(declared: set<string>, from: nat, oneofs: seq<string>, fs: seq<Field>, i: nat)
    requires i < |fs|
  {
    var k := from + Optionals(fs, i);
    fs[i].proto3Optional ==> k < |oneofs| && FirstFree(Used(declared, oneofs, k), Base(fs[i].name), oneofs[k])
  }

  ghost predicate Named(declared: set<string>, from: nat, oneofs: seq<string>, fs: seq<Field>, n: nat)
    requires n <= |fs|
  {
    forall i: nat :: i < n ==> NamedAt(declared, from, oneofs, fs, i)
  }

  lemma NamedStays(declared: set<string>, from: nat, oneofs: seq<string>, fs: seq<Field>, i: nat, name: string)
    requires i < |fs| && NamedAt(declared, from, oneofs, fs, i)
    ensures NamedAt(declared, from, oneofs + [name], fs, i)
  {
    var k := from + Optionals(fs, i);
    if k < |oneofs| {
      assert (oneofs + [name])[..k] == oneofs[..k];
    }
  }

  lemma UsedGrows(declared: set<string>, oneofs: seq<string>, name: string)
    ensures Used(declared, oneofs + [name], |oneofs| + 1) == Used(declared, oneofs, |oneofs|) + {name}
    ensures Used(declared, oneofs + [name], |oneofs|) == Used(declared, oneofs, |oneofs|)
  {
    assert (oneofs + [name])[..|oneofs| + 1] == oneofs + [name];
    assert (oneofs + [name])[..|oneofs|] == oneofs == oneofs[..|oneofs|];
  }

  lemma AddName(declared: set<string>, from: seq<string>, oneofs: seq<string>, fs: seq<Field>, i: nat, name: string)
    requires i < |fs| && fs[i].proto3Optional && |oneofs| == |from| + Optionals(fs, i)
    requires FreshOneofs(declared, from, oneofs) && Named(declared, |from|, oneofs, fs, i)
    requires FirstFree(Used(declared, oneofs, |oneofs|), Base(fs[i].name), name)
    ensures FreshOneofs(declared, from, oneofs + [name]) && Named(declared, |from|, oneofs + [name], fs, i + 1)
  {
    FreshAdd(declared, from, oneofs, name);
    NamedAdd(declared, |from|, oneofs, fs, i, name);
  }

  lemma FreshAdd(declared: set<string>, from: seq<string>, oneofs: seq<string>, name: string)
    requires FreshOneofs(declared, from, oneofs) && name !in Used(declared, oneofs, |oneofs|)
    ensures FreshOneofs(declared, from, oneofs + [name])
  {
    assert forall k :: |from| <= k < |oneofs| ==> oneofs[k] in oneofs[..|oneofs|];
  }

  lemma NamedAdd(declared: set<string>, from: nat, oneofs: seq<string>, fs: seq<Field>, i: nat, name: string)
    requires i < |fs| && fs[i].proto3Optional && |oneofs| == from + Optionals(fs, i)
    requires Named(declared, from, oneofs, fs, i)
    requires FirstFree(Used(declared, oneofs, |oneofs|), Base(fs[i].name), name)
    ensures Named(declared, from, oneofs + [name], fs, i + 1)
  {
    forall j: nat | j < i + 1
      ensures NamedAt(declared, from, oneofs + [name], fs, j)
    {
      if j < i {
        NamedStays(declared, from, oneofs, fs, j, name);
      } else {
        NewIsNamed(declared, from, oneofs, fs, i, name);
      }
    }
  }

  lemma NewIsNamed(declared: set<string>, from: nat, oneofs: seq<string>, fs: seq<Field>, i: nat, name: string)
    requires i < |fs| && |oneofs| == from + Optionals(fs, i)
    requires FirstFree(Used(declared, oneofs, |oneofs|), Base(fs[i].name), name)
    ensures NamedAt(declared, from, oneofs + [name], fs, i)
  {
    assert (oneofs + [name])[..|oneofs|] == oneofs[..|oneofs|];
  }

  lemma InitiallyUsed(m: Message)
    ensures Used(Declared(m), m.oneofs, |m.oneofs|) == Declared(m)
  {
    assert m.oneofs[..|m.oneofs|] == m.oneofs;
  }

  // Field `i` becomes the only field of a new oneof.
  function WithOneof(m: Message, i: nat, name: string): Message
    requires i < |m.fields|
  {
    m.(fields := m.fields[i := m.fields[i].(oneofIndex := Some(|m.oneofs|))], oneofs := m.oneofs + [name])
  }

  lemma RenumberOne(m: Message, m': Message, i: nat, name: string)
    requires Renumbered(m, m', i) && i < |m.fields| && m.fields[i].proto3Optional
    requires |m'.oneofs| == |m.oneofs| + Optionals(m.fields, i)
    ensures Renumbered(m, WithOneof(m', i, name), i + 1)
  {
    forall j: nat | j < i + 1
      ensures RenumberedAt(m, WithOneof(m', i, name), j)
    {
      assert j < i ==> RenumberedAt(m, m', j);
    }
  }

  lemma RenumberNone(m: Message, m': Message, i: nat)
    requires Renumbered(m, m', i) && i < |m.fields| && !m.fields[i].proto3Optional
    ensures Renumbered(m, m', i + 1)
  {
    assert RenumberedAt(m, m', i);
  }

  // What the first `n` fields have led to.
  ghost predicate Processed(m: Message, m': Message, n: nat) {
    && Renumbered(m, m', n)
    && |m'.oneofs| == |m.oneofs| + Optionals(m.fields, n)
    && FreshOneofs(Declared(m), m.oneofs, m'.oneofs)
    && Named(Declared(m), |m.oneofs|, m'.oneofs, m.fields, n)
    && m'.extensions == m.extensions && m'.enums == m.enums && m'.nested == m.nested
  }

  lemma ProcessOne(m: Message, m': Message, i: nat, name: string)
    requires Processed(m, m', i) && i < |m.fields| && m.fields[i].proto3Optional
    requires FirstFree(Used(Declared(m), m'.oneofs, |m'.oneofs|), Base(m.fields[i].name), name)
    ensures Processed(m, WithOneof(m', i, name), i + 1)
  {
    AddName(Declared(m), m.oneofs, m'.oneofs, m.fields, i, name);
    RenumberOne(m, m', i, name);
  }

  lemma ProcessNone(m: Message, m': Message, i: nat)
    requires Processed(m, m', i) && i < |m.fields| && !m.fields[i].proto3Optional
    ensures Processed(m, m', i + 1)
  {
    RenumberNone(m, m', i);
    NamedSkips(Declared(m), |m.oneofs|, m'.oneofs, m.fields, i);
  }

  method ProcessProto3OptionalFields(m: Message) returns (m': Message)
    ensures Processed(m, m', |m.fields|)
  {
    m' := m;
    var allNames: Option<set<string>> := None;
    for i := 0 to |m.fields|
      invariant Processed(m, m', i)
      invariant allNames.Some? ==> allNames.value == Used(Declared(m), m'.oneofs, |m'.oneofs|)
      invariant allNames.None? ==> m' == m
    {
      assert m'.fields[i] == m.fields[i];
      if m'.fields[i].proto3Optional {
        if allNames.None? {
          var names := AllNames(m');
          InitiallyUsed(m);
          allNames := Some(names);
        }
        var name := UniqueName(allNames.value, m'.fields[i].name);
        ProcessOne(m, m', i, name);
        UsedGrows(Declared(m), m'.oneofs, name);
        allNames := Some(allNames.value + {name});
        m' := WithOneof(m', i, name);
      } else {
        ProcessNone(m, m', i);
      }
    }
  }

  lemma NamedSkips(declared: set<string>, from: nat, oneofs: seq<string>, fs: seq<Field>, i: nat)
    requires i < |fs| && !fs[i].proto3Optional && Named(declared, from, oneofs, fs, i)
    ensures Named(declared, from, oneofs, fs, i + 1)
  {
    assert NamedAt(declared, from, oneofs, fs, i);
  }

  lemma {:induction false} OptionalsGrow(fs: seq<Field>, i: nat, j: nat)
    requires i < j <= |fs| && fs[i].proto3Optional
    ensures Optionals(fs, i) < Optionals(fs, j)
    decreases j
  {
    if i + 1 < j {
      OptionalsGrow(fs, i, j - 1);
    }
  }

  /** Every new oneof holds exactly one field, an optional one, and the oneofs written in
      the source hold the fields they held before. */
  lemma SyntheticOneofsHoldOneField(m: Message, m': Message, i: nat, j: nat)
    requires WellFormed(m) && Renumbered(m, m', |m.fields|) && i < |m.fields| && j < |m.fields|
    requires m'.fields[i].oneofIndex.Some? && m'.fields[i].oneofIndex == m'.fields[j].oneofIndex
    ensures m'.fields[i].oneofIndex.value >= |m.oneofs| ==> i == j && m.fields[i].proto3Optional
    ensures m'.fields[i].oneofIndex.value < |m.oneofs| ==> m.fields[i] == m'.fields[i] && m.fields[j] == m'.fields[j]
  {
    assert RenumberedAt(m, m', i) && RenumberedAt(m, m', j);
    if m.fields[i].proto3Optional && m.fields[j].proto3Optional {
      if i < j {
        OptionalsGrow(m.fields, i, j);
      } else if j < i {
        OptionalsGrow(m.fields, j, i);
      }
    }
  }

  // No new oneof is left without a field.
  lemma {:induction false} SyntheticOneofsAreUsed(m: Message, m': Message, k: nat, n: nat) returns (i: nat)
    requires Renumbered(m, m', |m.fields|) && n <= |m.fields| && k < Optionals(m.fields, n)
    ensures i < n && m.fields[i].proto3Optional && m'.fields[i].oneofIndex == Some(|m.oneofs| + k)
    decreases n
  {
    if k < Optionals(m.fields, n - 1) {
      i := SyntheticOneofsAreUsed(m, m', k, n - 1);
    } else {
      i := n - 1;
      assert RenumberedAt(m, m', i);
      assert m.fields[i].proto3Optional && k == Optionals(m.fields, i);
    }
  }

  // --- The descriptors of module Paths, which leave out the names --------------------------------

  // Field `i` of a descriptor and of a message are in the same oneof.
  ghost predicate SameField(d: Paths.MessageD, m: Message, i: nat) {
    && i < |d.fields| == |m.fields|
    && d.fields[i].oneofIndex == m.fields[i].oneofIndex
    && d.fields[i].proto3Optional == m.fields[i].proto3Optional
  }

  // The descriptor has fields and oneofs like `m'` up to field `n`, and like `m` from there on.
  ghost predicate SameUpTo(d: Paths.MessageD, m: Message, m': Message, n: nat) {
    && n <= |d.fields| == |m.fields| == |m'.fields|
    && |d.oneofs| == |m.oneofs| + Optionals(m.fields, n)
    && (forall i: nat :: i < n ==> SameField(d, m', i))
    && (forall i: nat :: n <= i < |m.fields| ==> SameField(d, m, i))
  }

  lemma SameOneMore(d: Paths.MessageD, m: Message, m': Message, n: nat)
    requires SameUpTo(d, m, m', n) && Renumbered(m, m', |m.fields|) && n < |m.fields| && m.fields[n].proto3Optional
    ensures SameField(d, m, n)
    ensures var f := d.fields[n].(oneofIndex := Some(|d.oneofs|));
            SameUpTo(d.(fields := d.fields[n := f], oneofs := d.oneofs + [Paths.OneofD(f.node, true)]), m, m', n + 1)
  {
    assert SameField(d, m, n) && RenumberedAt(m, m', n);
    var f := d.fields[n].(oneofIndex := Some(|d.oneofs|));
    var d' := d.(fields := d.fields[n := f], oneofs := d.oneofs + [Paths.OneofD(f.node, true)]);
    forall i: nat | i < n + 1
      ensures SameField(d', m', i)
    {
      assert i < n ==> SameField(d, m', i);
    }
    forall i: nat | n + 1 <= i < |m.fields|
      ensures SameField(d', m, i)
    {
      assert SameField(d, m, i);
    }
  }

  /** The nameless pass of module Paths numbers oneofs as this one does. */
  lemma {:induction false} NumbersLikePaths(d: Paths.MessageD, m: Message, m': Message, n: nat)
    requires SameUpTo(d, m, m', n) && Processed(m, m', |m.fields|)
    ensures var d' := Paths.WithSyntheticOneofs(d, n);
            |d'.oneofs| == |m'.oneofs| && forall i: nat :: i < |m'.fields| ==> SameField(d', m', i)
    decreases |m.fields| - n
  {
    if n < |m.fields| {
      assert SameField(d, m, n) && RenumberedAt(m, m', n);
      if m.fields[n].proto3Optional {
        SameOneMore(d, m, m', n);
        var f := d.fields[n].(oneofIndex := Some(|d.oneofs|));
        var d' := d.(fields := d.fields[n := f], oneofs := d.oneofs + [Paths.OneofD(f.node, true)]);
        NumbersLikePaths(d', m, m', n + 1);
      } else {
        NumbersLikePaths(d, m, m', n + 1);
      }
    }
  }
}
