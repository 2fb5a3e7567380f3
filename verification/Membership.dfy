/** Which oneof the fields of a built message are in, in terms of the syntax tree: fields and
    groups written in a oneof are in it, the other ones are in none, and each proto3 optional
    field is alone in a oneof of its own. Also how deep messages can be nested. */
module Membership {
  import opened Common
  import opened Paths

  // --- The lists that declarations make ------------------------------------------------------

  // Whether an entry makes a field, and what it says of it.
  predicate MakesField(e: FieldElem) { !e.FieldOther? }

  function IsOptional(e: FieldElem): bool { e.Field? && e.proto3Optional }

  // The field of entry `j` comes after those of the entries before it.
  lemma {:induction false} FieldsAt(es: seq<FieldElem>, oneof: Option<nat>, j: nat)
    requires j < |es| && MakesField(es[j])
    ensures var n := CountFields(es[..j]);
            n < |FieldsOf(es, oneof)| && FieldsOf(es, oneof)[n] == FieldD(es[j].id, oneof, IsOptional(es[j]))
    decreases |es|
  {
    var before := es[..|es| - 1];
    FieldsLength(before, oneof, false, 0);
    if j < |es| - 1 {
      FieldsAt(before, oneof, j);
      assert before[..j] == es[..j];
    }
  }

  // Every field of a block is that of an entry.
  lemma {:induction false} EntryOf(es: seq<FieldElem>, n: nat) returns (j: nat)
    requires n < CountFields(es)
    ensures j < |es| && MakesField(es[j]) && CountFields(es[..j]) == n
    decreases |es|
  {
    var before := es[..|es| - 1];
    if n < CountFields(before) {
      j := EntryOf(before, n);
      assert before[..j] == es[..j];
    } else {
      j := |es| - 1;
    }
  }

  // The lists of a message that is being built only grow.
  ghost predicate Prefixed(a: MessageD, b: MessageD) {
    a.fields <= b.fields && a.oneofs <= b.oneofs && a.nested <= b.nested && a.extensions <= b.extensions
  }

  lemma DeclPrefixed(m: MessageD, e: MessageElem, proto3: bool, depth: nat)
    ensures Prefixed(m, AddDecl(m, e, proto3, depth))
  {
  }

  lemma {:induction false} BodyPrefixed(id: NodeId, body: seq<MessageElem>, proto3: bool, depth: nat, i: nat)
    requires i <= |body|
    ensures Prefixed(Body(id, body[..i], proto3, depth), Body(id, body, proto3, depth))
    decreases |body|
  {
    if i == |body| {
      assert body[..i] == body;
    } else {
      var before := body[..|body| - 1];
      BodyPrefixed(id, before, proto3, depth, i);
      assert before[..i] == body[..i];
      DeclPrefixed(Body(id, before, proto3, depth), body[|body| - 1], proto3, depth);
    }
  }

  // What declaration `i` has been added to, and what that gives.
  lemma BodyStep(id: NodeId, body: seq<MessageElem>, proto3: bool, depth: nat, i: nat)
    requires i < |body|
    ensures var b := Body(id, body[..i], proto3, depth);
            && Lengths(b) == CountAll(body[..i])
            && Prefixed(AddDecl(b, body[i], proto3, depth), Body(id, body, proto3, depth))
  {
    CountersAreLengths(id, body[..i], proto3, depth);
    BodyPrefixed(id, body, proto3, depth, i + 1);
    assert body[..i + 1][..i] == body[..i];
  }

  // --- Fields before synthetic oneofs ---------------------------------------------------------------

  ghost predicate InOneof(m: MessageD, f: FieldD, id: NodeId) {
    f.oneofIndex.Some? && f.oneofIndex.value < |m.oneofs| && m.oneofs[f.oneofIndex.value] == OneofD(id, false)
  }

  ghost predicate InNone(f: FieldD) { f.oneofIndex.None? }

  // The field is made from entry `j` of declaration `e`, or from `e` itself.
  ghost predicate MadeFrom(m: MessageD, f: FieldD, e: MessageElem, j: nat) {
    match e
    case FieldDecl(x) => MakesField(x) && f.node == x.id && f.proto3Optional == IsOptional(x) && InNone(f)
    case MapField(id, _, _, _) => f.node == id && !f.proto3Optional && InNone(f)
    case Oneof(id, es) =>
      && j < |es| && MakesField(es[j]) && f.node == es[j].id && f.proto3Optional == IsOptional(es[j])
      && InOneof(m, f, id)
    case _ => false
  }

  // Declarations that make fields of the message; for a oneof, the entry that does.
  predicate Makes(e: MessageElem, j: nat) {
    match e
    case FieldDecl(x) => MakesField(x)
    case MapField(_, _, _, _) => true
    case Oneof(_, es) => j < |es| && MakesField(es[j])
    case _ => false
  }

  // The place of that field.
  function PlaceOf(body: seq<MessageElem>, i: nat, j: nat): nat
    requires i < |body| && Makes(body[i], j)
  {
    CountAll(body[..i]).field + if body[i].Oneof? then CountFields(body[i].fields[..j]) else 0
  }

  /** Every declaration of a field, in a oneof or not, has its field in its place, in that oneof or
      in none. */
  lemma DeclMakesField(id: NodeId, body: seq<MessageElem>, proto3: bool, depth: nat, i: nat, j: nat)
    requires i < |body| && Makes(body[i], j)
    ensures var m, n := Body(id, body, proto3, depth), PlaceOf(body, i, j);
            n < |m.fields| && MadeFrom(m, m.fields[n], body[i], j)
  {
    var b := Body(id, body[..i], proto3, depth);
    BodyStep(id, body, proto3, depth, i);
    match body[i]
    case Oneof(o, es) =>
      FieldsAt(es, Some(|b.oneofs|), j);
      OneofStep(Body(id, body, proto3, depth), b, o, es, proto3, depth, CountFields(es[..j]));
    case _ =>
  }

  lemma OneofStep(m: MessageD, b: MessageD, o: NodeId, es: seq<FieldElem>, proto3: bool, depth: nat, n: nat)
    requires Prefixed(AddDecl(b, Oneof(o, es), proto3, depth), m) && n < |FieldsOf(es, Some(|b.oneofs|))|
    ensures |b.fields| + n < |m.fields| && m.fields[|b.fields| + n] == FieldsOf(es, Some(|b.oneofs|))[n]
    ensures |b.oneofs| < |m.oneofs| && m.oneofs[|b.oneofs|] == OneofD(o, false)
  {
    var a := AddDecl(b, Oneof(o, es), proto3, depth);
    assert a.fields[|b.fields| + n] == FieldsOf(es, Some(|b.oneofs|))[n];
    assert a.oneofs[|b.oneofs|] == OneofD(o, false);
  }

  /** And every field is in the place of some declaration. */
  lemma {:induction false} FieldHasDecl(body: seq<MessageElem>, n: nat) returns (i: nat, j: nat)
    requires n < CountAll(body).field
    ensures i < |body| && Makes(body[i], j) && PlaceOf(body, i, j) == n
    decreases |body|
  {
    var before, k := body[..|body| - 1], |body| - 1;
    if n < CountAll(before).field {
      i, j := FieldHasDecl(before, n);
      assert before[..i] == body[..i];
    } else {
      i, j := k, 0;
      if body[k].Oneof? {
        j := EntryOf(body[k].fields, n - CountAll(before).field);
      }
    }
  }

  // --- Synthetic oneofs ------------------------------------------------------------------------------

  ghost predicate InSynthetic(m: MessageD, f: FieldD) {
    && f.oneofIndex.Some? && f.oneofIndex.value < |m.oneofs|
    && m.oneofs[f.oneofIndex.value] == OneofD(f.node, true)
  }

  // What the pass from field `i` on does to field `n`.
  lemma {:induction false} SyntheticAt(m: MessageD, i: nat, n: nat)
    requires i <= |m.fields| && n < |m.fields|
    ensures var m' := WithSyntheticOneofs(m, i);
            && |m'.fields| == |m.fields| && m.oneofs <= m'.oneofs && m'.nested == m.nested
            && (n < i || !m.fields[n].proto3Optional ==> m'.fields[n] == m.fields[n])
            && (n >= i && m.fields[n].proto3Optional ==>
                  && m'.fields[n].node == m.fields[n].node && m'.fields[n].proto3Optional
                  && InSynthetic(m', m'.fields[n]))
    decreases |m.fields| - i
  {
    if i < |m.fields| {
      if !m.fields[i].proto3Optional {
        SyntheticAt(m, i + 1, n);
      } else {
        var f := m.fields[i].(oneofIndex := Some(|m.oneofs|));
        var m1 := m.(fields := m.fields[i := f], oneofs := m.oneofs + [OneofD(f.node, true)]);
        SyntheticAt(m1, i + 1, n);
        assert m1.oneofs[|m.oneofs|] == OneofD(f.node, true) && m.oneofs <= m1.oneofs;
        KeepsPrefix(m.oneofs, m1.oneofs, WithSyntheticOneofs(m1, i + 1).oneofs);
      }
    }
  }

  lemma KeepsPrefix(a: seq<OneofD>, b: seq<OneofD>, c: seq<OneofD>)
    requires a <= b <= c
    ensures a <= c && forall k :: 0 <= k < |b| ==> c[k] == b[k]
  {
  }

  // --- The whole message ------------------------------------------------------------------------------

  // The field as the message has it in the end.
  ghost predicate Settled(m: MessageD, f: FieldD, e: MessageElem, j: nat, proto3: bool) {
    if proto3 && f.proto3Optional then InSynthetic(m, f) else MadeFrom(m, f, e, j)
  }

  /** In the built message, the field made from a declaration is in its place, with its node and its
      flag. In proto3 an optional one is in the synthetic oneof made for it. Any other one is in
      the oneof it is written in, or in none. */
  lemma FieldIsSettled(id: NodeId, body: seq<MessageElem>, proto3: bool, depth: nat, i: nat, j: nat)
    requires depth < MAX_DEPTH && i < |body| && Makes(body[i], j)
    ensures var m, n := AsMessage(id, body, proto3, depth), PlaceOf(body, i, j);
            && n < |m.fields| && Settled(m, m.fields[n], body[i], j, proto3)
            && m.fields[n].node == NodeOf(body[i], j) && m.fields[n].proto3Optional == OptionalAt(body[i], j)
  {
    var b, n := Body(id, body, proto3, depth), PlaceOf(body, i, j);
    DeclMakesField(id, body, proto3, depth, i, j);
    if proto3 {
      SyntheticAt(b, 0, n);
      SourceOneofStays(b, WithSyntheticOneofs(b, 0), b.fields[n], body[i], j);
    }
  }

  function NodeOf(e: MessageElem, j: nat): NodeId
    requires Makes(e, j)
  {
    match e
    case FieldDecl(x) => x.id
    case MapField(id, _, _, _) => id
    case Oneof(_, es) => es[j].id
  }

  predicate OptionalAt(e: MessageElem, j: nat)
    requires Makes(e, j)
  {
    match e
    case FieldDecl(x) => IsOptional(x)
    case MapField(_, _, _, _) => false
    case Oneof(_, es) => IsOptional(es[j])
  }

  lemma SourceOneofStays(m: MessageD, m': MessageD, f: FieldD, e: MessageElem, j: nat)
    requires MadeFrom(m, f, e, j) && m.oneofs <= m'.oneofs
    ensures MadeFrom(m', f, e, j)
  {
  }

  /** There are no other fields. */
  lemma FieldIsDeclared(id: NodeId, body: seq<MessageElem>, proto3: bool, depth: nat, n: nat) returns (i: nat, j: nat)
    requires depth < MAX_DEPTH && n < |AsMessage(id, body, proto3, depth).fields|
    ensures i < |body| && Makes(body[i], j) && PlaceOf(body, i, j) == n
  {
    CountersAreLengths(id, body, proto3, depth);
    if proto3 {
      SyntheticLength(Body(id, body, proto3, depth), 0);
    }
    i, j := FieldHasDecl(body, n);
  }

  lemma {:induction false} SyntheticLength(m: MessageD, i: nat)
    requires i <= |m.fields|
    ensures |WithSyntheticOneofs(m, i).fields| == |m.fields| && WithSyntheticOneofs(m, i).nested == m.nested
    ensures WithSyntheticOneofs(m, i).extensions == m.extensions
    decreases |m.fields| - i
  {
    if i < |m.fields| {
      if !m.fields[i].proto3Optional {
        SyntheticLength(m, i + 1);
      } else {
        var f := m.fields[i].(oneofIndex := Some(|m.oneofs|));
        SyntheticLength(m.(fields := m.fields[i := f], oneofs := m.oneofs + [OneofD(f.node, true)]), i + 1);
      }
    }
  }

  /** A map field has its entry among the nested messages, with the key as its first field and the
      value as its second, and nothing else. */
  lemma MapEntryIsBuilt(id: NodeId, body: seq<MessageElem>, proto3: bool, depth: nat, i: nat)
    requires depth < MAX_DEPTH && i < |body| && body[i].MapField?
    ensures var m, n := AsMessage(id, body, proto3, depth), CountAll(body[..i]).nested;
            && n < |m.nested| && m.nested[n].node == body[i].entry
            && |m.nested[n].fields| == 2 && m.nested[n].fields[0].node == body[i].key
            && m.nested[n].fields[1].node == body[i].value
            && (forall k :: 0 <= k < 2 ==> InNone(m.nested[n].fields[k]))
            && m.nested[n].oneofs == [] && m.nested[n].nested == []
  {
    var b := Body(id, body[..i], proto3, depth);
    BodyStep(id, body, proto3, depth, i);
    assert AddDecl(b, body[i], proto3, depth).nested[|b.nested|].node == body[i].entry;
    if proto3 {
      SyntheticLength(Body(id, body, proto3, depth), 0);
    }
  }

  /** Extensions are in no oneof, wherever they are declared. */
  lemma ExtensionIsBuilt(id: NodeId, body: seq<MessageElem>, proto3: bool, depth: nat, i: nat, j: nat)
    requires depth < MAX_DEPTH
    requires i < |body| && body[i].Extend? && j < |body[i].fields| && MakesField(body[i].fields[j])
    ensures var m := AsMessage(id, body, proto3, depth);
            var n := CountAll(body[..i]).extend + CountFields(body[i].fields[..j]);
            n < |m.extensions| && m.extensions[n] == FieldD(body[i].fields[j].id, None, IsOptional(body[i].fields[j]))
  {
    var b, es := Body(id, body[..i], proto3, depth), body[i].fields;
    BodyStep(id, body, proto3, depth, i);
    FieldsAt(es, None, j);
    var n := CountFields(es[..j]);
    assert AddDecl(b, body[i], proto3, depth).extensions[|b.extensions| + n] == FieldsOf(es, None)[n];
    if proto3 {
      SyntheticLength(Body(id, body, proto3, depth), 0);
    }
  }

  // --- Nesting --------------------------------------------------------------------------------

  // The message has at most `n` levels of messages, itself included.
  ghost predicate Levels(m: MessageD, n: int)
    decreases m
  {
    n >= 1 && forall i :: 0 <= i < |m.nested| ==> Levels(m.nested[i], n - 1)
  }

  ghost predicate AllLevels(ms: seq<MessageD>, n: int) { forall i :: 0 <= i < |ms| ==> Levels(ms[i], n) }

  /** However deep the source is nested, what is built from a message at some depth stays within
      the limit: a file has at most as many levels as the limit says. */
  lemma {:induction false} DepthIsBounded(id: NodeId, body: seq<MessageElem>, proto3: bool, depth: nat)
    requires depth <= MAX_DEPTH
    ensures Levels(AsMessage(id, body, proto3, depth), MAX_DEPTH + 1 - depth)
    decreases body, 1
  {
    if depth < MAX_DEPTH {
      BodyIsBounded(id, body, proto3, depth);
      if proto3 {
        SyntheticLength(Body(id, body, proto3, depth), 0);
      }
    }
  }

  lemma {:induction false} BodyIsBounded(id: NodeId, body: seq<MessageElem>, proto3: bool, depth: nat)
    requires depth < MAX_DEPTH
    ensures AllLevels(Body(id, body, proto3, depth).nested, MAX_DEPTH - depth)
    decreases body, 0
  {
    if body != [] {
      var last := |body| - 1;
      BodyIsBounded(id, body[..last], proto3, depth);
      DeclIsBounded(Body(id, body[..last], proto3, depth), body[last], proto3, depth);
    }
  }

  lemma {:induction false} DeclIsBounded(m: MessageD, e: MessageElem, proto3: bool, depth: nat)
    requires depth < MAX_DEPTH && AllLevels(m.nested, MAX_DEPTH - depth)
    ensures AllLevels(AddDecl(m, e, proto3, depth).nested, MAX_DEPTH - depth)
    decreases e
  {
    match e
    case FieldDecl(f) => GroupIsBounded(f, proto3, depth + 1);
    case Oneof(_, fs) => GroupsAreBounded(fs, proto3, depth + 1);
    case Extend(fs) => GroupsAreBounded(fs, proto3, depth + 1);
    case Message(id, body) => DepthIsBounded(id, body, proto3, depth + 1);
    case _ =>
  }

  lemma {:induction false} GroupIsBounded(f: FieldElem, proto3: bool, depth: nat)
    requires depth <= MAX_DEPTH
    ensures AllLevels(GroupOf(f, proto3, depth), MAX_DEPTH + 1 - depth)
    decreases f
  {
    if f.Group? {
      DepthIsBounded(f.message, f.body, proto3, depth);
    }
  }

  lemma {:induction false} GroupsAreBounded(fs: seq<FieldElem>, proto3: bool, depth: nat)
    requires depth <= MAX_DEPTH
    ensures AllLevels(GroupsOf(fs, proto3, depth), MAX_DEPTH + 1 - depth)
    decreases fs
  {
    if fs != [] {
      GroupsAreBounded(fs[..|fs| - 1], proto3, depth);
      GroupIsBounded(fs[|fs| - 1], proto3, depth);
    }
  }

  /** No file has more levels of messages than the limit. */
  lemma {:induction false} FileDepthIsBounded(decls: seq<FileElem>, proto3: bool)
    ensures AllLevels(AsFile(decls, proto3).messages, MAX_DEPTH)
    decreases |decls|
  {
    if decls != [] {
      var last := |decls| - 1;
      FileDepthIsBounded(decls[..last], proto3);
      match decls[last]
      case FileMessage(id, body) => DepthIsBounded(id, body, proto3, 1);
      case FileExtend(fs) => GroupsAreBounded(fs, proto3, 1);
      case _ =>
    }
  }
}
