/** Descriptors and source info are made by two independent traversals of the syntax
    tree: parser/result.go appends descriptors to lists, sourceinfo/source_code_info.go
    counts. Following the path of a source location in the descriptor must reach what was
    made from the located node (the meaning of `path` in SourceCodeInfo.Location). */
module Paths {
  import opened Common

  // --- Syntax tree ----------------------------------------------------------------

  type NodeId = int

  datatype EnumElem = EnumValue(id: NodeId) | EnumReserved(ranges: seq<NodeId>) | EnumOther

  // What may stand in a oneof or in an extend block. `message` is the synthetic message
  // node of a group.
  datatype FieldElem =
    | Field(id: NodeId, proto3Optional: bool)
    | Group(id: NodeId, message: NodeId, body: seq<MessageElem>)
    | FieldOther

  datatype MessageElem =
    | FieldDecl(field: FieldElem)
    | MapField(id: NodeId, entry: NodeId, key: NodeId, value: NodeId)
    | Oneof(id: NodeId, fields: seq<FieldElem>)
    | Message(id: NodeId, body: seq<MessageElem>)
    | Enum(id: NodeId, values: seq<EnumElem>)
    | Extend(fields: seq<FieldElem>)
    | ExtensionRanges(ranges: seq<NodeId>)
    | Reserved(ranges: seq<NodeId>)
    | MessageOther

  datatype ServiceElem = Rpc(id: NodeId) | ServiceOther

  datatype FileElem =
    | FileMessage(id: NodeId, body: seq<MessageElem>)
    | FileEnum(id: NodeId, values: seq<EnumElem>)
    | FileExtend(fields: seq<FieldElem>)
    | FileService(id: NodeId, methods: seq<ServiceElem>)
    | FileImport(id: NodeId)
    | FileOther

  // --- Descriptors ------------------------------------------------------------------

  datatype FieldD = FieldD(node: NodeId, oneofIndex: Option<nat>, proto3Optional: bool)

  datatype EnumD = EnumD(node: NodeId, values: seq<NodeId>, reserved: seq<NodeId>)

  // A oneof without a node of its own is synthetic; it stands for one optional field.
  datatype OneofD = OneofD(node: NodeId, synthetic: bool)

  datatype MessageD = MessageD(
    node: NodeId,
    fields: seq<FieldD>,
    nested: seq<MessageD>,
    enums: seq<EnumD>,
    ranges: seq<NodeId>,
    extensions: seq<FieldD>,
    oneofs: seq<OneofD>,
    reserved: seq<NodeId>)

  datatype ServiceD = ServiceD(node: NodeId, methods: seq<NodeId>)

  datatype FileD = FileD(
    dependencies: seq<NodeId>,
    messages: seq<MessageD>,
    enums: seq<EnumD>,
    services: seq<ServiceD>,
    extensions: seq<FieldD>)

  // --- Building descriptors (parser/result.go) -----------------------------------------

  const MAX_DEPTH := 32

  function EmptyMessage(node: NodeId): MessageD {
    MessageD(node, [], [], [], [], [], [], [])
  }

  function FieldOf(e: FieldElem, oneof: Option<nat>): seq<FieldD> {
    match e
    case Field(id, optional) => [FieldD(id, oneof, optional)]
    case Group(id, _, _) => [FieldD(id, oneof, false)]
    case FieldOther => []
  }

  function FieldsOf(es: seq<FieldElem>, oneof: Option<nat>): seq<FieldD> {
    if es == [] then [] else FieldsOf(es[..|es| - 1], oneof) + FieldOf(es[|es| - 1], oneof)
  }

  // The message of a group, at the given depth.
  function GroupOf(e: FieldElem, proto3: bool, depth: nat): seq<MessageD>
    decreases e
  {
    if e.Group? then [AsMessage(e.message, e.body, proto3, depth)] else []
  }

  function GroupsOf(es: seq<FieldElem>, proto3: bool, depth: nat): seq<MessageD>
    decreases es
  {
    if es == [] then [] else GroupsOf(es[..|es| - 1], proto3, depth) + GroupOf(es[|es| - 1], proto3, depth)
  }

  function AsEnum(id: NodeId, values: seq<EnumElem>): EnumD {
    if values == [] then EnumD(id, [], [])
    else
      var e := AsEnum(id, values[..|values| - 1]);
      match values[|values| - 1]
      case EnumValue(v) => e.(values := e.values + [v])
      case EnumReserved(rs) => e.(reserved := e.reserved + rs)
      case EnumOther => e
  }

  // asMessageDescriptor: beyond the depth limit an error is reported and the body skipped.
  function AsMessage(id: NodeId, body: seq<MessageElem>, proto3: bool, depth: nat): MessageD
    decreases body, 1
  {
    if depth >= MAX_DEPTH then EmptyMessage(id)
    else
      var m := Body(id, body, proto3, depth);
      if proto3 then WithSyntheticOneofs(m, 0) else m
  }

  // The second loop of addMessageBody.
  function Body(id: NodeId, body: seq<MessageElem>, proto3: bool, depth: nat): MessageD
    decreases body, 0
  {
    if body == [] then EmptyMessage(id)
    else AddDecl(Body(id, body[..|body| - 1], proto3, depth), body[|body| - 1], proto3, depth)
  }

  function AddDecl(m: MessageD, e: MessageElem, proto3: bool, depth: nat): MessageD
    decreases e
  {
    match e
    case FieldDecl(f) =>
      m.(fields := m.fields + FieldOf(f, None), nested := m.nested + GroupOf(f, proto3, depth + 1))
    case MapField(id, entry, key, value) =>
      m.(fields := m.fields + [FieldD(id, None, false)],
         nested := m.nested + [EmptyMessage(entry).(fields := [FieldD(key, None, false), FieldD(value, None, false)])])
    case Oneof(id, fs) =>
      m.(oneofs := m.oneofs + [OneofD(id, false)],
         fields := m.fields + FieldsOf(fs, Some(|m.oneofs|)),
         nested := m.nested + GroupsOf(fs, proto3, depth + 1))
    case Message(id, body) => m.(nested := m.nested + [AsMessage(id, body, proto3, depth + 1)])
    case Enum(id, values) => m.(enums := m.enums + [AsEnum(id, values)])
    case Extend(fs) =>
      m.(extensions := m.extensions + FieldsOf(fs, None), nested := m.nested + GroupsOf(fs, proto3, depth + 1))
    case ExtensionRanges(rs) => m.(ranges := m.ranges + rs)
    case Reserved(rs) => m.(reserved := m.reserved + rs)
    case MessageOther => m
  }

  // processProto3OptionalFields, from field `i` on: one new oneof per optional field.
  function WithSyntheticOneofs(m: MessageD, i: nat): MessageD
    requires i <= |m.fields|
    decreases |m.fields| - i
  {
    if i == |m.fields| then m
    else if !m.fields[i].proto3Optional then WithSyntheticOneofs(m, i + 1)
    else
      var f := m.fields[i].(oneofIndex := Some(|m.oneofs|));
      WithSyntheticOneofs(m.(fields := m.fields[i := f], oneofs := m.oneofs + [OneofD(f.node, true)]), i + 1)
  }

  function AsService(id: NodeId, methods: seq<ServiceElem>): ServiceD {
    if methods == [] then ServiceD(id, [])
    else
      var s := AsService(id, methods[..|methods| - 1]);
      if methods[|methods| - 1].Rpc? then s.(methods := s.methods + [methods[|methods| - 1].id]) else s
  }

  function AddFileDecl(f: FileD, e: FileElem, proto3: bool): FileD {
    match e
    case FileMessage(id, body) => f.(messages := f.messages + [AsMessage(id, body, proto3, 1)])
    case FileEnum(id, values) => f.(enums := f.enums + [AsEnum(id, values)])
    case FileExtend(fs) =>
      f.(extensions := f.extensions + FieldsOf(fs, None), messages := f.messages + GroupsOf(fs, proto3, 1))
    case FileService(id, ms) => f.(services := f.services + [AsService(id, ms)])
    case FileImport(id) => f.(dependencies := f.dependencies + [id])
    case FileOther => f
  }

  // createFileDescriptor
  function AsFile(decls: seq<FileElem>, proto3: bool): FileD {
    if decls == [] then FileD([], [], [], [], [])
    else AddFileDecl(AsFile(decls[..|decls| - 1], proto3), decls[|decls| - 1], proto3)
  }

  // --- Source locations (sourceinfo/source_code_info.go) ---------------------------------

  type Path = seq<int>

  datatype Location = Location(path: Path, node: NodeId)

  const FILE_DEPENDENCY := 3
  const FILE_MESSAGE_TYPE := 4
  const FILE_ENUM_TYPE := 5
  const FILE_SERVICE := 6
  const FILE_EXTENSION := 7
  const MESSAGE_FIELD := 2
  const MESSAGE_NESTED_TYPE := 3
  const MESSAGE_ENUM_TYPE := 4
  const MESSAGE_EXTENSION_RANGE := 5
  const MESSAGE_EXTENSION := 6
  const MESSAGE_ONEOF_DECL := 8
  const MESSAGE_RESERVED_RANGE := 9
  const ENUM_VALUE := 2
  const ENUM_RESERVED_RANGE := 4
  const SERVICE_METHOD := 2

  // The index variables of generateSourceCodeInfoForMessage.
  datatype Counters = Counters(field: nat, oneof: nat, extend: nat, nested: nat, enum_: nat, range: nat, reserved: nat)

  function CountFields(es: seq<FieldElem>): nat {
    if es == [] then 0 else CountFields(es[..|es| - 1]) + if es[|es| - 1].FieldOther? then 0 else 1
  }

  function CountGroups(es: seq<FieldElem>): nat {
    if es == [] then 0 else CountGroups(es[..|es| - 1]) + if es[|es| - 1].Group? then 1 else 0
  }

  function Count(c: Counters, e: MessageElem): Counters {
    match e
    case FieldDecl(f) =>
      c.(field := c.field + if f.FieldOther? then 0 else 1, nested := c.nested + if f.Group? then 1 else 0)
    case MapField(_, _, _, _) => c.(field := c.field + 1, nested := c.nested + 1)
    case Oneof(_, fs) =>
      c.(oneof := c.oneof + 1, field := c.field + CountFields(fs), nested := c.nested + CountGroups(fs))
    case Message(_, _) => c.(nested := c.nested + 1)
    case Enum(_, _) => c.(enum_ := c.enum_ + 1)
    case Extend(fs) => c.(extend := c.extend + CountFields(fs), nested := c.nested + CountGroups(fs))
    case ExtensionRanges(rs) => c.(range := c.range + |rs|)
    case Reserved(rs) => c.(reserved := c.reserved + |rs|)
    case MessageOther => c
  }

  function CountAll(body: seq<MessageElem>): Counters {
    if body == [] then Counters(0, 0, 0, 0, 0, 0, 0) else Count(CountAll(body[..|body| - 1]), body[|body| - 1])
  }

  // One location per entry of a list of leaves.
  function LeafLocs(path: Path, from: nat, ids: seq<NodeId>): seq<Location> {
    seq(|ids|, i requires 0 <= i < |ids| => Location(path + [from + i], ids[i]))
  }

  function CountValues(values: seq<EnumElem>): (nat, nat) {
    if values == [] then (0, 0)
    else
      var (v, r) := CountValues(values[..|values| - 1]);
      match values[|values| - 1]
      case EnumValue(_) => (v + 1, r)
      case EnumReserved(rs) => (v, r + |rs|)
      case EnumOther => (v, r)
  }

  function EnumBodyLocs(path: Path, values: seq<EnumElem>): seq<Location> {
    if values == [] then []
    else
      var before := values[..|values| - 1];
      EnumBodyLocs(path, before) + EnumElemLocs(path, CountValues(before).0, CountValues(before).1,
        values[|values| - 1])
  }

  // One element of an enum, with the two index variables before it.
  function EnumElemLocs(path: Path, value: nat, reserved: nat, e: EnumElem): seq<Location> {
    match e
    case EnumValue(id) => [Location(path + [ENUM_VALUE, value], id)]
    case EnumReserved(rs) => LeafLocs(path + [ENUM_RESERVED_RANGE], reserved, rs)
    case EnumOther => []
  }

  function EnumLocs(path: Path, id: NodeId, values: seq<EnumElem>): seq<Location> {
    [Location(path, id)] + EnumBodyLocs(path, values)
  }

  // A field; for a group, also its message.
  function FieldLocs(fieldPath: Path, messagePath: Path, e: FieldElem): seq<Location>
    decreases e
  {
    match e
    case Field(id, _) => [Location(fieldPath, id)]
    case Group(id, message, body) => [Location(fieldPath, id)] + MessageLocs(messagePath, message, body)
    case FieldOther => []
  }

  // The loop over a oneof or an extend block, with the two index variables it shares
  // with the enclosing message.
  function FieldsLocs(fieldsPath: Path, messagesPath: Path, field: nat, nested: nat, es: seq<FieldElem>): seq<Location>
    decreases es
  {
    if es == [] then []
    else
      var before := es[..|es| - 1];
      FieldsLocs(fieldsPath, messagesPath, field, nested, before) +
      FieldLocs(fieldsPath + [field + CountFields(before)], messagesPath + [nested + CountGroups(before)], es[|es| - 1])
  }

  function MessageLocs(path: Path, id: NodeId, body: seq<MessageElem>): seq<Location>
    decreases body, 1
  {
    [Location(path, id)] + BodyLocs(path, body)
  }

  function BodyLocs(path: Path, body: seq<MessageElem>): seq<Location>
    decreases body, 0
  {
    if body == [] then []
    else BodyLocs(path, body[..|body| - 1]) + DeclLocs(path, CountAll(body[..|body| - 1]), body[|body| - 1])
  }

  function DeclLocs(path: Path, c: Counters, e: MessageElem): seq<Location>
    decreases e
  {
    match e
    case FieldDecl(f) =>
      FieldLocs(path + [MESSAGE_FIELD, c.field], path + [MESSAGE_NESTED_TYPE, c.nested], f)
    case MapField(id, _, _, _) => [Location(path + [MESSAGE_FIELD, c.field], id)]
    case Oneof(id, fs) =>
      [Location(path + [MESSAGE_ONEOF_DECL, c.oneof], id)] +
      FieldsLocs(path + [MESSAGE_FIELD], path + [MESSAGE_NESTED_TYPE], c.field, c.nested, fs)
    case Message(id, body) => MessageLocs(path + [MESSAGE_NESTED_TYPE, c.nested], id, body)
    case Enum(id, values) => EnumLocs(path + [MESSAGE_ENUM_TYPE, c.enum_], id, values)
    case Extend(fs) =>
      FieldsLocs(path + [MESSAGE_EXTENSION], path + [MESSAGE_NESTED_TYPE], c.extend, c.nested, fs)
    case ExtensionRanges(rs) => LeafLocs(path + [MESSAGE_EXTENSION_RANGE], c.range, rs)
    case Reserved(rs) => LeafLocs(path + [MESSAGE_RESERVED_RANGE], c.reserved, rs)
    case MessageOther => []
  }

  // The index variables of generateSourceInfoForFile.
  datatype FileCounters = FileCounters(dependency: nat, message: nat, enum_: nat, service: nat, extend: nat)

  function CountFileDecl(c: FileCounters, e: FileElem): FileCounters {
    match e
    case FileMessage(_, _) => c.(message := c.message + 1)
    case FileEnum(_, _) => c.(enum_ := c.enum_ + 1)
    case FileExtend(fs) => c.(extend := c.extend + CountFields(fs), message := c.message + CountGroups(fs))
    case FileService(_, _) => c.(service := c.service + 1)
    case FileImport(_) => c.(dependency := c.dependency + 1)
    case FileOther => c
  }

  function CountFile(decls: seq<FileElem>): FileCounters {
    if decls == [] then FileCounters(0, 0, 0, 0, 0)
    else CountFileDecl(CountFile(decls[..|decls| - 1]), decls[|decls| - 1])
  }

  function ServiceBodyLocs(path: Path, ms: seq<ServiceElem>): seq<Location> {
    if ms == [] then []
    else
      var before := ms[..|ms| - 1];
      ServiceBodyLocs(path, before) +
      if ms[|ms| - 1].Rpc? then [Location(path + [SERVICE_METHOD, CountRpcs(before)], ms[|ms| - 1].id)] else []
  }

  function CountRpcs(ms: seq<ServiceElem>): nat {
    if ms == [] then 0 else CountRpcs(ms[..|ms| - 1]) + if ms[|ms| - 1].Rpc? then 1 else 0
  }

  function FileDeclLocs(c: FileCounters, e: FileElem): seq<Location> {
    match e
    case FileMessage(id, body) => MessageLocs([FILE_MESSAGE_TYPE, c.message], id, body)
    case FileEnum(id, values) => EnumLocs([FILE_ENUM_TYPE, c.enum_], id, values)
    case FileExtend(fs) => FieldsLocs([FILE_EXTENSION], [FILE_MESSAGE_TYPE], c.extend, c.message, fs)
    case FileService(id, ms) =>
      [Location([FILE_SERVICE, c.service], id)] + ServiceBodyLocs([FILE_SERVICE, c.service], ms)
    case FileImport(id) => [Location([FILE_DEPENDENCY, c.dependency], id)]
    case FileOther => []
  }

  // generateSourceInfoForFile
  function FileLocs(decls: seq<FileElem>): seq<Location> {
    if decls == [] then []
    else FileLocs(decls[..|decls| - 1]) + FileDeclLocs(CountFile(decls[..|decls| - 1]), decls[|decls| - 1])
  }

  // --- Following a path --------------------------------------------------------------------

  datatype Target =
    | OfFile(file: FileD)
    | OfMessage(message: MessageD)
    | OfEnum(enum_: EnumD)
    | OfService(service: ServiceD)
    | Leaf(node: NodeId)

  // The AST node from which a descriptor was made; the file itself is not looked up.
  function NodeOf(t: Target): Option<NodeId> {
    match t
    case OfFile(_) => None
    case OfMessage(m) => Some(m.node)
    case OfEnum(e) => Some(e.node)
    case OfService(s) => Some(s.node)
    case Leaf(n) => Some(n)
  }

  function LeafAt(s: seq<NodeId>, i: int): Option<Target> {
    if 0 <= i < |s| then Some(Leaf(s[i])) else None
  }

  function FieldAt(s: seq<FieldD>, i: int): Option<Target> {
    if 0 <= i < |s| then Some(Leaf(s[i].node)) else None
  }

  function MessageAt(s: seq<MessageD>, i: int): Option<Target> {
    if 0 <= i < |s| then Some(OfMessage(s[i])) else None
  }

  function EnumAt(s: seq<EnumD>, i: int): Option<Target> {
    if 0 <= i < |s| then Some(OfEnum(s[i])) else None
  }

  // Element `i` of the repeated field with the given number.
  function Enter(t: Target, tag: int, i: int): Option<Target> {
    match t
    case OfFile(f) =>
      if tag == FILE_DEPENDENCY then LeafAt(f.dependencies, i)
      else if tag == FILE_MESSAGE_TYPE then MessageAt(f.messages, i)
      else if tag == FILE_ENUM_TYPE then EnumAt(f.enums, i)
      else if tag == FILE_SERVICE then (if 0 <= i < |f.services| then Some(OfService(f.services[i])) else None)
      else if tag == FILE_EXTENSION then FieldAt(f.extensions, i)
      else None
    case OfMessage(m) =>
      if tag == MESSAGE_FIELD then FieldAt(m.fields, i)
      else if tag == MESSAGE_NESTED_TYPE then MessageAt(m.nested, i)
      else if tag == MESSAGE_ENUM_TYPE then EnumAt(m.enums, i)
      else if tag == MESSAGE_EXTENSION_RANGE then LeafAt(m.ranges, i)
      else if tag == MESSAGE_EXTENSION then FieldAt(m.extensions, i)
      else if tag == MESSAGE_ONEOF_DECL then (if 0 <= i < |m.oneofs| then Some(Leaf(m.oneofs[i].node)) else None)
      else if tag == MESSAGE_RESERVED_RANGE then LeafAt(m.reserved, i)
      else None
    case OfEnum(e) =>
      if tag == ENUM_VALUE then LeafAt(e.values, i)
      else if tag == ENUM_RESERVED_RANGE then LeafAt(e.reserved, i)
      else None
    case OfService(s) => if tag == SERVICE_METHOD then LeafAt(s.methods, i) else None
    case Leaf(_) => None
  }

  function Follow(t: Target, path: Path): Option<Target>
    decreases |path|
  {
    if path == [] then Some(t)
    else if |path| == 1 then None
    else
      match Enter(t, path[0], path[1])
      case None => None
      case Some(u) => Follow(u, path[2..])
  }

  lemma {:induction false} FollowOneMore(t: Target, path: Path, u: Target, tag: int, i: int)
    requires Follow(t, path) == Some(u)
    ensures Follow(t, path + [tag, i]) == Enter(u, tag, i)
    ensures Follow(t, path + [tag] + [i]) == Enter(u, tag, i)
    decreases |path|
  {
    assert path + [tag] + [i] == path + [tag, i];
    if path == [] {
      assert (path + [tag, i])[2..] == [];
      var e := Enter(u, tag, i);
      assert e.Some? ==> Follow(e.value, []) == e;
    } else {
      var next := Enter(t, path[0], path[1]).value;
      FollowOneMore(next, path[2..], u, tag, i);
      assert (path + [tag, i])[2..] == path[2..] + [tag, i];
    }
  }

  ghost predicate Reaches(root: Target, l: Location) {
    Follow(root, l.path).Some? && NodeOf(Follow(root, l.path).value) == Some(l.node)
  }

  ghost predicate AllReach(root: Target, ls: seq<Location>) {
    forall i: nat :: i < |ls| ==> ReachesAt(root, ls, i)
  }

  ghost predicate ReachesAt(root: Target, ls: seq<Location>, i: nat) {
    i < |ls| && Reaches(root, ls[i])
  }

  lemma AllReachFirst(root: Target, l: Location, ls: seq<Location>)
    requires Reaches(root, l) && AllReach(root, ls)
    ensures AllReach(root, [l] + ls)
  {
    AllReachBoth(root, [l], ls);
  }

  lemma AllReachBoth(root: Target, a: seq<Location>, b: seq<Location>)
    requires AllReach(root, a) && AllReach(root, b)
    ensures AllReach(root, a + b)
  {
    forall i: nat | i < |a + b|
      ensures ReachesAt(root, a + b, i)
    {
      assert i < |a| ==> ReachesAt(root, a, i);
      assert i >= |a| ==> ReachesAt(root, b, i - |a|);
    }
  }

  // --- The lists only grow, and the counters are their lengths ------------------------------

  // The lists of `a` are where `m` has them; synthetic oneofs may have been added to `m`.
  ghost predicate Within(a: MessageD, m: MessageD) {
    && |a.fields| <= |m.fields| && (forall i :: 0 <= i < |a.fields| ==> a.fields[i].node == m.fields[i].node)
    && a.nested <= m.nested
    && a.enums <= m.enums
    && a.ranges <= m.ranges
    && a.extensions <= m.extensions
    && a.oneofs <= m.oneofs
    && a.reserved <= m.reserved
  }

  lemma WithinTransitive(a: MessageD, b: MessageD, c: MessageD)
    requires Within(a, b) && Within(b, c)
    ensures Within(a, c)
  {
  }

  lemma AddDeclWithin(m: MessageD, e: MessageElem, proto3: bool, depth: nat)
    ensures Within(m, AddDecl(m, e, proto3, depth))
  {
  }

  lemma {:induction false} SyntheticWithin(m: MessageD, i: nat)
    requires i <= |m.fields|
    ensures Within(m, WithSyntheticOneofs(m, i)) && WithSyntheticOneofs(m, i).node == m.node
    decreases |m.fields| - i
  {
    if i < |m.fields| {
      if m.fields[i].proto3Optional {
        var f := m.fields[i].(oneofIndex := Some(|m.oneofs|));
        var m' := m.(fields := m.fields[i := f], oneofs := m.oneofs + [OneofD(f.node, true)]);
        SyntheticWithin(m', i + 1);
        WithinTransitive(m, m', WithSyntheticOneofs(m', i + 1));
      } else {
        SyntheticWithin(m, i + 1);
      }
    }
  }

  function Lengths(m: MessageD): Counters {
    Counters(|m.fields|, |m.oneofs|, |m.extensions|, |m.nested|, |m.enums|, |m.ranges|, |m.reserved|)
  }

  lemma {:induction false} FieldsLength(es: seq<FieldElem>, oneof: Option<nat>, proto3: bool, depth: nat)
    ensures |FieldsOf(es, oneof)| == CountFields(es) && |GroupsOf(es, proto3, depth)| == CountGroups(es)
    decreases |es|
  {
    if es != [] {
      FieldsLength(es[..|es| - 1], oneof, proto3, depth);
    }
  }

  // The index variables of source info are the lengths of the lists built so far.
  lemma {:induction false} CountersAreLengths(id: NodeId, body: seq<MessageElem>, proto3: bool, depth: nat)
    ensures CountAll(body) == Lengths(Body(id, body, proto3, depth))
    decreases |body|
  {
    if body != [] {
      var m := Body(id, body[..|body| - 1], proto3, depth);
      CountersAreLengths(id, body[..|body| - 1], proto3, depth);
      CountIsLength(m, body[|body| - 1], proto3, depth);
    }
  }

  lemma CountIsLength(m: MessageD, e: MessageElem, proto3: bool, depth: nat)
    ensures Count(Lengths(m), e) == Lengths(AddDecl(m, e, proto3, depth))
  {
    match e
    case FieldDecl(f) => assert |FieldOf(f, None)| == if f.FieldOther? then 0 else 1;
    case Oneof(_, fs) => FieldsLength(fs, Some(|m.oneofs|), proto3, depth + 1);
    case Extend(fs) => FieldsLength(fs, None, proto3, depth + 1);
    case _ =>
  }

  // --- No message is nested too deeply ---------------------------------------------------

  // No "message nesting depth" error is reported for the body of a message at this depth.
  ghost predicate Shallow(body: seq<MessageElem>, depth: nat)
    decreases body
  {
    depth < MAX_DEPTH && forall e :: e in body ==> ShallowElem(e, depth)
  }

  ghost predicate ShallowElem(e: MessageElem, depth: nat)
    decreases e
  {
    match e
    case FieldDecl(f) => ShallowField(f, depth)
    case Oneof(_, fs) => forall f :: f in fs ==> ShallowField(f, depth)
    case Extend(fs) => forall f :: f in fs ==> ShallowField(f, depth)
    case Message(_, body) => Shallow(body, depth + 1)
    case _ => true
  }

  ghost predicate ShallowField(f: FieldElem, depth: nat)
    decreases f
  {
    f.Group? ==> Shallow(f.body, depth + 1)
  }

  // --- Every location reaches the descriptor of its node ------------------------------------

  lemma LeavesReach(root: Target, path: Path, u: Target, tag: int, list: seq<NodeId>, from: nat, ids: seq<NodeId>)
    requires Follow(root, path) == Some(u) && from + |ids| <= |list| && list[from..from + |ids|] == ids
    requires forall i :: Enter(u, tag, i) == LeafAt(list, i)
    ensures AllReach(root, LeafLocs(path + [tag], from, ids))
  {
    var ls := LeafLocs(path + [tag], from, ids);
    forall i: nat | i < |ids|
      ensures ReachesAt(root, ls, i)
    {
      assert list[from..from + |ids|][i] == list[from + i];
      LeafReaches(root, path, u, tag, list, from + i);
      assert ls[i] == Location(path + [tag] + [from + i], list[from + i]);
    }
  }

  lemma LeafReaches(root: Target, path: Path, u: Target, tag: int, list: seq<NodeId>, i: nat)
    requires Follow(root, path) == Some(u) && i < |list| && Enter(u, tag, i) == LeafAt(list, i)
    ensures Reaches(root, Location(path + [tag] + [i], list[i]))
  {
    FollowOneMore(root, path, u, tag, i);
  }

  lemma {:induction false} ValuesMatch(id: NodeId, values: seq<EnumElem>)
    ensures AsEnum(id, values).node == id
    ensures CountValues(values) == (|AsEnum(id, values).values|, |AsEnum(id, values).reserved|)
    decreases |values|
  {
    if values != [] {
      ValuesMatch(id, values[..|values| - 1]);
    }
  }

  lemma {:induction false} EnumBodyReaches(root: Target, path: Path, e: EnumD, id: NodeId, values: seq<EnumElem>)
    requires Follow(root, path) == Some(OfEnum(e))
    requires AsEnum(id, values).values <= e.values && AsEnum(id, values).reserved <= e.reserved
    ensures AllReach(root, EnumBodyLocs(path, values))
    decreases |values|
  {
    if values != [] {
      var before := values[..|values| - 1];
      var b := AsEnum(id, before);
      EnumBodyReaches(root, path, e, id, before);
      ValuesMatch(id, before);
      EnumElemReaches(root, path, e, b, values[|values| - 1]);
      AllReachBoth(root, EnumBodyLocs(path, before),
        EnumElemLocs(path, |b.values|, |b.reserved|, values[|values| - 1]));
    }
  }

  // The element of an enum that comes after those of which `b` has been built.
  lemma EnumElemReaches(root: Target, path: Path, e: EnumD, b: EnumD, x: EnumElem)
    requires Follow(root, path) == Some(OfEnum(e))
    requires x.EnumValue? ==> b.values + [x.id] <= e.values
    requires x.EnumReserved? ==> b.reserved + x.ranges <= e.reserved
    ensures AllReach(root, EnumElemLocs(path, |b.values|, |b.reserved|, x))
  {
    match x
    case EnumValue(v) => FollowOneMore(root, path, OfEnum(e), ENUM_VALUE, |b.values|);
    case EnumReserved(rs) =>
      assert e.reserved[|b.reserved|..|b.reserved| + |rs|] == rs;
      LeavesReach(root, path, OfEnum(e), ENUM_RESERVED_RANGE, e.reserved, |b.reserved|, rs);
    case EnumOther =>
  }

  lemma EnumReaches(root: Target, path: Path, id: NodeId, values: seq<EnumElem>)
    requires Follow(root, path) == Some(OfEnum(AsEnum(id, values)))
    ensures AllReach(root, EnumLocs(path, id, values))
  {
    ValuesMatch(id, values);
    EnumBodyReaches(root, path, AsEnum(id, values), id, values);
    AllReachFirst(root, Location(path, id), EnumBodyLocs(path, values));
  }

  // A block of fields is in place when entry `i` of each of its two lists is reached
  // through index `field + i` and `nested + i`.
  ghost predicate InPlace(root: Target, fieldsPath: Path, messagesPath: Path, field: nat, nested: nat,
                          fields: seq<FieldD>, groups: seq<MessageD>)
  {
    && (forall i: nat :: i < |fields| ==> FieldAtPlace(root, fieldsPath, field, fields, i))
    && (forall i: nat :: i < |groups| ==> GroupAtPlace(root, messagesPath, nested, groups, i))
  }

  ghost predicate FieldAtPlace(root: Target, path: Path, from: nat, fields: seq<FieldD>, i: nat) {
    i < |fields| && Follow(root, path + [from + i]) == Some(Leaf(fields[i].node))
  }

  ghost predicate GroupAtPlace(root: Target, path: Path, from: nat, groups: seq<MessageD>, i: nat) {
    i < |groups| && Follow(root, path + [from + i]) == Some(OfMessage(groups[i]))
  }

  lemma {:induction false} FieldReaches(root: Target, fieldPath: Path, messagePath: Path, e: FieldElem,
      oneof: Option<nat>, proto3: bool, depth: nat)
    requires ShallowField(e, depth)
    requires !e.FieldOther? ==> Follow(root, fieldPath) == Some(Leaf(FieldOf(e, oneof)[0].node))
    requires e.Group? ==> Follow(root, messagePath) == Some(OfMessage(AsMessage(e.message, e.body, proto3, depth + 1)))
    ensures AllReach(root, FieldLocs(fieldPath, messagePath, e))
    decreases e, 0
  {
    if e.Group? {
      MessageReaches(root, messagePath, e.message, e.body, proto3, depth + 1);
      AllReachFirst(root, Location(fieldPath, e.id), MessageLocs(messagePath, e.message, e.body));
    }
  }

  lemma {:induction false} LastFieldReaches(root: Target, fieldPath: Path, messagePath: Path, e: FieldElem,
      oneof: Option<nat>, proto3: bool, depth: nat)
    requires ShallowField(e, depth)
    requires FieldOf(e, oneof) != [] ==> Follow(root, fieldPath) == Some(Leaf(FieldOf(e, oneof)[0].node))
    requires GroupOf(e, proto3, depth + 1) != [] ==>
               Follow(root, messagePath) == Some(OfMessage(GroupOf(e, proto3, depth + 1)[0]))
    ensures AllReach(root, FieldLocs(fieldPath, messagePath, e))
    decreases e, 1
  {
    FieldReaches(root, fieldPath, messagePath, e, oneof, proto3, depth);
  }

  lemma {:induction false} FieldsReach(root: Target, fieldsPath: Path, messagesPath: Path, field: nat, nested: nat,
                                       es: seq<FieldElem>, oneof: Option<nat>, proto3: bool, depth: nat)
    requires forall f :: f in es ==> ShallowField(f, depth)
    requires InPlace(root, fieldsPath, messagesPath, field, nested, FieldsOf(es, oneof),
        GroupsOf(es, proto3, depth + 1))
    ensures AllReach(root, FieldsLocs(fieldsPath, messagesPath, field, nested, es))
    decreases es, 0
  {
    if es != [] {
      var before, e := es[..|es| - 1], es[|es| - 1];
      var fs, gs := FieldsOf(before, oneof), GroupsOf(before, proto3, depth + 1);
      InPlaceParts(root, fieldsPath, messagesPath, field, nested, fs, gs, FieldOf(e, oneof),
        GroupOf(e, proto3, depth + 1));
      assert forall f :: f in before ==> f in es;
      FieldsReach(root, fieldsPath, messagesPath, field, nested, before, oneof, proto3, depth);
      LastFieldReaches(root, fieldsPath + [field + |fs|], messagesPath + [nested + |gs|], e, oneof, proto3, depth);
      AllReachBoth(root, FieldsLocs(fieldsPath, messagesPath, field, nested, before),
                   FieldLocs(fieldsPath + [field + |fs|], messagesPath + [nested + |gs|], e));
      LastFieldLocs(fieldsPath, messagesPath, field, nested, es, oneof, proto3, depth);
    }
  }

  // The last field of a block is located where the lists before it end.
  lemma LastFieldLocs(fieldsPath: Path, messagesPath: Path, field: nat, nested: nat, es: seq<FieldElem>,
                      oneof: Option<nat>, proto3: bool, depth: nat)
    requires es != []
    ensures var before, e := es[..|es| - 1], es[|es| - 1];
            var fs, gs := FieldsOf(before, oneof), GroupsOf(before, proto3, depth + 1);
            FieldsLocs(fieldsPath, messagesPath, field, nested, es)
            == FieldsLocs(fieldsPath, messagesPath, field, nested, before)
               + FieldLocs(fieldsPath + [field + |fs|], messagesPath + [nested + |gs|], e)
  {
    FieldsLength(es[..|es| - 1], oneof, proto3, depth + 1);
  }

  // A block that is in place has its front in place and, right after it, its last entries.
  lemma InPlaceParts(root: Target, fieldsPath: Path, messagesPath: Path, field: nat, nested: nat,
                     fs: seq<FieldD>, gs: seq<MessageD>, f: seq<FieldD>, g: seq<MessageD>)
    requires InPlace(root, fieldsPath, messagesPath, field, nested, fs + f, gs + g)
    ensures InPlace(root, fieldsPath, messagesPath, field, nested, fs, gs)
    ensures f != [] ==> Follow(root, fieldsPath + [field + |fs|]) == Some(Leaf(f[0].node))
    ensures g != [] ==> Follow(root, messagesPath + [nested + |gs|]) == Some(OfMessage(g[0]))
  {
    forall i: nat | i < |fs|
      ensures FieldAtPlace(root, fieldsPath, field, fs, i)
    {
      assert FieldAtPlace(root, fieldsPath, field, fs + f, i);
    }
    forall i: nat | i < |gs|
      ensures GroupAtPlace(root, messagesPath, nested, gs, i)
    {
      assert GroupAtPlace(root, messagesPath, nested, gs + g, i);
    }
    assert f != [] ==> FieldAtPlace(root, fieldsPath, field, fs + f, |fs|);
    assert g != [] ==> GroupAtPlace(root, messagesPath, nested, gs + g, |gs|);
  }

  lemma {:induction false} MessageReaches(root: Target, path: Path, id: NodeId, body: seq<MessageElem>, proto3: bool,
      depth: nat)
    requires Shallow(body, depth) && Follow(root, path) == Some(OfMessage(AsMessage(id, body, proto3, depth)))
    ensures AllReach(root, MessageLocs(path, id, body))
    decreases body, 1
  {
    var b := Body(id, body, proto3, depth);
    BodyNode(id, body, proto3, depth);
    SyntheticWithin(b, 0);
    BodyReaches(root, path, AsMessage(id, body, proto3, depth), id, body, proto3, depth);
    AllReachFirst(root, Location(path, id), BodyLocs(path, body));
  }

  lemma {:induction false} BodyNode(id: NodeId, body: seq<MessageElem>, proto3: bool, depth: nat)
    ensures Body(id, body, proto3, depth).node == id
    decreases |body|
  {
    if body != [] {
      BodyNode(id, body[..|body| - 1], proto3, depth);
    }
  }

  lemma {:induction false} BodyReaches(root: Target, path: Path, m: MessageD, id: NodeId, body: seq<MessageElem>,
      proto3: bool, depth: nat)
    requires forall e :: e in body ==> ShallowElem(e, depth)
    requires Follow(root, path) == Some(OfMessage(m)) && Within(Body(id, body, proto3, depth), m)
    ensures AllReach(root, BodyLocs(path, body))
    decreases body, 0
  {
    if body != [] {
      var before, e := body[..|body| - 1], body[|body| - 1];
      var b := Body(id, before, proto3, depth);
      AddDeclWithin(b, e, proto3, depth);
      WithinTransitive(b, AddDecl(b, e, proto3, depth), m);
      BodyReaches(root, path, m, id, before, proto3, depth);
      CountersAreLengths(id, before, proto3, depth);
      DeclReaches(root, path, m, b, e, proto3, depth);
      AllReachBoth(root, BodyLocs(path, before), DeclLocs(path, CountAll(before), e));
    }
  }

  lemma {:induction false} DeclReaches(root: Target, path: Path, m: MessageD, b: MessageD, e: MessageElem,
      proto3: bool, depth: nat)
    requires ShallowElem(e, depth)
    requires Follow(root, path) == Some(OfMessage(m)) && Within(AddDecl(b, e, proto3, depth), m)
    ensures AllReach(root, DeclLocs(path, Lengths(b), e))
    decreases e, 1
  {
    var t := OfMessage(m);
    match e
    case FieldDecl(f) => FieldDeclReaches(root, path, m, b, f, proto3, depth);
    case MapField(id, _, _, _) => FollowOneMore(root, path, t, MESSAGE_FIELD, |b.fields|);
    case Oneof(id, fs) => OneofReaches(root, path, m, b, id, fs, proto3, depth);
    case Message(id, body) =>
      FollowOneMore(root, path, t, MESSAGE_NESTED_TYPE, |b.nested|);
      MessageReaches(root, path + [MESSAGE_NESTED_TYPE, |b.nested|], id, body, proto3, depth + 1);
    case Enum(id, values) => EnumDeclReaches(root, path, m, b, id, values, proto3, depth);
    case Extend(fs) =>
      ExtendInPlace(root, path, m, b, fs, proto3, depth);
      FieldsReach(root, path + [MESSAGE_EXTENSION], path + [MESSAGE_NESTED_TYPE], |b.extensions|, |b.nested|, fs,
        None, proto3, depth);
    case ExtensionRanges(rs) => RangesReach(root, path, m, b, rs, proto3, depth);
    case Reserved(rs) => ReservedReach(root, path, m, b, rs, proto3, depth);
    case MessageOther =>
  }

  lemma EnumDeclReaches(root: Target, path: Path, m: MessageD, b: MessageD, id: NodeId, values: seq<EnumElem>,
      proto3: bool, depth: nat)
    requires Follow(root, path) == Some(OfMessage(m)) && Within(AddDecl(b, Enum(id, values), proto3, depth), m)
    ensures AllReach(root, DeclLocs(path, Lengths(b), Enum(id, values)))
  {
    FollowOneMore(root, path, OfMessage(m), MESSAGE_ENUM_TYPE, |b.enums|);
    EnumReaches(root, path + [MESSAGE_ENUM_TYPE, |b.enums|], id, values);
  }

  lemma {:induction false} FieldDeclReaches(root: Target, path: Path, m: MessageD, b: MessageD, f: FieldElem,
      proto3: bool, depth: nat)
    requires ShallowField(f, depth)
    requires Follow(root, path) == Some(OfMessage(m)) && Within(AddDecl(b, FieldDecl(f), proto3, depth), m)
    ensures AllReach(root, DeclLocs(path, Lengths(b), FieldDecl(f)))
    decreases f, 1
  {
    FollowOneMore(root, path, OfMessage(m), MESSAGE_FIELD, |b.fields|);
    FollowOneMore(root, path, OfMessage(m), MESSAGE_NESTED_TYPE, |b.nested|);
    FieldDeclInPlace(m, b, f, proto3, depth);
    FieldReaches(root, path + [MESSAGE_FIELD, |b.fields|], path + [MESSAGE_NESTED_TYPE, |b.nested|], f, None, proto3,
      depth);
  }

  lemma FieldDeclInPlace(m: MessageD, b: MessageD, f: FieldElem, proto3: bool, depth: nat)
    requires Within(AddDecl(b, FieldDecl(f), proto3, depth), m)
    ensures !f.FieldOther? ==> |b.fields| < |m.fields| && m.fields[|b.fields|].node == FieldOf(f, None)[0].node
    ensures f.Group? ==>
              |b.nested| < |m.nested| && m.nested[|b.nested|] == AsMessage(f.message, f.body, proto3, depth + 1)
  {
    var a := AddDecl(b, FieldDecl(f), proto3, depth);
    assert a.fields == b.fields + FieldOf(f, None) && a.nested == b.nested + GroupOf(f, proto3, depth + 1);
    if f.Group? {
      assert GroupOf(f, proto3, depth + 1) == [AsMessage(f.message, f.body, proto3, depth + 1)];
    }
  }

  lemma {:induction false} OneofReaches(root: Target, path: Path, m: MessageD, b: MessageD, id: NodeId,
      fs: seq<FieldElem>, proto3: bool, depth: nat)
    requires forall f :: f in fs ==> ShallowField(f, depth)
    requires Follow(root, path) == Some(OfMessage(m)) && Within(AddDecl(b, Oneof(id, fs), proto3, depth), m)
    ensures AllReach(root, DeclLocs(path, Lengths(b), Oneof(id, fs)))
    decreases fs, 1
  {
    FollowOneMore(root, path, OfMessage(m), MESSAGE_ONEOF_DECL, |b.oneofs|);
    OneofInPlace(root, path, m, b, id, fs, proto3, depth);
    FieldsReach(root, path + [MESSAGE_FIELD], path + [MESSAGE_NESTED_TYPE], |b.fields|, |b.nested|, fs,
      Some(|b.oneofs|), proto3, depth);
    AllReachFirst(root, Location(path + [MESSAGE_ONEOF_DECL, |b.oneofs|], id),
                  FieldsLocs(path + [MESSAGE_FIELD], path + [MESSAGE_NESTED_TYPE], |b.fields|, |b.nested|, fs));
  }

  lemma RangesReach(root: Target, path: Path, m: MessageD, b: MessageD, rs: seq<NodeId>, proto3: bool, depth: nat)
    requires Follow(root, path) == Some(OfMessage(m)) && Within(AddDecl(b, ExtensionRanges(rs), proto3, depth), m)
    ensures AllReach(root, DeclLocs(path, Lengths(b), ExtensionRanges(rs)))
  {
    assert m.ranges[|b.ranges|..|b.ranges| + |rs|] == rs;
    LeavesReach(root, path, OfMessage(m), MESSAGE_EXTENSION_RANGE, m.ranges, |b.ranges|, rs);
  }

  lemma ReservedReach(root: Target, path: Path, m: MessageD, b: MessageD, rs: seq<NodeId>, proto3: bool, depth: nat)
    requires Follow(root, path) == Some(OfMessage(m)) && Within(AddDecl(b, Reserved(rs), proto3, depth), m)
    ensures AllReach(root, DeclLocs(path, Lengths(b), Reserved(rs)))
  {
    assert m.reserved[|b.reserved|..|b.reserved| + |rs|] == rs;
    LeavesReach(root, path, OfMessage(m), MESSAGE_RESERVED_RANGE, m.reserved, |b.reserved|, rs);
  }

  lemma OneofInPlace(root: Target, path: Path, m: MessageD, b: MessageD, id: NodeId, fs: seq<FieldElem>,
      proto3: bool, depth: nat)
    requires Follow(root, path) == Some(OfMessage(m)) && Within(AddDecl(b, Oneof(id, fs), proto3, depth), m)
    ensures InPlace(root, path + [MESSAGE_FIELD], path + [MESSAGE_NESTED_TYPE], |b.fields|, |b.nested|,
                    FieldsOf(fs, Some(|b.oneofs|)), GroupsOf(fs, proto3, depth + 1))
  {
    var a := AddDecl(b, Oneof(id, fs), proto3, depth);
    var fields, groups := FieldsOf(fs, Some(|b.oneofs|)), GroupsOf(fs, proto3, depth + 1);
    forall i: nat | i < |fields|
      ensures FieldAtPlace(root, path + [MESSAGE_FIELD], |b.fields|, fields, i)
    {
      assert a.fields[|b.fields| + i] == fields[i];
      FieldReached(root, path, m, |b.fields| + i);
    }
    GroupsInPlace(root, path, m, b, a, groups);
  }

  lemma ExtendInPlace(root: Target, path: Path, m: MessageD, b: MessageD, fs: seq<FieldElem>, proto3: bool, depth: nat)
    requires Follow(root, path) == Some(OfMessage(m)) && Within(AddDecl(b, Extend(fs), proto3, depth), m)
    ensures InPlace(root, path + [MESSAGE_EXTENSION], path + [MESSAGE_NESTED_TYPE], |b.extensions|, |b.nested|,
                    FieldsOf(fs, None), GroupsOf(fs, proto3, depth + 1))
  {
    var a := AddDecl(b, Extend(fs), proto3, depth);
    var fields, groups := FieldsOf(fs, None), GroupsOf(fs, proto3, depth + 1);
    forall i: nat | i < |fields|
      ensures FieldAtPlace(root, path + [MESSAGE_EXTENSION], |b.extensions|, fields, i)
    {
      assert m.extensions[|b.extensions| + i] == a.extensions[|b.extensions| + i] == fields[i];
      ExtensionReached(root, path, m, |b.extensions| + i);
    }
    GroupsInPlace(root, path, m, b, a, groups);
  }

  lemma GroupsInPlace(root: Target, path: Path, m: MessageD, b: MessageD, a: MessageD, groups: seq<MessageD>)
    requires Follow(root, path) == Some(OfMessage(m)) && a.nested <= m.nested && a.nested == b.nested + groups
    ensures var p, n := path + [MESSAGE_NESTED_TYPE], |b.nested|;
            forall i: nat :: i < |groups| ==> GroupAtPlace(root, p, n, groups, i)
  {
    var p, n := path + [MESSAGE_NESTED_TYPE], |b.nested|;
    forall i: nat | i < |groups|
      ensures GroupAtPlace(root, p, n, groups, i)
    {
      assert m.nested[|b.nested| + i] == a.nested[|b.nested| + i] == groups[i];
      NestedReached(root, path, m, |b.nested| + i);
    }
  }

  lemma NestedReached(root: Target, path: Path, m: MessageD, i: nat)
    requires Follow(root, path) == Some(OfMessage(m)) && i < |m.nested|
    ensures Follow(root, path + [MESSAGE_NESTED_TYPE] + [i]) == Some(OfMessage(m.nested[i]))
  {
    FollowOneMore(root, path, OfMessage(m), MESSAGE_NESTED_TYPE, i);
  }

  lemma ExtensionReached(root: Target, path: Path, m: MessageD, i: nat)
    requires Follow(root, path) == Some(OfMessage(m)) && i < |m.extensions|
    ensures Follow(root, path + [MESSAGE_EXTENSION] + [i]) == Some(Leaf(m.extensions[i].node))
  {
    FollowOneMore(root, path, OfMessage(m), MESSAGE_EXTENSION, i);
  }

  lemma FieldReached(root: Target, path: Path, m: MessageD, i: nat)
    requires Follow(root, path) == Some(OfMessage(m)) && i < |m.fields|
    ensures Follow(root, path + [MESSAGE_FIELD] + [i]) == Some(Leaf(m.fields[i].node))
  {
    FollowOneMore(root, path, OfMessage(m), MESSAGE_FIELD, i);
  }

  // --- The whole file ------------------------------------------------------------------------

  ghost predicate FileWithin(a: FileD, f: FileD) {
    && a.dependencies <= f.dependencies
    && a.messages <= f.messages
    && a.enums <= f.enums
    && a.services <= f.services
    && a.extensions <= f.extensions
  }

  lemma {:induction false} FileCountersAreLengths(decls: seq<FileElem>, proto3: bool)
    ensures var f := AsFile(decls, proto3);
            CountFile(decls) == FileCounters(|f.dependencies|, |f.messages|, |f.enums|, |f.services|, |f.extensions|)
    decreases |decls|
  {
    if decls != [] {
      FileCountersAreLengths(decls[..|decls| - 1], proto3);
      if decls[|decls| - 1].FileExtend? {
        FieldsLength(decls[|decls| - 1].fields, None, proto3, 1);
      }
    }
  }

  // No "message nesting depth" error is reported for the file.
  ghost predicate ShallowFile(decls: seq<FileElem>) {
    forall e :: e in decls ==> ShallowDecl(e)
  }

  ghost predicate ShallowDecl(e: FileElem) {
    match e
    case FileMessage(_, body) => Shallow(body, 1)
    case FileExtend(fs) => forall f :: f in fs ==> ShallowField(f, 0)
    case _ => true
  }

  lemma {:induction false} RpcsMatch(id: NodeId, ms: seq<ServiceElem>)
    ensures AsService(id, ms).node == id && CountRpcs(ms) == |AsService(id, ms).methods|
    decreases |ms|
  {
    if ms != [] {
      RpcsMatch(id, ms[..|ms| - 1]);
    }
  }

  lemma {:induction false} ServiceBodyReaches(root: Target, path: Path, s: ServiceD, id: NodeId, ms: seq<ServiceElem>)
    requires Follow(root, path) == Some(OfService(s)) && AsService(id, ms).methods <= s.methods
    ensures AllReach(root, ServiceBodyLocs(path, ms))
    decreases |ms|
  {
    if ms != [] {
      var before := ms[..|ms| - 1];
      ServiceBodyReaches(root, path, s, id, before);
      RpcsMatch(id, before);
      FollowOneMore(root, path, OfService(s), SERVICE_METHOD, CountRpcs(before));
      var last := if ms[|ms| - 1].Rpc? then [Location(path + [SERVICE_METHOD, CountRpcs(before)], ms[|ms| - 1].id)]
        else [];
      assert AllReach(root, last);
      AllReachBoth(root, ServiceBodyLocs(path, before), last);
    }
  }

  function FileLengths(b: FileD): FileCounters {
    FileCounters(|b.dependencies|, |b.messages|, |b.enums|, |b.services|, |b.extensions|)
  }

  lemma FileDeclReaches(f: FileD, b: FileD, e: FileElem, proto3: bool)
    requires ShallowDecl(e) && FileWithin(AddFileDecl(b, e, proto3), f)
    ensures AllReach(OfFile(f), FileDeclLocs(FileLengths(b), e))
  {
    match e
    case FileMessage(id, body) => FileMessageReaches(f, b, id, body, proto3);
    case FileEnum(id, values) => FileEnumReaches(f, b, id, values, proto3);
    case FileExtend(fs) =>
      FileExtendInPlace(f, b, fs, proto3);
      FieldsReach(OfFile(f), [FILE_EXTENSION], [FILE_MESSAGE_TYPE], |b.extensions|, |b.messages|, fs, None, proto3, 0);
    case FileService(id, ms) => FileServiceReaches(f, b, id, ms, proto3);
    case FileImport(id) => FromRoot(f, FILE_DEPENDENCY, |b.dependencies|);
    case FileOther =>
  }

  lemma FileMessageReaches(f: FileD, b: FileD, id: NodeId, body: seq<MessageElem>, proto3: bool)
    requires Shallow(body, 1) && FileWithin(AddFileDecl(b, FileMessage(id, body), proto3), f)
    ensures AllReach(OfFile(f), FileDeclLocs(FileLengths(b), FileMessage(id, body)))
  {
    FromRoot(f, FILE_MESSAGE_TYPE, |b.messages|);
    MessageReaches(OfFile(f), [FILE_MESSAGE_TYPE, |b.messages|], id, body, proto3, 1);
  }

  lemma FileEnumReaches(f: FileD, b: FileD, id: NodeId, values: seq<EnumElem>, proto3: bool)
    requires FileWithin(AddFileDecl(b, FileEnum(id, values), proto3), f)
    ensures AllReach(OfFile(f), FileDeclLocs(FileLengths(b), FileEnum(id, values)))
  {
    FromRoot(f, FILE_ENUM_TYPE, |b.enums|);
    EnumReaches(OfFile(f), [FILE_ENUM_TYPE, |b.enums|], id, values);
  }

  lemma FileServiceReaches(f: FileD, b: FileD, id: NodeId, ms: seq<ServiceElem>, proto3: bool)
    requires FileWithin(AddFileDecl(b, FileService(id, ms), proto3), f)
    ensures AllReach(OfFile(f), FileDeclLocs(FileLengths(b), FileService(id, ms)))
  {
    FromRoot(f, FILE_SERVICE, |b.services|);
    RpcsMatch(id, ms);
    ServiceBodyReaches(OfFile(f), [FILE_SERVICE, |b.services|], AsService(id, ms), id, ms);
    AllReachFirst(OfFile(f), Location([FILE_SERVICE, |b.services|], id),
      ServiceBodyLocs([FILE_SERVICE, |b.services|], ms));
  }

  lemma FromRoot(f: FileD, tag: int, i: int)
    ensures Follow(OfFile(f), [tag, i]) == Enter(OfFile(f), tag, i)
  {
    FollowOneMore(OfFile(f), [], OfFile(f), tag, i);
    assert [] + [tag, i] == [tag, i];
  }

  lemma FileExtendInPlace(f: FileD, b: FileD, fs: seq<FieldElem>, proto3: bool)
    requires FileWithin(AddFileDecl(b, FileExtend(fs), proto3), f)
    ensures InPlace(OfFile(f), [FILE_EXTENSION], [FILE_MESSAGE_TYPE], |b.extensions|, |b.messages|,
                    FieldsOf(fs, None), GroupsOf(fs, proto3, 1))
  {
    var a, root := AddFileDecl(b, FileExtend(fs), proto3), OfFile(f);
    var fields, groups := FieldsOf(fs, None), GroupsOf(fs, proto3, 1);
    forall i: nat | i < |fields|
      ensures FieldAtPlace(root, [FILE_EXTENSION], |b.extensions|, fields, i)
    {
      FollowOneMore(root, [], root, FILE_EXTENSION, |b.extensions| + i);
      assert [] + [FILE_EXTENSION] == [FILE_EXTENSION];
      assert f.extensions[|b.extensions| + i] == a.extensions[|b.extensions| + i] == fields[i];
    }
    forall i: nat | i < |groups|
      ensures GroupAtPlace(root, [FILE_MESSAGE_TYPE], |b.messages|, groups, i)
    {
      FollowOneMore(root, [], root, FILE_MESSAGE_TYPE, |b.messages| + i);
      assert [] + [FILE_MESSAGE_TYPE] == [FILE_MESSAGE_TYPE];
      assert f.messages[|b.messages| + i] == a.messages[|b.messages| + i] == groups[i];
    }
  }

  lemma {:induction false} FileDeclsReach(f: FileD, decls: seq<FileElem>, proto3: bool)
    requires ShallowFile(decls) && FileWithin(AsFile(decls, proto3), f)
    ensures AllReach(OfFile(f), FileLocs(decls))
    decreases |decls|
  {
    if decls != [] {
      var before, e := decls[..|decls| - 1], decls[|decls| - 1];
      FileDeclsReach(f, before, proto3);
      FileCountersAreLengths(before, proto3);
      FileDeclReaches(f, AsFile(before, proto3), e, proto3);
      AllReachBoth(OfFile(f), FileLocs(before), FileDeclLocs(CountFile(before), e));
    }
  }

  /** Every location of source info, followed in the file's descriptor, reaches the
      descriptor that was made from the located node. */
  lemma PathsReachTheirNodes(decls: seq<FileElem>, proto3: bool, l: Location)
    requires ShallowFile(decls) && l in FileLocs(decls)
    ensures Reaches(OfFile(AsFile(decls, proto3)), l)
  {
    FileDeclsReach(AsFile(decls, proto3), decls, proto3);
    var i: nat :| i < |FileLocs(decls)| && FileLocs(decls)[i] == l;
    assert ReachesAt(OfFile(AsFile(decls, proto3)), FileLocs(decls), i);
  }
}
