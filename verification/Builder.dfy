/** The loops that build descriptors and emit source locations, each proved to compute
    what module Paths defines, and the order in which locations appear. */
module Builder {
  import opened Common
  import opened Paths

  // --- parser/result.go ------------------------------------------------------------------

  // One pass over a oneof or an extend block: its fields and the messages of its groups.
  method AddFields(es: seq<FieldElem>, oneof: Option<nat>, proto3: bool, depth: nat)
    returns (fields: seq<FieldD>, groups: seq<MessageD>)
    ensures fields == FieldsOf(es, oneof) && groups == GroupsOf(es, proto3, depth)
    decreases es
  {
    fields, groups := [], [];
    for k := 0 to |es|
      invariant fields == FieldsOf(es[..k], oneof) && groups == GroupsOf(es[..k], proto3, depth)
    {
      assert es[..k + 1][..k] == es[..k];
      match es[k]
      case Field(id, optional) => fields := fields + [FieldD(id, oneof, optional)];
      case Group(id, message, body) =>
        fields := fields + [FieldD(id, oneof, false)];
        var md := AsMessageDescriptor(message, body, proto3, depth);
        groups := groups + [md];
      case FieldOther =>
    }
    assert es[..|es|] == es;
  }

  method AsMessageDescriptor(id: NodeId, body: seq<MessageElem>, proto3: bool, depth: nat) returns (m: MessageD)
    ensures m == AsMessage(id, body, proto3, depth)
    decreases body, 1
  {
    if depth >= MAX_DEPTH {
      return EmptyMessage(id);
    }
    m := AddMessageBody(id, body, proto3, depth);
    if proto3 {
      m := AddSyntheticOneofs(m);
    }
  }

  method AddMessageBody(id: NodeId, body: seq<MessageElem>, proto3: bool, depth: nat) returns (m: MessageD)
    ensures m == Body(id, body, proto3, depth)
    decreases body, 0
  {
    m := EmptyMessage(id);
    for k := 0 to |body|
      invariant m == Body(id, body[..k], proto3, depth)
    {
      assert body[..k + 1][..k] == body[..k];
      match body[k]
      case FieldDecl(_) =>
        var fields, groups := AddField(body[k], proto3, depth + 1);
        m := m.(fields := m.fields + fields, nested := m.nested + groups);
      case MapField(node, entry, key, value) =>
        var md := EmptyMessage(entry).(fields := [FieldD(key, None, false), FieldD(value, None, false)]);
        m := m.(fields := m.fields + [FieldD(node, None, false)], nested := m.nested + [md]);
      case Oneof(node, fs) =>
        var index := |m.oneofs|;
        var fields, groups := AddFields(fs, Some(index), proto3, depth + 1);
        m := m.(oneofs := m.oneofs + [OneofD(node, false)], fields := m.fields + fields, nested := m.nested + groups);
      case Message(node, b) =>
        var md := AsMessageDescriptor(node, b, proto3, depth + 1);
        m := m.(nested := m.nested + [md]);
      case Enum(node, values) => m := m.(enums := m.enums + [AsEnum(node, values)]);
      case Extend(fs) =>
        var fields, groups := AddFields(fs, None, proto3, depth + 1);
        m := m.(extensions := m.extensions + fields, nested := m.nested + groups);
      case ExtensionRanges(rs) => m := m.(ranges := m.ranges + rs);
      case Reserved(rs) => m := m.(reserved := m.reserved + rs);
      case MessageOther =>
    }
    assert body[..|body|] == body;
  }

  method AddField(decl: MessageElem, proto3: bool, depth: nat) returns (fields: seq<FieldD>, groups: seq<MessageD>)
    requires decl.FieldDecl?
    ensures fields == FieldOf(decl.field, None) && groups == GroupOf(decl.field, proto3, depth)
    decreases decl
  {
    match decl.field
    case Field(id, optional) => return [FieldD(id, None, optional)], [];
    case Group(id, message, body) =>
      var md := AsMessageDescriptor(message, body, proto3, depth);
      return [FieldD(id, None, false)], [md];
    case FieldOther => return [], [];
  }

  method AddSyntheticOneofs(msgd: MessageD) returns (m: MessageD)
    ensures m == WithSyntheticOneofs(msgd, 0)
  {
    m := msgd;
    for i := 0 to |msgd.fields|
      invariant |m.fields| == |msgd.fields| && WithSyntheticOneofs(msgd, 0) == WithSyntheticOneofs(m, i)
    {
      if m.fields[i].proto3Optional {
        var f := m.fields[i].(oneofIndex := Some(|m.oneofs|));
        m := m.(fields := m.fields[i := f], oneofs := m.oneofs + [OneofD(f.node, true)]);
      }
    }
  }

  method AsServiceDescriptor(id: NodeId, methods: seq<ServiceElem>) returns (sd: ServiceD)
    ensures sd == AsService(id, methods)
  {
    sd := ServiceD(id, []);
    for k := 0 to |methods|
      invariant sd == AsService(id, methods[..k])
    {
      assert methods[..k + 1][..k] == methods[..k];
      if methods[k].Rpc? {
        sd := sd.(methods := sd.methods + [methods[k].id]);
      }
    }
    assert methods[..|methods|] == methods;
  }

  // createFileDescriptor
  method CreateFileDescriptor(decls: seq<FileElem>, proto3: bool) returns (fd: FileD)
    ensures fd == AsFile(decls, proto3)
  {
    fd := FileD([], [], [], [], []);
    for k := 0 to |decls|
      invariant fd == AsFile(decls[..k], proto3)
    {
      assert decls[..k + 1][..k] == decls[..k];
      match decls[k]
      case FileMessage(id, body) =>
        var md := AsMessageDescriptor(id, body, proto3, 1);
        fd := fd.(messages := fd.messages + [md]);
      case FileEnum(id, values) => fd := fd.(enums := fd.enums + [AsEnum(id, values)]);
      case FileExtend(fs) =>
        var fields, groups := AddFields(fs, None, proto3, 1);
        fd := fd.(extensions := fd.extensions + fields, messages := fd.messages + groups);
      case FileService(id, ms) =>
        var sd := AsServiceDescriptor(id, ms);
        fd := fd.(services := fd.services + [sd]);
      case FileImport(id) => fd := fd.(dependencies := fd.dependencies + [id]);
      case FileOther =>
    }
    assert decls[..|decls|] == decls;
  }

  // --- The located nodes, in order ----------------------------------------------------------

  function Located(ls: seq<Location>): seq<NodeId> {
    seq(|ls|, i requires 0 <= i < |ls| => ls[i].node)
  }

  lemma LocatedConcat(a: seq<Location>, b: seq<Location>)
    ensures Located(a + b) == Located(a) + Located(b)
  {
  }

  lemma LocatedFirst(l: Location, ls: seq<Location>)
    ensures Located([l] + ls) == [l.node] + Located(ls)
  {
  }

  // The nodes of a message that have a location of their own, in source order: a group
  // comes as its field and then its message.
  function FieldNodes(e: FieldElem): seq<NodeId>
    decreases e
  {
    match e
    case Field(id, _) => [id]
    case Group(id, message, body) => [id, message] + BodyNodes(body)
    case FieldOther => []
  }

  function FieldsNodes(es: seq<FieldElem>): seq<NodeId>
    decreases es
  {
    if es == [] then [] else FieldsNodes(es[..|es| - 1]) + FieldNodes(es[|es| - 1])
  }

  function ValueNodes(values: seq<EnumElem>): seq<NodeId> {
    if values == [] then []
    else
      ValueNodes(values[..|values| - 1]) + ValueNode(values[|values| - 1])
  }

  function ValueNode(e: EnumElem): seq<NodeId> {
    match e
    case EnumValue(id) => [id]
    case EnumReserved(rs) => rs
    case EnumOther => []
  }

  function DeclNodes(e: MessageElem): seq<NodeId>
    decreases e
  {
    match e
    case FieldDecl(f) => FieldNodes(f)
    case MapField(id, _, _, _) => [id]
    case Oneof(id, fs) => [id] + FieldsNodes(fs)
    case Message(id, body) => [id] + BodyNodes(body)
    case Enum(id, values) => [id] + ValueNodes(values)
    case Extend(fs) => FieldsNodes(fs)
    case ExtensionRanges(rs) => rs
    case Reserved(rs) => rs
    case MessageOther => []
  }

  function BodyNodes(body: seq<MessageElem>): seq<NodeId>
    decreases body
  {
    if body == [] then [] else BodyNodes(body[..|body| - 1]) + DeclNodes(body[|body| - 1])
  }

  lemma {:induction false} EnumNodesLocated(path: Path, values: seq<EnumElem>)
    ensures Located(EnumBodyLocs(path, values)) == ValueNodes(values)
    decreases |values|
  {
    if values != [] {
      var before, last := values[..|values| - 1], values[|values| - 1];
      var v, r := CountValues(before).0, CountValues(before).1;
      EnumNodesLocated(path, before);
      LocatedConcat(EnumBodyLocs(path, before), EnumElemLocs(path, v, r, last));
      EnumNodeLocated(path, v, r, last);
      assert EnumBodyLocs(path, values) == EnumBodyLocs(path, before) + EnumElemLocs(path, v, r, last);
    }
  }

  lemma EnumNodeLocated(path: Path, value: nat, reserved: nat, e: EnumElem)
    ensures Located(EnumElemLocs(path, value, reserved, e)) == ValueNode(e)
  {
  }

  lemma {:induction false} FieldNodesLocated(fieldPath: Path, messagePath: Path, e: FieldElem)
    ensures Located(FieldLocs(fieldPath, messagePath, e)) == FieldNodes(e)
    decreases e
  {
    if e.Group? {
      BodyNodesLocated(messagePath, e.body);
      LocatedFirst(Location(messagePath, e.message), BodyLocs(messagePath, e.body));
      LocatedFirst(Location(fieldPath, e.id), MessageLocs(messagePath, e.message, e.body));
    }
  }

  lemma {:induction false} FieldsNodesLocated(fieldsPath: Path, messagesPath: Path, field: nat, nested: nat,
      es: seq<FieldElem>)
    ensures Located(FieldsLocs(fieldsPath, messagesPath, field, nested, es)) == FieldsNodes(es)
    decreases es
  {
    if es != [] {
      var before := es[..|es| - 1];
      FieldsNodesLocated(fieldsPath, messagesPath, field, nested, before);
      var fieldPath := fieldsPath + [field + CountFields(before)];
      var messagePath := messagesPath + [nested + CountGroups(before)];
      var a, b := FieldsLocs(fieldsPath, messagesPath, field, nested, before),
        FieldLocs(fieldPath, messagePath, es[|es| - 1]);
      FieldNodesLocated(fieldPath, messagePath, es[|es| - 1]);
      LocatedConcat(a, b);
      assert FieldsLocs(fieldsPath, messagesPath, field, nested, es) == a + b;
    }
  }

  lemma {:induction false} DeclNodesLocated(path: Path, c: Counters, e: MessageElem)
    ensures Located(DeclLocs(path, c, e)) == DeclNodes(e)
    decreases e
  {
    match e
    case FieldDecl(f) =>
      FieldNodesLocated(path + [MESSAGE_FIELD, c.field], path + [MESSAGE_NESTED_TYPE, c.nested], f);
    case Oneof(id, fs) =>
      FieldsNodesLocated(path + [MESSAGE_FIELD], path + [MESSAGE_NESTED_TYPE], c.field, c.nested, fs);
      LocatedFirst(Location(path + [MESSAGE_ONEOF_DECL, c.oneof], id),
                   FieldsLocs(path + [MESSAGE_FIELD], path + [MESSAGE_NESTED_TYPE], c.field, c.nested, fs));
    case Message(id, body) =>
      var q := path + [MESSAGE_NESTED_TYPE, c.nested];
      BodyNodesLocated(q, body);
      LocatedFirst(Location(q, id), BodyLocs(q, body));
    case Enum(id, values) =>
      var q := path + [MESSAGE_ENUM_TYPE, c.enum_];
      EnumNodesLocated(q, values);
      LocatedFirst(Location(q, id), EnumBodyLocs(q, values));
    case Extend(fs) =>
      FieldsNodesLocated(path + [MESSAGE_EXTENSION], path + [MESSAGE_NESTED_TYPE], c.extend, c.nested, fs);
    case _ =>
  }

  // Every element of a message gets exactly one location, in source order.
  lemma {:induction false} BodyNodesLocated(path: Path, body: seq<MessageElem>)
    ensures Located(BodyLocs(path, body)) == BodyNodes(body)
    decreases body
  {
    if body != [] {
      var before := body[..|body| - 1];
      BodyNodesLocated(path, before);
      DeclNodesLocated(path, CountAll(before), body[|body| - 1]);
      LocatedConcat(BodyLocs(path, before), DeclLocs(path, CountAll(before), body[|body| - 1]));
    }
  }

  function RpcNodes(ms: seq<ServiceElem>): seq<NodeId> {
    if ms == [] then [] else RpcNodes(ms[..|ms| - 1]) + if ms[|ms| - 1].Rpc? then [ms[|ms| - 1].id] else []
  }

  function FileDeclNodes(e: FileElem): seq<NodeId> {
    match e
    case FileMessage(id, body) => [id] + BodyNodes(body)
    case FileEnum(id, values) => [id] + ValueNodes(values)
    case FileExtend(fs) => FieldsNodes(fs)
    case FileService(id, ms) => [id] + RpcNodes(ms)
    case FileImport(id) => [id]
    case FileOther => []
  }

  function FileNodes(decls: seq<FileElem>): seq<NodeId> {
    if decls == [] then [] else FileNodes(decls[..|decls| - 1]) + FileDeclNodes(decls[|decls| - 1])
  }

  lemma {:induction false} RpcNodesLocated(path: Path, ms: seq<ServiceElem>)
    ensures Located(ServiceBodyLocs(path, ms)) == RpcNodes(ms)
    decreases |ms|
  {
    if ms != [] {
      var before := ms[..|ms| - 1];
      var last := if ms[|ms| - 1].Rpc? then [Location(path + [SERVICE_METHOD, CountRpcs(before)], ms[|ms| - 1].id)]
                  else [];
      RpcNodesLocated(path, before);
      LocatedConcat(ServiceBodyLocs(path, before), last);
    }
  }

  lemma FileDeclNodesLocated(c: FileCounters, e: FileElem)
    ensures Located(FileDeclLocs(c, e)) == FileDeclNodes(e)
  {
    match e
    case FileMessage(id, body) =>
      var q := [FILE_MESSAGE_TYPE, c.message];
      BodyNodesLocated(q, body);
      LocatedFirst(Location(q, id), BodyLocs(q, body));
    case FileEnum(id, values) =>
      var q := [FILE_ENUM_TYPE, c.enum_];
      EnumNodesLocated(q, values);
      LocatedFirst(Location(q, id), EnumBodyLocs(q, values));
    case FileExtend(fs) => FieldsNodesLocated([FILE_EXTENSION], [FILE_MESSAGE_TYPE], c.extend, c.message, fs);
    case FileService(id, ms) =>
      var q := [FILE_SERVICE, c.service];
      RpcNodesLocated(q, ms);
      LocatedFirst(Location(q, id), ServiceBodyLocs(q, ms));
    case _ =>
  }

  // Every element of a file gets exactly one location, in source order.
  lemma {:induction false} FileNodesLocated(decls: seq<FileElem>)
    ensures Located(FileLocs(decls)) == FileNodes(decls)
    decreases |decls|
  {
    if decls != [] {
      var before := decls[..|decls| - 1];
      FileNodesLocated(before);
      FileDeclNodesLocated(CountFile(before), decls[|decls| - 1]);
      LocatedConcat(FileLocs(before), FileDeclLocs(CountFile(before), decls[|decls| - 1]));
    }
  }
}
