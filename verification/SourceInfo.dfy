/** The loops of sourceinfo/source_code_info.go. Every path is a slice, and most of them share
    storage with the path that they extend. Each loop is proved to emit the locations that module
    Paths defines, so that no path is overwritten before it has been used. */
module SourceInfo {
  import opened Common
  import opened Paths
  import Slices

  class SourceCodeInfo {
    var locs: seq<Location>

    constructor ()
      ensures locs == []
    {
      locs := [];
    }

    // A location gets a copy of the path.
    method NewLoc(node: NodeId, buf: array<int>, n: nat)
      requires n <= buf.Length
      modifies this
      ensures locs == old(locs) + [Location(buf[..n], node)]
    {
      locs := locs + [Location(buf[..n], node)];
    }

    // generateSourceCodeInfoForMessage, with its index variables.
    method ForMessage(buf: array<int>, n: nat, id: NodeId, body: seq<MessageElem>)
      requires n <= buf.Length
      modifies this, buf
      ensures buf[..n] == old(buf[..n]) && locs == old(locs) + MessageLocs(old(buf[..n]), id, body)
      decreases body, 2
    {
      ghost var before, path := locs, buf[..n];
      NewLoc(id, buf, n);
      ghost var start := locs;
      var c := Counters(0, 0, 0, 0, 0, 0, 0);
      for k := 0 to |body|
        invariant c == CountAll(body[..k]) && buf[..n] == path
        invariant locs == start + BodyLocs(path, body[..k])
      {
        assert body[..k + 1][..k] == body[..k];
        Regroup(start, BodyLocs(path, body[..k]), DeclLocs(path, c, body[k]));
        c := ForDecl(buf, n, c, body[k]);
      }
      assert body[..|body|] == body;
      Regroup(before, [Location(path, id)], BodyLocs(path, body));
    }

    // One declaration of a message: its locations, and the index variables after it.
    method ForDecl(buf: array<int>, n: nat, c: Counters, e: MessageElem) returns (c': Counters)
      requires n <= buf.Length
      modifies this, buf
      ensures buf[..n] == old(buf[..n]) && locs == old(locs) + DeclLocs(old(buf[..n]), c, e)
      ensures c' == Count(c, e)
      decreases e, 1
    {
      c' := c;
      match e
      case FieldDecl(f) =>
        c' := ForFieldDecl(buf, n, c, f);
      case MapField(id, _, _, _) =>
        var p := Slices.Append(buf, n, [MESSAGE_FIELD, c.field]);
        NewLoc(id, p, n + 2);
        c' := c.(field := c.field + 1, nested := c.nested + 1);
      case Oneof(_, _) =>
        c' := ForOneof(buf, n, c, e);
      case Message(id, body) =>
        var p := Slices.Append(buf, n, [MESSAGE_NESTED_TYPE, c.nested]);
        ForMessage(p, n + 2, id, body);
        assert p[..n] == p[..n + 2][..n];
        c' := c.(nested := c.nested + 1);
      case Enum(id, values) =>
        var p := Slices.Append(buf, n, [MESSAGE_ENUM_TYPE, c.enum_]);
        ForEnum(p, n + 2, id, values);
        assert p[..n] == p[..n + 2][..n];
        c' := c.(enum_ := c.enum_ + 1);
      case Extend(fs) =>
        var extend, nested := ForBlock(buf, n, MESSAGE_EXTENSION, MESSAGE_NESTED_TYPE, c.extend, c.nested, fs);
        c' := c.(extend := extend, nested := nested);
      case ExtensionRanges(rs) =>
        var range := ForLeaves(buf, n, MESSAGE_EXTENSION_RANGE, c.range, rs);
        c' := c.(range := range);
      case Reserved(rs) =>
        var reserved := ForLeaves(buf, n, MESSAGE_RESERVED_RANGE, c.reserved, rs);
        c' := c.(reserved := reserved);
      case MessageOther =>
    }

    method ForFieldDecl(buf: array<int>, n: nat, c: Counters, f: FieldElem) returns (c': Counters)
      requires n <= buf.Length
      modifies this, buf
      ensures buf[..n] == old(buf[..n]) && locs == old(locs) + DeclLocs(old(buf[..n]), c, FieldDecl(f))
      ensures c' == Count(c, FieldDecl(f))
      decreases f, 2
    {
      ghost var before, path := locs, buf[..n];
      match f
      case Field(id, _) =>
        var p := Slices.Append(buf, n, [MESSAGE_FIELD, c.field]);
        NewLoc(id, p, n + 2);
        c' := c.(field := c.field + 1);
      case Group(id, message, body) =>
        var p := Slices.Append(buf, n, [MESSAGE_FIELD, c.field]);
        NewLoc(id, p, n + 2);
        var q := Slices.Clone(buf, n);
        q := Slices.Append(q, n, [MESSAGE_NESTED_TYPE, c.nested]);
        ForMessage(q, n + 2, message, body);
        Regroup(before, [Location(path + [MESSAGE_FIELD, c.field], id)],
                MessageLocs(path + [MESSAGE_NESTED_TYPE, c.nested], message, body));
        c' := c.(field := c.field + 1, nested := c.nested + 1);
      case FieldOther => c' := c;
    }

    // The paths of fields and messages extend the same path. Without the copy, each of them
    // would overwrite the tag of the other.
    method ForBlock(buf: array<int>, n: nat, fieldTag: int, messageTag: int, field: nat, nested: nat,
        es: seq<FieldElem>)
      returns (field': nat, nested': nat)
      requires n <= buf.Length
      modifies this, buf
      ensures buf[..n] == old(buf[..n])
      ensures var path := old(buf[..n]);
              locs == old(locs) + FieldsLocs(path + [fieldTag], path + [messageTag], field, nested, es)
      ensures field' == field + CountFields(es) && nested' == nested + CountGroups(es)
      decreases es, 1
    {
      ghost var path := buf[..n];
      var p := Slices.Append(buf, n, [fieldTag]);
      var q := Slices.Clone(buf, n);
      q := Slices.Append(q, n, [messageTag]);
      field', nested' := ForFields(p, n + 1, q, n + 1, field, nested, es);
      assert p[..n] == p[..n + 1][..n] == path;
    }

    method ForOneof(buf: array<int>, n: nat, c: Counters, e: MessageElem) returns (c': Counters)
      requires n <= buf.Length && e.Oneof?
      modifies this, buf
      ensures buf[..n] == old(buf[..n]) && locs == old(locs) + DeclLocs(old(buf[..n]), c, e)
      ensures c' == Count(c, e)
      decreases e, 0
    {
      ghost var before, path := locs, buf[..n];
      var Oneof(id, fs) := e;
      var o := Slices.Clone(buf, n);
      o := Slices.Append(o, n, [MESSAGE_ONEOF_DECL, c.oneof]);
      NewLoc(id, o, n + 2);
      var field, nested := ForBlock(buf, n, MESSAGE_FIELD, MESSAGE_NESTED_TYPE, c.field, c.nested, fs);
      Regroup(before, [Location(path + [MESSAGE_ONEOF_DECL, c.oneof], id)],
              FieldsLocs(path + [MESSAGE_FIELD], path + [MESSAGE_NESTED_TYPE], c.field, c.nested, fs));
      c' := c.(field := field, nested := nested, oneof := c.oneof + 1);
    }

    // generateSourceCodeInfoForOneof and generateSourceCodeInfoForExtensions: both index
    // variables belong to the caller.
    method ForFields(fields: array<int>, n: nat, messages: array<int>, m: nat, field: nat, nested: nat,
        es: seq<FieldElem>) returns (field': nat, nested': nat)
      requires n <= fields.Length && m <= messages.Length && fields != messages
      modifies this, fields, messages
      ensures fields[..n] == old(fields[..n]) && messages[..m] == old(messages[..m])
      ensures locs == old(locs) + FieldsLocs(old(fields[..n]), old(messages[..m]), field, nested, es)
      ensures field' == field + CountFields(es) && nested' == nested + CountGroups(es)
      decreases es, 0
    {
      ghost var start, fp, mp := locs, fields[..n], messages[..m];
      field', nested' := field, nested;
      for k := 0 to |es|
        invariant field' == field + CountFields(es[..k]) && nested' == nested + CountGroups(es[..k])
        invariant fields[..n] == fp && messages[..m] == mp
        invariant locs == start + FieldsLocs(fp, mp, field, nested, es[..k])
      {
        assert es[..k + 1][..k] == es[..k];
        Regroup(start, FieldsLocs(fp, mp, field, nested, es[..k]), FieldLocs(fp + [field'], mp + [nested'], es[k]));
        ForField(fields, n, messages, m, field', nested', es[k]);
        field' := if es[k].FieldOther? then field' else field' + 1;
        nested' := if es[k].Group? then nested' + 1 else nested';
      }
      assert es[..|es|] == es;
    }

    // A field, or a group and its message.
    method ForField(fields: array<int>, n: nat, messages: array<int>, m: nat, field: nat, nested: nat, f: FieldElem)
      requires n <= fields.Length && m <= messages.Length && fields != messages
      modifies this, fields, messages
      ensures fields[..n] == old(fields[..n]) && messages[..m] == old(messages[..m])
      ensures locs == old(locs) + FieldLocs(old(fields[..n]) + [field], old(messages[..m]) + [nested], f)
      decreases f, 1
    {
      ghost var before, fp, mp := locs, fields[..n], messages[..m];
      match f
      case Field(id, _) =>
        var p := Slices.Append(fields, n, [field]);
        NewLoc(id, p, n + 1);
      case Group(id, message, body) =>
        var p := Slices.Append(fields, n, [field]);
        NewLoc(id, p, n + 1);
        var q := Slices.Append(messages, m, [nested]);
        ForMessage(q, m + 1, message, body);
        assert q[..m] == q[..m + 1][..m] == mp;
        Regroup(before, [Location(fp + [field], id)], MessageLocs(mp + [nested], message, body));
      case FieldOther =>
    }

    method ForEnum(buf: array<int>, n: nat, id: NodeId, values: seq<EnumElem>)
      requires n <= buf.Length
      modifies this, buf
      ensures buf[..n] == old(buf[..n]) && locs == old(locs) + EnumLocs(old(buf[..n]), id, values)
    {
      ghost var before, path := locs, buf[..n];
      NewLoc(id, buf, n);
      ghost var start := locs;
      var value: nat, reserved: nat := 0, 0;
      for k := 0 to |values|
        invariant value == CountValues(values[..k]).0 && reserved == CountValues(values[..k]).1
        invariant buf[..n] == path && locs == start + EnumBodyLocs(path, values[..k])
      {
        EnumNext(path, values, k);
        Regroup(start, EnumBodyLocs(path, values[..k]), EnumElemLocs(path, value, reserved, values[k]));
        value, reserved := ForEnumElem(buf, n, value, reserved, values[k]);
      }
      assert values[..|values|] == values;
      Regroup(before, [Location(path, id)], EnumBodyLocs(path, values));
    }

    method ForEnumElem(buf: array<int>, n: nat, value: nat, reserved: nat, e: EnumElem)
      returns (value': nat, reserved': nat)
      requires n <= buf.Length
      modifies this, buf
      ensures buf[..n] == old(buf[..n]) && locs == old(locs) + EnumElemLocs(old(buf[..n]), value, reserved, e)
      ensures match e
              case EnumValue(_) => value' == value + 1 && reserved' == reserved
              case EnumReserved(rs) => value' == value && reserved' == reserved + |rs|
              case EnumOther => value' == value && reserved' == reserved
    {
      value', reserved' := value, reserved;
      match e
      case EnumValue(node) =>
        var p := Slices.Append(buf, n, [ENUM_VALUE, value]);
        NewLoc(node, p, n + 2);
        value' := value + 1;
      case EnumReserved(rs) => reserved' := ForLeaves(buf, n, ENUM_RESERVED_RANGE, reserved, rs);
      case EnumOther =>
    }

    method ForLeaves(buf: array<int>, n: nat, tag: int, from: nat, ids: seq<NodeId>) returns (next: nat)
      requires n <= buf.Length
      modifies this, buf
      ensures buf[..n] == old(buf[..n]) && locs == old(locs) + LeafLocs(old(buf[..n]) + [tag], from, ids)
      ensures next == from + |ids|
    {
      ghost var path := buf[..n];
      var p := Slices.Append(buf, n, [tag]);
      next := from;
      for k := 0 to |ids|
        invariant next == from + k && locs == old(locs) + LeafLocs(path + [tag], from, ids)[..k]
        invariant buf[..n] == path && p[..n + 1] == path + [tag] && (p == buf || fresh(p)) && n + 1 <= p.Length
      {
        var q := Slices.Append(p, n + 1, [next]);
        NewLoc(ids[k], q, n + 2);
        next := next + 1;
        assert p[..n] == p[..n + 1][..n];
      }
    }

    method ForService(buf: array<int>, n: nat, id: NodeId, ms: seq<ServiceElem>)
      requires n <= buf.Length
      modifies this, buf
      ensures buf[..n] == old(buf[..n])
      ensures locs == old(locs) + ([Location(old(buf[..n]), id)] + ServiceBodyLocs(old(buf[..n]), ms))
    {
      ghost var before, path := locs, buf[..n];
      NewLoc(id, buf, n);
      ghost var start := locs;
      var rpc: nat := 0;
      for k := 0 to |ms|
        invariant rpc == CountRpcs(ms[..k]) && buf[..n] == path
        invariant locs == start + ServiceBodyLocs(path, ms[..k])
      {
        assert ms[..k + 1][..k] == ms[..k];
        if ms[k].Rpc? {
          var p := Slices.Append(buf, n, [SERVICE_METHOD, rpc]);
          Regroup(start, ServiceBodyLocs(path, ms[..k]), [Location(path + [SERVICE_METHOD, rpc], ms[k].id)]);
          NewLoc(ms[k].id, p, n + 2);
          rpc := rpc + 1;
        }
      }
      assert ms[..|ms|] == ms;
      Regroup(before, [Location(path, id)], ServiceBodyLocs(path, ms));
    }

    // One declaration of a file; its path is empty, with room for more.
    method ForFileDecl(buf: array<int>, c: FileCounters, e: FileElem) returns (c': FileCounters)
      modifies this, buf
      ensures locs == old(locs) + FileDeclLocs(c, e) && c' == CountFileDecl(c, e)
    {
      c' := c;
      assert buf[..0] == [] && forall xs: Path :: [] + xs == xs;
      match e
      case FileMessage(id, body) =>
        var p := Slices.Append(buf, 0, [FILE_MESSAGE_TYPE, c.message]);
        ForMessage(p, 2, id, body);
        c' := c.(message := c.message + 1);
      case FileEnum(id, values) =>
        var p := Slices.Append(buf, 0, [FILE_ENUM_TYPE, c.enum_]);
        ForEnum(p, 2, id, values);
        c' := c.(enum_ := c.enum_ + 1);
      case FileExtend(fs) =>
        var extend, message := ForBlock(buf, 0, FILE_EXTENSION, FILE_MESSAGE_TYPE, c.extend, c.message, fs);
        c' := c.(extend := extend, message := message);
      case FileService(id, ms) =>
        var p := Slices.Append(buf, 0, [FILE_SERVICE, c.service]);
        ForService(p, 2, id, ms);
        c' := c.(service := c.service + 1);
      case FileImport(id) =>
        var p := Slices.Append(buf, 0, [FILE_DEPENDENCY, c.dependency]);
        NewLoc(id, p, 2);
        c' := c.(dependency := c.dependency + 1);
      case FileOther =>
    }
  }

  /** generateSourceInfoForFile: the locations of a whole file. */
  method ForFile(decls: seq<FileElem>) returns (locs: seq<Location>)
    ensures locs == FileLocs(decls)
  {
    var sci := new SourceCodeInfo();
    var buf := new int[16];
    var c := FileCounters(0, 0, 0, 0, 0);
    for k := 0 to |decls|
      invariant fresh(sci) && fresh(buf)
      invariant c == CountFile(decls[..k]) && sci.locs == FileLocs(decls[..k])
    {
      assert decls[..k + 1][..k] == decls[..k];
      c := sci.ForFileDecl(buf, c, decls[k]);
    }
    assert decls[..|decls|] == decls;
    return sci.locs;
  }

  // The next element of an enum.
  lemma EnumNext(path: Path, values: seq<EnumElem>, k: nat)
    requires k < |values|
    ensures var c, c' := CountValues(values[..k]), CountValues(values[..k + 1]);
            && EnumBodyLocs(path, values[..k + 1]) == EnumBodyLocs(path, values[..k])
              + EnumElemLocs(path, c.0, c.1, values[k])
            && match values[k]
               case EnumValue(_) => c'.0 == c.0 + 1 && c'.1 == c.1
               case EnumReserved(rs) => c'.0 == c.0 && c'.1 == c.1 + |rs|
               case EnumOther => c'.0 == c.0 && c'.1 == c.1
  {
    assert values[..k + 1][..k] == values[..k];
  }
}
