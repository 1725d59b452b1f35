/**
 The generated classes DirInfo and DirRet of FileManager.pb.cc, field by field and statement by statement, proved
 against the functions of MessageCodec.
 */
module FileManagerPb {
  import opened Options
  import opened Utf8
  import opened Wire
  import opened MessageCodec

  // ---------- Streams ----------

  /** google::protobuf::io::CodedInputStream, reduced to the calls the generated code makes. */
  class CodedInputStream {
    var rest: Bytes     // what has not been read yet
    var atEnd: bool     // the last tag read was 0 because the input had ended

    constructor (bytes: Bytes)
      ensures rest == bytes && !atEnd
    {
      rest, atEnd := bytes, false;
    }

    /** The boolean says that the tag is not zero and at most the cutoff. */
    method ReadTagWithCutoffNoLastTag(cutoff: nat) returns (tag: nat, known: bool)
      modifies this
      ensures tag == ReadTag(old(rest)).tag && rest == ReadTag(old(rest)).rest && atEnd == ReadTag(old(rest)).atEnd
      ensures known <==> 1 <= tag <= cutoff
    {
      var t := ReadTag(rest);
      tag, rest, atEnd := t.tag, t.rest, t.atEnd;
      known := 1 <= tag <= cutoff;
    }

    method ReadVarint64() returns (r: Option<nat>)
      modifies this`rest
      ensures match Wire.ReadVarint64(old(rest)) case Bad => r == None case Read(v, bs) => r == Some(v) && rest == bs
    {
      match Wire.ReadVarint64(rest)
      case Bad => r := None;
      case Read(v, bs) => r, rest := Some(v), bs;
    }

    method ReadVarint32() returns (r: Option<nat>)
      modifies this`rest
      ensures match Wire.ReadVarint32(old(rest)) case Bad => r == None case Read(v, bs) => r == Some(v) && rest == bs
    {
      match Wire.ReadVarint32(rest)
      case Bad => r := None;
      case Read(v, bs) => r, rest := Some(v), bs;
    }

    method ReadString() returns (r: Option<Bytes>)
      modifies this`rest
      ensures match ReadBytes(old(rest)) case Bad => r == None case Read(s, bs) => r == Some(s) && rest == bs
    {
      match ReadBytes(rest)
      case Bad => r := None;
      case Read(s, bs) => r, rest := Some(s), bs;
    }

    method SkipField(tag: nat) returns (r: Option<Record>)
      modifies this`rest
      ensures match Wire.SkipField(tag, old(rest), RECURSION_LIMIT)
              case Bad => r == None
              case Read(field, bs) => r == Some(field) && rest == bs
    {
      match Wire.SkipField(tag, rest, RECURSION_LIMIT)
      case Bad => r := None;
      case Read(field, bs) => r, rest := Some(field), bs;
    }
  }

  /** google::protobuf::io::CodedOutputStream */
  class CodedOutputStream {
    var bytes: Bytes

    constructor ()
      ensures bytes == []
    {
      bytes := [];
    }

    method WriteVarint(v: nat)
      modifies this
      ensures bytes == old(bytes) + Varint(v)
    {
      var left := v;
      while left >= 128
        invariant bytes + Varint(left) == old(bytes) + Varint(v)
      {
        bytes, left := bytes + [left % 128 + 128], left / 128;
      }
      bytes := bytes + [left];
    }

    method WriteRaw(data: Bytes)
      modifies this
      ensures bytes == old(bytes) + data
    {
      bytes := bytes + data;
    }
  }

  // ---------- Writing into a caller's buffer ----------

  method WriteByteToArray(b: Byte, target: array<Byte>, at: nat) returns (end: nat)
    requires at < target.Length
    modifies target
    ensures end == at + 1 && target[..] == Splice(old(target[..]), at, [b])
  {
    target[at] := b;
    end := at + 1;
  }

  /** WireFormatLite::WriteVarint64ToArray: returns the position after the last byte written. */
  method WriteVarintToArray(v: nat, target: array<Byte>, at: nat) returns (end: nat)
    requires at + |Varint(v)| <= target.Length
    modifies target
    ensures end == at + |Varint(v)|
    ensures target[..] == Splice(old(target[..]), at, Varint(v))
  {
    if v < 128 {
      end := WriteByteToArray(v, target, at);
    } else {
      ghost var t0 := target[..];
      end := WriteByteToArray(v % 128 + 128, target, at);
      end := WriteVarintToArray(v / 128, target, end);
      SpliceTwice(t0, at, [v % 128 + 128], Varint(v / 128));
    }
  }

  lemma EncodeInt(number: nat, v: nat)
    ensures Encode(VarintRecord(number, v)) == Varint(Tag(number, 0)) + Varint(v)
  {}

  lemma EncodeString(number: nat, s: Bytes)
    ensures Encode(BytesRecord(number, s)) == Varint(Tag(number, 2)) + Varint(|s|) + s
  {
    assert Payload(BytesRecord(number, s)) == Varint(|s|) + s;
  }

  // ---------- Serialized form, part by part ----------

  function NumberPart(num: int): Bytes
    requires ToVarint(num) >= 0
  {
    if num == 0 then [] else Encode(VarintRecord(1, ToVarint(num)))
  }

  function StringPart(number: nat, s: Bytes): Bytes {
    if s == [] then [] else Encode(BytesRecord(number, s))
  }

  lemma OneRecord(r: Record)
    ensures EncodeAll([r]) == Encode(r)
  {
    assert [r][1..] == [];
    assert EncodeAll([r]) == Encode(r) + EncodeAll([r][1..]);
  }

  lemma {:induction false} StringPartIs(s: Bytes, number: nat, strs: seq<Bytes>)
    ensures EncodeAll(StringRecords([s] + strs, number))
         == StringPart(number, s) + EncodeAll(StringRecords(strs, number + 1))
  {
    assert ([s] + strs)[1..] == strs;
    var rest := StringRecords(strs, number + 1);
    if s == [] {
      assert StringRecords([s] + strs, number) == rest;
    } else {
      assert StringRecords([s] + strs, number) == [BytesRecord(number, s)] + rest;
      EncodeAllConcat([BytesRecord(number, s)], rest);
      OneRecord(BytesRecord(number, s));
    }
  }

  lemma NumberPartIs(num: int)
    requires ToVarint(num) >= 0
    ensures EncodeAll(NumberRecords(num)) == NumberPart(num)
  {
    if num != 0 { OneRecord(VarintRecord(1, ToVarint(num))); }
  }

  /** Serialize, with the strings still to be split. */
  lemma SerializeParts(m: Message)
    requires ToVarint(m.num) >= 0
    ensures Serialize(m) == NumberPart(m.num) + EncodeAll(StringRecords(m.strs, 2)) + EncodeAll(m.unknown)
  {
    NumberPartIs(m.num);
    EncodeAllConcat(NumberRecords(m.num), StringRecords(m.strs, 2));
    EncodeAllConcat(NumberRecords(m.num) + StringRecords(m.strs, 2), m.unknown);
  }

  lemma DirInfoParts(m: Message)
    requires IsSchema(DIR_INFO) && Valid(DIR_INFO, m)
    ensures ToVarint(m.num) >= 0
    ensures Serialize(m)
         == NumberPart(m.num) + StringPart(2, m.strs[0]) + StringPart(3, m.strs[1]) + EncodeAll(m.unknown)
  {
    SerializeParts(m);
    var none: seq<Bytes> := [];
    assert m.strs == [m.strs[0]] + [m.strs[1]] && [m.strs[1]] == [m.strs[1]] + none;
    StringPartIs(m.strs[0], 2, [m.strs[1]]);
    StringPartIs(m.strs[1], 3, none);
    assert EncodeAll(StringRecords(none, 4)) == [];
  }

  lemma DirRetParts(m: Message)
    requires IsSchema(DIR_RET) && Valid(DIR_RET, m)
    ensures ToVarint(m.num) >= 0
    ensures Serialize(m) == NumberPart(m.num) + StringPart(2, m.strs[0]) + EncodeAll(m.unknown)
  {
    SerializeParts(m);
    var none: seq<Bytes> := [];
    assert m.strs == [m.strs[0]] + none;
    StringPartIs(m.strs[0], 2, none);
    assert EncodeAll(StringRecords(none, 3)) == [];
  }

  lemma Tags()
    ensures Varint(Tag(1, 0)) == [0x08] && Varint(Tag(2, 2)) == [0x12] && Varint(Tag(3, 2)) == [0x1a]
  {}

  /** The bytes of a DirInfo without unknown fields: dirid is field 1, name is 2, uuid is 3; defaults are left out. */
  lemma DirInfoBytes(dirid: int, name: Bytes, uuid: Bytes)
    requires Valid(DIR_INFO, Message(dirid, [name, uuid], []))
    ensures ToVarint(dirid) >= 0
    ensures Serialize(Message(dirid, [name, uuid], []))
         == (if dirid == 0 then [] else [0x08] + Varint(ToVarint(dirid)))
            + (if name == [] then [] else [0x12] + Varint(|name|) + name)
            + (if uuid == [] then [] else [0x1a] + Varint(|uuid|) + uuid)
  {
    DirInfoParts(Message(dirid, [name, uuid], []));
    Tags();
    EncodeInt(1, ToVarint(dirid));
    EncodeString(2, name);
    EncodeString(3, uuid);
  }

  /** The bytes of a DirRet without unknown fields: code is field 1 and jsoninfo is 2. */
  lemma DirRetBytes(code: int, jsoninfo: Bytes)
    requires Valid(DIR_RET, Message(code, [jsoninfo], []))
    ensures ToVarint(code) >= 0
    ensures Serialize(Message(code, [jsoninfo], []))
         == (if code == 0 then [] else [0x08] + Varint(ToVarint(code)))
            + (if jsoninfo == [] then [] else [0x12] + Varint(|jsoninfo|) + jsoninfo)
  {
    DirRetParts(Message(code, [jsoninfo], []));
    Tags();
    EncodeInt(1, ToVarint(code));
    EncodeString(2, jsoninfo);
  }

  lemma StringsSizeOf1(a: Bytes)
    ensures StringsSize([a]) == if a == [] then 0 else 1 + StringSize(a)
  {
    assert [a][1..] == [];
  }

  lemma StringsSizeOf2(a: Bytes, b: Bytes)
    ensures StringsSize([a, b])
         == (if a == [] then 0 else 1 + StringSize(a)) + (if b == [] then 0 else 1 + StringSize(b))
  {
    assert [a, b][1..] == [b];
    StringsSizeOf1(b);
  }

  // ---------- One turn of the parse loop ----------

  lemma ParseNumber64(sc: Schema, m: Message, bs: Bytes)
    requires |m.strs| == sc.strings && sc.bits == 64 && ReadTag(bs).tag == 8
    ensures Parse(sc, m, bs) == match Wire.ReadVarint64(ReadTag(bs).rest)
                                case Bad => Failed
                                case Read(v, rest) => Parse(sc, m.(num := FromVarint(v, 64)), rest)
  {}

  lemma ParseNumber32(sc: Schema, m: Message, bs: Bytes)
    requires |m.strs| == sc.strings && sc.bits == 32 && ReadTag(bs).tag == 8
    ensures Parse(sc, m, bs) == match Wire.ReadVarint32(ReadTag(bs).rest)
                                case Bad => Failed
                                case Read(v, rest) => Parse(sc, m.(num := FromVarint(v, 32)), rest)
  {
    match RawVarint(ReadTag(bs).rest, MAX_VARINT_BYTES)
    case Bad =>
    case Read(v, _) =>
      LowBits(v);
  }

  /** The low 32 bits of the low 64 bits are the low 32 bits. */
  lemma LowBits(v: nat)
    ensures FromVarint(v % U64, 32) == FromVarint(v % U32, 32)
  {
    var high, low := v / U64, v % U64;
    var k, b := low / U32, low % U32;
    assert v == (high * U32 + k) * U32 + b;
    assert v % U32 == b;
  }

  lemma ApplyString(sc: Schema, m: Message, number: nat, s: Bytes)
    requires |m.strs| == sc.strings && 2 <= number < 2 + sc.strings
    ensures Apply(sc, m, BytesRecord(number, s))
         == if ValidUtf8(s) then Some(m.(strs := m.strs[number - 2 := s])) else None
  {}

  lemma ParseString(sc: Schema, m: Message, bs: Bytes, number: nat)
    requires |m.strs| == sc.strings && 2 <= number < 2 + sc.strings && ReadTag(bs).tag == Tag(number, 2)
    ensures Parse(sc, m, bs) == match ReadBytes(ReadTag(bs).rest)
                                case Bad => Failed
                                case Read(s, rest) =>
                                  if ValidUtf8(s) then Parse(sc, m.(strs := m.strs[number - 2 := s]), rest) else Failed
  {
    var t := ReadTag(bs);
    SkipBytes(number, t.rest, RECURSION_LIMIT);
    match ReadBytes(t.rest)
    case Bad =>
    case Read(s, rest) =>
      ApplyString(sc, m, number, s);
      assert Wire.SkipField(t.tag, t.rest, RECURSION_LIMIT) == Read(BytesRecord(number, s), rest);
  }

  lemma ParseUnknown(sc: Schema, m: Message, bs: Bytes)
    requires |m.strs| == sc.strings
    requires var tag := ReadTag(bs).tag;
             tag != 0 && tag != 8 && !(tag % 8 == 2 && 2 <= tag / 8 < 2 + sc.strings)
    ensures Parse(sc, m, bs) == match Wire.SkipField(ReadTag(bs).tag, ReadTag(bs).rest, RECURSION_LIMIT)
                                case Bad => Failed
                                case Read(r, rest) => Parse(sc, m.(unknown := m.unknown + [r]), rest)
  {
    var t := ReadTag(bs);
    if Wire.SkipField(t.tag, t.rest, RECURSION_LIMIT).Read? {
      SkipFieldWellFormed(t.tag, t.rest, RECURSION_LIMIT);
    }
  }

  // ---------- The calls that every parse loop makes ----------

  /** ReadPrimitive<int64, TYPE_INT64> */
  method ReadNumber64(input: CodedInputStream, ghost sc: Schema, ghost m: Message, ghost bs: Bytes)
    returns (n: Option<int>)
    requires |m.strs| == sc.strings && sc.bits == 64 && ReadTag(bs).tag == 8 && input.rest == ReadTag(bs).rest
    modifies input`rest
    ensures match n
            case None => Parse(sc, m, bs) == Failed
            case Some(v) => |input.rest| < |bs| && Parse(sc, m, bs) == Parse(sc, m.(num := v), input.rest)
  {
    ParseNumber64(sc, m, bs);
    var v := input.ReadVarint64();
    n := if v.Some? then Some(FromVarint(v.value, 64)) else None;
  }

  /** ReadPrimitive<int32, TYPE_INT32> */
  method ReadNumber32(input: CodedInputStream, ghost sc: Schema, ghost m: Message, ghost bs: Bytes)
    returns (n: Option<int>)
    requires |m.strs| == sc.strings && sc.bits == 32 && ReadTag(bs).tag == 8 && input.rest == ReadTag(bs).rest
    modifies input`rest
    ensures match n
            case None => Parse(sc, m, bs) == Failed
            case Some(v) => |input.rest| < |bs| && Parse(sc, m, bs) == Parse(sc, m.(num := v), input.rest)
  {
    ParseNumber32(sc, m, bs);
    var v := input.ReadVarint32();
    n := if v.Some? then Some(FromVarint(v.value, 32)) else None;
  }

  method ReadString(input: CodedInputStream, number: nat, ghost sc: Schema, ghost m: Message, ghost bs: Bytes)
    returns (s: Option<Bytes>)
    requires |m.strs| == sc.strings && 2 <= number < 2 + sc.strings
    requires ReadTag(bs).tag == Tag(number, 2) && input.rest == ReadTag(bs).rest
    modifies input`rest
    ensures match s
            case None => Parse(sc, m, bs) == Failed
            case Some(v) => |input.rest| < |bs| &&
                            Parse(sc, m, bs) == if ValidUtf8(v)
                                                then Parse(sc, m.(strs := m.strs[number - 2 := v]), input.rest)
                                                else Failed
  {
    ParseString(sc, m, bs, number);
    s := input.ReadString();
  }

  method ReadUnknown(input: CodedInputStream, tag: nat, ghost sc: Schema, ghost m: Message, ghost bs: Bytes)
    returns (field: Option<Record>)
    requires |m.strs| == sc.strings && tag == ReadTag(bs).tag && input.rest == ReadTag(bs).rest
    requires tag != 0 && tag != 8 && !(tag % 8 == 2 && 2 <= tag / 8 < 2 + sc.strings)
    modifies input`rest
    ensures match field
            case None => Parse(sc, m, bs) == Failed
            case Some(r) => |input.rest| < |bs| &&
                            Parse(sc, m, bs) == Parse(sc, m.(unknown := m.unknown + [r]), input.rest)
  {
    ParseUnknown(sc, m, bs);
    field := input.SkipField(tag);
  }

  // ---------- The statements that every serializer repeats ----------

  lemma Regroup(before: Bytes, x: Bytes, y: Bytes, z: Bytes)
    ensures ((before + x) + y) + z == before + (x + y + z)
  {}

  lemma Regroup4(before: Bytes, x: Bytes, y: Bytes, z: Bytes, u: Bytes)
    ensures (((before + x) + y) + z) + u == before + (x + y + z + u)
  {}

  method WriteNumber(num: int, output: CodedOutputStream)
    requires ToVarint(num) >= 0
    modifies output
    ensures output.bytes == old(output.bytes) + NumberPart(num)
  {
    if num != 0 {
      EncodeInt(1, ToVarint(num));
      output.WriteVarint(Tag(1, 0));
      output.WriteVarint(ToVarint(num));
    }
  }

  method WriteString(number: nat, s: Bytes, output: CodedOutputStream)
    modifies output
    ensures output.bytes == old(output.bytes) + StringPart(number, s)
  {
    if |s| > 0 {
      EncodeString(number, s);
      var tag := Tag(number, 2);
      output.WriteVarint(tag);
      output.WriteVarint(|s|);
      output.WriteRaw(s);
      Regroup(old(output.bytes), Varint(tag), Varint(|s|), s);
    }
  }

  method WriteUnknown(unknown: seq<Record>, output: CodedOutputStream)
    modifies output
    ensures output.bytes == old(output.bytes) + EncodeAll(unknown)
  {
    if unknown != [] {
      output.WriteRaw(EncodeAll(unknown));
    }
  }

  method WriteNumberToArray(num: int, target: array<Byte>, at: nat) returns (end: nat)
    requires ToVarint(num) >= 0 && at + |NumberPart(num)| <= target.Length
    modifies target
    ensures end == at + |NumberPart(num)|
    ensures target[..] == Splice(old(target[..]), at, NumberPart(num))
  {
    end := at;
    if num != 0 {
      var v := ToVarint(num);
      EncodeInt(1, v);
      ghost var t0 := target[..];
      end := WriteVarintToArray(Tag(1, 0), target, at);
      end := WriteVarintToArray(v, target, end);
      SpliceTwice(t0, at, Varint(Tag(1, 0)), Varint(v));
    }
  }

  method WriteStringToArray(number: nat, s: Bytes, target: array<Byte>, at: nat) returns (end: nat)
    requires at + |StringPart(number, s)| <= target.Length
    modifies target
    ensures end == at + |StringPart(number, s)|
    ensures target[..] == Splice(old(target[..]), at, StringPart(number, s))
  {
    end := at;
    if |s| > 0 {
      EncodeString(number, s);
      end := WriteTaggedToArray(Tag(number, 2), s, target, at);
    }
  }

  method WriteTaggedToArray(tag: nat, s: Bytes, target: array<Byte>, at: nat) returns (end: nat)
    requires at + |Varint(tag) + Varint(|s|) + s| <= target.Length
    modifies target
    ensures end == at + |Varint(tag) + Varint(|s|) + s|
    ensures target[..] == Splice(old(target[..]), at, Varint(tag) + Varint(|s|) + s)
  {
    ghost var t0 := target[..];
    end := WriteVarintToArray(tag, target, at);
    end := WriteVarintToArray(|s|, target, end);
    end := CopyTo(s, target, end);
    SpliceTwice(t0, at, Varint(tag), Varint(|s|));
    SpliceTwice(t0, at, Varint(tag) + Varint(|s|), s);
  }

  /** Fields 1 and 2, which both messages start with. */
  method WriteHeadToArray(num: int, s: Bytes, target: array<Byte>, at: nat) returns (end: nat)
    requires ToVarint(num) >= 0 && at + |NumberPart(num) + StringPart(2, s)| <= target.Length
    modifies target
    ensures end == at + |NumberPart(num) + StringPart(2, s)|
    ensures target[..] == Splice(old(target[..]), at, NumberPart(num) + StringPart(2, s))
  {
    ghost var t0 := target[..];
    end := WriteNumberToArray(num, target, at);
    end := WriteStringToArray(2, s, target, end);
    SpliceTwice(t0, at, NumberPart(num), StringPart(2, s));
  }

  method WriteUnknownToArray(unknown: seq<Record>, target: array<Byte>, at: nat) returns (end: nat)
    requires at + |EncodeAll(unknown)| <= target.Length
    modifies target
    ensures end == at + |EncodeAll(unknown)|
    ensures target[..] == Splice(old(target[..]), at, EncodeAll(unknown))
  {
    end := at;
    if unknown != [] {
      end := CopyTo(EncodeAll(unknown), target, end);
    }
  }

  /** static_cast<int> of a size_t */
  function ToCachedSize(size: nat): int { FromVarint(size, 32) }

  // ---------- DirInfo ----------

  class DirInfo {
    var dirid: int
    var name: Bytes
    var uuid: Bytes
    var unknown: seq<Record>   // _internal_metadata_.unknown_fields()
    var cachedSize: int

    ghost function View(): Message
      reads this
    {
      Message(dirid, [name, uuid], unknown)
    }

    /** The members have the C++ types int64 and std::string, and strings stay below the length limit. */
    ghost predicate Valid()
      reads this
    {
      MessageCodec.Valid(DIR_INFO, View())
    }

    constructor ()
      ensures View() == Default(DIR_INFO) && cachedSize == 0
    {
      dirid, name, uuid, unknown, cachedSize := 0, [], [], [], 0;
    }

    method Clear()
      modifies this
      ensures View() == Default(DIR_INFO) && cachedSize == old(cachedSize)
    {
      name := [];
      uuid := [];
      dirid := 0;
      unknown := [];
    }

    /** string name = 2; */
    method TurnName(input: CodedInputStream, ghost bs: Bytes) returns (ok: bool)
      requires ReadTag(bs).tag == Tag(2, 2) && input.rest == ReadTag(bs).rest
      modifies this`name, input`rest
      ensures if ok then
                |input.rest| < |bs| && Parse(DIR_INFO, old(View()), bs) == Parse(DIR_INFO, View(), input.rest)
              else
                Parse(DIR_INFO, old(View()), bs) == Failed
    {
      ghost var m := View();
      var s := ReadString(input, 2, DIR_INFO, m, bs);
      if s == None {
        return false;
      }
      name := s.value;
      assert View().strs == m.strs[0 := s.value];
      return ValidUtf8(name);
    }

    /** string uuid = 3; */
    method TurnUuid(input: CodedInputStream, ghost bs: Bytes) returns (ok: bool)
      requires ReadTag(bs).tag == Tag(3, 2) && input.rest == ReadTag(bs).rest
      modifies this`uuid, input`rest
      ensures if ok then
                |input.rest| < |bs| && Parse(DIR_INFO, old(View()), bs) == Parse(DIR_INFO, View(), input.rest)
              else
                Parse(DIR_INFO, old(View()), bs) == Failed
    {
      ghost var m := View();
      var s := ReadString(input, 3, DIR_INFO, m, bs);
      if s == None {
        return false;
      }
      uuid := s.value;
      assert View().strs == m.strs[1 := s.value];
      return ValidUtf8(uuid);
    }

    /** One turn of the parse loop: None to go on, or the result of the parser. */
    method Turn(input: CodedInputStream) returns (stop: Option<bool>)
      modifies this, input
      ensures cachedSize == old(cachedSize)
      ensures match stop
              case None => |input.rest| < |old(input.rest)| &&
                           Parse(DIR_INFO, old(View()), old(input.rest)) == Parse(DIR_INFO, View(), input.rest)
              case Some(true) => Parse(DIR_INFO, old(View()), old(input.rest)) == Parsed(View(), input.atEnd)
              case Some(false) => Parse(DIR_INFO, old(View()), old(input.rest)) == Failed
    {
      ghost var m, bs := View(), input.rest;
      var tag, known := input.ReadTagWithCutoffNoLastTag(127);
      var number := tag / 8;
      if known && number == 1 && tag % 256 == 8 {
        assert tag == 8;
        var n := ReadNumber64(input, DIR_INFO, m, bs);
        if n == None {
          return Some(false);
        }
        dirid := n.value;
      } else if known && number == 2 && tag % 256 == 18 {
        assert tag == Tag(2, 2);
        var ok := TurnName(input, bs);
        if !ok {
          return Some(false);
        }
      } else if known && number == 3 && tag % 256 == 26 {
        assert tag == Tag(3, 2);
        var ok := TurnUuid(input, bs);
        if !ok {
          return Some(false);
        }
      } else if tag == 0 {
        return Some(true);
      } else {
        var field := ReadUnknown(input, tag, DIR_INFO, m, bs);
        if field == None {
          return Some(false);
        }
        unknown := unknown + [field.value];
      }
      return None;
    }

    method MergePartialFromCodedStream(input: CodedInputStream) returns (ok: bool)
      modifies this, input
      ensures match Parse(DIR_INFO, old(View()), old(input.rest))
              case Failed => !ok
              case Parsed(m, atEnd) => ok && View() == m && input.atEnd == atEnd
      ensures cachedSize == old(cachedSize)
    {
      ghost var result := Parse(DIR_INFO, View(), input.rest);
      while true
        invariant result == Parse(DIR_INFO, View(), input.rest)
        invariant cachedSize == old(cachedSize)
        decreases |input.rest|
      {
        var stop := Turn(input);
        if stop.Some? {
          return stop.value;
        }
      }
    }

    method SerializeWithCachedSizes(output: CodedOutputStream)
      requires Valid()
      modifies output
      ensures ToVarint(dirid) >= 0
      ensures output.bytes == old(output.bytes) + Serialize(View())
    {
      DirInfoParts(View());
      WriteNumber(dirid, output);
      WriteString(2, name, output);
      WriteString(3, uuid, output);
      WriteUnknown(unknown, output);
      Regroup4(old(output.bytes), NumberPart(dirid), StringPart(2, name), StringPart(3, uuid), EncodeAll(unknown));
    }

    /** Writes into the buffer from position `at` on, and returns the position after the last byte. */
    method InternalSerializeWithCachedSizesToArray(target: array<Byte>, at: nat) returns (end: nat)
      requires Valid() && ToVarint(dirid) >= 0 && at + |Serialize(View())| <= target.Length
      modifies target
      ensures end == at + |Serialize(View())|
      ensures target[..] == Splice(old(target[..]), at, Serialize(View()))
    {
      ghost var parts := NumberPart(dirid) + StringPart(2, name) + StringPart(3, uuid) + EncodeAll(unknown);
      assert parts == Serialize(View()) by { DirInfoParts(View()); }
      ghost var t0, done := target[..], NumberPart(dirid) + StringPart(2, name);
      end := WriteHeadToArray(dirid, name, target, at);
      end := WriteStringToArray(3, uuid, target, end);
      SpliceTwice(t0, at, done, StringPart(3, uuid));
      done := done + StringPart(3, uuid);
      end := WriteUnknownToArray(unknown, target, end);
      SpliceTwice(t0, at, done, EncodeAll(unknown));
    }

    method ByteSizeLong() returns (total: nat)
      requires Valid()
      modifies this`cachedSize
      ensures ToVarint(dirid) >= 0 && total == |Serialize(View())|
      ensures cachedSize == ToCachedSize(total)
    {
      ByteSizeIsLength(DIR_INFO, View());
      StringsSizeOf2(name, uuid);
      total := 0;
      if unknown != [] {
        total := total + RecordsSize(unknown);
      }
      if |name| > 0 {
        total := total + 1 + StringSize(name);
      }
      if |uuid| > 0 {
        total := total + 1 + StringSize(uuid);
      }
      if dirid != 0 {
        total := total + 1 + VarintSize(ToVarint(dirid));
      }
      cachedSize := ToCachedSize(total);
    }

    method MergeFrom(from: DirInfo)
      requires from != this   // GOOGLE_DCHECK_NE(&from, this)
      modifies this
      ensures View() == Merge(old(View()), from.View()) && cachedSize == old(cachedSize)
    {
      unknown := unknown + from.unknown;
      if |from.name| > 0 {
        name := from.name;
      }
      if |from.uuid| > 0 {
        uuid := from.uuid;
      }
      if from.dirid != 0 {
        dirid := from.dirid;
      }
      assert View().strs == Merge(old(View()), from.View()).strs;
    }

    /** Copying makes an equal message, also when a message is copied from itself. */
    method CopyFrom(from: DirInfo)
      modifies this
      ensures View() == old(from.View()) && cachedSize == old(cachedSize)
    {
      if from == this {
        return;
      }
      Clear();
      MergeFrom(from);
      MergeDefault(DIR_INFO, from.View());
    }
  }

  // ---------- DirRet ----------

  class DirRet {
    var code: int
    var jsoninfo: Bytes
    var unknown: seq<Record>   // _internal_metadata_.unknown_fields()
    var cachedSize: int

    ghost function View(): Message
      reads this
    {
      Message(code, [jsoninfo], unknown)
    }

    /** The members have the C++ types int32 and std::string, and strings stay below the length limit. */
    ghost predicate Valid()
      reads this
    {
      MessageCodec.Valid(DIR_RET, View())
    }

    constructor ()
      ensures View() == Default(DIR_RET) && cachedSize == 0
    {
      code, jsoninfo, unknown, cachedSize := 0, [], [], 0;
    }

    method Clear()
      modifies this
      ensures View() == Default(DIR_RET) && cachedSize == old(cachedSize)
    {
      jsoninfo := [];
      code := 0;
      unknown := [];
    }

    /** One turn of the parse loop: None to go on, or the result of the parser. */
    method Turn(input: CodedInputStream) returns (stop: Option<bool>)
      modifies this, input
      ensures cachedSize == old(cachedSize)
      ensures match stop
              case None => |input.rest| < |old(input.rest)| &&
                           Parse(DIR_RET, old(View()), old(input.rest)) == Parse(DIR_RET, View(), input.rest)
              case Some(true) => Parse(DIR_RET, old(View()), old(input.rest)) == Parsed(View(), input.atEnd)
              case Some(false) => Parse(DIR_RET, old(View()), old(input.rest)) == Failed
    {
      ghost var m, bs := View(), input.rest;
      var tag, known := input.ReadTagWithCutoffNoLastTag(127);
      var number := tag / 8;
      if known && number == 1 && tag % 256 == 8 {
        assert tag == 8;
        var n := ReadNumber32(input, DIR_RET, m, bs);
        if n == None {
          return Some(false);
        }
        code := n.value;
      } else if known && number == 2 && tag % 256 == 18 {
        assert tag == Tag(2, 2);
        var s := ReadString(input, 2, DIR_RET, m, bs);
        if s == None {
          return Some(false);
        }
        jsoninfo := s.value;
        if !ValidUtf8(jsoninfo) {
          return Some(false);
        }
        assert View().strs == m.strs[0 := s.value];
      } else if tag == 0 {
        return Some(true);
      } else {
        var field := ReadUnknown(input, tag, DIR_RET, m, bs);
        if field == None {
          return Some(false);
        }
        unknown := unknown + [field.value];
      }
      return None;
    }

    method MergePartialFromCodedStream(input: CodedInputStream) returns (ok: bool)
      modifies this, input
      ensures match Parse(DIR_RET, old(View()), old(input.rest))
              case Failed => !ok
              case Parsed(m, atEnd) => ok && View() == m && input.atEnd == atEnd
      ensures cachedSize == old(cachedSize)
    {
      ghost var result := Parse(DIR_RET, View(), input.rest);
      while true
        invariant result == Parse(DIR_RET, View(), input.rest)
        invariant cachedSize == old(cachedSize)
        decreases |input.rest|
      {
        var stop := Turn(input);
        if stop.Some? {
          return stop.value;
        }
      }
    }

    method SerializeWithCachedSizes(output: CodedOutputStream)
      requires Valid()
      modifies output
      ensures ToVarint(code) >= 0
      ensures output.bytes == old(output.bytes) + Serialize(View())
    {
      DirRetParts(View());
      WriteNumber(code, output);
      WriteString(2, jsoninfo, output);
      WriteUnknown(unknown, output);
      Regroup(old(output.bytes), NumberPart(code), StringPart(2, jsoninfo), EncodeAll(unknown));
    }

    /** Writes into the buffer from position `at` on, and returns the position after the last byte. */
    method InternalSerializeWithCachedSizesToArray(target: array<Byte>, at: nat) returns (end: nat)
      requires Valid() && ToVarint(code) >= 0 && at + |Serialize(View())| <= target.Length
      modifies target
      ensures end == at + |Serialize(View())|
      ensures target[..] == Splice(old(target[..]), at, Serialize(View()))
    {
      ghost var parts := NumberPart(code) + StringPart(2, jsoninfo) + EncodeAll(unknown);
      assert parts == Serialize(View()) by { DirRetParts(View()); }
      ghost var t0, done := target[..], NumberPart(code) + StringPart(2, jsoninfo);
      end := WriteHeadToArray(code, jsoninfo, target, at);
      end := WriteUnknownToArray(unknown, target, end);
      SpliceTwice(t0, at, done, EncodeAll(unknown));
    }

    method ByteSizeLong() returns (total: nat)
      requires Valid()
      modifies this`cachedSize
      ensures ToVarint(code) >= 0 && total == |Serialize(View())|
      ensures cachedSize == ToCachedSize(total)
    {
      ByteSizeIsLength(DIR_RET, View());
      StringsSizeOf1(jsoninfo);
      total := 0;
      if unknown != [] {
        total := total + RecordsSize(unknown);
      }
      if |jsoninfo| > 0 {
        total := total + 1 + StringSize(jsoninfo);
      }
      if code != 0 {
        total := total + 1 + VarintSize(ToVarint(code));
      }
      cachedSize := ToCachedSize(total);
    }

    method MergeFrom(from: DirRet)
      requires from != this   // GOOGLE_DCHECK_NE(&from, this)
      modifies this
      ensures View() == Merge(old(View()), from.View()) && cachedSize == old(cachedSize)
    {
      unknown := unknown + from.unknown;
      if |from.jsoninfo| > 0 {
        jsoninfo := from.jsoninfo;
      }
      if from.code != 0 {
        code := from.code;
      }
      assert View().strs == Merge(old(View()), from.View()).strs;
    }

    /** Copying makes an equal message, also when a message is copied from itself. */
    method CopyFrom(from: DirRet)
      modifies this
      ensures View() == old(from.View()) && cachedSize == old(cachedSize)
    {
      if from == this {
        return;
      }
      Clear();
      MergeFrom(from);
      MergeDefault(DIR_RET, from.View());
    }
  }

}
