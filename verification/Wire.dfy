/**
 The Protocol Buffers wire format: the primitives of WireFormatLite, CodedInputStream and WireFormat that the
 generated message classes call.

 Sources: the Protocol Buffers Encoding specification, sections "Base 128 Varints", "Message Structure",
 "Length-Delimited Records" and "Groups".
 */
module Wire {
  import opened Options

  type Byte = b: int | 0 <= b < 256

  type Bytes = seq<Byte>

  const U32: nat := 0x1_0000_0000
  const U64: nat := 0x1_0000_0000_0000_0000

  /** A parser either rejects its input or returns a value and the bytes it has not consumed. */
  datatype Read<+T> = Bad | Read(value: T, rest: Bytes)

  // ---------- Buffers ----------

  /** The buffer t after x has been written at position `at`. */
  function Splice(t: Bytes, at: nat, x: Bytes): (r: Bytes)
    requires at + |x| <= |t|
    ensures |r| == |t|
    decreases |x|
  {
    if x == [] then t else Splice(t[at := x[0]], at + 1, x[1..])
  }

  lemma {:induction false} SpliceMeaning(t: Bytes, at: nat, x: Bytes)
    requires at + |x| <= |t|
    ensures Splice(t, at, x) == t[..at] + x + t[at + |x|..]
    decreases |x|
  {
    if x == [] {
    } else {
      SpliceMeaning(t[at := x[0]], at + 1, x[1..]);
    }
  }

  /** Two writes in a row are one write. */
  lemma {:induction false} SpliceTwice(t: Bytes, at: nat, x: Bytes, y: Bytes)
    requires at + |x| + |y| <= |t|
    ensures Splice(Splice(t, at, x), at + |x|, y) == Splice(t, at, x + y)
    decreases |x|
  {
    if x == [] {
      assert x + y == y;
    } else {
      assert (x + y)[1..] == x[1..] + y;
      SpliceTwice(t[at := x[0]], at + 1, x[1..], y);
    }
  }

  /** memcpy into a caller's buffer; returns the position after the last byte written. */
  method CopyTo(data: Bytes, target: array<Byte>, at: nat) returns (end: nat)
    requires at + |data| <= target.Length
    modifies target
    ensures end == at + |data| && target[..] == Splice(old(target[..]), at, data)
  {
    end := at;
    ghost var t0 := target[..];
    while end < at + |data|
      invariant at <= end <= at + |data|
      invariant target[..] == Splice(t0, at, data[..end - at])
    {
      SpliceTwice(t0, at, data[..end - at], [data[end - at]]);
      assert data[..end - at + 1] == data[..end - at] + [data[end - at]];
      target[end] := data[end - at];
      end := end + 1;
    }
    assert data[..end - at] == data;
  }

  // ---------- Base 128 varints ----------

  function Varint(v: nat): Bytes {
    if v < 128 then [v] else [v % 128 + 128] + Varint(v / 128)
  }

  /** Reads a varint of at most `max` bytes. */
  function RawVarint(bs: Bytes, max: nat): (r: Read<nat>)
    ensures r.Read? ==> |r.rest| < |bs|
    decreases |bs|
  {
    if max == 0 || bs == [] then Bad
    else if bs[0] < 128 then Read(bs[0], bs[1..])
    else match RawVarint(bs[1..], max - 1)
      case Bad => Bad
      case Read(v, rest) => Read(bs[0] - 128 + 128 * v, rest)
  }

  const MAX_VARINT_BYTES: nat := 10

  function ReadVarint64(bs: Bytes): (r: Read<nat>)
    ensures r.Read? ==> |r.rest| < |bs| && r.value < U64
  {
    match RawVarint(bs, MAX_VARINT_BYTES)
    case Bad => Bad
    case Read(v, rest) => Read(v % U64, rest)
  }

  /** Reads up to ten bytes and keeps the low 32 bits. */
  function ReadVarint32(bs: Bytes): (r: Read<nat>)
    ensures r.Read? ==> |r.rest| < |bs| && r.value < U32
  {
    match RawVarint(bs, MAX_VARINT_BYTES)
    case Bad => Bad
    case Read(v, rest) => Read(v % U32, rest)
  }

  /** The number of bytes of a varint, seven bits to the byte. */
  function VarintSize(v: nat): nat {
    if v < 0x80 then 1
    else if v < 0x4000 then 2
    else if v < 0x20_0000 then 3
    else if v < 0x1000_0000 then 4
    else if v < 0x8_0000_0000 then 5
    else if v < 0x400_0000_0000 then 6
    else if v < 0x2_0000_0000_0000 then 7
    else if v < 0x100_0000_0000_0000 then 8
    else if v < 0x8000_0000_0000_0000 then 9
    else 10
  }

  lemma {:induction false} VarintLength(v: nat)
    requires v < U64
    ensures |Varint(v)| == VarintSize(v) <= MAX_VARINT_BYTES
  {
    if v < 128 {
    } else {
      VarintLength(v / 128);
    }
  }

  lemma {:induction false} RawVarintRoundTrip(v: nat, tail: Bytes, max: nat)
    requires |Varint(v)| <= max
    ensures RawVarint(Varint(v) + tail, max) == Read(v, tail)
  {
    if v < 128 {
      assert (Varint(v) + tail)[1..] == tail;
    } else {
      assert (Varint(v) + tail)[1..] == Varint(v / 128) + tail;
      RawVarintRoundTrip(v / 128, tail, max - 1);
    }
  }

  lemma VarintRoundTrip(v: nat, tail: Bytes)
    requires v < U64
    ensures ReadVarint64(Varint(v) + tail) == Read(v, tail)
    ensures ReadVarint32(Varint(v) + tail) == Read(v % U32, tail)
  {
    VarintLength(v);
    RawVarintRoundTrip(v, tail, MAX_VARINT_BYTES);
  }

  /** Seven bits to the byte, the least significant group first. */
  function Groups(bs: Bytes): nat {
    if bs == [] then 0 else bs[0] % 128 + 128 * Groups(bs[1..])
  }

  /** What any varint means, shortest or not: all bytes but the last have the high bit. */
  lemma {:induction false} RawVarintMeaning(bs: Bytes, tail: Bytes, max: nat)
    requires 1 <= |bs| <= max && bs[|bs| - 1] < 128 && forall i | 0 <= i < |bs| - 1 :: bs[i] >= 128
    ensures RawVarint(bs + tail, max) == Read(Groups(bs), tail)
    decreases |bs|
  {
    var none: Bytes := [];
    if |bs| == 1 {
      assert (bs + tail)[1..] == tail && bs[1..] == none && Groups(none) == 0;
    } else {
      assert (bs + tail)[1..] == bs[1..] + tail;
      RawVarintMeaning(bs[1..], tail, max - 1);
    }
  }

  /** A varint that goes on for too long, or past the end of the input, is rejected. */
  lemma {:induction false} RawVarintFails(bs: Bytes, max: nat)
    requires forall i | 0 <= i < |bs| && i < max :: bs[i] >= 128
    ensures RawVarint(bs, max) == Bad
    decreases |bs|
  {
    if max == 0 || bs == [] {
    } else {
      RawVarintFails(bs[1..], max - 1);
    }
  }

  // ---------- Fixed-width values ----------

  function LittleEndian(v: nat, n: nat): (bs: Bytes)
    ensures |bs| == n
    decreases n, v
  {
    if n == 0 then [] else [v % 256] + LittleEndian(v / 256, n - 1)
  }

  function Pow256(n: nat): (p: nat)
    ensures p >= 1
  {
    if n == 0 then 1 else 256 * Pow256(n - 1)
  }

  function ReadLittleEndian(bs: Bytes, n: nat): (r: Read<nat>)
    ensures r.Read? ==> |r.rest| == |bs| - n && r.value < Pow256(n)
    decreases |bs|
  {
    if n == 0 then Read(0, bs)
    else if bs == [] then Bad
    else match ReadLittleEndian(bs[1..], n - 1)
      case Bad => Bad
      case Read(v, rest) => Read(bs[0] + 256 * v, rest)
  }

  lemma {:induction false} LittleEndianRoundTrip(v: nat, n: nat, tail: Bytes)
    requires v < Pow256(n)
    ensures ReadLittleEndian(LittleEndian(v, n) + tail, n) == Read(v, tail)
    decreases n
  {
    if n == 0 {
      assert LittleEndian(v, n) + tail == tail;
    } else {
      assert (LittleEndian(v, n) + tail)[1..] == LittleEndian(v / 256, n - 1) + tail;
      LittleEndianRoundTrip(v / 256, n - 1, tail);
    }
  }

  /** The least significant byte comes first. */
  lemma {:induction false} LittleEndianAt(v: nat, n: nat, i: nat)
    requires i < n
    ensures LittleEndian(v, n)[i] == v / Pow256(i) % 256
    decreases n
  {
    if i == 0 {
      assert Pow256(0) == 1;
    } else {
      LittleEndianAt(v / 256, n - 1, i - 1);
      DivideTwice(v, Pow256(i - 1));
    }
  }

  lemma DivideTwice(v: nat, d: nat)
    requires d >= 1
    ensures v / 256 / d == v / (256 * d)
  {
    var q, r := v / (256 * d), v % (256 * d);
    assert v == (d * q) * 256 + r;
    assert v / 256 == d * q + r / 256;
    assert 0 <= r / 256 < d;
    QuotientIs(v / 256, d, q, r / 256);
  }

  lemma QuotientIs(a: nat, d: nat, q: nat, r: nat)
    requires d >= 1 && r < d && a == d * q + r
    ensures a / d == q
  {
    var e := a / d;
    assert a == d * e + a % d;
    if e < q {
      NextMultiple(d, e, q);
    } else if e > q {
      NextMultiple(d, q, e);
    }
  }

  lemma {:induction false} NextMultiple(d: nat, x: nat, y: nat)
    requires x < y
    ensures d * x + d <= d * y
    decreases y
  {
    assert d * y == d * (y - 1) + d;
    if y == x + 1 {
    } else {
      NextMultiple(d, x, y - 1);
    }
  }

  // ---------- Length-delimited values ----------

  const MAX_LENGTH: nat := 0x8000_0000   // lengths are held in a signed 32-bit int

  function ReadBytes(bs: Bytes): (r: Read<Bytes>)
    ensures r.Read? ==> |r.rest| < |bs| && |r.value| < MAX_LENGTH
  {
    match ReadVarint32(bs)
    case Bad => Bad
    case Read(n, rest) => if n >= MAX_LENGTH || n > |rest| then Bad else Read(rest[..n], rest[n..])
  }

  function LengthDelimited(data: Bytes): Bytes { Varint(|data|) + data }

  lemma BytesRoundTrip(data: Bytes, tail: Bytes)
    requires |data| < MAX_LENGTH
    ensures ReadBytes(LengthDelimited(data) + tail) == Read(data, tail)
  {
    VarintRoundTrip(|data|, data + tail);
    assert LengthDelimited(data) + tail == Varint(|data|) + (data + tail);
  }

  // ---------- Tags ----------

  function Tag(number: nat, wireType: nat): nat { number * 8 + wireType }

  /** The tag is 0 at the end of the input (atEnd), and also if the tag cannot be read or is zero. */
  datatype TagRead = TagRead(tag: nat, rest: Bytes, atEnd: bool)

  function ReadTag(bs: Bytes): (r: TagRead)
    ensures r.tag != 0 ==> |r.rest| < |bs|
    ensures r.tag < U32
  {
    if bs == [] then TagRead(0, bs, true)
    else match ReadVarint32(bs)
      case Bad => TagRead(0, bs, false)
      case Read(tag, rest) => TagRead(tag, rest, false)
  }

  lemma TagRoundTrip(tag: nat, tail: Bytes)
    requires tag < U32
    ensures ReadTag(Varint(tag) + tail) == TagRead(tag, tail, false)
  {
    VarintRoundTrip(tag, tail);
  }

  // ---------- Records ----------

  /** One field on the wire; also the element of an UnknownFieldSet. */
  datatype Record =
    | VarintRecord(number: nat, value: nat)
    | Fixed64Record(number: nat, value: nat)
    | BytesRecord(number: nat, data: Bytes)
    | GroupRecord(number: nat, fields: seq<Record>)
    | Fixed32Record(number: nat, value: nat)

  const END_GROUP: nat := 4

  function WireType(r: Record): nat {
    match r
    case VarintRecord(_, _) => 0
    case Fixed64Record(_, _) => 1
    case BytesRecord(_, _) => 2
    case GroupRecord(_, _) => 3
    case Fixed32Record(_, _) => 5
  }

  function TagOf(r: Record): nat { Tag(r.number, WireType(r)) }

  /** What follows the tag. */
  function Payload(r: Record): Bytes
    decreases r, 0
  {
    match r
    case VarintRecord(_, v) => Varint(v)
    case Fixed64Record(_, v) => LittleEndian(v, 8)
    case BytesRecord(_, data) => LengthDelimited(data)
    case GroupRecord(number, fields) => EncodeAll(fields) + Varint(Tag(number, END_GROUP))
    case Fixed32Record(_, v) => LittleEndian(v, 4)
  }

  function Encode(r: Record): Bytes
    decreases r, 1
  {
    Varint(TagOf(r)) + Payload(r)
  }

  function EncodeAll(rs: seq<Record>): Bytes
    decreases rs, 2
  {
    if rs == [] then [] else Encode(rs[0]) + EncodeAll(rs[1..])
  }

  /** The tag of the first record comes first. */
  lemma EncodeAllSplit(rs: seq<Record>, tail: Bytes)
    requires rs != []
    ensures EncodeAll(rs) + tail == Varint(TagOf(rs[0])) + (Payload(rs[0]) + (EncodeAll(rs[1..]) + tail))
  {}

  const RECURSION_LIMIT: nat := 100

  /**
   WireFormat::SkipField with an UnknownFieldSet: reads the rest of the field whose tag has been read.  depth is
   the number of groups that may still be opened.
   */
  function SkipField(tag: nat, bs: Bytes, depth: nat): (r: Read<Record>)
    ensures r.Read? ==> |r.rest| <= |bs|
    decreases |bs|, depth, 0
  {
    var number := tag / 8;
    if number == 0 then Bad
    else match tag % 8
      case 0 => (match ReadVarint64(bs) case Bad => Bad case Read(v, rest) => Read(VarintRecord(number, v), rest))
      case 1 =>
        (match ReadLittleEndian(bs, 8) case Bad => Bad case Read(v, rest) => Read(Fixed64Record(number, v), rest))
      case 2 => (match ReadBytes(bs) case Bad => Bad case Read(d, rest) => Read(BytesRecord(number, d), rest))
      case 3 =>
        if depth == 0 then Bad
        else (match SkipMessage(bs, depth - 1)
              case Bad => Bad
              case Read((fields, last), rest) =>
                if last == Tag(number, END_GROUP) then Read(GroupRecord(number, fields), rest) else Bad)
      case 5 =>
        (match ReadLittleEndian(bs, 4) case Bad => Bad case Read(v, rest) => Read(Fixed32Record(number, v), rest))
      case _ => Bad
  }

  /** WireFormat::SkipMessage: reads fields up to an end-group tag or a zero tag, which it returns. */
  function SkipMessage(bs: Bytes, depth: nat): (r: Read<(seq<Record>, nat)>)
    ensures r.Read? ==> |r.rest| <= |bs|
    decreases |bs|, depth, 1
  {
    var t := ReadTag(bs);
    if t.tag == 0 then Read(([], 0), bs)
    else if t.tag % 8 == END_GROUP then Read(([], t.tag), t.rest)
    else match SkipField(t.tag, t.rest, depth)
      case Bad => Bad
      case Read(r, rest) =>
        match SkipMessage(rest, depth)
        case Bad => Bad
        case Read((rs, last), rest') => Read(([r] + rs, last), rest')
  }

  /** The records that can be written and read back: numbers, values and lengths in range, groups not too deep. */
  predicate WellFormed(r: Record, depth: nat)
    decreases r, 0
  {
    && 1 <= r.number < 0x2000_0000
    && match r
       case VarintRecord(_, v) => v < U64
       case Fixed64Record(_, v) => v < U64
       case BytesRecord(_, data) => |data| < MAX_LENGTH
       case GroupRecord(_, fields) => depth > 0 && AllWellFormed(fields, depth - 1)
       case Fixed32Record(_, v) => v < U32
  }

  predicate AllWellFormed(rs: seq<Record>, depth: nat)
    decreases rs, 1
  {
    rs == [] || (WellFormed(rs[0], depth) && AllWellFormed(rs[1..], depth))
  }

  lemma Pow256Values()
    ensures Pow256(4) == U32 && Pow256(8) == U64
  {
    assert Pow256(2) == 0x1_0000;
    assert Pow256(4) == U32;
    assert Pow256(6) == 0x1_0000_0000_0000;
  }

  lemma TagParts(number: nat, wireType: nat)
    requires wireType < 8
    ensures Tag(number, wireType) / 8 == number && Tag(number, wireType) % 8 == wireType
  {}

  /** Reading a field whose tag says length-delimited. */
  lemma SkipBytes(number: nat, bs: Bytes, depth: nat)
    requires number >= 1
    ensures SkipField(Tag(number, 2), bs, depth) == match ReadBytes(bs)
                                                   case Bad => Bad
                                                   case Read(data, rest) => Read(BytesRecord(number, data), rest)
  {
    TagParts(number, 2);
  }

  lemma ScalarRoundTrip(r: Record, depth: nat, tail: Bytes)
    requires WellFormed(r, depth) && !r.GroupRecord?
    ensures SkipField(TagOf(r), Payload(r) + tail, depth) == Read(r, tail)
  {
    TagParts(r.number, WireType(r));
    match r
    case VarintRecord(_, v) => VarintRoundTrip(v, tail);
    case Fixed64Record(_, v) => Pow256Values(); LittleEndianRoundTrip(v, 8, tail);
    case BytesRecord(_, data) => BytesRoundTrip(data, tail);
    case Fixed32Record(_, v) => Pow256Values(); LittleEndianRoundTrip(v, 4, tail);
  }

  /** A written record is read back, whatever follows it. */
  lemma {:induction false} SkipFieldRoundTrip(r: Record, depth: nat, tail: Bytes)
    requires WellFormed(r, depth)
    ensures SkipField(TagOf(r), Payload(r) + tail, depth) == Read(r, tail)
    decreases r, 0
  {
    if r.GroupRecord? {
      TagParts(r.number, 3);
      SkipMessageRoundTrip(r.fields, r.number, depth - 1, tail);
      assert Payload(r) + tail == EncodeAll(r.fields) + (Varint(Tag(r.number, END_GROUP)) + tail);
    } else {
      ScalarRoundTrip(r, depth, tail);
    }
  }

  /** Reading on after a written record. */
  lemma SkipMessageStep(r: Record, depth: nat, rest: Bytes)
    requires WellFormed(r, depth) && SkipField(TagOf(r), Payload(r) + rest, depth) == Read(r, rest)
    ensures SkipMessage(Varint(TagOf(r)) + (Payload(r) + rest), depth)
         == match SkipMessage(rest, depth)
            case Bad => Bad
            case Read((fields, last), tail) => Read(([r] + fields, last), tail)
  {
    TagParts(r.number, WireType(r));
    TagRoundTrip(TagOf(r), Payload(r) + rest);
  }

  lemma {:induction false} SkipMessageRoundTrip(rs: seq<Record>, number: nat, depth: nat, tail: Bytes)
    requires AllWellFormed(rs, depth) && 1 <= number < 0x2000_0000
    ensures SkipMessage(EncodeAll(rs) + (Varint(Tag(number, END_GROUP)) + tail), depth)
         == Read((rs, Tag(number, END_GROUP)), tail)
    decreases rs, 1
  {
    var end := Varint(Tag(number, END_GROUP)) + tail;
    if rs == [] {
      assert EncodeAll(rs) + end == end;
      TagRoundTrip(Tag(number, END_GROUP), tail);
    } else {
      var rest := EncodeAll(rs[1..]) + end;
      EncodeAllSplit(rs, end);
      SkipFieldRoundTrip(rs[0], depth, rest);
      SkipMessageRoundTrip(rs[1..], number, depth, tail);
      SkipMessageStep(rs[0], depth, rest);
      assert [rs[0]] + rs[1..] == rs;
    }
  }

  /** n groups, one inside the other. */
  function Nested(n: nat): Record {
    if n == 0 then VarintRecord(1, 0) else GroupRecord(1, [Nested(n - 1)])
  }

  lemma {:induction false} NestedWellFormed(n: nat, depth: nat)
    requires n <= depth
    ensures WellFormed(Nested(n), depth)
    decreases n
  {
    if n == 0 {
    } else {
      var none: seq<Record> := [];
      NestedWellFormed(n - 1, depth - 1);
      assert [Nested(n - 1)][1..] == none;
    }
  }

  lemma {:induction false} TooDeep(n: nat, depth: nat, tail: Bytes)
    requires n > depth
    ensures SkipField(TagOf(Nested(n)), Payload(Nested(n)) + tail, depth) == Bad
    decreases depth
  {
    TagParts(1, 3);
    if depth == 0 {
    } else {
      var inner, none: seq<Record> := Nested(n - 1), [];
      var rest := Varint(Tag(1, END_GROUP)) + tail;
      assert [inner][1..] == none && EncodeAll(none) == [];
      EncodeAllSplit([inner], rest);
      assert EncodeAll(none) + rest == rest;
      assert Payload(Nested(n)) + tail == Varint(TagOf(inner)) + (Payload(inner) + rest);
      TooDeep(n - 1, depth - 1, rest);
      TagParts(1, WireType(inner));
      TagRoundTrip(TagOf(inner), Payload(inner) + rest);
    }
  }

  /** Groups may be nested up to a depth of 100. */
  lemma NestingLimit(n: nat, tail: Bytes)
    ensures SkipField(TagOf(Nested(n)), Payload(Nested(n)) + tail, RECURSION_LIMIT)
         == if n <= 100 then Read(Nested(n), tail) else Bad
  {
    if n <= RECURSION_LIMIT {
      NestedWellFormed(n, RECURSION_LIMIT);
      SkipFieldRoundTrip(Nested(n), RECURSION_LIMIT, tail);
    } else {
      TooDeep(n, RECURSION_LIMIT, tail);
    }
  }

  // ---------- Sizes ----------

  /** WireFormat::ComputeUnknownFieldsSize, one field at a time. */
  function RecordSize(r: Record): nat
    decreases r, 0
  {
    VarintSize(TagOf(r)) +
    match r
    case VarintRecord(_, v) => VarintSize(v)
    case Fixed64Record(_, v) => 8
    case BytesRecord(_, data) => VarintSize(|data|) + |data|
    case GroupRecord(number, fields) => RecordsSize(fields) + VarintSize(Tag(number, END_GROUP))
    case Fixed32Record(_, v) => 4
  }

  function RecordsSize(rs: seq<Record>): nat
    decreases rs, 1
  {
    if rs == [] then 0 else RecordSize(rs[0]) + RecordsSize(rs[1..])
  }

  lemma {:induction false} RecordSizeIsLength(r: Record, depth: nat)
    requires WellFormed(r, depth)
    ensures RecordSize(r) == |Encode(r)|
    decreases r, 0
  {
    VarintLength(TagOf(r));
    match r
    case VarintRecord(_, v) => VarintLength(v);
    case BytesRecord(_, data) => VarintLength(|data|);
    case GroupRecord(number, fields) =>
      VarintLength(Tag(number, END_GROUP));
      RecordsSizeIsLength(fields, depth - 1);
    case _ =>
  }

  lemma {:induction false} RecordsSizeIsLength(rs: seq<Record>, depth: nat)
    requires AllWellFormed(rs, depth)
    ensures RecordsSize(rs) == |EncodeAll(rs)|
    decreases rs, 1
  {
    if rs == [] {
    } else {
      RecordSizeIsLength(rs[0], depth);
      RecordsSizeIsLength(rs[1..], depth);
    }
  }

  /** Whatever is read, from any bytes, is well formed. */
  lemma {:induction false} SkipFieldWellFormed(tag: nat, bs: Bytes, depth: nat)
    requires tag < U32 && SkipField(tag, bs, depth).Read?
    ensures WellFormed(SkipField(tag, bs, depth).value, depth)
    ensures TagOf(SkipField(tag, bs, depth).value) == tag
    decreases |bs|, depth, 0
  {
    Pow256Values();
    if tag % 8 != 3 {
    } else {
      SkipMessageWellFormed(bs, depth - 1);
    }
  }

  lemma {:induction false} SkipMessageWellFormed(bs: Bytes, depth: nat)
    requires SkipMessage(bs, depth).Read?
    ensures AllWellFormed(SkipMessage(bs, depth).value.0, depth)
    decreases |bs|, depth, 1
  {
    var t := ReadTag(bs);
    if t.tag == 0 || t.tag % 8 == END_GROUP {
    } else {
      SkipFieldWellFormed(t.tag, t.rest, depth);
      SkipMessageWellFormed(SkipField(t.tag, t.rest, depth).rest, depth);
    }
  }

}
