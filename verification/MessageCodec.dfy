/**
 The meaning of the generated message classes DirInfo and DirRet: parsing, serializing and merging as functions on
 message values, for any message that has an integer field 1 and string fields 2, 3, ...
 */
module MessageCodec {
  import opened Options
  import opened Utf8
  import opened Wire

  /** The shape of a message type: the width of integer field 1, and how many string fields follow it. */
  datatype Schema = Schema(bits: nat, strings: nat)

  const DIR_INFO := Schema(64, 2)   // int64 dirid = 1; string name = 2; string uuid = 3;
  const DIR_RET := Schema(32, 1)    // int32 code = 1; string jsoninfo = 2;

  predicate IsSchema(sc: Schema) { (sc.bits == 32 || sc.bits == 64) && sc.strings <= 14 }

  /** strs[i] is string field number i + 2. */
  datatype Message = Message(num: int, strs: seq<Bytes>, unknown: seq<Record>)

  function Default(sc: Schema): Message { Message(0, seq(sc.strings, i => []), []) }

  // ---------- Integers ----------

  function Modulus(bits: nat): nat { if bits == 32 then U32 else U64 }

  predicate InRange(n: int, bits: nat) { -(Modulus(bits) / 2) <= n < Modulus(bits) / 2 }

  /** int32 and int64 are written as the two's complement in 64 bits, so negative numbers take ten bytes. */
  function ToVarint(n: int): int { if n < 0 then n + U64 else n }

  /** The low bits of a varint, as a two's complement number. */
  function FromVarint(v: nat, bits: nat): int {
    var low := v % Modulus(bits);
    if low >= Modulus(bits) / 2 then low - Modulus(bits) else low
  }

  lemma IntegerRoundTrip(n: int, bits: nat)
    requires (bits == 32 || bits == 64) && InRange(n, bits)
    ensures 0 <= ToVarint(n) < U64 && FromVarint(ToVarint(n), bits) == n
  {
    if bits == 32 && n < 0 {
      assert ToVarint(n) == (U32 - 1) * U32 + (n + U32);
    }
  }

  /** The values of the fields: dirid is any 64-bit integer, code any 32-bit integer, and each is read back. */
  lemma FieldRanges(n: int)
    ensures InRange(n, DIR_INFO.bits) <==> -0x8000_0000_0000_0000 <= n < 0x8000_0000_0000_0000
    ensures InRange(n, DIR_RET.bits) <==> -0x8000_0000 <= n < 0x8000_0000
    ensures -0x8000_0000_0000_0000 <= n < 0x8000_0000_0000_0000 ==> FromVarint(ToVarint(n), DIR_INFO.bits) == n
    ensures -0x8000_0000 <= n < 0x8000_0000 ==> FromVarint(ToVarint(n), DIR_RET.bits) == n
  {
    if InRange(n, 64) {
      IntegerRoundTrip(n, 64);
    }
    if InRange(n, 32) {
      IntegerRoundTrip(n, 32);
    }
  }

  /** The value that is kept of any varint: congruent to it, and in the range of the field. */
  lemma FromVarintMeaning(v: nat, bits: nat)
    requires bits == 32 || bits == 64
    ensures InRange(FromVarint(v, bits), bits) && (v - FromVarint(v, bits)) % Modulus(bits) == 0
  {
    var m := Modulus(bits);
    assert v == m * (v / m) + v % m;
    if v % m >= m / 2 {
      assert v - FromVarint(v, bits) == m * (v / m + 1);
      Multiple(m, v / m + 1);
    } else {
      assert v - FromVarint(v, bits) == m * (v / m);
      Multiple(m, v / m);
    }
  }

  lemma Multiple(m: nat, k: nat)
    requires m == U32 || m == U64
    ensures m * k % m == 0
  {}

  lemma NegativeTakesTenBytes(n: int, bits: nat)
    requires (bits == 32 || bits == 64) && InRange(n, bits) && n < 0
    ensures |Varint(ToVarint(n))| == 10
  {
    VarintLength(ToVarint(n));
  }

  // ---------- Parsing ----------

  /** Whether a record is one of the declared fields; all others go to the unknown fields. */
  predicate IsKnown(sc: Schema, r: Record) {
    || (r.VarintRecord? && r.number == 1)
    || (r.BytesRecord? && 2 <= r.number < 2 + sc.strings)
  }

  /** The effect of one record on a message; None if it is a string field that is not valid UTF-8. */
  function Apply(sc: Schema, m: Message, r: Record): Option<Message>
    requires |m.strs| == sc.strings
  {
    if r.VarintRecord? && r.number == 1 then Some(m.(num := FromVarint(r.value, sc.bits)))
    else if r.BytesRecord? && 2 <= r.number < 2 + sc.strings then
      if ValidUtf8(r.data) then Some(m.(strs := m.strs[r.number - 2 := r.data])) else None
    else Some(m.(unknown := m.unknown + [r]))
  }

  /** atEnd: the parser stopped at the end of the input, not at a zero or malformed tag. */
  datatype ParseResult = Failed | Parsed(msg: Message, atEnd: bool)

  /** MergePartialFromCodedStream: reads records and applies them until the tag is zero. */
  function Parse(sc: Schema, m: Message, bs: Bytes): ParseResult
    requires |m.strs| == sc.strings
    decreases |bs|
  {
    var t := ReadTag(bs);
    if t.tag == 0 then Parsed(m, t.atEnd)
    else match SkipField(t.tag, t.rest, RECURSION_LIMIT)
      case Bad => Failed
      case Read(r, rest) =>
        match Apply(sc, m, r)
        case None => Failed
        case Some(m') => Parse(sc, m', rest)
  }

  /**
   Where the parser stops without an error: at the end of the input, at a zero tag, and at a tag that goes on for too
   long; only the first counts as the end of the message.
   */
  lemma ParseStops(sc: Schema, m: Message, tail: Bytes)
    requires |m.strs| == sc.strings
    ensures Parse(sc, m, []) == Parsed(m, true)
    ensures Parse(sc, m, [0] + tail) == Parsed(m, false)
    ensures |tail| >= 1 && (forall i | 0 <= i < |tail| && i < 10 :: tail[i] >= 128) ==>
              Parse(sc, m, tail) == Parsed(m, false)
  {
    if |tail| >= 1 && forall i | 0 <= i < |tail| && i < 10 :: tail[i] >= 128 {
      RawVarintFails(tail, MAX_VARINT_BYTES);
    }
  }

  // ---------- Serializing ----------

  function StringRecords(strs: seq<Bytes>, number: nat): seq<Record> {
    if strs == [] then []
    else (if strs[0] == [] then [] else [BytesRecord(number, strs[0])]) + StringRecords(strs[1..], number + 1)
  }

  function NumberRecords(num: int): seq<Record>
    requires ToVarint(num) >= 0
  {
    if num == 0 then [] else [VarintRecord(1, ToVarint(num))]
  }

  function Records(m: Message): seq<Record>
    requires ToVarint(m.num) >= 0
  {
    NumberRecords(m.num) + StringRecords(m.strs, 2) + m.unknown
  }

  function Serialize(m: Message): Bytes
    requires ToVarint(m.num) >= 0
  {
    EncodeAll(Records(m))
  }

  // ---------- Merging ----------

  function Choose(x: Bytes, y: Bytes): Bytes { if y != [] then y else x }

  function Merge(a: Message, b: Message): Message
    requires |a.strs| == |b.strs|
  {
    Message(if b.num != 0 then b.num else a.num,
            seq(|a.strs|, i requires 0 <= i < |a.strs| => Choose(a.strs[i], b.strs[i])),
            a.unknown + b.unknown)
  }

  // ---------- Valid messages ----------

  /** Records that a parser puts among the unknown fields. */
  predicate AllUnknown(sc: Schema, rs: seq<Record>) {
    forall r | r in rs :: !IsKnown(sc, r)
  }

  predicate Valid(sc: Schema, m: Message) {
    && InRange(m.num, sc.bits)
    && |m.strs| == sc.strings
    && (forall i | 0 <= i < |m.strs| :: |m.strs[i]| < MAX_LENGTH)
    && AllWellFormed(m.unknown, RECURSION_LIMIT)
    && AllUnknown(sc, m.unknown)
  }

  predicate AllUtf8(strs: seq<Bytes>) {
    strs == [] || (ValidUtf8(strs[0]) && AllUtf8(strs[1..]))
  }

  // ---------- Parsing a list of records ----------

  function ApplyAll(sc: Schema, m: Message, rs: seq<Record>): Option<Message>
    requires |m.strs| == sc.strings
    decreases |rs|
  {
    if rs == [] then Some(m)
    else match Apply(sc, m, rs[0])
      case None => None
      case Some(m') => ApplyAll(sc, m', rs[1..])
  }

  lemma {:induction false} ApplyAllShape(sc: Schema, m: Message, rs: seq<Record>)
    requires |m.strs| == sc.strings && ApplyAll(sc, m, rs).Some?
    ensures |ApplyAll(sc, m, rs).value.strs| == sc.strings
    decreases |rs|
  {
    if rs == [] {
    } else {
      ApplyAllShape(sc, Apply(sc, m, rs[0]).value, rs[1..]);
    }
  }

  /** Parsing written records applies them in order and goes on with what follows. */
  lemma {:induction false} ParseRecords(sc: Schema, m: Message, rs: seq<Record>, tail: Bytes)
    requires |m.strs| == sc.strings && AllWellFormed(rs, RECURSION_LIMIT)
    ensures match ApplyAll(sc, m, rs)
            case None => Parse(sc, m, EncodeAll(rs) + tail) == Failed
            case Some(m') => |m'.strs| == sc.strings && Parse(sc, m, EncodeAll(rs) + tail) == Parse(sc, m', tail)
    decreases |rs|
  {
    if rs == [] {
      assert EncodeAll(rs) + tail == tail;
    } else {
      var rest := EncodeAll(rs[1..]) + tail;
      EncodeAllSplit(rs, tail);
      TagRoundTrip(TagOf(rs[0]), Payload(rs[0]) + rest);
      SkipFieldRoundTrip(rs[0], RECURSION_LIMIT, rest);
      match Apply(sc, m, rs[0])
      case None =>
      case Some(m') => ParseRecords(sc, m', rs[1..], tail);
    }
  }

  lemma {:induction false} ApplyAllConcat(sc: Schema, m: Message, rs: seq<Record>, rs': seq<Record>)
    requires |m.strs| == sc.strings
    ensures match ApplyAll(sc, m, rs)
            case None => ApplyAll(sc, m, rs + rs') == None
            case Some(m') => |m'.strs| == sc.strings && ApplyAll(sc, m, rs + rs') == ApplyAll(sc, m', rs')
    decreases |rs|
  {
    if rs == [] {
      assert rs + rs' == rs';
    } else {
      assert (rs + rs')[1..] == rs[1..] + rs';
      match Apply(sc, m, rs[0])
      case None =>
      case Some(m') => ApplyAllConcat(sc, m', rs[1..], rs');
    }
  }

  lemma {:induction false} ApplyUnknown(sc: Schema, m: Message, rs: seq<Record>)
    requires |m.strs| == sc.strings && AllUnknown(sc, rs)
    ensures ApplyAll(sc, m, rs) == Some(m.(unknown := m.unknown + rs))
    decreases |rs|
  {
    if rs == [] {
      assert m.unknown + rs == m.unknown;
    } else {
      assert rs[0] in rs;
      assert m.unknown + [rs[0]] + rs[1..] == m.unknown + rs;
      ApplyUnknown(sc, m.(unknown := m.unknown + [rs[0]]), rs[1..]);
    }
  }

  /** The strings from position k on, overwritten one by one by the non-empty ones of strs. */
  function Overwrite(base: seq<Bytes>, strs: seq<Bytes>, k: nat): (r: seq<Bytes>)
    requires k + |strs| == |base|
    ensures |r| == |base|
    decreases |strs|
  {
    if strs == [] then base else Overwrite(base[k := Choose(base[k], strs[0])], strs[1..], k + 1)
  }

  lemma {:induction false} OverwriteAt(base: seq<Bytes>, strs: seq<Bytes>, k: nat, i: nat)
    requires k + |strs| == |base| && i < |base|
    ensures Overwrite(base, strs, k)[i] == if i < k then base[i] else Choose(base[i], strs[i - k])
    decreases |strs|
  {
    if strs == [] {
    } else {
      OverwriteAt(base[k := Choose(base[k], strs[0])], strs[1..], k + 1, i);
    }
  }

  lemma {:induction false} ApplyStrings(sc: Schema, m: Message, strs: seq<Bytes>, k: nat)
    requires |m.strs| == sc.strings && k + |strs| == sc.strings
    ensures ApplyAll(sc, m, StringRecords(strs, k + 2))
         == if AllUtf8(strs) then Some(m.(strs := Overwrite(m.strs, strs, k))) else None
    decreases |strs|
  {
    if strs == [] {
    } else {
      var rest := StringRecords(strs[1..], k + 3);
      var m1 := m.(strs := m.strs[k := Choose(m.strs[k], strs[0])]);
      ApplyStrings(sc, m1, strs[1..], k + 1);
      if strs[0] == [] {
        assert m1.strs == m.strs;
        assert StringRecords(strs, k + 2) == rest;
      } else {
        var r := BytesRecord(k + 2, strs[0]);
        assert StringRecords(strs, k + 2) == [r] + rest;
        assert ([r] + rest)[1..] == rest;
      }
    }
  }

  lemma {:induction false} ApplyRecords(sc: Schema, m: Message, b: Message)
    requires IsSchema(sc) && |m.strs| == sc.strings && Valid(sc, b)
    ensures ToVarint(b.num) >= 0
    ensures ApplyAll(sc, m, Records(b)) == if AllUtf8(b.strs) then Some(Merge(m, b)) else None
  {
    IntegerRoundTrip(b.num, sc.bits);
    var m1 := m.(num := if b.num != 0 then b.num else m.num);
    var numbers, strings := NumberRecords(b.num), StringRecords(b.strs, 2);
    assert ApplyAll(sc, m, numbers) == Some(m1) by {
      if b.num != 0 {
        assert numbers[1..] == [];
      }
    }
    ApplyAllConcat(sc, m, numbers, strings + b.unknown);
    assert Records(b) == numbers + (strings + b.unknown);
    ApplyAllConcat(sc, m1, strings, b.unknown);
    ApplyStrings(sc, m1, b.strs, 0);
    if AllUtf8(b.strs) {
      var m2 := m1.(strs := Overwrite(m1.strs, b.strs, 0));
      ApplyUnknown(sc, m2, b.unknown);
      forall i | 0 <= i < |m.strs| ensures m2.strs[i] == Merge(m, b).strs[i] {
        OverwriteAt(m1.strs, b.strs, 0, i);
      }
      assert m2.strs == Merge(m, b).strs;
    }
  }

  lemma {:induction false} StringRecordsWellFormed(strs: seq<Bytes>, number: nat)
    requires 2 <= number && number + |strs| <= 16
    requires forall i | 0 <= i < |strs| :: |strs[i]| < MAX_LENGTH
    ensures AllWellFormed(StringRecords(strs, number), RECURSION_LIMIT)
    decreases |strs|
  {
    if strs == [] {
    } else {
      StringRecordsWellFormed(strs[1..], number + 1);
      var rest := StringRecords(strs[1..], number + 1);
      if strs[0] == [] {
        assert StringRecords(strs, number) == rest;
      } else {
        assert StringRecords(strs, number) == [BytesRecord(number, strs[0])] + rest;
        assert StringRecords(strs, number)[1..] == rest;
      }
    }
  }

  lemma {:induction false} WellFormedConcat(rs: seq<Record>, rs': seq<Record>, depth: nat)
    requires AllWellFormed(rs, depth) && AllWellFormed(rs', depth)
    ensures AllWellFormed(rs + rs', depth)
    decreases |rs|
  {
    if rs == [] {
      assert rs + rs' == rs';
    } else {
      assert (rs + rs')[1..] == rs[1..] + rs';
      WellFormedConcat(rs[1..], rs', depth);
    }
  }

  lemma RecordsWellFormed(sc: Schema, m: Message)
    requires IsSchema(sc) && Valid(sc, m)
    ensures ToVarint(m.num) >= 0 && AllWellFormed(Records(m), RECURSION_LIMIT)
  {
    IntegerRoundTrip(m.num, sc.bits);
    StringRecordsWellFormed(m.strs, 2);
    assert AllWellFormed(NumberRecords(m.num), RECURSION_LIMIT) by {
      if m.num != 0 {
        assert WellFormed(VarintRecord(1, ToVarint(m.num)), RECURSION_LIMIT);
        assert NumberRecords(m.num)[1..] == [];
      }
    }
    WellFormedConcat(NumberRecords(m.num), StringRecords(m.strs, 2), RECURSION_LIMIT);
    WellFormedConcat(NumberRecords(m.num) + StringRecords(m.strs, 2), m.unknown, RECURSION_LIMIT);
  }

  // ---------- The main results ----------

  /** Parsing a serialized message into another one merges it, whatever follows; invalid UTF-8 makes it fail. */
  lemma ParseSerialized(sc: Schema, m: Message, b: Message, tail: Bytes)
    requires IsSchema(sc) && |m.strs| == sc.strings && Valid(sc, b)
    ensures ToVarint(b.num) >= 0
    ensures Parse(sc, m, Serialize(b) + tail) == if AllUtf8(b.strs) then Parse(sc, Merge(m, b), tail) else Failed
  {
    RecordsWellFormed(sc, b);
    ApplyRecords(sc, m, b);
    ParseRecords(sc, m, Records(b), tail);
  }

  /** Parsing the concatenation of two serialized messages gives the first merged with the second. */
  lemma ConcatenationIsMerge(sc: Schema, a: Message, b: Message)
    requires IsSchema(sc) && Valid(sc, a) && Valid(sc, b)
    ensures ToVarint(a.num) >= 0 && ToVarint(b.num) >= 0
    ensures Parse(sc, Default(sc), Serialize(a) + Serialize(b))
         == if AllUtf8(a.strs) && AllUtf8(b.strs) then Parsed(Merge(a, b), true) else Failed
  {
    ParseSerialized(sc, Default(sc), a, Serialize(b));
    ParseSerialized(sc, a, b, []);
    MergeDefault(sc, a);
    assert Serialize(b) + [] == Serialize(b);
  }

  lemma MergeDefault(sc: Schema, a: Message)
    requires |a.strs| == sc.strings
    ensures Merge(Default(sc), a) == a && Merge(a, Default(sc)) == a
  {
    assert Merge(Default(sc), a).strs == a.strs;
    assert Merge(a, Default(sc)).strs == a.strs;
  }

  /**
   Round trip: a serialized message is parsed back exactly if its strings are valid UTF-8; otherwise the bytes,
   which are written all the same, are rejected.
   */
  lemma RoundTrip(sc: Schema, m: Message)
    requires IsSchema(sc) && Valid(sc, m)
    ensures ToVarint(m.num) >= 0
    ensures Parse(sc, Default(sc), Serialize(m)) == Parsed(m, true) <==> AllUtf8(m.strs)
    ensures !AllUtf8(m.strs) ==> Parse(sc, Default(sc), Serialize(m)) == Failed
  {
    ParseSerialized(sc, Default(sc), m, []);
    MergeDefault(sc, m);
    assert Serialize(m) + [] == Serialize(m);
  }

  /** A valid message that is written and then rejected, for every schema with a string field. */
  lemma NotEveryMessageReturns(sc: Schema)
    requires IsSchema(sc) && sc.strings >= 1
    ensures var m := Default(sc).(strs := Default(sc).strs[0 := [0x80]]);
            && Valid(sc, m) && !AllUtf8(m.strs) && ToVarint(m.num) >= 0
            && Parse(sc, Default(sc), Serialize(m)) == Failed
  {
    var m := Default(sc).(strs := Default(sc).strs[0 := [0x80]]);
    assert !ValidUtf8([0x80]) by {
      assert CharLength([0x80]) == 0;
    }
    assert m.strs[0] == [0x80];
    RoundTrip(sc, m);
  }

  /** Merging is associative, so a message may be sent in any number of pieces. */
  lemma MergeAssociative(a: Message, b: Message, c: Message)
    requires |a.strs| == |b.strs| == |c.strs|
    ensures Merge(Merge(a, b), c) == Merge(a, Merge(b, c))
  {
    assert Merge(Merge(a, b), c).strs == Merge(a, Merge(b, c)).strs;
    assert (a.unknown + b.unknown) + c.unknown == a.unknown + (b.unknown + c.unknown);
  }

  // ---------- Sizes ----------

  function StringSize(s: Bytes): nat { VarintSize(|s|) + |s| }

  function StringsSize(strs: seq<Bytes>): nat {
    if strs == [] then 0 else (if strs[0] == [] then 0 else 1 + StringSize(strs[0])) + StringsSize(strs[1..])
  }

  /** What ByteSizeLong adds up. */
  function ByteSize(m: Message): nat
    requires ToVarint(m.num) >= 0
  {
    RecordsSize(m.unknown) + StringsSize(m.strs) + if m.num == 0 then 0 else 1 + VarintSize(ToVarint(m.num))
  }

  lemma {:induction false} EncodeAllConcat(rs: seq<Record>, rs': seq<Record>)
    ensures EncodeAll(rs + rs') == EncodeAll(rs) + EncodeAll(rs')
    decreases |rs|
  {
    if rs == [] {
      assert rs + rs' == rs';
    } else {
      assert (rs + rs')[1..] == rs[1..] + rs';
      EncodeAllConcat(rs[1..], rs');
    }
  }

  lemma {:induction false} StringsSizeIsLength(strs: seq<Bytes>, number: nat)
    requires 2 <= number && number + |strs| <= 16
    requires forall i | 0 <= i < |strs| :: |strs[i]| < MAX_LENGTH
    ensures StringsSize(strs) == |EncodeAll(StringRecords(strs, number))|
    decreases |strs|
  {
    if strs == [] {
    } else {
      var rest := StringRecords(strs[1..], number + 1);
      StringsSizeIsLength(strs[1..], number + 1);
      if strs[0] == [] {
        assert StringRecords(strs, number) == rest;
      } else {
        var r := BytesRecord(number, strs[0]);
        assert StringRecords(strs, number) == [r] + rest;
        assert ([r] + rest)[1..] == rest;
        assert Encode(r) == Varint(TagOf(r)) + (Varint(|strs[0]|) + strs[0]);
        assert EncodeAll([r] + rest) == Encode(r) + EncodeAll(rest);
        VarintLength(TagOf(r));
        VarintLength(|strs[0]|);
      }
    }
  }

  /** The computed size is the number of bytes written. */
  lemma ByteSizeIsLength(sc: Schema, m: Message)
    requires IsSchema(sc) && Valid(sc, m)
    ensures ToVarint(m.num) >= 0 && ByteSize(m) == |Serialize(m)|
  {
    IntegerRoundTrip(m.num, sc.bits);
    VarintLength(ToVarint(m.num));
    StringsSizeIsLength(m.strs, 2);
    RecordsSizeIsLength(m.unknown, RECURSION_LIMIT);
    var numbers := NumberRecords(m.num);
    EncodeAllConcat(numbers, StringRecords(m.strs, 2));
    EncodeAllConcat(numbers + StringRecords(m.strs, 2), m.unknown);
    if m.num != 0 {
      assert numbers[1..] == [];
      assert Encode(numbers[0]) == Varint(8) + Varint(ToVarint(m.num));
      assert EncodeAll(numbers) == Encode(numbers[0]) + EncodeAll(numbers[1..]);
    }
  }

  // ---------- Canonical form ----------

  lemma ApplyKeepsValid(sc: Schema, m: Message, r: Record)
    requires IsSchema(sc) && Valid(sc, m) && AllUtf8(m.strs) && WellFormed(r, RECURSION_LIMIT)
    ensures match Apply(sc, m, r) case None => true case Some(m') => Valid(sc, m') && AllUtf8(m'.strs)
  {
    match Apply(sc, m, r)
    case None =>
    case Some(m') =>
      if IsKnown(sc, r) {
        if r.BytesRecord? { Utf8Update(m.strs, r.number - 2, r.data); }
      } else {
        WellFormedConcat(m.unknown, [r], RECURSION_LIMIT);
      }
  }

  lemma {:induction false} Utf8Update(strs: seq<Bytes>, i: nat, s: Bytes)
    requires i < |strs| && AllUtf8(strs) && ValidUtf8(s)
    ensures AllUtf8(strs[i := s])
  {
    if i == 0 {
      assert strs[i := s][1..] == strs[1..];
    } else {
      assert strs[i := s][1..] == strs[1..][i - 1 := s];
      Utf8Update(strs[1..], i - 1, s);
    }
  }

  lemma {:induction false} ParseKeepsValid(sc: Schema, m: Message, bs: Bytes)
    requires IsSchema(sc) && Valid(sc, m) && AllUtf8(m.strs)
    ensures match Parse(sc, m, bs) case Failed => true case Parsed(m', _) => Valid(sc, m') && AllUtf8(m'.strs)
    decreases |bs|
  {
    var t := ReadTag(bs);
    if t.tag == 0 {
    } else {
      match SkipField(t.tag, t.rest, RECURSION_LIMIT)
      case Bad =>
      case Read(r, rest) =>
        SkipFieldWellFormed(t.tag, t.rest, RECURSION_LIMIT);
        ApplyKeepsValid(sc, m, r);
        match Apply(sc, m, r)
        case None =>
        case Some(m') => ParseKeepsValid(sc, m', rest);
    }
  }

  lemma DefaultValid(sc: Schema)
    requires IsSchema(sc)
    ensures Valid(sc, Default(sc)) && AllUtf8(Default(sc).strs)
  {
    EmptyUtf8(Default(sc).strs);
  }

  lemma {:induction false} EmptyUtf8(strs: seq<Bytes>)
    requires forall i | 0 <= i < |strs| :: strs[i] == []
    ensures AllUtf8(strs)
  {
    if strs == [] {
    } else {
      EmptyUtf8(strs[1..]);
    }
  }

  /**
   Any bytes that parse to m, with repeated or reordered fields, overlong varints or unknown fields, have a canonical
   form: what m serializes to, which parses to m again and consumes all its input.
   */
  lemma Canonical(sc: Schema, bs: Bytes)
    requires IsSchema(sc) && Parse(sc, Default(sc), bs).Parsed?
    ensures var m := Parse(sc, Default(sc), bs).msg;
            ToVarint(m.num) >= 0 && Parse(sc, Default(sc), Serialize(m)) == Parsed(m, true)
  {
    DefaultValid(sc);
    ParseKeepsValid(sc, Default(sc), bs);
    RoundTrip(sc, Parse(sc, Default(sc), bs).msg);
  }

}
