/**
 The download stream of FileServer.cc: for every selected row one header and the bytes of the file, and what a
 client can read back from it.

 The header is struct fileheader in the x86-64 layout: dirid (8 bytes), md5 (16), index (4), upload (1), 3 bytes of
 padding, filelen (8), little-endian.  downloadfile leaves md5 and the padding uninitialised.
 */
module Frames {
  import opened Options
  import opened Wire
  import opened MessageCodec
  import opened SocketIO
  import opened TcpConnections

  /** The part of a frame that carries information; a client that asked for a directory knows its dirid. */
  datatype Frame = Frame(index: int, data: Bytes)

  const HEADER_SIZE: nat := 40

  const INT_SIZE: nat := 4

  const LONG_SIZE: nat := 8

  /** What the stack held: 16 bytes for md5 and 3 for the padding. */
  type Junk = j: Bytes | |j| == 19 witness seq(19, i => 0)

  predicate Fits(f: Frame) { InRange(f.index, 32) && |f.data| < U64 / 2 }

  function Unsigned(n: int, bits: nat): nat { n % Modulus(bits) }

  function Header(dirid: int, index: int, filelen: int, junk: Junk): (h: Bytes)
    ensures |h| == HEADER_SIZE
  {
    LittleEndian(Unsigned(dirid, 64), LONG_SIZE) + junk[..16] + LittleEndian(Unsigned(index, 32), INT_SIZE) + [0]
    + junk[16..] + LittleEndian(Unsigned(filelen, 64), LONG_SIZE)
  }

  /** The header and what send transfers of the data: nothing or less than all of it if its size is no int. */
  function FrameBytes(dirid: int, f: Frame, junk: Junk): Bytes {
    AskedIsSize(|f.data|);
    Header(dirid, f.index, |f.data|, junk) + f.data[..Asked(|f.data|)]
  }

  function Stream(dirid: int, fs: seq<Frame>, junk: seq<Junk>): Bytes
    requires |fs| == |junk|
  {
    if fs == [] then [] else FrameBytes(dirid, fs[0], junk[0]) + Stream(dirid, fs[1..], junk[1..])
  }

  // ---------- The client ----------

  datatype HeaderInfo = HeaderInfo(dirid: int, index: int, upload: bool, filelen: int)

  function ReadInt(bs: Bytes, bits: nat, size: nat): int {
    match ReadLittleEndian(bs, size)
    case Bad => 0
    case Read(v, _) => FromVarint(v, bits)
  }

  /** The fields of a header that the server has set. */
  function DecodeHeader(h: Bytes): HeaderInfo
    requires |h| == HEADER_SIZE
  {
    HeaderInfo(ReadInt(h[..8], 64, LONG_SIZE), ReadInt(h[24..28], 32, INT_SIZE), h[28] != 0,
               ReadInt(h[32..40], 64, LONG_SIZE))
  }

  function DecodeStream(bs: Bytes): Option<seq<Frame>>
    decreases |bs|
  {
    if bs == [] then Some([])
    else if |bs| < HEADER_SIZE then None
    else
      var info := DecodeHeader(bs[..HEADER_SIZE]);
      var rest := bs[HEADER_SIZE..];
      if !(0 <= info.filelen <= |rest|) then None
      else match DecodeStream(rest[info.filelen..])
        case None => None
        case Some(fs) => Some([Frame(info.index, rest[..info.filelen])] + fs)
  }

  lemma UnsignedRoundTrip(n: int, bits: nat)
    requires (bits == 32 || bits == 64) && InRange(n, bits)
    ensures FromVarint(Unsigned(n, bits), bits) == n
  {
    if n < 0 { assert n % Modulus(bits) == n + Modulus(bits); }
  }

  lemma LittleEndianExact(v: nat, n: nat)
    requires v < Pow256(n)
    ensures ReadLittleEndian(LittleEndian(v, n), n) == Read(v, [])
  {
    LittleEndianRoundTrip(v, n, []);
    assert LittleEndian(v, n) + [] == LittleEndian(v, n);
  }

  /** The bytes of an integer of `size` bytes are read back as the integer. */
  lemma ReadIntExact(n: int, bits: nat, size: nat)
    requires (bits == 32 && size == 4) || (bits == 64 && size == 8)
    requires InRange(n, bits)
    ensures ReadInt(LittleEndian(Unsigned(n, bits), size), bits, size) == n
  {
    Pow256Values();
    LittleEndianExact(Unsigned(n, bits), size);
    UnsignedRoundTrip(n, bits);
  }

  /** Every field that the server has set is read back; the upload flag is false. */
  lemma HeaderRoundTrip(dirid: int, index: int, filelen: int, junk: Junk)
    requires InRange(dirid, 64) && InRange(index, 32) && InRange(filelen, 64)
    ensures DecodeHeader(Header(dirid, index, filelen, junk)) == HeaderInfo(dirid, index, false, filelen)
  {
    HeaderParts(dirid, index, filelen, junk);
    ReadIntExact(dirid, 64, LONG_SIZE);
    ReadIntExact(index, 32, INT_SIZE);
    ReadIntExact(filelen, 64, LONG_SIZE);
  }

  /** Where the fields are: the layout of struct fileheader on x86-64. */
  lemma HeaderParts(dirid: int, index: int, filelen: int, junk: Junk)
    ensures var h := Header(dirid, index, filelen, junk);
            && h[..8] == LittleEndian(Unsigned(dirid, 64), LONG_SIZE)
            && h[24..28] == LittleEndian(Unsigned(index, 32), INT_SIZE) && h[28] == 0
            && h[32..40] == LittleEndian(Unsigned(filelen, 64), LONG_SIZE)
  {}

  /** The part of a header that tells where its data ends does not depend on the directory. */
  lemma HeaderFrame(dirid: int, index: int, filelen: int, junk: Junk)
    requires InRange(index, 32) && InRange(filelen, 64)
    ensures var info := DecodeHeader(Header(dirid, index, filelen, junk));
            info.index == index && info.filelen == filelen
  {
    HeaderParts(dirid, index, filelen, junk);
    ReadIntExact(index, 32, INT_SIZE);
    ReadIntExact(filelen, 64, LONG_SIZE);
  }

  predicate Sendable(fs: seq<Frame>) {
    forall f | f in fs :: |f.data| < 0x8000_0000
  }

  lemma {:induction false} DecodeSendable(dirid: int, fs: seq<Frame>, junk: seq<Junk>)
    requires |fs| == |junk| && (forall f | f in fs :: Fits(f)) && Sendable(fs)
    ensures DecodeStream(Stream(dirid, fs, junk)) == Some(fs)
    decreases |fs|
  {
    if fs == [] {
    } else {
      var f, rest := fs[0], Stream(dirid, fs[1..], junk[1..]);
      var h := Header(dirid, f.index, |f.data|, junk[0]);
      assert f in fs;
      AskedIsSize(|f.data|);
      assert Stream(dirid, fs, junk) == h + (f.data + rest);
      HeaderFrame(dirid, f.index, |f.data|, junk[0]);
      assert (h + (f.data + rest))[..HEADER_SIZE] == h;
      assert (h + (f.data + rest))[HEADER_SIZE..] == f.data + rest;
      assert (f.data + rest)[|f.data|..] == rest && (f.data + rest)[..|f.data|] == f.data;
      DecodeSendable(dirid, fs[1..], junk[1..]);
      assert fs == [f] + fs[1..];
    }
  }

  /** The bytes that frames take up if they are complete. */
  function FullSize(fs: seq<Frame>): nat {
    if fs == [] then 0 else HEADER_SIZE + |fs[0].data| + FullSize(fs[1..])
  }

  lemma {:induction false} DecodedSize(bs: Bytes)
    requires DecodeStream(bs).Some?
    ensures FullSize(DecodeStream(bs).value) == |bs|
    decreases |bs|
  {
    if bs == [] {
    } else {
      var info := DecodeHeader(bs[..HEADER_SIZE]);
      var rest := bs[HEADER_SIZE..];
      DecodedSize(rest[info.filelen..]);
      var fs := DecodeStream(rest[info.filelen..]).value;
      assert ([Frame(info.index, rest[..info.filelen])] + fs)[1..] == fs;
    }
  }

  lemma {:induction false} StreamSize(dirid: int, fs: seq<Frame>, junk: seq<Junk>)
    requires |fs| == |junk|
    ensures |Stream(dirid, fs, junk)| <= FullSize(fs)
    ensures |Stream(dirid, fs, junk)| == FullSize(fs) ==> Sendable(fs)
    decreases |fs|
  {
    if fs == [] {
    } else {
      AskedIsSize(|fs[0].data|);
      StreamSize(dirid, fs[1..], junk[1..]);
      assert fs == [fs[0]] + fs[1..];
    }
  }

  /**
   Framing: the stream decodes to exactly the frames that were sent, for any list of files of any lengths, 0 included,
   if and only if every file is shorter than 2^31 bytes.
   */
  lemma StreamDecodes(dirid: int, fs: seq<Frame>, junk: seq<Junk>)
    requires |fs| == |junk| && forall f | f in fs :: Fits(f)
    ensures DecodeStream(Stream(dirid, fs, junk)) == Some(fs) <==> Sendable(fs)
  {
    StreamSize(dirid, fs, junk);
    if Sendable(fs) {
      DecodeSendable(dirid, fs, junk);
    }
    if DecodeStream(Stream(dirid, fs, junk)) == Some(fs) {
      DecodedSize(Stream(dirid, fs, junk));
    }
  }

}
