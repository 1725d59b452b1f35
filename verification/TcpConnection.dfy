/** TcpConnection::send, receive and isClosed: SocketIO with sizes narrowed from long long to int. */
module TcpConnections {
  import opened Wire
  import opened SocketIO

  /** The implicit conversion from long long to int: the low 32 bits as a two's complement number. */
  function ToInt(size: int): int {
    var low := size % U32;
    if low >= U32 / 2 then low - U32 else low
  }

  /** How many bytes send and receive really ask for. */
  function Asked(size: int): nat { Max(ToInt(size), 0) }

  /** The whole size is transferred exactly if it fits an int. */
  lemma AskedIsSize(size: int)
    requires size >= 0
    ensures Asked(size) <= size
    ensures Asked(size) == size <==> size < 0x8000_0000
  {
    if size < U32 {
      assert size % U32 == size;
    } else {
      assert ToInt(size) < U32;
    }
  }

  /** What the narrowing makes of any size: the low 32 bits, or nothing if they are negative as an int. */
  lemma AskedIsLowBits(size: int, high: int, low: int)
    requires 0 <= low < U32 && size == high * U32 + low
    ensures Asked(size) == if low < 0x8000_0000 then low else 0
  {
    assert size % U32 == low;
  }

  /**
   One receive of `asked` bytes into a reused buffer, as a function: the buffer and the channel afterwards.  If there
   are fewer bytes, the tail of the buffer keeps what it held.
   */
  function Received(buffer: Bytes, channel: Bytes, asked: nat): (r: (Bytes, Bytes))
    requires asked <= |buffer|
    ensures |r.0| == |buffer| && |r.1| <= |channel|
  {
    var c := Min(asked, |channel|);
    (channel[..c] + buffer[c..], channel[c..])
  }

  class TcpConnection {
    const sockIO: SocketIO

    constructor (sockIO: SocketIO)
      ensures this.sockIO == sockIO
    {
      this.sockIO := sockIO;
    }

    method Send(msg: Bytes, size: int)
      requires 0 <= size <= |msg|
      modifies sockIO`script, sockIO`outbound
      ensures |sockIO.script| <= |old(sockIO.script)|
      ensures 0 <= |sockIO.outbound| - |old(sockIO.outbound)| <= Asked(size)
      ensures Asked(size) <= size
      ensures sockIO.outbound == old(sockIO.outbound) + msg[..|sockIO.outbound| - |old(sockIO.outbound)|]
      ensures Faultless(old(sockIO.script)) ==>
                && Faultless(sockIO.script)
                && sockIO.outbound == old(sockIO.outbound) + msg[..Asked(size)]
    {
      AskedIsSize(size);
      var r := sockIO.Writen(msg, ToInt(size));
    }

    method Receive(buf: array<Byte>, size: int)
      requires 0 <= size <= buf.Length
      modifies sockIO`script, sockIO`inbound, buf
      ensures |sockIO.script| <= |old(sockIO.script)|
      ensures Asked(size) <= size && 0 <= |old(sockIO.inbound)| - |sockIO.inbound| <= Asked(size)
      ensures (buf[..], sockIO.inbound)
           == Received(old(buf[..]), old(sockIO.inbound), |old(sockIO.inbound)| - |sockIO.inbound|)
      ensures Faultless(old(sockIO.script)) ==>
                && Faultless(sockIO.script)
                && (buf[..], sockIO.inbound) == Received(old(buf[..]), old(sockIO.inbound), Asked(size))
    {
      AskedIsSize(size);
      ghost var buffer, channel := buf[..], sockIO.inbound;
      var r := sockIO.Readn(buf, 0, ToInt(size));
      ghost var c := |channel| - |sockIO.inbound|;
      SpliceMeaning(buffer, 0, channel[..c]);
      assert buffer[..0] + channel[..c] + buffer[c..] == channel[..c] + buffer[c..];
    }

    /** The peer has closed and everything has been read; an interrupted or failed call counts as open. */
    method IsClosed() returns (closed: bool)
      modifies sockIO`script
      ensures sockIO.script == Later(old(sockIO.script))
      ensures var o := First(old(sockIO.script));
              closed <==> sockIO.inbound == [] && !o.Interrupted? && !o.Fault?
    {
      var buf := new Byte[10](i => 0);
      var ret, eintr := sockIO.Peek(buf, 0, 10);
      closed := 0 == ret;
    }
  }

  /**
   One message from one end of an idle connection to the other, with any fragmentation and any interruptions on
   either side: what arrives is what was sent, and nothing is left over.
   */
  method Exchange(sender: TcpConnection, receiver: TcpConnection, msg: Bytes, buf: array<Byte>)
    requires sender.sockIO != receiver.sockIO && buf.Length == |msg| < 0x8000_0000
    requires Faultless(sender.sockIO.script) && Faultless(receiver.sockIO.script) && receiver.sockIO.inbound == []
    modifies sender.sockIO, receiver.sockIO, buf
    ensures buf[..] == msg && receiver.sockIO.inbound == []
    ensures sender.sockIO.outbound == old(sender.sockIO.outbound) + msg
  {
    AskedIsSize(|msg|);
    ghost var before := sender.sockIO.outbound;
    var from := |sender.sockIO.outbound|;
    sender.Send(msg, |msg|);
    // the network delivers what was written
    receiver.sockIO.inbound := receiver.sockIO.inbound + sender.sockIO.outbound[from..];
    receiver.Receive(buf, |msg|);
  }

}
