/**
 Blocking reads and writes on a connected stream socket: the loops of SocketIO.cc that survive short transfers and
 EINTR, and the line reader.

 The kernel is a script: what the next calls do, one entry a call.  Any finite script is possible; when it is used
 up, calls move as much as they can.
 */
module SocketIO {
  import opened Wire

  /** The outcome of one system call. */
  datatype Outcome =
    | Interrupted       // -1 with errno == EINTR
    | Fault             // -1 with another errno
    | Stalled           // a write that accepts nothing and returns 0
    | Moved(n: nat)     // n bytes, or as many as there are or as fit

  function Min(a: int, b: int): int { if a < b then a else b }

  function Max(a: int, b: int): int { if a < b then b else a }

  /** How many of `most` bytes a call moves: all of them, or any smaller positive number. */
  function Granted(o: Outcome, most: nat): (n: nat)
    ensures n <= most && (most > 0 ==> n > 0)
  {
    if o.Moved? && 1 <= o.n <= most then o.n else most
  }

  predicate Faultless(script: seq<Outcome>) {
    script == [] || (!script[0].Fault? && !script[0].Stalled? && Faultless(script[1..]))
  }

  lemma {:induction false} FaultlessMeaning(script: seq<Outcome>)
    ensures Faultless(script) <==> forall o | o in script :: o.Moved? || o.Interrupted?
    decreases |script|
  {
    if script == [] {
    } else {
      FaultlessMeaning(script[1..]);
      assert script[0] in script;
      forall o | o in script ensures o == script[0] || o in script[1..] {}
      forall o | o in script[1..] ensures o in script {}
    }
  }

  /** What the first call sees. */
  function First(script: seq<Outcome>): Outcome { if script == [] then Moved(0) else script[0] }

  function Later(script: seq<Outcome>): seq<Outcome> { if script == [] then [] else script[1..] }

  /** A call can have any outcome, and can move any number of bytes from one to what there is. */
  lemma AnyOutcome(o: Outcome, later: seq<Outcome>, most: nat, n: nat)
    requires 1 <= n <= most
    ensures First([o] + later) == o && Later([o] + later) == later
    ensures First([Moved(n)] + later) == Moved(n) && Granted(Moved(n), most) == n
  {
    assert ([o] + later)[1..] == later;
  }

  // ---------- Lines ----------

  const NEWLINE: Byte := 10

  /** The length of the line at the start of s, newline included, cut after `room` bytes. */
  function LineLength(s: Bytes, room: nat): (n: nat)
    ensures n <= room && n <= |s|
  {
    if room == 0 || s == [] then 0
    else if s[0] == NEWLINE then 1
    else 1 + LineLength(s[1..], room - 1)
  }

  predicate EndsInNewline(s: Bytes) { s != [] && s[|s| - 1] == NEWLINE }

  /** The line goes up to the first newline, or to the end of the room or of the input if no newline comes before. */
  lemma {:induction false} LineLengthMeaning(s: Bytes, room: nat)
    ensures var line := s[..LineLength(s, room)];
            && (forall i | 0 <= i < |line| - 1 :: line[i] != NEWLINE)
            && (EndsInNewline(line) || |line| == Min(room, |s|))
  {
    if room == 0 || s == [] || s[0] == NEWLINE {
    } else {
      LineLengthMeaning(s[1..], room - 1);
      var rest := s[1..][..LineLength(s[1..], room - 1)];
      assert s[..LineLength(s, room)] == [s[0]] + rest;
    }
  }

  lemma {:induction false} LineLengthSkip(s: Bytes, room: nat, k: nat)
    requires k <= room && k <= |s| && forall i | 0 <= i < k :: s[i] != NEWLINE
    ensures LineLength(s, room) == k + LineLength(s[k..], room - k)
  {
    if k == 0 {
    } else {
      LineLengthSkip(s[1..], room - 1, k - 1);
      assert s[1..][k - 1..] == s[k..];
    }
  }

  /** The search of readLine, over all pieces peeked so far: a newline after k bytes without one. */
  lemma LineFound(s: Bytes, room: nat, k: nat)
    requires k < room && k < |s| && s[k] == NEWLINE && forall i | 0 <= i < k :: s[i] != NEWLINE
    ensures LineLength(s, room) == k + 1 && EndsInNewline(s[..k + 1])
  {
    LineLengthSkip(s, room, k);
  }

  lemma LineNotFound(s: Bytes, room: nat, k: nat)
    requires k == Min(room, |s|) && forall i | 0 <= i < k :: s[i] != NEWLINE
    ensures LineLength(s, room) == k && !EndsInNewline(s[..k])
  {
    LineLengthSkip(s, room, k);
  }

  /** The first k bytes of the input have been moved from the channel to the buffer, and hold no newline. */
  predicate Scanned(input: Bytes, channel: Bytes, filled: Bytes, k: nat) {
    && k <= |input| && channel == input[k..] && filled == input[..k]
    && forall i | 0 <= i < k :: input[i] != NEWLINE
  }

  lemma ScanOn(input: Bytes, channel: Bytes, filled: Bytes, k: nat, n: nat)
    requires Scanned(input, channel, filled, k) && n <= |channel|
    requires forall i | 0 <= i < n :: channel[i] != NEWLINE
    ensures Scanned(input, channel[n..], filled + channel[..n], k + n)
  {
    forall i | 0 <= i < k + n ensures input[i] != NEWLINE {
      if i >= k { assert input[i] == channel[i - k]; }
    }
  }

  lemma ScanFound(input: Bytes, channel: Bytes, filled: Bytes, k: nat, idx: nat, room: nat)
    requires Scanned(input, channel, filled, k) && idx < |channel| && k + idx < room
    requires channel[idx] == NEWLINE && forall i | 0 <= i < idx :: channel[i] != NEWLINE
    ensures var n := k + idx + 1;
            && n <= |input| && LineLength(input, room) == n && EndsInNewline(input[..n])
            && channel[idx + 1..] == input[n..] && filled + channel[..idx + 1] == input[..n]
  {
    ScanOn(input, channel, filled, k, idx);
    assert input[k + idx] == channel[idx];
    LineFound(input, room, k + idx);
    assert input[k..][..idx + 1] == input[k..k + idx + 1] && input[k..][idx + 1..] == input[k + idx + 1..];
    assert input[..k] + input[k..k + idx + 1] == input[..k + idx + 1];
  }

  /** The channel is what is left of the input after at most `most` bytes have been consumed from the front. */
  predicate Front(input: Bytes, channel: Bytes, most: nat) {
    channel == input || (most > 0 && input != [] && Front(input[1..], channel, most - 1))
  }

  lemma {:induction false} FrontDrop(input: Bytes, n: nat, most: nat)
    requires n <= most && n <= |input|
    ensures Front(input, input[n..], most)
  {
    if n == 0 {
      assert input[0..] == input;
    } else {
      FrontDrop(input[1..], n - 1, most - 1);
      assert input[1..][n - 1..] == input[n..];
    }
  }

  lemma {:induction false} FrontMeaning(input: Bytes, channel: Bytes, most: nat)
    requires Front(input, channel, most)
    ensures 0 <= |input| - |channel| <= most && channel == input[|input| - |channel|..]
  {
    if channel == input {
    } else {
      FrontMeaning(input[1..], channel, most - 1);
    }
  }

  lemma FrontOn(input: Bytes, channel: Bytes, most: nat, later: Bytes, more: nat)
    requires Front(input, channel, most) && Front(channel, later, more)
    ensures Front(input, later, most + more)
  {
    FrontMeaning(input, channel, most);
    FrontMeaning(channel, later, more);
    var c, d := |input| - |channel|, |channel| - |later|;
    assert input[c..][d..] == input[c + d..];
    FrontDrop(input, c + d, most + more);
  }

  /** What one turn of readLine ends with. */
  datatype Piece =
    | Again             // EINTR
    | Broken            // another error
    | AtEnd             // the input has ended
    | Found(n: nat)     // n bytes, the last of them a newline
    | More(n: nat)      // n bytes without a newline

  function Size(piece: Piece): nat { if piece.Found? || piece.More? then piece.n else 0 }

  predicate PieceOk(piece: Piece, channel: Bytes) {
    match piece
    case Found(n) =>
      1 <= n <= |channel| && channel[n - 1] == NEWLINE && forall i | 0 <= i < n - 1 :: channel[i] != NEWLINE
    case More(n) => n <= |channel| && forall i | 0 <= i < n :: channel[i] != NEWLINE
    case _ => true
  }

  lemma PieceScanned(input: Bytes, channel: Bytes, filled: Bytes, k: nat, piece: Piece, room: nat)
    requires Scanned(input, channel, filled, k) && PieceOk(piece, channel) && k + Size(piece) <= room
    ensures Size(piece) <= |channel|
    ensures piece.Found? ==>
              var n := k + piece.n;
              && n <= |input| && LineLength(input, room) == n && EndsInNewline(input[..n])
              && channel[piece.n..] == input[n..] && filled + channel[..piece.n] == input[..n]
    ensures !piece.Found? ==>
              Scanned(input, channel[Size(piece)..], filled + channel[..Size(piece)], k + Size(piece))
  {
    if piece.Found? {
      ScanFound(input, channel, filled, k, piece.n - 1, room);
    } else {
      ScanOn(input, channel, filled, k, Size(piece));
    }
  }

  /** The for loop of readLine: the position of the first newline among `count` bytes, or count. */
  method FindNewline(buf: array<Byte>, at: nat, count: nat) returns (idx: nat)
    requires at + count <= buf.Length
    ensures var s := buf[at..at + count];
            idx <= count && (idx < count ==> s[idx] == NEWLINE) && forall i | 0 <= i < idx :: s[i] != NEWLINE
  {
    ghost var s := buf[at..at + count];
    idx := 0;
    while idx < count && buf[at + idx] != NEWLINE
      invariant idx <= count
      invariant forall i | 0 <= i < idx :: s[i] != NEWLINE
    {
      idx := idx + 1;
    }
  }

  /** What readLine returns for a buffer of len bytes: without a newline, `left` is subtracted at the end. */
  function LineReturn(s: Bytes, len: int): int {
    var n := LineLength(s, Max(len - 1, 0));
    if EndsInNewline(s[..n]) then n else n - (len - 1 - n)
  }

  /** The returned value is the number of bytes read exactly if the line is complete or the buffer is full. */
  lemma ReturnIsCount(s: Bytes, len: int)
    requires len >= 1
    ensures var n := LineLength(s, len - 1);
            LineReturn(s, len) == n <==> EndsInNewline(s[..n]) || n == len - 1
  {}

  /** On early end of input the value can even be the error value -1. */
  lemma ReturnLooksLikeError()
    ensures LineReturn([97], 4) == -1 && LineLength([97], 3) == 1
  {
    assert LineLength([97], 3) == 1 + LineLength([97][1..], 2);
  }

  lemma SplitTwice(s: Bytes, c: nat, n: nat)
    requires c + n <= |s|
    ensures s[..c + n] == s[..c] + s[c..][..n] && s[c + n..] == s[c..][n..]
  {}

  // ---------- The loops ----------

  class SocketIO {
    var inbound: Bytes           // what the peer sends before it closes, and has not been read yet
    var outbound: Bytes          // what has been written
    var script: seq<Outcome>     // the kernel's choices for the coming calls

    constructor (inbound: Bytes, script: seq<Outcome>)
      ensures this.inbound == inbound && this.script == script && outbound == []
    {
      this.inbound, this.script, outbound := inbound, script, [];
    }

    /** recv with MSG_PEEK: copies without consuming. */
    method Peek(buf: array<Byte>, at: nat, count: nat) returns (ret: int, eintr: bool)
      requires at + count <= buf.Length
      modifies this`script, buf
      ensures script == Later(old(script))
      ensures eintr <==> First(old(script)).Interrupted?
      ensures ret == -1 <==> First(old(script)).Interrupted? || First(old(script)).Fault?
      ensures ret != -1 ==> ret == Granted(First(old(script)), Min(count, |inbound|))
      ensures buf[..] == Splice(old(buf[..]), at, inbound[..Max(ret, 0)])
    {
      var o := First(script);
      script := Later(script);
      eintr := o.Interrupted?;
      if o.Interrupted? || o.Fault? {
        return -1, eintr;
      }
      ret := Granted(o, Min(count, |inbound|));
      var end := CopyTo(inbound[..ret], buf, at);
    }

    /** read */
    method Read(buf: array<Byte>, at: nat, count: nat) returns (ret: int, eintr: bool)
      requires at + count <= buf.Length
      modifies this`script, this`inbound, buf
      ensures script == Later(old(script))
      ensures eintr <==> First(old(script)).Interrupted?
      ensures ret == -1 <==> First(old(script)).Interrupted? || First(old(script)).Fault?
      ensures ret != -1 ==> ret == Granted(First(old(script)), Min(count, |old(inbound)|))
      ensures inbound == old(inbound)[Max(ret, 0)..]
      ensures buf[..] == Splice(old(buf[..]), at, old(inbound)[..Max(ret, 0)])
    {
      ret, eintr := Peek(buf, at, count);
      inbound := inbound[Max(ret, 0)..];
    }

    /** write */
    method Write(msg: Bytes) returns (ret: int, eintr: bool)
      requires msg != []
      modifies this`script, this`outbound
      ensures script == Later(old(script))
      ensures eintr <==> First(old(script)).Interrupted?
      ensures ret == -1 <==> First(old(script)).Interrupted? || First(old(script)).Fault?
      ensures ret == 0 <==> First(old(script)).Stalled?
      ensures First(old(script)).Moved? ==> ret == Granted(First(old(script)), |msg|)
      ensures outbound == old(outbound) + msg[..Max(ret, 0)]
    {
      var o := First(script);
      script := Later(script);
      eintr := o.Interrupted?;
      if o.Interrupted? || o.Fault? {
        ret := -1;
      } else if o.Stalled? {
        ret := 0;
      } else {
        ret := Granted(o, |msg|);
        outbound := outbound + msg[..ret];
      }
    }

    /**
     Reads len bytes into the buffer from position `at` on, or all there are; -1 if a call fails.  A negative len
     reads nothing and returns 0.
     */
    method Readn(buf: array<Byte>, at: nat, len: int) returns (r: int)
      requires at + Max(len, 0) <= buf.Length
      modifies this`script, this`inbound, buf
      ensures |script| <= |old(script)| && (Faultless(old(script)) ==> Faultless(script))
      ensures r != -1 ==> r == Min(Max(len, 0), |old(inbound)|) == |old(inbound)| - |inbound|
      ensures Faultless(old(script)) ==> r != -1
      ensures 0 <= |old(inbound)| - |inbound| <= Max(len, 0)
      ensures var c := |old(inbound)| - |inbound|;
              inbound == old(inbound)[c..] && buf[..] == Splice(old(buf[..]), at, old(inbound)[..c])
    {
      ghost var input, buffer, c := inbound, buf[..], 0;
      var left := len;
      var pos := at;
      while left > 0
        invariant |script| <= |old(script)| && (Faultless(old(script)) ==> Faultless(script))
        invariant 0 <= c <= |input| && c <= Max(len, 0) && pos == at + c && left == len - c
        invariant inbound == input[c..]
        invariant buf[..] == Splice(buffer, at, input[..c])
        decreases left, |script|, |inbound|
      {
        var ret, eintr := Read(buf, pos, left);
        SpliceTwice(buffer, at, input[..c], input[c..][..Max(ret, 0)]);
        SplitTwice(input, c, Max(ret, 0));
        if ret == -1 && eintr {
          continue;
        } else if ret == -1 {
          return -1;
        } else if ret == 0 {
          break;
        } else {
          pos := pos + ret;
          left := left - ret;
          c := c + ret;
        }
      }
      return len - left;
    }

    /** Peeks a piece and looks for a newline in it; idx == ret if there is none. */
    method PeekLine(buf: array<Byte>, at: nat, count: nat) returns (ret: int, eintr: bool, idx: nat)
      requires at + count <= buf.Length && count > 0
      modifies this`script, buf
      ensures script == Later(old(script))
      ensures eintr <==> First(old(script)).Interrupted?
      ensures ret == -1 <==> First(old(script)).Interrupted? || First(old(script)).Fault?
      ensures -1 <= ret <= count && ret <= |inbound| && (ret == 0 <==> inbound == [] && ret != -1)
      ensures ret > 0 ==> idx <= ret && (idx < ret ==> inbound[idx] == NEWLINE)
      ensures ret > 0 ==> forall i | 0 <= i < idx :: inbound[i] != NEWLINE
      ensures buf[..at] == old(buf[..at])
    {
      idx := 0;
      ret, eintr := Peek(buf, at, count);
      SpliceMeaning(old(buf[..]), at, inbound[..Max(ret, 0)]);
      if ret > 0 {
        idx := FindNewline(buf, at, ret);
        assert buf[at..at + ret] == inbound[..ret];
      }
    }

    /** Reading again what has been peeked, with the result of readn ignored. */
    method Consume(buf: array<Byte>, at: nat, len: nat)
      requires at + len <= buf.Length && len <= |inbound|
      modifies this`script, this`inbound, buf
      ensures |script| <= |old(script)| && (Faultless(old(script)) ==> Faultless(script))
      ensures Front(old(inbound), inbound, len)
      ensures Faultless(old(script)) ==>
                inbound == old(inbound)[len..] && buf[..at + len] == old(buf[..at]) + old(inbound)[..len]
    {
      var got := Readn(buf, at, len);
      SpliceMeaning(old(buf[..]), at, old(inbound)[..|old(inbound)| - |inbound|]);
      FrontDrop(old(inbound), |old(inbound)| - |inbound|, len);
      assert Faultless(old(script)) ==> buf[..at + len] == buf[..at] + buf[at..at + len];
    }

    /** Writes len bytes of msg; fewer if a call accepts nothing, -1 if one fails. */
    method Writen(msg: Bytes, len: int) returns (r: int)
      requires len <= |msg|
      modifies this`script, this`outbound
      ensures |script| <= |old(script)| && (Faultless(old(script)) ==> Faultless(script))
      ensures Faultless(old(script)) ==> r == Max(len, 0)
      ensures 0 <= |outbound| - |old(outbound)| <= Max(len, 0)
      ensures outbound == old(outbound) + msg[..|outbound| - |old(outbound)|]
      ensures r != -1 ==> r == |outbound| - |old(outbound)| || len < 0
      ensures r != -1 && r < len ==> !Faultless(old(script))
      ensures len <= 0 ==> r == 0
    {
      var left := len;
      var pos := 0;
      while left > 0
        invariant |script| <= |old(script)| && (Faultless(old(script)) ==> Faultless(script))
        invariant 0 <= pos <= Max(len, 0) && left == len - pos
        invariant outbound == old(outbound) + msg[..pos]
        decreases left, |script|
      {
        var ret, eintr := Write(msg[pos..len]);
        if ret == -1 && eintr {
          continue;
        } else if ret == -1 {
          return -1;
        } else if ret == 0 {
          break;
        } else {
          assert msg[..pos + ret] == msg[..pos] + msg[pos..len][..ret];
          pos := pos + ret;
          left := left - ret;
        }
      }
      return len - left;
    }

    /** One turn of the loop of readLine: peek a piece, and read it again up to its first newline. */
    method ReadPiece(buf: array<Byte>, at: nat, count: nat) returns (piece: Piece)
      requires at + count <= buf.Length && count > 0
      modifies this`script, this`inbound, buf
      ensures |script| <= |old(script)| && (Faultless(old(script)) ==> Faultless(script))
      ensures piece.Again? ==> |script| < |old(script)|
      ensures piece.Broken? ==> !Faultless(old(script))
      ensures piece.Found? || piece.More? ==> 1 <= piece.n <= count
      ensures Front(old(inbound), inbound, Size(piece))
      ensures piece.AtEnd? ==> inbound == []
      ensures Faultless(old(script)) ==>
                && Size(piece) <= |old(inbound)| && inbound == old(inbound)[Size(piece)..]
                && buf[..at + Size(piece)] == old(buf[..at]) + old(inbound)[..Size(piece)]
                && PieceOk(piece, old(inbound))
    {
      ghost var channel, filled := inbound, buf[..at];
      var ret, eintr, idx := PeekLine(buf, at, count);
      if ret == -1 && eintr {
        piece := Again;
      } else if ret == -1 {
        piece := Broken;
      } else if ret == 0 {
        piece := AtEnd;
      } else {
        piece := if idx < ret then Found(idx + 1) else More(ret);
        Consume(buf, at, piece.n);
      }
      if !piece.Found? && !piece.More? {
        assert filled + channel[..0] == filled && channel[0..] == channel;
      }
    }

    /**
     Reads one line into the buffer and terminates it with a NUL byte, however the peeked pieces are cut.  Without
     faults it consumes exactly the line of LineLength and returns its LineReturn; in every case it consumes a piece of
     the input that fits the buffer.
     */
    method ReadLine(buf: array<Byte>, len: int) returns (r: int)
      requires 1 <= buf.Length && len <= buf.Length
      modifies this`script, this`inbound, buf
      ensures Front(old(inbound), inbound, Max(len - 1, 0))
      ensures Faultless(old(script)) ==>
                var n := LineLength(old(inbound), Max(len - 1, 0));
                && r == (if EndsInNewline(old(inbound)[..n]) then n else 2 * n - (len - 1))
                && inbound == old(inbound)[n..]
                && n < buf.Length && buf[..n] == old(inbound)[..n] && buf[n] == 0
    {
      ghost var room := Max(len - 1, 0);
      ghost var input := inbound;
      var left := len - 1;
      var pos, total := 0, 0;
      while left > 0
        invariant |script| <= |old(script)| && (Faultless(old(script)) ==> Faultless(script))
        invariant 0 <= total <= room && pos == total && left == len - 1 - total
        invariant Front(input, inbound, total)
        invariant Faultless(old(script)) ==> Scanned(input, inbound, buf[..pos], total)
        decreases left, |script|
      {
        ghost var channel, filled := inbound, buf[..pos];
        var piece := ReadPiece(buf, pos, left);
        FrontOn(input, channel, total, inbound, Size(piece));
        FrontOn(input, inbound, total + Size(piece), inbound, room - total - Size(piece));
        if Faultless(old(script)) { PieceScanned(input, channel, filled, total, piece, room); }
        match piece {
          case Again => continue;
          case Broken => return -1;
          case AtEnd => break;
          case Found(sz) =>
            pos := pos + sz;
            filled := buf[..pos];
            buf[pos] := 0;
            assert buf[..pos] == filled;
            return total + sz;
          case More(ret) =>
            total := total + ret;
            pos := pos + ret;
            left := left - ret;
        }
      }
      FrontOn(input, inbound, total, inbound, room - total);
      if Faultless(old(script)) { LineNotFound(input, room, total); }
      ghost var filled := buf[..pos];
      buf[pos] := 0;
      assert buf[..pos] == filled;
      return total - left;
    }
  }

}
