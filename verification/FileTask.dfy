/**
 FileTask of FileServer.cc: one request of a client, over its connection, against the shared store.
 */
module FileTasks {
  import opened Options
  import opened Wire
  import opened MessageCodec
  import opened SocketIO
  import opened TcpConnections
  import opened FileStore
  import opened Frames

  // ---------- The retry loop of savefile, as a function ----------

  /** Buffer and channel after n receives. */
  function After(buffer: Bytes, channel: Bytes, asked: nat, n: nat): (r: (Bytes, Bytes))
    requires asked <= |buffer|
    ensures |r.0| == |buffer| && |r.1| <= |channel|
  {
    if n == 0 then (buffer, channel)
    else var r := After(buffer, channel, asked, n - 1); Received(r.0, r.1, asked)
  }

  /** The n-th block has the announced hash. */
  predicate Matches(md5: Bytes -> Digest, hash: Digest, buffer: Bytes, channel: Bytes, asked: nat, n: nat)
    requires asked <= |buffer|
  {
    n >= 1 && md5(After(buffer, channel, asked, n).0) == hash
  }

  ghost predicate Ends(md5: Bytes -> Digest, hash: Digest, buffer: Bytes, channel: Bytes, asked: nat)
    requires asked <= |buffer|
  {
    exists n: nat :: Matches(md5, hash, buffer, channel, asked, n)
  }

  /** The first block with the hash is number n. */
  ghost predicate FirstMatch(md5: Bytes -> Digest, hash: Digest, buffer: Bytes, channel: Bytes, asked: nat, n: nat)
    requires asked <= |buffer|
  {
    Matches(md5, hash, buffer, channel, asked, n) && NoneBefore(md5, hash, buffer, channel, asked, n)
  }

  ghost predicate NoneBefore(md5: Bytes -> Digest, hash: Digest, buffer: Bytes, channel: Bytes, asked: nat, n: nat)
    requires asked <= |buffer|
  {
    forall k: nat | k < n :: !Matches(md5, hash, buffer, channel, asked, k)
  }

  /** One more block, in a loop that has not seen the hash in its first n blocks and sees it in block `last`. */
  lemma NextBlock(md5: Bytes -> Digest, hash: Digest, buffer: Bytes, channel: Bytes, asked: nat, n: nat, last: nat)
    requires asked <= |buffer| && n < last && Matches(md5, hash, buffer, channel, asked, last)
    requires NoneBefore(md5, hash, buffer, channel, asked, n + 1)
    ensures var r := After(buffer, channel, asked, n);
            After(buffer, channel, asked, n + 1) == Received(r.0, r.1, asked)
    ensures if md5(After(buffer, channel, asked, n + 1).0) == hash then
              FirstMatch(md5, hash, buffer, channel, asked, n + 1)
            else
              n + 1 < last && NoneBefore(md5, hash, buffer, channel, asked, n + 2)
  {
    assert Matches(md5, hash, buffer, channel, asked, n + 1) <==> md5(After(buffer, channel, asked, n + 1).0) == hash;
  }

  lemma Times(n: nat, asked: nat)
    requires n > 0
    ensures n * asked == (n - 1) * asked + asked && (n - 1) * asked >= 0
  {}

  lemma DropOn(channel: Bytes, done: nat, asked: nat)
    ensures var rest := channel[Min(done, |channel|)..];
            rest[Min(asked, |rest|)..] == channel[Min(done + asked, |channel|)..]
  {}

  lemma {:induction false} ChannelShrinks(buffer: Bytes, channel: Bytes, asked: nat, n: nat)
    requires asked <= |buffer|
    ensures 0 <= n * asked && After(buffer, channel, asked, n).1 == channel[Min(n * asked, |channel|)..]
  {
    if n == 0 {
    } else {
      ChannelShrinks(buffer, channel, asked, n - 1);
      Times(n, asked);
      DropOn(channel, (n - 1) * asked, asked);
    }
  }

  /** Once the input has ended, or if nothing is asked for, further receives change nothing. */
  lemma {:induction false} NothingNewAtTheEnd(buffer: Bytes, channel: Bytes, asked: nat, m: nat, n: nat)
    requires asked <= |buffer| && m <= n
    requires After(buffer, channel, asked, m).1 == [] || asked == 0
    ensures After(buffer, channel, asked, n) == After(buffer, channel, asked, m)
    decreases n
  {
    if m == n {
    } else {
      NothingNewAtTheEnd(buffer, channel, asked, m, n - 1);
      var r := After(buffer, channel, asked, m);
      assert r.1[..0] + r.0[0..] == r.0 && r.1[0..] == r.1;
    }
  }

  lemma Consumed(channel: Bytes, asked: nat, n: nat)
    requires asked >= 1 && n >= |channel|
    ensures n * asked >= |channel|
  {}

  /**
   Whether the retry loop ever ends can be told from the first |channel| + 1 blocks: if none of them has the hash,
   the loop goes on for ever.
   */
  lemma RetryEndsEarlyOrNever(md5: Bytes -> Digest, hash: Digest, buffer: Bytes, channel: Bytes, asked: nat)
    requires asked <= |buffer|
    ensures Ends(md5, hash, buffer, channel, asked)
       <==> (exists n: nat :: n <= |channel| + 1 && Matches(md5, hash, buffer, channel, asked, n))
  {
    if n: nat :| Matches(md5, hash, buffer, channel, asked, n) && n > |channel| + 1 {
      var m := |channel| + 1;
      if asked >= 1 {
        Consumed(channel, asked, m);
        ChannelShrinks(buffer, channel, asked, m);
      } else {
        NothingNewAtTheEnd(buffer, channel, asked, 0, m);
      }
      NothingNewAtTheEnd(buffer, channel, asked, m, n);
      assert Matches(md5, hash, buffer, channel, asked, m);
    }
  }

  /** After the end of the input the loop goes on for ever, unless the buffer happens to have the announced hash. */
  lemma RetrySpinsAtTheEnd(md5: Bytes -> Digest, hash: Digest, buffer: Bytes, asked: nat)
    requires asked <= |buffer|
    ensures Ends(md5, hash, buffer, [], asked) <==> md5(buffer) == hash
  {
    NothingNewAtTheEnd(buffer, [], asked, 0, 1);
    assert Matches(md5, hash, buffer, [], asked, 1) <==> md5(buffer) == hash;
    forall n: nat | Matches(md5, hash, buffer, [], asked, n) ensures md5(buffer) == hash {
      NothingNewAtTheEnd(buffer, [], asked, 0, n);
    }
  }

  function Concat(blocks: seq<Bytes>): Bytes {
    if blocks == [] then [] else blocks[0] + Concat(blocks[1..])
  }

  lemma OneBlock(before: Bytes, b: Bytes, later: Bytes)
    requires |before| == |b|
    ensures Received(before, b + later, |b|) == (b, later)
  {
    assert (b + later)[..|b|] + before[|b|..] == b && (b + later)[|b|..] == later;
  }

  lemma ConcatFrom(blocks: seq<Bytes>, n: nat, rest: Bytes)
    requires n < |blocks|
    ensures Concat(blocks[n..]) + rest == blocks[n] + (Concat(blocks[n + 1..]) + rest)
  {
    assert blocks[n..][1..] == blocks[n + 1..];
  }

  lemma NextOfBlocks(before: Bytes, blocks: seq<Bytes>, rest: Bytes, n: nat)
    requires n < |blocks| && |blocks[n]| == |before|
    ensures Received(before, Concat(blocks[n..]) + rest, |before|) == (blocks[n], Concat(blocks[n + 1..]) + rest)
  {
    ConcatFrom(blocks, n, rest);
    OneBlock(before, blocks[n], Concat(blocks[n + 1..]) + rest);
  }

  /** On a stream of blocks of the right size the loop looks at one block after the other. */
  lemma {:induction false} BlockByBlock(buffer: Bytes, blocks: seq<Bytes>, rest: Bytes, n: nat)
    requires n <= |blocks| && forall i | 0 <= i < |blocks| :: |blocks[i]| == |buffer|
    ensures After(buffer, Concat(blocks) + rest, |buffer|, n)
         == (if n == 0 then buffer else blocks[n - 1], Concat(blocks[n..]) + rest)
  {
    if n == 0 {
      assert blocks[0..] == blocks;
    } else {
      BlockByBlock(buffer, blocks, rest, n - 1);
      NextOfBlocks(After(buffer, Concat(blocks) + rest, |buffer|, n - 1).0, blocks, rest, n - 1);
    }
  }

  /**
   The retry loop stores the first match: on a stream of blocks of the announced size, one of which has the announced
   hash, the loop ends; the block it stops at is the first with that hash, and everything after it is still unread.
   */
  lemma FirstMatchingBlock(md5: Bytes -> Digest, hash: Digest, buffer: Bytes, blocks: seq<Bytes>, rest: Bytes, k: nat)
    requires (forall i | 0 <= i < |blocks| :: |blocks[i]| == |buffer|) && k < |blocks|
    requires md5(blocks[k]) == hash && forall i | 0 <= i < k :: md5(blocks[i]) != hash
    ensures FirstMatch(md5, hash, buffer, Concat(blocks) + rest, |buffer|, k + 1)
    ensures After(buffer, Concat(blocks) + rest, |buffer|, k + 1) == (blocks[k], Concat(blocks[k + 1..]) + rest)
    ensures forall n: nat | FirstMatch(md5, hash, buffer, Concat(blocks) + rest, |buffer|, n) :: n == k + 1
  {
    var channel := Concat(blocks) + rest;
    BlockByBlock(buffer, blocks, rest, k + 1);
    forall n: nat | n < k + 1 ensures !Matches(md5, hash, buffer, channel, |buffer|, n) {
      BlockByBlock(buffer, blocks, rest, n);
    }
    assert FirstMatch(md5, hash, buffer, channel, |buffer|, k + 1);
    forall n: nat | FirstMatch(md5, hash, buffer, channel, |buffer|, n) ensures n == k + 1 {
      assert Matches(md5, hash, buffer, channel, |buffer|, n) && Matches(md5, hash, buffer, channel, |buffer|, k + 1);
    }
  }

  // ---------- The shared store ----------

  class Storage {
    var disk: map<Path, Bytes>
    var table: seq<Row>
    var cache: map<nat, set<Path>>

    constructor ()
      ensures View() == EMPTY
    {
      disk, table, cache := map[], [], map[];
    }

    function View(): Store
      reads this
    {
      Store(disk, table, cache)
    }
  }

  datatype FileHeader = FileHeader(dirid: int, md5: Digest, index: int, upload: bool, filelen: int)

  /** A struct of one bool */
  function Flag(b: bool): Bytes { if b then [1] else [0] }

  /** A client that has read this far reads a struct of one bool, and its value is b. */
  predicate Reads(stream: Bytes, at: nat, b: bool) { at < |stream| && (stream[at] != 0 <==> b) }

  lemma ReadsOn(stream: Bytes, more: Bytes, at: nat, b: bool)
    requires Reads(stream, at, b)
    ensures Reads(stream + more, at, b)
  {}

  /** The replies fileerror.error = true */
  function Errors(n: nat): (r: Bytes)
    ensures |r| == n && forall b | b in r :: b == 1
  {
    if n == 0 then [] else Errors(n - 1) + Flag(true)
  }

  /** One row of the answer of the select in getfilelist: index, path and size. */
  datatype FileInfo = FileInfo(index: int, path: Path, filesize: int)

  /** The selected rows, in the order of the table. */
  function FileList(table: seq<Row>, userid: nat, dirid: int, filename: string): seq<FileInfo> {
    if table == [] then []
    else Listed(table[0], userid, dirid, filename) + FileList(table[1..], userid, dirid, filename)
  }

  function Listed(r: Row, userid: nat, dirid: int, filename: string): seq<FileInfo> {
    if Selected(r, userid, dirid, filename) then [FileInfo(r.index, r.hashfilepath, r.filesize)] else []
  }

  lemma {:induction false} FileListAppend(table: seq<Row>, r: Row, userid: nat, dirid: int, filename: string)
    ensures FileList(table + [r], userid, dirid, filename)
         == FileList(table, userid, dirid, filename) + Listed(r, userid, dirid, filename)
    decreases |table|
  {
    if table == [] {
      assert table + [r] == [r] && [r][1..] == [];
    } else {
      assert (table + [r])[1..] == table[1..] + [r];
      FileListAppend(table[1..], r, userid, dirid, filename);
    }
  }

  lemma {:induction false} FileListEmpty(table: seq<Row>, userid: nat, dirid: int, filename: string)
    ensures FileList(table, userid, dirid, filename) == [] <==>
            forall r | r in table :: !Selected(r, userid, dirid, filename)
    decreases |table|
  {
    if table == [] {
    } else {
      FileListEmpty(table[1..], userid, dirid, filename);
      assert table == [table[0]] + table[1..];
    }
  }

  /** Positions in increasing order */
  predicate Rising(ps: seq<nat>) {
    forall j, k | 0 <= j < k < |ps| :: ps[j] < ps[k]
  }

  /** The positions of all rows of a user with this directory and logical name. */
  predicate RowsOf(table: seq<Row>, userid: nat, dirid: int, filename: string, ps: seq<nat>) {
    && Rising(ps)
    && (forall k | 0 <= k < |ps| :: ps[k] < |table|)
    && (forall i | 0 <= i < |table| ::
          i in ps <==> table[i].userid == userid && table[i].dirid == dirid && table[i].filepath == filename)
  }

  /** The entries are what these rows hold. */
  predicate TellsRows(table: seq<Row>, ps: seq<nat>, list: seq<FileInfo>) {
    && |list| == |ps|
    && (forall k | 0 <= k < |ps| ::
          && ps[k] < |table|
          && list[k].index == table[ps[k]].index && list[k].path == table[ps[k]].hashfilepath
          && list[k].filesize == table[ps[k]].filesize)
  }

  lemma NextRow(table: seq<Row>, row: Row, userid: nat, dirid: int, filename: string, ps: seq<nat>,
                list: seq<FileInfo>)
    requires RowsOf(table, userid, dirid, filename, ps) && TellsRows(table, ps, list)
    ensures if row.userid == userid && row.dirid == dirid && row.filepath == filename then
              && RowsOf(table + [row], userid, dirid, filename, ps + [|table|])
              && TellsRows(table + [row], ps + [|table|], list + [FileInfo(row.index, row.hashfilepath, row.filesize)])
            else
              RowsOf(table + [row], userid, dirid, filename, ps) && TellsRows(table + [row], ps, list)
  {
    var t := table + [row];
    forall i | 0 <= i < |table| ensures t[i] == table[i] && (i in ps + [|table|] <==> i in ps) {}
    assert |table| in ps + [|table|];
  }

  /** The bytes decode to one frame for each of these rows, with the row's index and the mapped bytes. */
  ghost predicate Delivers(table: seq<Row>, ps: seq<nat>, mapped: seq<Bytes>, sent: Bytes) {
    && |mapped| == |ps|
    && (forall k | 0 <= k < |ps| :: ps[k] < |table|)
    && DecodeStream(sent) == Some(seq(|ps|, k requires 0 <= k < |ps| => Frame(table[ps[k]].index, mapped[k])))
  }

  /** The sizes and indices that a header can hold, in files below 2^31 bytes. */
  predicate Ordinary(table: seq<Row>, mapped: seq<Bytes>) {
    && (forall r | r in table :: InRange(r.index, 32))
    && (forall m | m in mapped :: |m| < 0x8000_0000)
  }

  lemma Delivered(table: seq<Row>, ps: seq<nat>, list: seq<FileInfo>, mapped: seq<Bytes>, dirid: int, junk: seq<Junk>)
    requires TellsRows(table, ps, list) && |mapped| == |junk| == |list| && Ordinary(table, mapped)
    ensures Delivers(table, ps, mapped, Stream(dirid, FramesOf(list, mapped), junk))
  {
    var fs := FramesOf(list, mapped);
    forall f | f in fs ensures Fits(f) && |f.data| < 0x8000_0000 {
      var k :| 0 <= k < |fs| && fs[k] == f;
      assert mapped[k] in mapped && table[ps[k]] in table;
    }
    StreamDecodes(dirid, fs, junk);
    assert fs == seq(|ps|, k requires 0 <= k < |ps| => Frame(table[ps[k]].index, mapped[k]));
  }

  lemma {:induction false} FileListConcat(a: seq<Row>, b: seq<Row>, userid: nat, dirid: int, filename: string)
    ensures FileList(a + b, userid, dirid, filename)
         == FileList(a, userid, dirid, filename) + FileList(b, userid, dirid, filename)
    decreases |a|
  {
    if a == [] {
      assert a + b == b;
    } else {
      assert (a + b)[1..] == a[1..] + b;
      FileListConcat(a[1..], b, userid, dirid, filename);
    }
  }

  /** A row of another user, wherever it is in the table, is never listed. */
  lemma OthersRow(a: seq<Row>, r: Row, b: seq<Row>, userid: nat, dirid: int, filename: string)
    requires r.userid != userid
    ensures FileList(a + [r] + b, userid, dirid, filename) == FileList(a + b, userid, dirid, filename)
  {
    FileListConcat(a + [r], b, userid, dirid, filename);
    FileListAppend(a, r, userid, dirid, filename);
    FileListConcat(a, b, userid, dirid, filename);
  }

  lemma {:induction false} OthersRemoval(table: seq<Row>, other: nat, gone: int, userid: nat, dirid: int,
                                         filename: string)
    requires other != userid
    ensures FileList(Removed(table, other, gone), userid, dirid, filename) == FileList(table, userid, dirid, filename)
    decreases |table|
  {
    if table == [] {
    } else {
      assert Removed(table, other, gone)[1..] == Removed(table[1..], other, gone);
      OthersRemoval(table[1..], other, gone, userid, dirid, filename);
    }
  }

  /** What a user can download does not depend on the requests of others, whatever they do. */
  lemma {:induction false} OthersChangeNothing(s: Store, run: seq<Request>, userid: nat, dirid: int, filename: string)
    requires forall q | q in run :: q.userid != userid
    ensures FileList(FileStore.Exec(s, run).table, userid, dirid, filename)
         == FileList(s.table, userid, dirid, filename)
    decreases |run|
  {
    if run == [] {
    } else {
      var q := run[0];
      var e := FileStore.Do(s, q);
      assert q in run;
      if q.RemoveDir? {
        OthersRemoval(s.table, q.userid, q.dirid, userid, dirid, filename);
      } else if q.Upload? || q.AddDir? {
        assert e.table == s.table + [e.table[|s.table|]];
        FileListAppend(s.table, e.table[|s.table|], userid, dirid, filename);
      }
      OthersChangeNothing(e, run[1..], userid, dirid, filename);
    }
  }

  /** After a directory has been removed none of its files can be downloaded, by its owner either. */
  lemma RemovedIsGone(s: Store, userid: nat, dirid: int, filename: string)
    requires dirid != -2
    ensures FileList(FileStore.Do(s, RemoveDir(userid, dirid)).table, userid, dirid, filename) == []
  {
    FileListEmpty(Removed(s.table, userid, dirid), userid, dirid, filename);
  }

  lemma DownloadEffect(s: Store, userid: nat, dirid: int, filename: string)
    ensures FileStore.Do(s, Download(userid, filename, dirid))
         == if FileList(s.table, userid, dirid, filename) == [] then s else s.(disk := Created(s.disk, filename))
  {
    FileListEmpty(s.table, userid, dirid, filename);
  }

  /** The frames that a download sends: the indices of the rows, with the mapped bytes. */
  function FramesOf(list: seq<FileInfo>, mapped: seq<Bytes>): seq<Frame>
    requires |list| == |mapped|
  {
    seq(|list|, i requires 0 <= i < |list| => Frame(list[i].index, mapped[i]))
  }

  lemma {:induction false} StreamAppend(dirid: int, fs: seq<Frame>, junk: seq<Junk>, f: Frame, j: Junk)
    requires |fs| == |junk|
    ensures Stream(dirid, fs + [f], junk + [j]) == Stream(dirid, fs, junk) + FrameBytes(dirid, f, j)
    decreases |fs|
  {
    if fs == [] {
      assert fs + [f] == [f] && junk + [j] == [j] && [f][1..] == [] && [j][1..] == [];
    } else {
      assert (fs + [f])[1..] == fs[1..] + [f] && (junk + [j])[1..] == junk[1..] + [j];
      StreamAppend(dirid, fs[1..], junk[1..], f, j);
    }
  }

  /** What the first n turns of the download have sent. */
  function Sent(dirid: int, list: seq<FileInfo>, mapped: seq<Bytes>, junk: seq<Junk>, n: nat): Bytes
    requires n <= |list| == |mapped| == |junk|
  {
    if n == 0 then []
    else
      Sent(dirid, list, mapped, junk, n - 1)
      + FrameBytes(dirid, Frame(list[n - 1].index, mapped[n - 1]), junk[n - 1])
  }

  /** The disk after opening a file n times. */
  function Opened(disk: map<Path, Bytes>, path: Path, n: nat): map<Path, Bytes> {
    if n == 0 then disk else Created(Opened(disk, path, n - 1), path)
  }

  lemma {:induction false} OpenedOnce(disk: map<Path, Bytes>, path: Path, n: nat)
    requires n > 0
    ensures Opened(disk, path, n) == Created(disk, path)
  {
    if n == 1 {
      assert Opened(disk, path, 0) == disk;
    } else {
      OpenedOnce(disk, path, n - 1);
    }
  }

  lemma SentNext(before: Bytes, dirid: int, list: seq<FileInfo>, mapped: seq<Bytes>, junk: seq<Junk>, n: nat)
    requires n < |list| == |mapped| == |junk|
    ensures before + Sent(dirid, list, mapped, junk, n + 1)
         == before + Sent(dirid, list, mapped, junk, n) + FrameBytes(dirid, Frame(list[n].index, mapped[n]), junk[n])
  {}

  lemma {:induction false} SentPrefix(dirid: int, list: seq<FileInfo>, mapped: seq<Bytes>, junk: seq<Junk>, n: nat)
    requires n <= |list| == |mapped| == |junk|
    ensures Sent(dirid, list, mapped, junk, n) == Stream(dirid, FramesOf(list, mapped)[..n], junk[..n])
  {
    if n == 0 {
    } else {
      var fs := FramesOf(list, mapped);
      SentPrefix(dirid, list, mapped, junk, n - 1);
      StreamAppend(dirid, fs[..n - 1], junk[..n - 1], fs[n - 1], junk[n - 1]);
      assert fs[..n] == fs[..n - 1] + [fs[n - 1]] && junk[..n] == junk[..n - 1] + [junk[n - 1]];
    }
  }

  /** The turns together have sent the stream of all frames. */
  lemma SentAll(dirid: int, list: seq<FileInfo>, mapped: seq<Bytes>, junk: seq<Junk>)
    requires |list| == |mapped| == |junk|
    ensures Sent(dirid, list, mapped, junk, |list|) == Stream(dirid, FramesOf(list, mapped), junk)
  {
    SentPrefix(dirid, list, mapped, junk, |list|);
    assert FramesOf(list, mapped)[..|list|] == FramesOf(list, mapped) && junk[..|list|] == junk;
  }

  /**
   What an upload leaves on the connection.  A known file is answered with true and nothing is read; otherwise the
   answer is false, block n is the first with the announced hash, every earlier one has been answered with an error, and
   nothing behind block n has been read.
   */
  ghost predicate Answered(md5: Bytes -> Digest, fh: FileHeader, known: bool, buffer: Bytes, channel: Bytes, out: Bytes,
                           content: Bytes, n: nat, channel': Bytes, out': Bytes)
    requires Asked(fh.filelen) <= |buffer|
  {
    && Reads(out', |out|, known)
    && if known then
      channel' == channel && out' == out + Flag(true)
    else
      && FirstMatch(md5, fh.md5, buffer, channel, Asked(fh.filelen), n) && |content| == |buffer|
      && (content, channel') == After(buffer, channel, Asked(fh.filelen), n)
      && out' == out + Flag(false) + Errors(n - 1)
  }

  lemma KnownIsListed(md5: Bytes -> Digest, s: Store, path: Path, userid: nat)
    requires path != ""
    ensures Inv(md5, s) ==> (Exists(s, path, userid) <==> path in Paths(s.table))
  {
    if Inv(md5, s) { ExistsIsMembership(md5, s, path, userid); }
  }

  // ---------- The task ----------

  class FileTask {
    const con: TcpConnection
    const storage: Storage
    const md5: Bytes -> Digest

    constructor (con: TcpConnection, storage: Storage, md5: Bytes -> Digest)
      ensures this.con == con && this.storage == storage && this.md5 == md5
    {
      this.con, this.storage, this.md5 := con, storage, md5;
    }

    method IsFileExits(filename: Path, userid: nat) returns (r: bool)
      ensures r <==> Exists(storage.View(), filename, userid)
      ensures r <==> (userid in storage.cache && filename in storage.cache[userid]) ||
                     (exists row | row in storage.table :: row.hashfilepath == filename)
    {
      CountIsMembership(storage.table, filename);
      var res := userid in storage.cache && filename in storage.cache[userid];
      if res {
        return true;
      }
      var row := Count(storage.table, filename);
      return row > 0;
    }

    /** _con->send of a struct that holds one bool */
    method SendFlag(b: bool)
      requires Faultless(con.sockIO.script)
      modifies con.sockIO`script, con.sockIO`outbound
      ensures Faultless(con.sockIO.script) && con.sockIO.outbound == old(con.sockIO.outbound) + Flag(b)
      ensures Reads(con.sockIO.outbound, |old(con.sockIO.outbound)|, b)
    {
      AskedIsSize(1);
      con.Send(Flag(b), 1);
      assert Flag(b)[..1] == Flag(b);
    }

    /** One turn of the retry loop: one block, and an error in reply if it has another hash. */
    method ReceiveBlock(fh: FileHeader, buf: array<Byte>) returns (same: bool)
      requires Faultless(con.sockIO.script) && buf.Length == fh.filelen && Asked(fh.filelen) <= buf.Length
      modifies con.sockIO, buf
      ensures Faultless(con.sockIO.script)
      ensures (buf[..], con.sockIO.inbound) == Received(old(buf[..]), old(con.sockIO.inbound), Asked(fh.filelen))
      ensures same <==> md5(buf[..]) == fh.md5
      ensures con.sockIO.outbound == old(con.sockIO.outbound) + if same then [] else Flag(true)
    {
      con.Receive(buf, fh.filelen);
      same := md5(buf[..]) == fh.md5;
      if !same {
        ghost var b, c := buf[..], con.sockIO.inbound;
        SendFlag(true);
        assert buf[..] == b && con.sockIO.inbound == c;
      }
    }

    /**
     The retry loop of savefile.  It stops at the first block n with the right hash, has answered every earlier block
     with one error, and has consumed nothing beyond block n.  The precondition is exactly the condition under which
     the loop of the source ends.
     */
    method ReceiveMatching(fh: FileHeader, buf: array<Byte>) returns (ghost n: nat)
      requires Faultless(con.sockIO.script) && buf.Length == fh.filelen && Asked(fh.filelen) <= buf.Length
      requires Ends(md5, fh.md5, buf[..], con.sockIO.inbound, Asked(fh.filelen))
      modifies con.sockIO, buf
      ensures Faultless(con.sockIO.script)
      ensures var asked, b, c := Asked(fh.filelen), old(buf[..]), old(con.sockIO.inbound);
              && FirstMatch(md5, fh.md5, b, c, asked, n)
              && con.sockIO.outbound == old(con.sockIO.outbound) + Errors(n - 1)
              && (buf[..], con.sockIO.inbound) == After(b, c, asked, n)
    {
      n := 0;
      ghost var asked, b, c, out := Asked(fh.filelen), buf[..], con.sockIO.inbound, con.sockIO.outbound;
      ghost var last: nat :| Matches(md5, fh.md5, b, c, asked, last);
      while true
        invariant Faultless(con.sockIO.script)
        invariant n < last && NoneBefore(md5, fh.md5, b, c, asked, n + 1)
        invariant (buf[..], con.sockIO.inbound) == After(b, c, asked, n)
        invariant con.sockIO.outbound == out + Errors(n)
        decreases last - n
      {
        NextBlock(md5, fh.md5, b, c, asked, n, last);
        var same := ReceiveBlock(fh, buf);
        n := n + 1;
        if same {
          break;
        }
      }
    }

    /**
     buf is the memory that new char[filelen] returns, with whatever it holds.  If the file is known, nothing is read
     and the disk stays as it is; otherwise the first block with the right hash is appended to the file.
     */
    method SaveFile(fh: FileHeader, userid: nat, buf: array<Byte>) returns (filename: Path, ghost n: nat)
      requires Faultless(con.sockIO.script) && buf.Length == fh.filelen && Asked(fh.filelen) <= buf.Length
      requires Exists(storage.View(), PathOf(fh.md5), userid) ||
               Ends(md5, fh.md5, buf[..], con.sockIO.inbound, Asked(fh.filelen))
      modifies con.sockIO, storage`disk, buf
      ensures Faultless(con.sockIO.script) && filename == PathOf(fh.md5)
      ensures Reads(con.sockIO.outbound, |old(con.sockIO.outbound)|,
                    old(Exists(storage.View(), PathOf(fh.md5), userid)))
      ensures Inv(md5, old(storage.View())) ==>
                Reads(con.sockIO.outbound, |old(con.sockIO.outbound)|, PathOf(fh.md5) in Paths(old(storage.table)))
      ensures old(Exists(storage.View(), PathOf(fh.md5), userid)) ==>
                && storage.disk == old(storage.disk) && con.sockIO.inbound == old(con.sockIO.inbound)
                && con.sockIO.outbound == old(con.sockIO.outbound) + Flag(true)
      ensures !old(Exists(storage.View(), PathOf(fh.md5), userid)) ==>
                var asked, b, c := Asked(fh.filelen), old(buf[..]), old(con.sockIO.inbound);
                && FirstMatch(md5, fh.md5, b, c, asked, n)
                && con.sockIO.outbound == old(con.sockIO.outbound) + Flag(false) + Errors(n - 1)
                && con.sockIO.inbound == After(b, c, asked, n).1 && buf[..] == After(b, c, asked, n).0
                && storage.disk == Appended(old(storage.disk), filename, buf[..])
    {
      n := 0;
      filename := BuildName(fh.md5);
      KnownIsListed(md5, storage.View(), filename, userid);
      var isexits := IsFileExits(filename, userid);
      ghost var b, c := buf[..], con.sockIO.inbound;
      SendFlag(isexits);
      if isexits {
        return;
      }
      assert buf[..] == b && con.sockIO.inbound == c;
      ghost var out, from := con.sockIO.outbound, |old(con.sockIO.outbound)|;
      n := ReceiveMatching(fh, buf);
      ReadsOn(out, Errors(n - 1), from, isexits);
      storage.disk := Appended(storage.disk, filename, buf[..]);
    }

    /** ps are the positions of the rows that the select finds. */
    method GetFileList(uid: nat, dirid: int, filename: string) returns (list: seq<FileInfo>, ghost ps: seq<nat>)
      ensures list == FileList(storage.table, uid, dirid, filename)
      ensures RowsOf(storage.table, uid, dirid, filename, ps) && TellsRows(storage.table, ps, list)
    {
      list, ps := [], [];
      var i := 0;
      while i < |storage.table|
        invariant i <= |storage.table|
        invariant list == FileList(storage.table[..i], uid, dirid, filename)
        invariant RowsOf(storage.table[..i], uid, dirid, filename, ps) && TellsRows(storage.table[..i], ps, list)
      {
        var row := storage.table[i];
        FileListAppend(storage.table[..i], row, uid, dirid, filename);
        NextRow(storage.table[..i], row, uid, dirid, filename, ps, list);
        assert storage.table[..i + 1] == storage.table[..i] + [row];
        if Selected(row, uid, dirid, filename) {
          list := list + [FileInfo(row.index, row.hashfilepath, row.filesize)];
          ps := ps + [i];
        }
        i := i + 1;
      }
      assert storage.table[..i] == storage.table;
    }

    /**
     Sends one frame a row.  mapped[i] is what mmap gives for row i, as many bytes as the row says; junk[i] is what
     the uninitialised part of the header holds.
     */
    method DownloadFile(fh: FileHeader, filename: string, userid: nat, mapped: seq<Bytes>, junk: seq<Junk>)
      returns (ghost ps: seq<nat>)
      requires Faultless(con.sockIO.script)
      requires var list := FileList(storage.table, userid, fh.dirid, filename);
               |list| == |mapped| == |junk| && forall i | 0 <= i < |list| :: |mapped[i]| == list[i].filesize
      modifies con.sockIO, storage`disk
      ensures Faultless(con.sockIO.script) && con.sockIO.inbound == old(con.sockIO.inbound)
      ensures con.sockIO.outbound == old(con.sockIO.outbound)
              + Stream(fh.dirid, FramesOf(FileList(storage.table, userid, fh.dirid, filename), mapped), junk)
      ensures RowsOf(storage.table, userid, fh.dirid, filename, ps)
      ensures Ordinary(storage.table, mapped) ==>
                Delivers(storage.table, ps, mapped, con.sockIO.outbound[|old(con.sockIO.outbound)|..])
      ensures storage.View() == FileStore.Do(old(storage.View()), Download(userid, filename, fh.dirid))
    {
      var filelist;
      filelist, ps := GetFileList(userid, fh.dirid, filename);
      DownloadEffect(storage.View(), userid, fh.dirid, filename);
      SendFiles(fh.dirid, filename, filelist, mapped, junk);
      if filelist != [] {
        OpenedOnce(old(storage.disk), filename, |filelist|);
      }
      SentAll(fh.dirid, filelist, mapped, junk);
      if Ordinary(storage.table, mapped) {
        Delivered(storage.table, ps, filelist, mapped, fh.dirid, junk);
      }
    }

    /** The loop of downloadfile. */
    method SendFiles(dirid: int, filename: string, list: seq<FileInfo>, mapped: seq<Bytes>, junk: seq<Junk>)
      requires Faultless(con.sockIO.script)
      requires |list| == |mapped| == |junk| && forall i | 0 <= i < |list| :: |mapped[i]| == list[i].filesize
      modifies con.sockIO`script, con.sockIO`outbound, storage`disk
      ensures Faultless(con.sockIO.script)
      ensures con.sockIO.outbound == old(con.sockIO.outbound) + Sent(dirid, list, mapped, junk, |list|)
      ensures storage.disk == Opened(old(storage.disk), filename, |list|)
    {
      ghost var out := con.sockIO.outbound;
      var i := 0;
      while i < |list|
        invariant i <= |list| && Faultless(con.sockIO.script)
        invariant con.sockIO.outbound == out + Sent(dirid, list, mapped, junk, i)
        invariant storage.disk == Opened(old(storage.disk), filename, i)
      {
        SentNext(out, dirid, list, mapped, junk, i);
        SendFile(dirid, filename, list[i], mapped[i], junk[i]);
        i := i + 1;
      }
    }

    /** One turn of the loop of downloadfile: open, and send the header and the mapped bytes. */
    method SendFile(dirid: int, filename: string, info: FileInfo, data: Bytes, junk: Junk)
      requires Faultless(con.sockIO.script) && |data| == info.filesize
      modifies con.sockIO`script, con.sockIO`outbound, storage`disk
      ensures Faultless(con.sockIO.script)
      ensures con.sockIO.outbound == old(con.sockIO.outbound) + FrameBytes(dirid, Frame(info.index, data), junk)
      ensures storage.disk == Created(old(storage.disk), filename)
    {
      storage.disk := Created(storage.disk, filename);
      SendFrame(Header(dirid, info.index, info.filesize, junk), data);
    }

    /** The two sends of downloadfile. */
    method SendFrame(header: Bytes, data: Bytes)
      requires Faultless(con.sockIO.script) && |header| == HEADER_SIZE
      modifies con.sockIO`script, con.sockIO`outbound
      ensures Faultless(con.sockIO.script) && Asked(|data|) <= |data|
      ensures con.sockIO.outbound == old(con.sockIO.outbound) + (header + data[..Asked(|data|)])
    {
      AskedIsSize(HEADER_SIZE);
      con.Send(header, HEADER_SIZE);
      assert header[..HEADER_SIZE] == header;
      con.Send(data, |data|);
    }

    /**
     process, once the request has been decoded: the session's user if there is one, the file name and the header.
     An upload is the store's Upload followed by the loss of the user's cache key; only for an upload there is a buffer
     of the announced length.  For a new file, block n of what follows the request is stored.
     */
    method Process(user: Option<nat>, filename: string, fh: FileHeader, buf: array<Byte>, mapped: seq<Bytes>,
                   junk: seq<Junk>)
      returns (ghost content: Bytes, ghost n: nat, ghost ps: seq<nat>)
      requires Faultless(con.sockIO.script)
      requires user.Some? && fh.upload ==> buf.Length == fh.filelen && Asked(fh.filelen) <= buf.Length
      requires user.Some? && fh.upload ==>
                 Exists(storage.View(), PathOf(fh.md5), user.value) ||
                 Ends(md5, fh.md5, buf[..], con.sockIO.inbound, Asked(fh.filelen))
      requires user.Some? && !fh.upload ==>
                 var list := FileList(storage.table, user.value, fh.dirid, filename);
                 |list| == |mapped| == |junk| && forall i | 0 <= i < |list| :: |mapped[i]| == list[i].filesize
      modifies con.sockIO, storage, buf
      ensures Reads(con.sockIO.outbound, |old(con.sockIO.outbound)|, user.Some?)
      ensures user.Some? && fh.upload ==>
                && Reads(con.sockIO.outbound, |old(con.sockIO.outbound)| + 1,
                         old(Exists(storage.View(), PathOf(fh.md5), user.value)))
                && (Inv(md5, old(storage.View())) ==>
                      Reads(con.sockIO.outbound, |old(con.sockIO.outbound)| + 1,
                            PathOf(fh.md5) in Paths(old(storage.table))))
                && user.value !in storage.cache
      ensures user.Some? && !fh.upload ==>
                && RowsOf(storage.table, user.value, fh.dirid, filename, ps)
                && (Ordinary(storage.table, mapped) ==>
                      Delivers(storage.table, ps, mapped, con.sockIO.outbound[|old(con.sockIO.outbound)| + 1..]))
      ensures user == None ==>
                && storage.View() == old(storage.View()) && con.sockIO.inbound == old(con.sockIO.inbound)
                && con.sockIO.outbound == old(con.sockIO.outbound) + Flag(false)
      ensures user.Some? && fh.upload ==>
                var q := Upload(user.value, filename, fh.md5, fh.index, fh.dirid, fh.filelen, content);
                && Enabled(md5, old(storage.View()), q)
                && storage.View() == FileStore.Do(FileStore.Do(old(storage.View()), q), DropCache(user.value))
      ensures user.Some? && fh.upload ==>
                Answered(md5, fh, old(Exists(storage.View(), PathOf(fh.md5), user.value)), old(buf[..]),
                         old(con.sockIO.inbound), old(con.sockIO.outbound) + Flag(true),
                         content, n, con.sockIO.inbound, con.sockIO.outbound)
      ensures user.Some? && !fh.upload ==>
                && storage.View() == FileStore.Do(old(storage.View()), Download(user.value, filename, fh.dirid))
                && con.sockIO.inbound == old(con.sockIO.inbound)
                && con.sockIO.outbound == old(con.sockIO.outbound) + Flag(true)
                   + Stream(fh.dirid, FramesOf(FileList(storage.table, user.value, fh.dirid, filename), mapped), junk)
    {
      content, n, ps := [], 0, [];
      ghost var b, c := buf[..], con.sockIO.inbound;
      SendFlag(user.Some?);
      if user == None {
        return;
      }
      if fh.upload {
        assert buf[..] == b && con.sockIO.inbound == c && storage.View() == old(storage.View());
        KnownIsListed(md5, storage.View(), PathOf(fh.md5), user.value);
        content, n := ProcessUpload(user.value, filename, fh, buf);
      } else {
        ps := DownloadFile(fh, filename, user.value, mapped, junk);
      }
    }

    /** The upload branch of process. */
    method ProcessUpload(userid: nat, filename: string, fh: FileHeader, buf: array<Byte>)
      returns (ghost content: Bytes, ghost n: nat)
      requires Faultless(con.sockIO.script) && buf.Length == fh.filelen && Asked(fh.filelen) <= buf.Length
      requires Exists(storage.View(), PathOf(fh.md5), userid) ||
               Ends(md5, fh.md5, buf[..], con.sockIO.inbound, Asked(fh.filelen))
      modifies con.sockIO, storage, buf
      ensures var q := Upload(userid, filename, fh.md5, fh.index, fh.dirid, fh.filelen, content);
              && Enabled(md5, old(storage.View()), q)
              && storage.View() == FileStore.Do(FileStore.Do(old(storage.View()), q), DropCache(userid))
      ensures Answered(md5, fh, old(Exists(storage.View(), PathOf(fh.md5), userid)), old(buf[..]),
                       old(con.sockIO.inbound), old(con.sockIO.outbound),
                       content, n, con.sockIO.inbound, con.sockIO.outbound)
      ensures userid !in storage.cache
    {
      var hashfilepath, m := SaveFile(fh, userid, buf);
      content, n := buf[..], m;
      storage.table := storage.table + [Row(userid, filename, fh.index, hashfilepath, fh.dirid, fh.filelen)];
      storage.cache := storage.cache[userid := Cached(storage.View(), userid) + {hashfilepath}];
      storage.cache := storage.cache - {userid};
    }
  }

}
