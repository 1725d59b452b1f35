/**
 The content-addressed store of FileServer.cc as a state machine: disk, table and cache, and the requests that
 change them, one at a time.

 MD5 is a parameter: any function from bytes to 16 bytes.
 */
module FileStore {
  import opened Options
  import opened Wire

  type Digest = d: Bytes | |d| == 16 witness [0, 0, 0, 0, 0, 0, 0, 0, 0, 0, 0, 0, 0, 0, 0, 0]

  type Path = string

  // ---------- Names ----------

  const HOME: Path := "/home/filedisk/"

  const HEX_DIGITS: string := "0123456789abcdef"

  /** sprintf with the format %02x */
  function Hex(b: Byte): string { [HEX_DIGITS[b / 16], HEX_DIGITS[b % 16]] }

  function HexAll(bs: Bytes): string {
    if bs == [] then "" else Hex(bs[0]) + HexAll(bs[1..])
  }

  /** The path a file with this hash is stored under. */
  function PathOf(d: Digest): Path { HOME + HexAll(d) }

  lemma HexDigitInjective(i: nat, j: nat)
    requires i < 16 && j < 16 && HEX_DIGITS[i] == HEX_DIGITS[j]
    ensures i == j
  {}

  lemma HexInjective(a: Byte, b: Byte)
    requires Hex(a) == Hex(b)
    ensures a == b
  {
    assert Hex(a)[0] == HEX_DIGITS[a / 16] && Hex(a)[1] == HEX_DIGITS[a % 16];
    HexDigitInjective(a / 16, b / 16);
    HexDigitInjective(a % 16, b % 16);
  }

  lemma {:induction false} HexAllInjective(xs: Bytes, ys: Bytes)
    requires |xs| == |ys| && HexAll(xs) == HexAll(ys)
    ensures xs == ys
    decreases |xs|
  {
    if xs == [] {
    } else {
      assert HexAll(xs)[..2] == Hex(xs[0]) && HexAll(xs)[2..] == HexAll(xs[1..]);
      assert HexAll(ys)[..2] == Hex(ys[0]) && HexAll(ys)[2..] == HexAll(ys[1..]);
      HexInjective(xs[0], ys[0]);
      HexAllInjective(xs[1..], ys[1..]);
      assert xs == [xs[0]] + xs[1..] && ys == [ys[0]] + ys[1..];
    }
  }

  /** Different hashes are stored under different names. */
  lemma PathInjective(d: Digest, e: Digest)
    requires PathOf(d) == PathOf(e)
    ensures d == e
  {
    assert PathOf(d)[|HOME|..] == HexAll(d) && PathOf(e)[|HOME|..] == HexAll(e);
    HexAllInjective(d, e);
  }

  /** The value of a hex digit. */
  function DigitValue(c: char): int {
    if '0' <= c <= '9' then c as int - '0' as int else c as int - 'a' as int + 10
  }

  /** What a name spells: two digits to the byte, the more significant one first. */
  function Spelled(s: string): seq<int> {
    if |s| < 2 then [] else [16 * DigitValue(s[0]) + DigitValue(s[1])] + Spelled(s[2..])
  }

  lemma DigitHasValue(i: nat)
    requires i < 16
    ensures DigitValue(HEX_DIGITS[i]) == i
  {}

  lemma PairHasValue(b: Byte)
    ensures 16 * DigitValue(Hex(b)[0]) + DigitValue(Hex(b)[1]) == b
  {
    assert Hex(b)[0] == HEX_DIGITS[b / 16] && Hex(b)[1] == HEX_DIGITS[b % 16];
    DigitHasValue(b / 16);
    DigitHasValue(b % 16);
  }

  lemma HexAllParts(bs: Bytes)
    requires bs != []
    ensures var s := HexAll(bs);
            |s| >= 2 && s[0] == Hex(bs[0])[0] && s[1] == Hex(bs[0])[1] && s[2..] == HexAll(bs[1..])
  {
    var s, h := HexAll(bs), Hex(bs[0]);
    assert s == h + HexAll(bs[1..]) && |h| == 2;
  }

  lemma SpelledPair(s: string, b: Byte, rest: string)
    requires |s| >= 2 && s[0] == Hex(b)[0] && s[1] == Hex(b)[1] && s[2..] == rest
    ensures Spelled(s) == [b as int] + Spelled(rest)
  {
    PairHasValue(b);
    assert 16 * DigitValue(s[0]) + DigitValue(s[1]) == b;
  }

  lemma {:induction false} HexSpells(bs: Bytes)
    ensures Spelled(HexAll(bs)) == bs
    decreases |bs|
  {
    if bs == [] {
    } else {
      HexAllParts(bs);
      SpelledPair(HexAll(bs), bs[0], HexAll(bs[1..]));
      HexSpells(bs[1..]);
      assert bs == [bs[0]] + bs[1..];
    }
  }

  /** The name of a stored file spells its hash. */
  lemma PathSpells(d: Digest)
    ensures |HOME| <= |PathOf(d)| && Spelled(PathOf(d)[|HOME|..]) == d
  {
    HexSpells(d);
    assert PathOf(d)[|HOME|..] == HexAll(d);
  }

  lemma {:induction false} HexAllAppend(xs: Bytes, b: Byte)
    ensures HexAll(xs + [b]) == HexAll(xs) + Hex(b)
    decreases |xs|
  {
    if xs == [] {
      assert xs + [b] == [b] && [b][1..] == [];
    } else {
      assert (xs + [b])[1..] == xs[1..] + [b];
      HexAllAppend(xs[1..], b);
    }
  }

  /** The loop of savefile that spells the hash. */
  method BuildName(md5: Digest) returns (filename: Path)
    ensures filename == PathOf(md5)
  {
    filename := HOME;
    for i := 0 to 16
      invariant filename == HOME + HexAll(md5[..i])
    {
      HexAllAppend(md5[..i], md5[i]);
      assert md5[..i + 1] == md5[..i] + [md5[i]];
      filename := filename + Hex(md5[i]);
    }
    assert md5[..16] == md5;
  }

  // ---------- State ----------

  /** One row of the table filetree; directories have an empty hashfilepath. */
  datatype Row = Row(userid: nat, filepath: string, index: int, hashfilepath: Path, dirid: int, filesize: int)

  datatype Store = Store(
    disk: map<Path, Bytes>,
    table: seq<Row>,
    cache: map<nat, set<Path>>)   // the Redis set under each user's key

  const EMPTY := Store(map[], [], map[])

  function Paths(table: seq<Row>): set<Path> {
    set r | r in table && r.hashfilepath != "" :: r.hashfilepath
  }

  function Cached(s: Store, userid: nat): set<Path> {
    if userid in s.cache then s.cache[userid] else {}
  }

  /** select count(*) from filetree where hashfilepath = path */
  function Count(table: seq<Row>, path: Path): nat {
    if table == [] then 0 else (if table[0].hashfilepath == path then 1 else 0) + Count(table[1..], path)
  }

  /** isfileexits: the cache first, then the table. */
  predicate Exists(s: Store, path: Path, userid: nat) {
    path in Cached(s, userid) || Count(s.table, path) > 0
  }

  /** What open with O_CREAT leaves on disk. */
  function Created(disk: map<Path, Bytes>, path: Path): map<Path, Bytes> {
    if path in disk then disk else disk[path := []]
  }

  /** open with O_CREAT and O_APPEND, write, close. */
  function Appended(disk: map<Path, Bytes>, path: Path, content: Bytes): map<Path, Bytes> {
    Created(disk, path)[path := Created(disk, path)[path] + content]
  }

  // ---------- Requests ----------

  datatype Request =
    | Upload(userid: nat, filename: string, hash: Digest, index: int, dirid: int, filelen: int, content: Bytes)
    | DropCache(userid: nat)                        // the setex after an upload, or the expiry of the key
    | RemoveDir(userid: nat, dirid: int)            // httppart: the rows keep their files
    | AddDir(userid: nat, filename: string, dirid: int)
    | Download(userid: nat, filename: string, dirid: int)

  /** savefile has stopped: the file was known, or a block with the announced hash has arrived. */
  predicate Enabled(md5: Bytes -> Digest, s: Store, q: Request) {
    q.Upload? ==> Exists(s, PathOf(q.hash), q.userid) || md5(q.content) == q.hash
  }

  /** update filetree set dirid = -2 where userid = ... and dirid = ... */
  function Removed(table: seq<Row>, userid: nat, dirid: int): seq<Row> {
    seq(|table|, i requires 0 <= i < |table| =>
      if table[i].userid == userid && table[i].dirid == dirid then table[i].(dirid := -2) else table[i])
  }

  predicate Selected(r: Row, userid: nat, dirid: int, filename: string) {
    r.userid == userid && r.dirid == dirid && r.filepath == filename
  }

  function Do(s: Store, q: Request): Store {
    match q
    case Upload(userid, filename, hash, index, dirid, filelen, content) =>
      var path := PathOf(hash);
      Store(if Exists(s, path, userid) then s.disk else Appended(s.disk, path, content),
            s.table + [Row(userid, filename, index, path, dirid, filelen)],
            s.cache[userid := Cached(s, userid) + {path}])
    case DropCache(userid) => s.(cache := s.cache - {userid})
    case RemoveDir(userid, dirid) => s.(table := Removed(s.table, userid, dirid))
    case AddDir(userid, filename, dirid) => s.(table := s.table + [Row(userid, filename, 0, "", dirid, 0)])
    case Download(userid, filename, dirid) =>
      if exists r | r in s.table :: Selected(r, userid, dirid, filename)
      then s.(disk := Created(s.disk, filename))
      else s
  }

  predicate Legal(md5: Bytes -> Digest, s: Store, run: seq<Request>)
    decreases |run|
  {
    run == [] || (Enabled(md5, s, run[0]) && Legal(md5, Do(s, run[0]), run[1..]))
  }

  function Exec(s: Store, run: seq<Request>): Store
    decreases |run|
  {
    if run == [] then s else Exec(Do(s, run[0]), run[1..])
  }

  // ---------- Invariant ----------

  ghost predicate Inv(md5: Bytes -> Digest, s: Store) {
    && (forall p | p in Paths(s.table) :: p in s.disk && p == PathOf(md5(s.disk[p])))
    && (forall p | p in s.disk :: p in Paths(s.table) || s.disk[p] == [])
    && (forall u | u in s.cache :: s.cache[u] <= Paths(s.table))
  }

  lemma {:induction false} CountIsMembership(table: seq<Row>, path: Path)
    ensures Count(table, path) > 0 <==> exists r | r in table :: r.hashfilepath == path
    ensures path != "" ==> (Count(table, path) > 0 <==> path in Paths(table))
    decreases |table|
  {
    if table == [] {
    } else {
      CountIsMembership(table[1..], path);
      assert table == [table[0]] + table[1..];
      if r :| r in table && r.hashfilepath == path {
        assert r == table[0] || r in table[1..];
      }
    }
  }

  /** isfileexits answers exactly whether the table holds the path, whatever the cache holds. */
  lemma ExistsIsMembership(md5: Bytes -> Digest, s: Store, path: Path, userid: nat)
    requires Inv(md5, s) && path != ""
    ensures Exists(s, path, userid) <==> path in Paths(s.table)
  {
    CountIsMembership(s.table, path);
  }

  lemma PathsAppend(table: seq<Row>, r: Row)
    ensures Paths(table + [r]) == Paths(table) + if r.hashfilepath == "" then {} else {r.hashfilepath}
  {
    var t := table + [r];
    assert t[|table|] == r;
    forall p | p in Paths(table) ensures p in Paths(t) {
      var x :| x in table && x.hashfilepath == p;
      assert x in t;
    }
    if r.hashfilepath != "" { assert r in t; }
  }

  lemma PathsRemoved(table: seq<Row>, userid: nat, dirid: int)
    ensures Paths(Removed(table, userid, dirid)) == Paths(table)
  {
    var t := Removed(table, userid, dirid);
    forall p | p in Paths(table) ensures p in Paths(t) {
      var i :| 0 <= i < |table| && table[i].hashfilepath == p;
      assert t[i] in t;
    }
    forall p | p in Paths(t) ensures p in Paths(table) {
      var i :| 0 <= i < |t| && t[i].hashfilepath == p;
      assert table[i] in table;
    }
  }

  /**
   What the requests of the RPC server do to the table.  A removed directory keeps its rows, under number -2; a new one
   is a row without a file.
   */
  lemma DirectoryRows(s: Store, userid: nat, dirid: int, filename: string)
    ensures var t := Do(s, RemoveDir(userid, dirid)).table;
            && |t| == |s.table|
            && (forall i | 0 <= i < |t| && s.table[i].userid == userid && s.table[i].dirid == dirid ::
                  t[i].dirid == -2 && t[i].userid == userid && t[i].filepath == s.table[i].filepath
                  && t[i].index == s.table[i].index && t[i].hashfilepath == s.table[i].hashfilepath
                  && t[i].filesize == s.table[i].filesize)
            && (forall i | 0 <= i < |t| && !(s.table[i].userid == userid && s.table[i].dirid == dirid) ::
                  t[i] == s.table[i])
    ensures var t := Do(s, AddDir(userid, filename, dirid)).table;
            t == s.table + [Row(userid, filename, 0, "", dirid, 0)]
  {}

  /** What the uploads and the expiry of a key do to the cache. */
  lemma CacheOfUsers(s: Store, q: Request, userid: nat)
    ensures q.Upload? && q.userid == userid ==> Cached(Do(s, q), userid) == Cached(s, userid) + {PathOf(q.hash)}
    ensures q.DropCache? && q.userid == userid ==> userid !in Do(s, q).cache
    ensures q.userid != userid || (!q.Upload? && !q.DropCache?) ==>
              && Cached(Do(s, q), userid) == Cached(s, userid)
              && (userid in Do(s, q).cache <==> userid in s.cache)
  {}

  /** A download leaves the file it opens on disk, empty if it is new; without a selected row it opens none. */
  lemma DownloadCreates(s: Store, userid: nat, filename: string, dirid: int)
    ensures var e := Do(s, Download(userid, filename, dirid));
            && e.table == s.table && e.cache == s.cache
            && (forall p | p != filename :: p in e.disk <==> p in s.disk)
            && (forall p | p in s.disk :: p in e.disk && e.disk[p] == s.disk[p])
            && (filename !in s.disk ==>
                  (filename in e.disk <==>
                   exists r | r in s.table :: r.userid == userid && r.dirid == dirid && r.filepath == filename))
            && (filename !in s.disk && filename in e.disk ==> e.disk[filename] == [])
  {
    if r :| r in s.table && r.userid == userid && r.dirid == dirid && r.filepath == filename {
      assert Selected(r, userid, dirid, filename);
    }
  }

  /** The write of an upload always lands in an empty file. */
  lemma AppendsToEmpty(md5: Bytes -> Digest, s: Store, hash: Digest, userid: nat, content: Bytes)
    requires Inv(md5, s) && !Exists(s, PathOf(hash), userid)
    ensures Created(s.disk, PathOf(hash))[PathOf(hash)] == []
    ensures Appended(s.disk, PathOf(hash), content)[PathOf(hash)] == content
  {
    ExistsIsMembership(md5, s, PathOf(hash), userid);
    assert [] + content == content;
  }

  /** Which paths the table refers to after a request. */
  lemma StepPaths(s: Store, q: Request)
    ensures Paths(Do(s, q).table) == Paths(s.table) + if q.Upload? then {PathOf(q.hash)} else {}
  {
    match q
    case Upload(userid, filename, hash, index, dirid, filelen, _) =>
      PathsAppend(s.table, Row(userid, filename, index, PathOf(hash), dirid, filelen));
    case DropCache(_) =>
    case RemoveDir(userid, dirid) => PathsRemoved(s.table, userid, dirid);
    case AddDir(userid, filename, dirid) => PathsAppend(s.table, Row(userid, filename, 0, "", dirid, 0));
    case Download(_, _, _) =>
  }

  /** What a request does to the disk, in a state that satisfies the invariant. */
  lemma StepDisk(md5: Bytes -> Digest, s: Store, q: Request)
    requires Inv(md5, s) && Enabled(md5, s, q)
    ensures Do(s, q).disk ==
            match q
            case Upload(_, _, hash, _, _, _, content) =>
              if PathOf(hash) in Paths(s.table) then s.disk else s.disk[PathOf(hash) := content]
            case Download(_, filename, _) => if Do(s, q) == s then s.disk else Created(s.disk, filename)
            case _ => s.disk
    ensures q.Upload? && PathOf(q.hash) !in Paths(s.table) ==> md5(q.content) == q.hash
  {
    if q.Upload? {
      ExistsIsMembership(md5, s, PathOf(q.hash), q.userid);
      if !Exists(s, PathOf(q.hash), q.userid) {
        AppendsToEmpty(md5, s, q.hash, q.userid, q.content);
        assert Appended(s.disk, PathOf(q.hash), q.content) == s.disk[PathOf(q.hash) := q.content];
      }
    }
  }

  lemma StepInv(md5: Bytes -> Digest, s: Store, q: Request)
    requires Inv(md5, s) && Enabled(md5, s, q)
    ensures Inv(md5, Do(s, q))
  {
    StepPaths(s, q);
    StepDisk(md5, s, q);
  }

  lemma {:induction false} RunInv(md5: Bytes -> Digest, s: Store, run: seq<Request>)
    requires Inv(md5, s) && Legal(md5, s, run)
    ensures Inv(md5, Exec(s, run))
    decreases |run|
  {
    if run == [] {
    } else {
      StepInv(md5, s, run[0]);
      RunInv(md5, Do(s, run[0]), run[1..]);
    }
  }

  // ---------- The main results ----------

  /**
   After any run of requests, every file the table refers to exists and has the hash its name spells; every other
   file is an empty one that a download created.
   */
  lemma ContentAddressed(md5: Bytes -> Digest, run: seq<Request>)
    requires Legal(md5, EMPTY, run)
    ensures var s := Exec(EMPTY, run);
            && (forall p | p in Paths(s.table) :: p in s.disk && PathOf(md5(s.disk[p])) == p)
            && (forall p | p in s.disk && p !in Paths(s.table) :: s.disk[p] == [])
            && (forall p, u: nat | p != "" :: Exists(s, p, u) <==> p in Paths(s.table))
  {
    RunInv(md5, EMPTY, run);
    var s := Exec(EMPTY, run);
    forall p, u: nat | p != "" ensures Exists(s, p, u) <==> p in Paths(s.table) {
      ExistsIsMembership(md5, s, p, u);
    }
  }

  /** A stored file is never changed or removed by later requests. */
  lemma {:induction false} FilesAreImmutable(md5: Bytes -> Digest, s: Store, run: seq<Request>, p: Path)
    requires Inv(md5, s) && Legal(md5, s, run) && p in Paths(s.table)
    ensures p in Paths(Exec(s, run).table)
    ensures p in Exec(s, run).disk && Exec(s, run).disk[p] == s.disk[p]
    decreases |run|
  {
    if run == [] {
    } else {
      StepPaths(s, run[0]);
      StepDisk(md5, s, run[0]);
      StepInv(md5, s, run[0]);
      FilesAreImmutable(md5, Do(s, run[0]), run[1..], p);
    }
  }

  /** Without downloads the files on disk are exactly those the table refers to. */
  lemma {:induction false} DiskIsTable(md5: Bytes -> Digest, s: Store, run: seq<Request>)
    requires Inv(md5, s) && s.disk.Keys == Paths(s.table) && Legal(md5, s, run)
    requires forall q | q in run :: !q.Download?
    ensures Exec(s, run).disk.Keys == Paths(Exec(s, run).table)
    decreases |run|
  {
    if run == [] {
    } else {
      assert run[0] in run;
      StepPaths(s, run[0]);
      StepDisk(md5, s, run[0]);
      StepInv(md5, s, run[0]);
      DiskIsTable(md5, Do(s, run[0]), run[1..]);
    }
  }

  // ---------- What a download serves ----------

  /** The file that downloadfile opens for a row, not the one the row's bytes are stored in. */
  function FileOf(s: Store, r: Row): Bytes { Created(s.disk, r.filepath)[r.filepath] }

  /** The bytes that downloadfile sends for a row: as many as the row says, if the file it opens has that many. */
  function Served(s: Store, r: Row): Option<Bytes> {
    var file := FileOf(s, r);
    if 0 <= r.filesize <= |file| then Some(file[..r.filesize]) else None
  }

  /**
   Exactly when a download serves what is stored under the row's hash: if the row has the right size, and the opened
   file is the stored one, or the stored file is empty, or the logical name is another stored file that starts with it.
   */
  lemma DownloadServesTheUpload(md5: Bytes -> Digest, s: Store, r: Row)
    requires Inv(md5, s) && r in s.table && r.hashfilepath != ""
    ensures r.hashfilepath in s.disk
    ensures var stored := s.disk[r.hashfilepath];
            Served(s, r) == Some(stored) <==>
            && r.filesize == |stored|
            && (r.filepath == r.hashfilepath || stored == [] ||
                (r.filepath in Paths(s.table) && stored <= s.disk[r.filepath]))
  {
    assert r.hashfilepath in Paths(s.table);
    var stored, file := s.disk[r.hashfilepath], FileOf(s, r);
    if r.filepath !in Paths(s.table) {
      assert file == [];
    }
    if r.filesize == |stored| && |stored| <= |file| {
      assert file[..r.filesize] == stored <==> stored <= file;
    }
  }

  /** The first upload of all. */
  lemma FirstUpload(md5: Bytes -> Digest, filename: string, content: Bytes)
    ensures var h := md5(content);
            var q := Upload(1, filename, h, 0, 0, |content|, content);
            && Enabled(md5, EMPTY, q)
            && Do(EMPTY, q) == Store(map[PathOf(h) := content], [Row(1, filename, 0, PathOf(h), 0, |content|)],
                                     map[1 := {PathOf(h)}])
  {
    var path := PathOf(md5(content));
    assert !Exists(EMPTY, path, 1);
    assert Appended(EMPTY.disk, path, content) == map[path := content] by {
      assert [] + content == content;
    }
    assert Cached(EMPTY, 1) + {path} == {path};
  }

  /** After any upload under a logical name that is no path of the store, a download cannot serve its bytes. */
  lemma OrdinaryDownloadFails(md5: Bytes -> Digest, filename: string, content: Bytes)
    requires content != [] && filename != PathOf(md5(content))
    ensures var h := md5(content);
            var run := [Upload(1, filename, h, 0, 0, |content|, content)];
            var s, r := Exec(EMPTY, run), Row(1, filename, 0, PathOf(h), 0, |content|);
            && Legal(md5, EMPTY, run) && r in s.table
            && PathOf(h) in s.disk && s.disk[PathOf(h)] == content && Served(s, r) == None
  {
    FirstUpload(md5, filename, content);
    var q := Upload(1, filename, md5(content), 0, 0, |content|, content);
    var none: seq<Request> := [];
    assert [q][1..] == none;
    assert Exec(EMPTY, [q]) == Exec(Do(EMPTY, q), none) == Do(EMPTY, q);
    assert Legal(md5, Do(EMPTY, q), none);
  }

  /** The upload of a file that the user's cache knows, under the name of its own path and with a length of 1. */
  lemma SecondUpload(md5: Bytes -> Digest, s: Store, h: Digest)
    requires 1 in s.cache && PathOf(h) in s.cache[1]
    ensures var q := Upload(1, PathOf(h), h, 0, 0, 1, []);
            && Enabled(md5, s, q) && Do(s, q).disk == s.disk
            && Do(s, q).table == s.table + [Row(1, PathOf(h), 0, PathOf(h), 0, 1)]
  {}

  /**
   A known hash is accepted with any announced length.  Here the row's logical name is its stored path, and the download
   serves one byte although more are stored.
   */
  lemma WrongBytesAreServed(md5: Bytes -> Digest, content: Bytes)
    requires |content| >= 2
    ensures var h := md5(content);
            var run := [Upload(1, "f", h, 0, 0, |content|, content), Upload(1, PathOf(h), h, 0, 0, 1, [])];
            var s, r := Exec(EMPTY, run), Row(1, PathOf(h), 0, PathOf(h), 0, 1);
            && Legal(md5, EMPTY, run) && r in s.table
            && PathOf(h) in s.disk && s.disk[PathOf(h)] == content && Served(s, r) == Some(content[..1])
  {
    var h := md5(content);
    var q1, q2 := Upload(1, "f", h, 0, 0, |content|, content), Upload(1, PathOf(h), h, 0, 0, 1, []);
    FirstUpload(md5, "f", content);
    SecondUpload(md5, Do(EMPTY, q1), h);
    TwoRequests(md5, EMPTY, q1, q2);
    var s := Do(Do(EMPTY, q1), q2);
    assert s.table[1] == Row(1, PathOf(h), 0, PathOf(h), 0, 1);
  }

  lemma TwoRequests(md5: Bytes -> Digest, s: Store, q1: Request, q2: Request)
    requires Enabled(md5, s, q1) && Enabled(md5, Do(s, q1), q2)
    ensures Legal(md5, s, [q1, q2]) && Exec(s, [q1, q2]) == Do(Do(s, q1), q2)
  {
    var none: seq<Request> := [];
    assert [q1, q2][1..] == [q2] && [q2][1..] == none;
    assert Exec(Do(s, q1), [q2]) == Exec(Do(Do(s, q1), q2), none);
    assert Legal(md5, Do(Do(s, q1), q2), none);
  }

  /** A row that names another stored file, of which its own bytes are a proper beginning, is served correctly. */
  lemma AnotherFileServes(md5: Bytes -> Digest)
    requires md5([7]) != md5([7, 8])
    ensures var other := PathOf(md5([7, 8]));
            var run := [Upload(1, "f", md5([7, 8]), 0, 0, 2, [7, 8]), Upload(1, other, md5([7]), 0, 0, 1, [7])];
            var s, r := Exec(EMPTY, run), Row(1, other, 0, PathOf(md5([7])), 0, 1);
            && Legal(md5, EMPTY, run) && r in s.table && r.filepath != r.hashfilepath
            && r.hashfilepath in s.disk && s.disk[r.hashfilepath] == [7] && Served(s, r) == Some([7])
  {
    var other, path := PathOf(md5([7, 8])), PathOf(md5([7]));
    if path == other { PathInjective(md5([7]), md5([7, 8])); }
    var q1, q2 := Upload(1, "f", md5([7, 8]), 0, 0, 2, [7, 8]), Upload(1, other, md5([7]), 0, 0, 1, [7]);
    FirstUpload(md5, "f", [7, 8]);
    var s1 := Do(EMPTY, q1);
    assert Count(s1.table, path) == 0 by {
      var rows: seq<Row> := [];
      assert s1.table[1..] == rows && Count(rows, path) == 0;
    }
    NewUpload(s1, q2);
    TwoRequests(md5, EMPTY, q1, q2);
    var s, r := Do(s1, q2), Row(1, other, 0, path, 0, 1);
    assert s.table[1] == r && s.disk[other] == [7, 8];
    assert [7, 8][..1] == [7];
  }

  /** The upload of a file that the store does not know. */
  lemma NewUpload(s: Store, q: Request)
    requires q.Upload? && !Exists(s, PathOf(q.hash), q.userid) && PathOf(q.hash) !in s.disk
    ensures Do(s, q).disk == s.disk[PathOf(q.hash) := q.content]
    ensures Do(s, q).table == s.table + [Row(q.userid, q.filename, q.index, PathOf(q.hash), q.dirid, q.filelen)]
  {
    assert [] + q.content == q.content;
  }

  /**
   Exactly when the row of an upload has the size of the stored file, if an upload of a new file has the announced
   length: for a new file always, for a known one if the announced length is the right one.
   */
  lemma RowSizeIsStoredSize(md5: Bytes -> Digest, s: Store, q: Request)
    requires Inv(md5, s) && q.Upload? && Enabled(md5, s, q)
    requires PathOf(q.hash) !in Paths(s.table) ==> |q.content| == q.filelen
    ensures var s', path := Do(s, q), PathOf(q.hash);
            && path in s'.disk
            && s'.table == s.table + [Row(q.userid, q.filename, q.index, path, q.dirid, q.filelen)]
            && (q.filelen == |s'.disk[path]| <==>
                path !in Paths(s.table) || (path in s.disk && q.filelen == |s.disk[path]|))
  {
    StepDisk(md5, s, q);
  }

}
