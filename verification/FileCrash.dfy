/** Files and log together: what a crash in the middle of a write leaves of the files (kernel/file.c,
    kernel/fs.c, kernel/log.c). */
module FileCrash {
  import opened Bytes
  import opened Bitmap
  import opened BlockMap
  import opened Common
  import opened Contents
  import opened DiskInodes
  import opened Files
  import opened Journal
  import opened Recovery
  import Logging
  import Transactions

  /** Inodes, bitmap and data lie behind the log on the same disk. */
  ghost predicate Joined(g: Geometry, l: Layout) {
    && l.Valid() && g.nblocks == l.size && forall c: nat :: l.inodestart <= c < l.size ==> g.Home(c)
  }

  // ---- Files are in the home blocks ----

  lemma SameSlots(l: Layout, d: seq<Block>, e: seq<Block>, n: seq<Inode>, owner: map<nat, Place>)
    requires FsOk(l, d, n, owner) && |e| == |d| && forall c: nat :: l.datastart <= c < |d| ==> e[c] == d[c]
    ensures SlotsOk(e, n, owner) && SameViews(d, n, e, n)
    ensures forall i: nat, k: nat :: SlotAt(e, n, i, k) == SlotAt(d, n, i, k)
  {
    hide GetWord, Bit;
    forall i: nat, k: nat
      ensures SlotAt(e, n, i, k) == SlotAt(d, n, i, k)
    {
      var p := SlotAt(d, n, i, INDIRECT);
      assert p != 0 ==> p in owner;
    }
    SameOk(d, n, e, n, owner);
    hide SlotAt;
    forall i: nat, k: nat
      ensures View(e, n, i, k) == View(d, n, i, k)
    {
      assert SlotAt(d, n, i, SlotOf(k)) != 0 ==> SlotAt(d, n, i, SlotOf(k)) in owner;
    }
  }

  lemma SameBits(g: Geometry, l: Layout, d: seq<Block>, e: seq<Block>, used: set<nat>)
    requires Joined(g, l) && SameHome(g, d, e) && BitsOk(l, d, used)
    ensures BitsOk(l, e, used)
  {
    hide BlockBit;
    forall b: nat | b < l.size
      ensures Bit(l, e, b) <==> Bit(l, d, b)
    {
    }
  }

  lemma SameInodes(g: Geometry, l: Layout, d: seq<Block>, e: seq<Block>, n: seq<Inode>)
    requires Joined(g, l) && SameHome(g, d, e) && InodesFit(l, |n|) && OnDisk(l, d, n)
    ensures OnDisk(l, e, n)
  {
    hide DiskInode;
    forall i: nat | i < |n|
      ensures InodeAt(l, e, n, i)
    {
      InodePlace(l, |n|, i);
      assert InodeAt(l, d, n, i);
    }
  }

  lemma SameFile(d: seq<Block>, e: seq<Block>, n: seq<Inode>, i: nat)
    requires SameViews(d, n, e, n) && i < |n|
    ensures File(e, n, i) == File(d, n, i)
  {
    hide View;
    assert forall o: nat :: ByteAt(e, n, i, o) == ByteAt(d, n, i, o);
  }

  /** A file system on disk: slots, bitmap and inodes agree. */
  ghost predicate Sound(l: Layout, d: seq<Block>, n: seq<Inode>, owner: map<nat, Place>) {
    FsOk(l, d, n, owner) && InodesFit(l, |n|) && OnDisk(l, d, n)
  }

  /** Disks with the same home blocks have the same files. */
  lemma SameFs(g: Geometry, l: Layout, d: seq<Block>, e: seq<Block>, n: seq<Inode>, owner: map<nat, Place>)
    requires Joined(g, l) && SameHome(g, d, e) && Sound(l, d, n, owner)
    ensures Sound(l, e, n, owner)
    ensures forall i: nat :: i < |n| ==> File(e, n, i) == File(d, n, i)
  {
    SameBits(g, l, d, e, owner.Keys);
    SameInodes(g, l, d, e, n);
    hide InodeAt, Bit, SlotAt, BitsOk;
    SameSlots(l, d, e, n, owner);
    hide SlotsOk, SameViews, Joined;
    forall i: nat | i < |n|
      ensures File(e, n, i) == File(d, n, i)
    {
      SameFile(d, e, n, i);
    }
  }

  // ---- A crash in one transaction ----

  /** The blocks after the transaction, as a recovered disk has them. */
  lemma CommittedHome(g: Geometry, d: Disk, b0: seq<Block>, j: seq<Write>, hs: seq<Word>, end: Disk)
    requires SameHome(g, d, b0) && InBounds(b0, j) && |end| == g.nblocks
    requires Targets(g, hs) && Logging.Blocks(hs) == Numbers(j)
    requires forall i :: 0 <= i < |hs| ==> end[hs[i]] == Logging.Contents(Apply(b0, j), hs)[i]
    requires forall b: nat :: g.Home(b) && b !in hs ==> end[b] == d[b]
    ensures SameHome(g, Apply(b0, j), end)
  {
    hide Apply, Numbers;
    forall b: nat | g.Home(b)
      ensures Apply(b0, j)[b] == end[b]
    {
      if b in hs {
        var i :| 0 <= i < |hs| && hs[i] == b;
      } else {
        assert b !in Logging.Blocks(hs);
        Unnamed(b0, j, b);
      }
    }
  }

  /** The machine stops anywhere in the commit of a filewrite transaction, goes through any number of
      recoveries that are themselves cut off, and one that finishes.  The file system on disk is then
      sound, with the inodes it has on disk, and either every file is as it was before the transaction,
      or the data is in its file and every other file is as it was. */
  lemma CrashedWrite(g: Geometry, l: Layout, d: Disk, b0: seq<Block>, n0: seq<Inode>, o0: map<nat, Place>,
                     b: seq<Block>, n: seq<Inode>, owner: map<nat, Place>, j: seq<Write>,
                     i: nat, off: nat, part: seq<Byte>, hs: seq<Word>, k: nat, ks: seq<nat>)
    requires Quiet(g, d) && Joined(g, l) && SameHome(g, d, b0) && Sound(l, b0, n0, o0)
    requires Transacted(l, b0, n0, b, n, owner, j, i, off, part)
    requires Targets(g, hs) && Logging.Blocks(hs) == Numbers(j)
    requires k <= |CommitWrites(g, d[g.start], hs, Logging.Contents(b, hs))|
    ensures var ws := CommitWrites(g, d[g.start], hs, Logging.Contents(b, hs))[..k];
            && InBounds(d, ws) && Formatted(g, Apply(d, ws))
            && (var end := Recovered(g, Interrupted(g, Apply(d, ws), ks));
                && Quiet(g, end)
                && if k <= |hs| then
                     && Sound(l, end, n0, o0)
                     && forall x: nat :: x < |n0| ==> File(end, n0, x) == File(b0, n0, x)
                   else
                     && Sound(l, end, n, owner)
                     && File(end, n, i) == Spliced(File(b0, n0, i), off, part)
                     && forall x: nat :: x < |n| && x != i ==> File(end, n, x) == File(b0, n0, x))
  {
    hide CommitWrites, Recovered, Interrupted, Apply, Numbers, FsOk, OnDisk, File, Spliced, Head, Listed, NoHoles;
    var data := Logging.Contents(b, hs);
    CrashAtomicity(g, d, hs, data, k, ks);
    var end := Recovered(g, Interrupted(g, Apply(d, CommitWrites(g, d[g.start], hs, data)[..k]), ks));
    if k <= |hs| {
      SameFs(g, l, b0, end, n0, o0);
    } else {
      CommittedHome(g, d, b0, j, hs, end);
      SameFs(g, l, b, end, n, owner);
    }
  }

  // ---- One transaction through the log ----

  /** The log is at rest, the file system's blocks are those of the disk, and the log has room for what a
      write to file i may log: the file has no holes, or the bitmap is small. */
  ghost predicate Ready(log: Logging.Log, fs: FileSystem, i: nat)
    reads fs, log, log.block, log.cache, log.cache.buf, log.cache.link, log.cache.disk
  {
    && log.Idle() && log.outstanding == 0 && log.n == 0 && Logging.Unheld(log.s)
    && Joined(log.g, fs.l) && MAXOPBLOCKS + 1 < log.g.size && SameHome(log.g, log.s.current, fs.blocks)
    && fs.Ok() && OnDisk(fs.l, fs.blocks, fs.inodes) && i < |fs.inodes|
    && (NoHoles(fs.blocks, fs.inodes, i) || NBitmap(fs.l) <= 4)
  }

  lemma AllHome(g: Geometry, l: Layout, j: seq<Write>)
    requires Joined(g, l) && forall c :: c in Numbers(j) ==> l.inodestart <= c < l.size
    ensures forall k :: 0 <= k < |j| ==> g.Home(j[k].bno)
  {
    assert forall k :: 0 <= k < |j| ==> j[k].bno in Numbers(j);
  }

  lemma {:induction false} ApplyHome(g: Geometry, c: Disk, b: Disk, ws: seq<Write>)
    requires SameHome(g, c, b) && InBounds(b, ws)
    ensures SameHome(g, Apply(c, ws), Apply(b, ws))
    decreases |ws|
  {
    if ws != [] { ApplyHome(g, c, b, ws[..|ws| - 1]); }
  }

  lemma SameCommit(g: Geometry, d: Disk, d': Disk, c: Disk, b: Disk, hs: seq<Word>, before: seq<Write>, after: seq<Write>)
    requires SameHome(g, c, b) && Transactions.Committed(g, d, d', c, hs, before, after)
    ensures Transactions.Committed(g, d, d', b, hs, before, after)
  {
    assert Logging.Contents(c, hs) == Logging.Contents(b, hs);
  }

  /** One transaction of filewrite run through the log to its end: the disk then has the file with the data
      in it, and all is ready for the next one.  hs are the blocks of the commit, whose writes the disk has
      seen one by one.  A transaction that writei refuses, or that stops the machine, writes nothing. */
  method WriteThrough(log: Logging.Log, fs: FileSystem, i: nat, off: Word, part: seq<Byte>)
    returns (r: Outcome<int>, ghost hs: seq<Word>)
    requires Ready(log, fs, i) && |part| <= MAXWRITE
    modifies fs, log, log.block, log.cache, log.cache.buf, log.cache.link, log.cache.disk
    ensures r == Returns(-1) <==> off > |File(old(fs.blocks), old(fs.inodes), i)| || off + |part| > 274432
    ensures r.Panics? ==> AllUsed(fs.l, fs.blocks)
    ensures r.Panics? || r == Returns(-1) ==>
            log.cache.disk.blocks == old(log.cache.disk.blocks) && log.cache.disk.writes == old(log.cache.disk.writes)
    ensures r == Returns(-1) ==> fs.blocks == old(fs.blocks) && fs.inodes == old(fs.inodes) && fs.owner == old(fs.owner)
    ensures r.Returns? ==> Ready(log, fs, i)
    ensures r.Returns? && r.value != -1 ==>
            && r.value == |part|
            && Transacted(fs.l, old(fs.blocks), old(fs.inodes), fs.blocks, fs.inodes, fs.owner, fs.journal, i, off, part)
            && Logging.Blocks(hs) == Numbers(fs.journal)
            && Transactions.Committed(log.g, old(log.cache.disk.blocks), log.cache.disk.blocks, fs.blocks, hs,
                                      old(log.cache.disk.writes), log.cache.disk.writes)
            && SameHome(log.g, log.cache.disk.blocks, fs.blocks)
            && Sound(fs.l, log.cache.disk.blocks, fs.inodes, fs.owner)
            && File(log.cache.disk.blocks, fs.inodes, i) == Spliced(File(old(fs.blocks), old(fs.inodes), i), off, part)
  {
    hide FsOk, OnDisk, NoHoles, File, Spliced, OthersSame, CommitWrites, Head, Listed, GetWord, Apply, Numbers, Joined;
    hide Logging.CommitOf, Logging.Contents, NBitmap;
    hs := [];
    ghost var b0 := fs.blocks;
    r := fs.WriteTransaction(i, off, part);
    if r.Returns? && r.value != -1 {
      AllHome(log.g, fs.l, fs.journal);
      ApplyHome(log.g, log.s.current, b0, fs.journal);
      ghost var c, d, w := Apply(log.s.current, fs.journal), log.cache.disk.blocks, log.cache.disk.writes;
      var ok;
      ok, hs := Transactions.Transact(log, fs.journal);
      SameCommit(log.g, d, log.cache.disk.blocks, c, fs.blocks, hs, w, log.cache.disk.writes);
      SameFs(log.g, fs.l, fs.blocks, log.cache.disk.blocks, fs.inodes, fs.owner);
    }
  }

  // ---- A crash in a whole filewrite ----

  /** The disk has a sound file system in which data is written over file i at off, and the other files are
      as they were. */
  ghost predicate Has(l: Layout, b0: seq<Block>, n0: seq<Inode>, d: Disk, n: seq<Inode>, owner: map<nat, Place>,
                      i: nat, off: nat, data: seq<Byte>) {
    Sound(l, d, n, owner) && FileIs(b0, n0, d, n, i, off, data) && OthersSame(b0, n0, d, n, i)
  }

  /** After the writes ws to disk d, recoveries cut off as ks says, and a last one, the disk has that. */
  ghost predicate Survives(g: Geometry, l: Layout, b0: seq<Block>, n0: seq<Inode>, d: Disk, ws: seq<Write>,
                           ks: seq<nat>, i: nat, off: nat, data: seq<Byte>) {
    && InBounds(d, ws) && Formatted(g, Apply(d, ws))
    && exists n, owner :: Has(l, b0, n0, Recovered(g, Interrupted(g, Apply(d, ws), ks)), n, owner, i, off, data)
  }

  /** A write of the header that lists blocks: the point at which a transaction commits. */
  ghost predicate CommitPoint(g: Geometry, w: Write) { w.bno == g.start && GetWord(w.data, 0) != 0 }

  /** How many transactions have committed in ws. */
  ghost function Commits(g: Geometry, ws: seq<Write>): nat {
    if ws == [] then 0
    else Commits(g, ws[..|ws| - 1]) + if CommitPoint(g, ws[|ws| - 1]) then 1 else 0
  }

  /** How many of n bytes are in the first m chunks. */
  ghost function Upto(m: nat, n: nat): (r: nat)
    ensures r <= n
  {
    if m * MAXWRITE > n then n else m * MAXWRITE
  }

  /** Wherever the writes are cut off, the file has the chunks that have committed by then. */
  ghost predicate CrashSafe(g: Geometry, l: Layout, b0: seq<Block>, n0: seq<Inode>, d: Disk, ws: seq<Write>,
                            i: nat, off: nat, src: seq<Byte>) {
    forall k: nat, ks: seq<nat> {:trigger CrashAt(g, l, b0, n0, d, ws, k, ks, i, off, src)} ::
      k <= |ws| ==> CrashAt(g, l, b0, n0, d, ws, k, ks, i, off, src)
  }

  ghost predicate CrashAt(g: Geometry, l: Layout, b0: seq<Block>, n0: seq<Inode>, d: Disk, ws: seq<Write>, k: nat,
                          ks: seq<nat>, i: nat, off: nat, src: seq<Byte>)
    requires k <= |ws|
  {
    Survives(g, l, b0, n0, d, ws[..k], ks, i, off, src[..Upto(Commits(g, ws[..k]), |src|)])
  }

  /** The state between two chunks: data is written so far, in the blocks b and on the disk d. */
  ghost predicate Stage(g: Geometry, l: Layout, b0: seq<Block>, n0: seq<Inode>, d: Disk,
                        b: seq<Block>, n: seq<Inode>, owner: map<nat, Place>, i: nat, off: nat, data: seq<Byte>) {
    && Quiet(g, d) && Joined(g, l) && SameHome(g, d, b) && Sound(l, b, n, owner)
    && FileIs(b0, n0, b, n, i, off, data) && OthersSame(b0, n0, b, n, i)
  }

  lemma {:induction false} CommitsAdd(g: Geometry, a: seq<Write>, b: seq<Write>)
    ensures Commits(g, a + b) == Commits(g, a) + Commits(g, b)
    decreases |b|
  {
    hide CommitPoint;
    if b == [] {
      assert a + b == a;
    } else {
      assert (a + b)[..|a + b| - 1] == a + b[..|b| - 1];
      CommitsAdd(g, a, b[..|b| - 1]);
    }
  }

  /** Of the writes of a commit, the one after the log blocks is its commit point, and no other. */
  lemma PointOf(g: Geometry, h: Block, hs: seq<Word>, data: seq<Block>, k: nat)
    requires g.Valid() && Targets(g, hs) && hs != [] && |data| == |hs| && k < |CommitWrites(g, h, hs, data)|
    ensures CommitPoint(g, CommitWrites(g, h, hs, data)[k]) <==> k == |hs|
  {
    hide Listed, Head, GetWord;
    var n := |hs|;
    var ws := CommitWrites(g, h, hs, data);
    assert |ws| == 2 * n + 2;
    assert ws[2 * n + 1] == Write(g.start, Head(Head(h, hs), []));
    if k < n {
      assert ws[k] == LogWrites(g, data)[k];
    } else if n < k <= 2 * n {
      assert ws[k] == InstallWrites(hs, data)[k - n - 1];
      assert g.Home(hs[k - n - 1]);
    }
  }

  lemma {:induction false} CommitsOf(g: Geometry, h: Block, hs: seq<Word>, data: seq<Block>, k: nat)
    requires g.Valid() && Targets(g, hs) && hs != [] && |data| == |hs| && k <= |CommitWrites(g, h, hs, data)|
    ensures Commits(g, CommitWrites(g, h, hs, data)[..k]) == if k <= |hs| then 0 else 1
  {
    hide CommitPoint, CommitWrites;
    var ws := CommitWrites(g, h, hs, data);
    if k != 0 {
      assert ws[..k][..k - 1] == ws[..k - 1];
      PointOf(g, h, hs, data, k - 1);
      CommitsOf(g, h, hs, data, k - 1);
    }
  }

  lemma OneCommit(g: Geometry, h: Block, hs: seq<Word>, data: seq<Block>)
    requires g.Valid() && Targets(g, hs) && hs != [] && |data| == |hs|
    ensures Commits(g, CommitWrites(g, h, hs, data)) == 1
  {
    hide Commits;
    var ws := CommitWrites(g, h, hs, data);
    assert ws[..|ws|] == ws;
    CommitsOf(g, h, hs, data, |ws|);
  }

  lemma HasSame(l: Layout, b0: seq<Block>, n0: seq<Inode>, b: seq<Block>, d: Disk, n: seq<Inode>, owner: map<nat, Place>,
                i: nat, off: nat, data: seq<Byte>)
    requires Sound(l, d, n, owner) && FileIs(b0, n0, b, n, i, off, data) && OthersSame(b0, n0, b, n, i)
    requires forall x: nat :: x < |n| ==> File(d, n, x) == File(b, n, x)
    ensures Has(l, b0, n0, d, n, owner, i, off, data)
  {
    hide File, Sound, Spliced;
  }

  /** Recovery of a disk at rest changes no home block. */
  lemma QuietStays(g: Geometry, d: Disk, ks: seq<nat>)
    requires Quiet(g, d)
    ensures SameHome(g, Recovered(g, Interrupted(g, d, ks)), d)
  {
    hide Interrupted, Recovered, GetWord;
    RecoveryEnds(g, d);
    assert InstallWrites([], LogBlocks(g, d)) == [];
  }

  /** A crash before anything is written. */
  lemma AtRest(g: Geometry, l: Layout, b0: seq<Block>, n0: seq<Inode>, d: Disk,
               b: seq<Block>, n: seq<Inode>, owner: map<nat, Place>, i: nat, off: nat, data: seq<Byte>, ks: seq<nat>)
    requires Stage(g, l, b0, n0, d, b, n, owner, i, off, data)
    ensures Survives(g, l, b0, n0, d, [], ks, i, off, data)
  {
    hide Sound, FileIs, OthersSame, Interrupted, Joined;
    assert Apply(d, []) == d;
    var end := Recovered(g, Interrupted(g, d, ks));
    QuietStays(g, d, ks);
    SameFs(g, l, b, end, n, owner);
    HasSame(l, b0, n0, b, end, n, owner, i, off, data);
  }

  lemma NothingYet(g: Geometry, l: Layout, d: Disk, b: seq<Block>, n: seq<Inode>, owner: map<nat, Place>,
                   i: nat, off: nat, src: seq<Byte>)
    requires Stage(g, l, b, n, d, b, n, owner, i, off, [])
    ensures CrashSafe(g, l, b, n, d, [], i, off, src) && Apply(d, []) == d && Upto(Commits(g, []), |src|) == 0
  {
    hide Survives, Stage;
    var none: seq<Write> := [];
    forall k: nat, ks: seq<nat> | k <= |none|
      ensures CrashAt(g, l, b, n, d, none, k, ks, i, off, src)
    {
      AtRest(g, l, b, n, d, b, n, owner, i, off, [], ks);
      assert src[..0] == [];
    }
  }

  lemma SpliceNext(b0: seq<Block>, n0: seq<Inode>, b1: seq<Block>, n1: seq<Inode>, end: Disk, n2: seq<Inode>,
                   i: nat, off: nat, data: seq<Byte>, part: seq<Byte>)
    requires FileIs(b0, n0, b1, n1, i, off, data) && OthersSame(b0, n0, b1, n1, i) && OthersSame(b1, n1, end, n2, i)
    requires i < |n2| && off + |data| <= |File(b1, n1, i)| && part != []
    requires File(end, n2, i) == Spliced(File(b1, n1, i), off + |data|, part)
    ensures FileIs(b0, n0, end, n2, i, off, data + part) && OthersSame(b0, n0, end, n2, i)
  {
    hide File, Spliced, FileIs, OthersSame;
    FileGrows(b0, n0, b1, n1, end, n2, i, off, data, part);
    OthersTrans(b0, n0, b1, n1, end, n2, i);
  }

  /** A crash in the commit of the next chunk. */
  lemma InChunk(g: Geometry, l: Layout, b0: seq<Block>, n0: seq<Inode>, d: Disk,
                b1: seq<Block>, n1: seq<Inode>, o1: map<nat, Place>, b2: seq<Block>, n2: seq<Inode>, o2: map<nat, Place>,
                j: seq<Write>, hs: seq<Word>, i: nat, off: nat, data: seq<Byte>, part: seq<Byte>, k: nat, ks: seq<nat>)
    requires Stage(g, l, b0, n0, d, b1, n1, o1, i, off, data)
    requires Transacted(l, b1, n1, b2, n2, o2, j, i, off + |data|, part) && part != []
    requires Targets(g, hs) && Logging.Blocks(hs) == Numbers(j) && |b2| == g.nblocks
    requires k <= |CommitWrites(g, d[g.start], hs, Logging.Contents(b2, hs))|
    ensures Survives(g, l, b0, n0, d, CommitWrites(g, d[g.start], hs, Logging.Contents(b2, hs))[..k], ks, i, off,
                     if k <= |hs| then data else data + part)
  {
    hide CommitWrites, Recovered, Interrupted, Apply, Numbers, FsOk, OnDisk, File, Spliced, Head, Listed, NoHoles;
    hide FileIs, Sound, Joined, SameHome;
    CrashedWrite(g, l, d, b1, n1, o1, b2, n2, o2, j, i, off + |data|, part, hs, k, ks);
    var ws := CommitWrites(g, d[g.start], hs, Logging.Contents(b2, hs))[..k];
    var end := Recovered(g, Interrupted(g, Apply(d, ws), ks));
    if k <= |hs| {
      HasSame(l, b0, n0, b1, end, n1, o1, i, off, data);
    } else {
      SpliceNext(b0, n0, b1, n1, end, n2, i, off, data, part);
      assert Has(l, b0, n0, end, n2, o2, i, off, data + part);
    }
  }

  lemma LaterStart(g: Geometry, l: Layout, b0: seq<Block>, n0: seq<Inode>, d: Disk, a: seq<Write>, ws: seq<Write>,
                   ks: seq<nat>, i: nat, off: nat, data: seq<Byte>)
    requires InBounds(d, a) && Survives(g, l, b0, n0, Apply(d, a), ws, ks, i, off, data)
    ensures Survives(g, l, b0, n0, d, a + ws, ks, i, off, data)
  {
    hide Has, Recovered, Interrupted, Formatted, Apply;
    ApplySplit(d, a, ws);
  }

  /** The commit of one more chunk, cut off after x of its writes. */
  lemma ChunkAt(g: Geometry, l: Layout, b0: seq<Block>, n0: seq<Inode>, d0: Disk, a: seq<Write>, d: Disk,
                b1: seq<Block>, n1: seq<Inode>, o1: map<nat, Place>, b2: seq<Block>, n2: seq<Inode>, o2: map<nat, Place>,
                j: seq<Write>, hs: seq<Word>, i: nat, off: nat, src: seq<Byte>, done: nat, next: nat, x: nat, ks: seq<nat>)
    requires InBounds(d0, a) && d == Apply(d0, a)
    requires done == Upto(Commits(g, a), |src|) < |src| && next == Upto(Commits(g, a) + 1, |src|)
    requires Stage(g, l, b0, n0, d, b1, n1, o1, i, off, src[..done])
    requires Transacted(l, b1, n1, b2, n2, o2, j, i, off + done, src[done..next])
    requires Targets(g, hs) && hs != [] && Logging.Blocks(hs) == Numbers(j) && |b2| == g.nblocks
    requires x <= |CommitWrites(g, d[g.start], hs, Logging.Contents(b2, hs))|
    ensures var ws := CommitWrites(g, d[g.start], hs, Logging.Contents(b2, hs));
            CrashAt(g, l, b0, n0, d0, a + ws, |a| + x, ks, i, off, src)
  {
    hide CommitWrites, Transacted, Survives, Commits, Apply, Numbers, Sound, Joined, SameHome, FileIs, OthersSame, GetWord;
    hide Logging.Contents;
    var ws := CommitWrites(g, d[g.start], hs, Logging.Contents(b2, hs));
    assert src[..done] + src[done..next] == src[..next];
    assert (a + ws)[..|a| + x] == a + ws[..x];
    InChunk(g, l, b0, n0, d, b1, n1, o1, b2, n2, o2, j, hs, i, off, src[..done], src[done..next], x, ks);
    LaterStart(g, l, b0, n0, d0, a, ws[..x], ks, i, off, if x <= |hs| then src[..done] else src[..next]);
    CommitsAdd(g, a, ws[..x]);
    CommitsOf(g, d[g.start], hs, Logging.Contents(b2, hs), x);
  }

  /** The commit of one more chunk. */
  lemma NextChunk(g: Geometry, l: Layout, b0: seq<Block>, n0: seq<Inode>, d0: Disk, a: seq<Write>, d: Disk,
                  b1: seq<Block>, n1: seq<Inode>, o1: map<nat, Place>, b2: seq<Block>, n2: seq<Inode>, o2: map<nat, Place>,
                  j: seq<Write>, hs: seq<Word>, i: nat, off: nat, src: seq<Byte>, done: nat, next: nat)
    requires CrashSafe(g, l, b0, n0, d0, a, i, off, src) && InBounds(d0, a) && d == Apply(d0, a)
    requires done == Upto(Commits(g, a), |src|) < |src| && next == Upto(Commits(g, a) + 1, |src|)
    requires Stage(g, l, b0, n0, d, b1, n1, o1, i, off, src[..done])
    requires Transacted(l, b1, n1, b2, n2, o2, j, i, off + done, src[done..next])
    requires Targets(g, hs) && hs != [] && Logging.Blocks(hs) == Numbers(j) && |b2| == g.nblocks
    ensures var ws := CommitWrites(g, d[g.start], hs, Logging.Contents(b2, hs));
            CrashSafe(g, l, b0, n0, d0, a + ws, i, off, src) && Commits(g, a + ws) == Commits(g, a) + 1
  {
    hide CommitWrites, Transacted, Survives, Commits, Apply, Numbers, Sound, Joined, SameHome, FileIs, OthersSame, GetWord;
    hide Logging.Contents, Upto;
    var ws := CommitWrites(g, d[g.start], hs, Logging.Contents(b2, hs));
    forall k: nat, ks: seq<nat> | k <= |a + ws|
      ensures CrashAt(g, l, b0, n0, d0, a + ws, k, ks, i, off, src)
    {
      if k <= |a| {
        assert (a + ws)[..k] == a[..k];
        assert CrashAt(g, l, b0, n0, d0, a, k, ks, i, off, src);
      } else {
        ChunkAt(g, l, b0, n0, d0, a, d, b1, n1, o1, b2, n2, o2, j, hs, i, off, src, done, next, k - |a|, ks);
      }
    }
    CommitsAdd(g, a, ws);
    OneCommit(g, d[g.start], hs, Logging.Contents(b2, hs));
  }

  lemma AppliedMore(d: Disk, a: seq<Write>, b: seq<Write>)
    requires InBounds(d, a) && InBounds(Apply(d, a), b)
    ensures InBounds(d, a + b) && Apply(d, a + b) == Apply(Apply(d, a), b)
  {
    hide Apply;
    ApplySplit(d, a, b);
  }

  lemma NextStage(g: Geometry, l: Layout, b0: seq<Block>, n0: seq<Inode>, d: Disk,
                  b1: seq<Block>, n1: seq<Inode>, o1: map<nat, Place>, d2: Disk, b2: seq<Block>, n2: seq<Inode>,
                  o2: map<nat, Place>, j: seq<Write>, i: nat, off: nat, data: seq<Byte>, part: seq<Byte>)
    requires Stage(g, l, b0, n0, d, b1, n1, o1, i, off, data)
    requires Transacted(l, b1, n1, b2, n2, o2, j, i, off + |data|, part) && part != []
    requires Quiet(g, d2) && SameHome(g, d2, b2) && OnDisk(l, b2, n2)
    ensures Stage(g, l, b0, n0, d2, b2, n2, o2, i, off, data + part)
  {
    hide FsOk, OnDisk, File, Spliced, NoHoles, FileIs, OthersSame, Apply, Numbers, Joined, Formatted, Listed, SameHome;
    SpliceNext(b0, n0, b1, n1, b2, n2, i, off, data, part);
  }

  /** What filewrite has done on the disk after some chunks, of done bytes: it was d0, has since seen the
      writes ws, and is now d. */
  ghost predicate Through(g: Geometry, l: Layout, b0: seq<Block>, n0: seq<Inode>, d0: Disk, ws: seq<Write>, d: Disk,
                          b: seq<Block>, n: seq<Inode>, owner: map<nat, Place>, i: nat, off: nat, src: seq<Byte>, done: nat) {
    && InBounds(d0, ws) && d == Apply(d0, ws) && done == Upto(Commits(g, ws), |src|)
    && CrashSafe(g, l, b0, n0, d0, ws, i, off, src) && Stage(g, l, b0, n0, d, b, n, owner, i, off, src[..done])
  }

  lemma ThroughNext(g: Geometry, l: Layout, b0: seq<Block>, n0: seq<Inode>, d0: Disk, ws: seq<Write>, d: Disk,
                    b1: seq<Block>, n1: seq<Inode>, o1: map<nat, Place>, d2: Disk, b2: seq<Block>, n2: seq<Inode>,
                    o2: map<nat, Place>, j: seq<Write>, hs: seq<Word>, before: seq<Write>, after: seq<Write>,
                    i: nat, off: nat, src: seq<Byte>, done: nat, next: nat)
    requires Through(g, l, b0, n0, d0, ws, d, b1, n1, o1, i, off, src, done)
    requires done < next && next == if |src| - done > MAXWRITE then done + MAXWRITE else |src|
    requires Transacted(l, b1, n1, b2, n2, o2, j, i, off + done, src[done..next])
    requires Quiet(g, d2) && SameHome(g, d2, b2) && OnDisk(l, b2, n2)
    requires Logging.Blocks(hs) == Numbers(j) && Transactions.Committed(g, d, d2, b2, hs, before, after)
    ensures before <= after && Through(g, l, b0, n0, d0, ws + after[|before|..], d2, b2, n2, o2, i, off, src, next)
  {
    hide CommitWrites, CrashSafe, Commits, Apply, GetWord, Joined, Sound, SameHome, FileIs, OthersSame, OnDisk, File, FsOk;
    hide Numbers, NoHoles, Spliced, Logging.Contents;
    assert hs != [] by { assert IBlock(l, i) in Logging.Blocks(hs); }
    var more := CommitWrites(g, d[g.start], hs, Logging.Contents(b2, hs));
    assert after[|before|..] == more;
    NextChunk(g, l, b0, n0, d0, ws, d, b1, n1, o1, b2, n2, o2, j, hs, i, off, src, done, next);
    NextStage(g, l, b0, n0, d, b1, n1, o1, d2, b2, n2, o2, j, i, off, src[..done], src[done..next]);
    AppliedMore(d0, ws, more);
    assert src[..done] + src[done..next] == src[..next];
  }

  lemma ThroughNone(g: Geometry, l: Layout, d: Disk, b: seq<Block>, n: seq<Inode>, owner: map<nat, Place>,
                    i: nat, off: nat, src: seq<Byte>)
    requires Quiet(g, d) && Joined(g, l) && SameHome(g, d, b) && Sound(l, b, n, owner) && i < |n|
    ensures Through(g, l, b, n, d, [], d, b, n, owner, i, off, src, 0)
  {
    hide Joined, Sound, SameHome, CrashSafe, FileIs, OthersSame, Formatted, Listed;
    NoneWritten(b, n, i, off);
    NothingYet(g, l, d, b, n, owner, i, off, src);
    assert src[..0] == [];
  }

  lemma ThroughEnds(g: Geometry, l: Layout, b0: seq<Block>, n0: seq<Inode>, d0: Disk, ws: seq<Write>, d: Disk,
                    b: seq<Block>, n: seq<Inode>, owner: map<nat, Place>, i: nat, off: nat, src: seq<Byte>, done: nat)
    requires Through(g, l, b0, n0, d0, ws, d, b, n, owner, i, off, src, done)
    ensures CrashSafe(g, l, b0, n0, d0, ws, i, off, src) && done == Upto(Commits(g, ws), |src|)
    ensures i < |n0| && i < |n| && |src[..done]| == done
    ensures if done == 0 then |File(b, n, i)| == |File(b0, n0, i)|
            else off <= |File(b0, n0, i)| && off + done <= |File(b, n, i)|
    ensures Has(l, b0, n0, d, n, owner, i, off, src[..done])
  {
    hide CrashSafe, Commits, Apply, Joined, Sound, FileIs, OthersSame, Formatted, Listed;
    SameFs(g, l, b, d, n, owner);
    FileReaches(b0, n0, b, n, i, off, src[..done]);
    HasSame(l, b0, n0, b, d, n, owner, i, off, src[..done]);
  }

  lemma Started(log: Logging.Log, fs: FileSystem, i: nat, off: nat, src: seq<Byte>)
    requires Ready(log, fs, i)
    ensures i < |fs.inodes|
    ensures Through(log.g, fs.l, fs.blocks, fs.inodes, log.cache.disk.blocks, [], log.cache.disk.blocks, fs.blocks,
                    fs.inodes, fs.owner, i, off, src, 0)
  {
    hide FsOk, OnDisk, NoHoles, File, Through, NBitmap, Joined, Listed, GetWord;
    Logging.NothingLags(log.s, log.cache.buf[..], log.cache.disk.blocks, log.dev);
    ThroughNone(log.g, fs.l, log.cache.disk.blocks, fs.blocks, fs.inodes, fs.owner, i, off, src);
  }

  /** One turn of filewrite's loop, at byte k; more are the writes it makes, and ok says that the chunk was
      not refused. */
  method NextThrough(log: Logging.Log, fs: FileSystem, i: nat, off: nat, at: Word, src: seq<Byte>, k: nat, n: nat,
                     ghost b0: seq<Block>, ghost n0: seq<Inode>, ghost d0: Disk, ghost ws: seq<Write>)
    returns (r: Outcome<bool>, ghost more: seq<Write>)
    requires Ready(log, fs, i) && k < |src| && at == off + k && n == if |src| - k > MAXWRITE then MAXWRITE else |src| - k
    requires Through(log.g, fs.l, b0, n0, d0, ws, log.cache.disk.blocks, fs.blocks, fs.inodes, fs.owner, i, off, src, k)
    modifies fs, log, log.block, log.cache, log.cache.buf, log.cache.link, log.cache.disk
    ensures log.cache.disk.writes == old(log.cache.disk.writes) + more
    ensures r.Panics? ==> AllUsed(fs.l, fs.blocks) && CrashSafe(log.g, fs.l, b0, n0, d0, ws + more, i, off, src)
    ensures r.Returns? ==>
            && Ready(log, fs, i) && (r.value <==> at <= |File(old(fs.blocks), old(fs.inodes), i)| && at + n <= 274432)
            && Through(log.g, fs.l, b0, n0, d0, ws + more, log.cache.disk.blocks, fs.blocks, fs.inodes, fs.owner, i, off, src,
                       if r.value then k + n else k)
            && (!r.value ==> fs.blocks == old(fs.blocks) && fs.inodes == old(fs.inodes))
  {
    hide FsOk, OnDisk, NoHoles, File, Spliced, OthersSame, CommitWrites, Head, Listed, GetWord, Apply, Numbers;
    hide Joined, Has, CrashSafe, Commits, Through, Transactions.Committed, FileIs, NBitmap, Upto, Transacted;
    ghost var b1, n1, o1, d1, w1 := fs.blocks, fs.inodes, fs.owner, log.cache.disk.blocks, log.cache.disk.writes;
    more := [];
    assert ws + more == ws && w1 + more == w1;
    ghost var hs;
    var done;
    done, hs := WriteThrough(log, fs, i, at, src[k..k + n]);
    if done.Panics? {
      ThroughEnds(log.g, fs.l, b0, n0, d0, ws, d1, b1, n1, o1, i, off, src, k);
      return Panics, more;
    }
    if done.value == n {
      ThroughNext(log.g, fs.l, b0, n0, d0, ws, d1, b1, n1, o1, log.cache.disk.blocks, fs.blocks, fs.inodes, fs.owner,
                  fs.journal, hs, w1, log.cache.disk.writes, i, off, src, k, k + n);
      more := log.cache.disk.writes[|w1|..];
    }
    r := Returns(done.value == n);
  }

  /** filewrite with every transaction run through the log.  However it ends, and wherever the machine
      stops in the writes it makes, the recovered disk has a sound file system in which the file holds the
      chunks that have committed, and the other files are as they were. */
  method FileWriteThrough(log: Logging.Log, fs: FileSystem, i: nat, off: Word, src: seq<Byte>)
    returns (ret: Outcome<int>, off': Word, ghost done: nat, ghost ws: seq<Write>)
    requires Ready(log, fs, i)
    modifies fs, log, log.block, log.cache, log.cache.buf, log.cache.link, log.cache.disk
    ensures log.cache.disk.writes == old(log.cache.disk.writes) + ws
    ensures CrashSafe(log.g, fs.l, old(fs.blocks), old(fs.inodes), old(log.cache.disk.blocks), ws, i, off, src)
    ensures ret.Panics? ==> AllUsed(fs.l, fs.blocks)
    ensures ret.Returns? ==>
            && Ready(log, fs, i) && done == Upto(Commits(log.g, ws), |src|) && off' == off + done
            && ret.value == (if done == |src| then |src| else -1)
            && Has(fs.l, old(fs.blocks), old(fs.inodes), log.cache.disk.blocks, fs.inodes, fs.owner, i, off, src[..done])
            && done == Accepted(|File(old(fs.blocks), old(fs.inodes), i)|, off, |src|)
  {
    hide FsOk, OnDisk, NoHoles, File, Spliced, OthersSame, FileIs, Has, CrashSafe, Commits, Through, NBitmap, Accepted;
    hide Upto, Ready;
    ghost var b0, n0, d0 := fs.blocks, fs.inodes, log.cache.disk.blocks;
    Started(log, fs, i, off, src);
    off', done, ws := off, 0, [];
    var k := 0;
    while k < |src|
      invariant done == k <= |src| && off' == off + k && Ready(log, fs, i) && (k == |src| || k % 3072 == 0)
      invariant k > 0 ==> off + k <= 274432
      invariant log.cache.disk.writes == old(log.cache.disk.writes) + ws
      invariant Through(log.g, fs.l, b0, n0, d0, ws, log.cache.disk.blocks, fs.blocks, fs.inodes, fs.owner, i, off, src, k)
    {
      var n := if |src| - k > MAXWRITE then MAXWRITE else |src| - k;
      ghost var more;
      var r;
      r, more := NextThrough(log, fs, i, off, off', src, k, n, b0, n0, d0, ws);
      ws := ws + more;
      if r.Panics? {
        ret := Panics;
        return;
      }
      if !r.value {
        break;
      }
      off' := off' + n;
      k := k + n;
      done := k;
    }
    ThroughEnds(log.g, fs.l, b0, n0, d0, ws, log.cache.disk.blocks, fs.blocks, fs.inodes, fs.owner, i, off, src, k);
    StopsAt(|File(b0, n0, i)|, |File(fs.blocks, fs.inodes, i)|, off, k, |src|);
    ret := Returns(if k == |src| then |src| else -1);
  }
}
