/** Block allocation, the block map of files, and reading and writing their contents (kernel/fs.c,
    kernel/file.c).  Blocks are what the log presents to its callers; `journal` lists the log_writes of
    the current transaction. */
module Files {
  import opened Bytes
  import opened Bitmap
  import opened BlockMap
  import opened Common
  import opened Contents
  import opened DiskInodes
  import opened Journal
  import opened Recovery

  ghost predicate AllUsed(l: Layout, blocks: seq<Block>) {
    && l.Valid() && |blocks| == l.size
    && forall c: nat :: c < l.size ==> Bit(l, blocks, c)
  }

  ghost function Range(lo: nat, hi: nat): (r: set<nat>)
    requires lo <= hi
    ensures forall b :: b in r <==> lo <= b < hi
    ensures |r| == hi - lo
    decreases hi - lo
  {
    if lo == hi then {} else {lo} + Range(lo + 1, hi)
  }

  function NBitmap(l: Layout): nat { (l.size + BPB - 1) / BPB }

  ghost function BitmapBlocks(l: Layout): (r: set<nat>)
    ensures |r| == NBitmap(l)
    ensures forall b: nat :: b < l.size ==> l.BBlock(b) in r
  {
    Range(l.bmapstart, l.bmapstart + NBitmap(l))
  }

  /** What readi and writei do: stop the machine, or return. */
  datatype Outcome<T> = Panics | Returns(value: T)

  /** The file blocks that n bytes at off touch are off / BSIZE up to, not including, this one. */
  function EndBlock(off: nat, n: nat): nat {
    if n == 0 then off / BSIZE else (off + n - 1) / BSIZE + 1
  }

  /** How many of the next `left` bytes at o are in the same block. */
  function InOneBlock(o: nat, left: nat): (m: nat)
    ensures m <= left && o % BSIZE + m <= BSIZE && (left > 0 ==> m > 0)
  {
    if left < BSIZE - o % BSIZE then left else BSIZE - o % BSIZE
  }

  /** writei refuses these. */
  predicate Refuses(size: nat, off: nat, n: nat) {
    off > size || off + n >= 0x1_0000_0000 || off + n > MAXFILE * BSIZE
  }

  const MAXWRITE := (MAXOPBLOCKS - 1 - 1 - 2) / 2 * BSIZE

  /** How many of n bytes at off filewrite gets into a file of the given size: none behind its end, and
      otherwise all of them, or the chunks of three blocks that fit below the largest size. */
  ghost function Accepted(size: nat, off: nat, n: nat): nat {
    if off > size then 0
    else if off + n <= 274432 then n
    else if off > 274432 then 0
    else (274432 - off) / 3072 * 3072
  }

  /** filewrite stops after k bytes, at the end or at a chunk that is refused. */
  lemma StopsAt(size0: nat, size: nat, off: nat, k: nat, n: nat)
    requires k <= n && (k == n || k % 3072 == 0) && (k > 0 ==> off <= size0 && off + k <= size && off + k <= 274432)
    requires k == 0 ==> size == size0
    requires k < n ==> off + k > size || off + k + (if n - k > 3072 then 3072 else n - k) > 274432
    ensures k == Accepted(size0, off, n)
  {
  }

  /** The bytes off..off+n-1 of a file that are there; none if readi refuses the range. */
  function Clip(f: seq<Byte>, off: nat, n: nat): seq<Byte> {
    if off > |f| || off + n >= 0x1_0000_0000 then [] else if off + n > |f| then f[off..] else f[off..off + n]
  }

  /** The bitmap blocks that hold the bits of these blocks. */
  ghost function Bitmaps(l: Layout, s: set<nat>): set<nat> { set b | b in s :: l.BBlock(b) }

  /** The journal names only blocks on the way to blocks lo..hi-1 of file i: those, the indirect block,
      and the bitmap blocks of those that are new.  o0 and o are the blocks in use before and after. */
  ghost predicate Used(l: Layout, j0: seq<Write>, o0: set<nat>, j: seq<Write>, o: set<nat>,
                       b: seq<Block>, n: seq<Inode>, i: nat, lo: nat, hi: nat)
    requires lo <= hi
  {
    && o0 <= o && o - o0 <= Indirect(b, n, i) + Backing(b, n, i, lo, hi)
    && Numbers(j) <= Numbers(j0) + Bitmaps(l, o - o0) + Indirect(b, n, i) + Backing(b, n, i, lo, hi)
  }

  /** The journal has grown, by bitmap blocks only. */
  ghost predicate BitsLogged(l: Layout, b0: seq<Block>, j0: seq<Write>, b: seq<Block>, j: seq<Write>) {
    && Logs(b0, j0, b, j) && FrontKept(l, b0, b) && Numbers(j) <= Numbers(j0) + BitmapBlocks(l)
  }

  class FileSystem {
    const l: Layout
    var blocks: seq<Block>
    var inodes: seq<Inode>
    var journal: seq<Write>
    ghost var owner: map<nat, Place>

    ghost predicate Ok()
      reads this
    {
      FsOk(l, blocks, inodes, owner) && InodesFit(l, |inodes|)
    }

    /** A disk image whose bitmap and slots agree, as mkfs makes it. */
    constructor (l: Layout, blocks: seq<Block>, inodes: seq<Inode>, ghost owner: map<nat, Place>)
      requires FsOk(l, blocks, inodes, owner) && InodesFit(l, |inodes|)
      ensures Ok() && this.l == l && this.blocks == blocks && this.inodes == inodes && journal == []
    {
      this.l, this.blocks, this.inodes, this.owner, this.journal := l, blocks, inodes, owner, [];
    }

    /** log_write of a block that now holds data. */
    method LogWrite(c: nat, data: Block)
      requires c < |blocks|
      modifies `blocks, `journal
      ensures blocks == old(blocks)[c := data] && Logs(old(blocks), old(journal), blocks, journal)
      ensures Numbers(journal) == Numbers(old(journal)) + {c}
    {
      LogsOne(blocks, journal, c, data);
      blocks := blocks[c := data];
      journal := journal + [Write(c, data)];
    }

    /** The end of balloc: mark a free block in use, and bzero it. */
    method Take(b: nat, ghost used: set<nat>)
      requires BitsOk(l, blocks, used) && b < l.size && !Bit(l, blocks, b)
      modifies `blocks, `journal
      ensures l.datastart <= b && b !in used && BitsOk(l, blocks, used + {b})
      ensures forall c: nat :: c < l.size && c != b && c != l.BBlock(b) ==> blocks[c] == old(blocks)[c]
      ensures blocks[b] == ZeroBlock() && Numbers(journal) == Numbers(old(journal)) + {l.BBlock(b), b}
      ensures Logs(old(blocks), old(journal), blocks, journal)
    {
      hide BlockBit, Logs, Numbers;
      PutBitOk(l, blocks, used, b, true);
      LogWrite(l.BBlock(b), PutBlockBit(blocks[l.BBlock(b)], b % BPB, true));
      DataBits(l, blocks, used + {b}, b, ZeroBlock());
      ghost var blocks1, journal1 := blocks, journal;
      LogWrite(b, ZeroBlock());
      LogsTrans(old(blocks), old(journal), blocks1, journal1, blocks, journal);
    }

    /** balloc: the lowest block whose bit is clear, zeroed; 0 is the panic "out of blocks". */
    method BAlloc(ghost used: set<nat>) returns (b: nat)
      requires BitsOk(l, blocks, used)
      modifies `blocks, `journal
      ensures b == 0 <==> AllUsed(l, old(blocks))
      ensures b == 0 ==> blocks == old(blocks) && journal == old(journal)
      ensures b != 0 ==>
              && l.datastart <= b < l.size == |blocks| == |old(blocks)| && l.size < 0x8000_0000
              && b !in used && BitsOk(l, blocks, used + {b})
              && (forall c: nat :: c < b ==> Bit(l, old(blocks), c))
              && (forall c: nat :: c < l.size && c != b && c != l.BBlock(b) ==> blocks[c] == old(blocks)[c])
              && blocks[b] == ZeroBlock()
              && Numbers(journal) == Numbers(old(journal)) + {l.BBlock(b), b}
              && Logs(old(blocks), old(journal), blocks, journal) && FrontKept(l, old(blocks), blocks)
    {
      hide BlockBit, Logs, Numbers;
      var base := 0;
      while base < l.size
        invariant 0 <= base && base % BPB == 0 && blocks == old(blocks) && journal == old(journal)
        invariant forall c: nat :: c < base && c < l.size ==> Bit(l, blocks, c)
      {
        var bi := 0;
        while bi < BPB && base + bi < l.size
          invariant 0 <= bi <= BPB && blocks == old(blocks) && journal == old(journal)
          invariant forall c: nat :: c < base + bi && c < l.size ==> Bit(l, blocks, c)
        {
          assert (base + bi) / BPB == base / BPB && (base + bi) % BPB == bi;
          if !BlockBit(blocks[l.BBlock(base)], bi) {
            b := base + bi;
            assert !Bit(l, blocks, b);
            Take(b, used);
            return;
          }
          assert Bit(l, blocks, base + bi);
          bi := bi + 1;
        }
        base := base + BPB;
      }
      return 0;
    }

    /** bfree; ok == false is the panic "freeing free block". */
    method BFree(b: nat, ghost used: set<nat>) returns (ok: bool)
      requires BitsOk(l, blocks, used) && l.datastart <= b < l.size
      modifies `blocks, `journal
      ensures ok <==> b in used
      ensures !ok ==> blocks == old(blocks) && journal == old(journal)
      ensures ok ==>
              && BitsOk(l, blocks, used - {b})
              && (forall c: nat :: c < l.size && c != l.BBlock(b) ==> blocks[c] == old(blocks)[c])
              && Numbers(journal) == Numbers(old(journal)) + {l.BBlock(b)}
              && BitsLogged(l, old(blocks), old(journal), blocks, journal)
    {
      hide BlockBit, Logs, Numbers, BitmapBlocks, BitsOk, Bit, FrontKept, PutBlockBit;
      BitPlace(l, blocks, used, b);
      ok := BlockBit(blocks[l.BBlock(b)], b % BPB);
      if ok {
        var c := l.BBlock(b);
        PutBitOk(l, blocks, used, b, false);
        LogWrite(c, PutBlockBit(blocks[c], b % BPB, false));
        FrontAfter(l, old(blocks), c, blocks[c]);
      }
    }

    /** balloc for an empty slot of the inode itself; 0 is the panic. */
    method FillSlot(i: nat, k: nat) returns (b: nat)
      requires Ok() && i < |inodes| && k <= INDIRECT && inodes[i].addrs[k] == 0
      modifies this
      ensures b == 0 ==> AllUsed(l, blocks)
      ensures b != 0 ==>
              && Ok() && Mapped(old(blocks), old(inodes), blocks, inodes, i)
              && SlotsBut(old(blocks), old(inodes), blocks, inodes, i, k, b)
              && b < l.size && Numbers(journal) == Numbers(old(journal)) + {l.BBlock(b), b}
              && b !in old(owner) && owner.Keys == old(owner).Keys + {b}
              && Logs(old(blocks), old(journal), blocks, journal) && FrontKept(l, old(blocks), blocks)
    {
      assert SlotAt(blocks, inodes, i, k) == 0;
      hide Bit, SlotAt, Mapped, SlotsOk, SlotsBut, Logs, Numbers;
      b := BAlloc(owner.Keys);
      if b != 0 {
        FilledSlot(l, old(blocks), inodes, owner, blocks, i, k, b);
        inodes := inodes[i := inodes[i].(addrs := inodes[i].addrs[k := b])];
        owner := owner[b := Place(i, k)];
      }
    }

    /** bmap's write of an entry of an indirect block, after the allocation since blocks0 and journal0. */
    method PutEntry(p: nat, j: nat, b: Word, ghost blocks0: seq<Block>, ghost journal0: seq<Write>)
      requires l.Valid() && l.datastart <= p < |blocks| && j < NINDIRECT
      requires Logs(blocks0, journal0, blocks, journal) && FrontKept(l, blocks0, blocks)
      modifies `blocks, `journal
      ensures blocks == old(blocks)[p := PutWord(old(blocks)[p], j, b)]
      ensures Numbers(journal) == Numbers(old(journal)) + {p}
      ensures Logs(blocks0, journal0, blocks, journal) && FrontKept(l, blocks0, blocks)
    {
      hide Logs, Numbers, PutWord;
      LogWrite(p, PutWord(blocks[p], j, b));
      LogsTrans(blocks0, journal0, old(blocks), old(journal), blocks, journal);
    }

    /** balloc for an empty entry of the inode's indirect block; 0 is the panic. */
    method FillEntry(i: nat, j: nat) returns (b: nat)
      requires Ok() && i < |inodes| && j < NINDIRECT && inodes[i].addrs[INDIRECT] != 0
      requires SlotAt(blocks, inodes, i, INDIRECT + 1 + j) == 0
      modifies this
      ensures b == 0 ==> AllUsed(l, blocks)
      ensures b != 0 ==>
              && Ok() && Mapped(old(blocks), old(inodes), blocks, inodes, i)
              && SlotsBut(old(blocks), old(inodes), blocks, inodes, i, INDIRECT + 1 + j, b)
              && b < l.size && inodes == old(inodes)
              && Numbers(journal) == Numbers(old(journal)) + {l.BBlock(b), b, inodes[i].addrs[INDIRECT]}
              && b !in old(owner) && owner.Keys == old(owner).Keys + {b}
              && Logs(old(blocks), old(journal), blocks, journal) && FrontKept(l, old(blocks), blocks)
    {
      hide FsOk, Bit, SlotAt, Mapped, SlotsBut, PutWord, AllUsed, Logs, Numbers, FrontKept, InodesFit;
      IndirectSlot(l, blocks, inodes, owner, i);
      var p := inodes[i].addrs[INDIRECT];
      b := BAlloc(owner.Keys);
      if b != 0 {
        FilledEntry(l, old(blocks), inodes, owner, blocks, i, j, b);
        PutEntry(p, j, b, old(blocks), old(journal));
        owner := owner[b := Place(i, INDIRECT + 1 + j)];
      }
    }

    /** bmap: the block that holds the n-th block of a file, allocated if there is none yet; 0 is a
        panic, for a block number out of range or a full disk. */
    method BMap(i: nat, n: nat) returns (b: nat)
      requires Ok() && i < |inodes|
      modifies this
      ensures b == 0 ==> n >= MAXFILE || AllUsed(l, blocks)
      ensures b != 0 ==>
              && n < MAXFILE && Ok() && Mapped(old(blocks), old(inodes), blocks, inodes, i)
              && SlotAt(blocks, inodes, i, SlotOf(n)) == b
              && (forall k: nat :: k != SlotOf(n) && (k != INDIRECT || n < NDIRECT) ==>
                    SlotAt(blocks, inodes, i, k) == SlotAt(old(blocks), old(inodes), i, k))
              && Used(l, old(journal), old(owner).Keys, journal, owner.Keys, blocks, inodes, i, n, n + 1)
              && Logs(old(blocks), old(journal), blocks, journal) && FrontKept(l, old(blocks), blocks)
      ensures n < MAXFILE && SlotAt(old(blocks), old(inodes), i, SlotOf(n)) != 0 ==>
              && b == SlotAt(old(blocks), old(inodes), i, SlotOf(n))
              && blocks == old(blocks) && inodes == old(inodes) && owner == old(owner) && journal == old(journal)
    {
      hide Bit, GetWord, BitsOk, Logs, Numbers, Used;
      LogsNone(blocks, journal);
      if n < NDIRECT {
        b := inodes[i].addrs[n];
        if b == 0 {
          b := FillSlot(i, n);
        }
        if b != 0 {
          UsedSlot(l, old(journal), old(owner).Keys, journal, owner.Keys, blocks, inodes, i, n, b);
        }
      } else if n - NDIRECT < NINDIRECT {
        b := BMapEntry(i, n - NDIRECT);
      } else {
        b := 0;
      }
    }

    /** bmap through the indirect block. */
    method BMapEntry(i: nat, j: nat) returns (b: nat)
      requires Ok() && i < |inodes| && j < NINDIRECT
      modifies this
      ensures b == 0 ==> AllUsed(l, blocks)
      ensures b != 0 ==>
              && Ok() && Mapped(old(blocks), old(inodes), blocks, inodes, i)
              && SlotAt(blocks, inodes, i, INDIRECT + 1 + j) == b
              && (forall k: nat :: k != INDIRECT + 1 + j && k != INDIRECT ==>
                    SlotAt(blocks, inodes, i, k) == SlotAt(old(blocks), old(inodes), i, k))
              && Used(l, old(journal), old(owner).Keys, journal, owner.Keys, blocks, inodes, i,
                      NDIRECT + j, NDIRECT + j + 1)
              && Logs(old(blocks), old(journal), blocks, journal) && FrontKept(l, old(blocks), blocks)
      ensures SlotAt(old(blocks), old(inodes), i, INDIRECT + 1 + j) != 0 ==>
              && b == SlotAt(old(blocks), old(inodes), i, INDIRECT + 1 + j)
              && blocks == old(blocks) && inodes == old(inodes) && owner == old(owner) && journal == old(journal)
    {
      hide Bit, GetWord, BitsOk, Logs, Numbers, Used;
      LogsNone(blocks, journal);
      MappedNone(blocks, inodes, i);
      var p := inodes[i].addrs[INDIRECT];
      if p == 0 {
        p := FillSlot(i, INDIRECT);
        if p == 0 { return 0; }
      }
      assert SlotAt(blocks, inodes, i, INDIRECT) == p;
      b := GetWord(blocks[p], j);
      ghost var blocks1, inodes1, journal1 := blocks, inodes, journal;
      if b == 0 {
        b := FillEntry(i, j);
        if b == 0 { return 0; }
        MappedTrans(old(blocks), old(inodes), blocks1, inodes1, blocks, inodes, i);
        LogsTrans(old(blocks), old(journal), blocks1, journal1, blocks, journal);
      }
      hide SlotAt, Mapped;
      UsedEntry(l, old(journal), old(owner).Keys, journal, owner.Keys, blocks, inodes, i, j, p, b);
    }

    /** itrunc frees one direct block, if there is one. */
    method FreeSlot(i: nat, k: nat) returns (ok: bool)
      requires Ok() && i < |inodes| && k < NDIRECT
      modifies this
      ensures ok && Ok() && BitmapOnly(l, old(blocks), blocks)
      ensures inodes == Cleared(old(inodes), i, k) && owner == old(owner) - BlockMap.Held(old(owner), i, k, k + 1)
      ensures BitsLogged(l, old(blocks), old(journal), blocks, journal)
    {
      hide Bit, GetWord, BitsLogged;
      ok := true;
      BitsLoggedNone(l, blocks, journal);
      var b := inodes[i].addrs[k];
      OneHeld(l, blocks, inodes, owner, i, k);
      if b != 0 {
        InUse(l, blocks, inodes, owner, i, k);
        ok := BFree(b, owner.Keys);
        Dropped(l, old(blocks), inodes, owner, blocks, i, k);
        inodes := inodes[i := inodes[i].(addrs := inodes[i].addrs[k := 0])];
        owner := owner - {b as nat};
      } else {
        assert inodes[i].addrs[k := 0] == inodes[i].addrs;
      }
    }

    method FreeDirect(i: nat) returns (ok: bool)
      requires Ok() && i < |inodes|
      modifies this
      ensures ok && Ok() && Emptied(l, old(blocks), old(inodes), old(owner), blocks, inodes, owner, i, NDIRECT)
      ensures BitsLogged(l, old(blocks), old(journal), blocks, journal)
    {
      hide Bit, SlotAt, BitsOk, SlotsOk, GetWord, BitsLogged;
      ok := true;
      var k := 0;
      BitsLoggedNone(l, blocks, journal);
      EmptiedNone(l, blocks, inodes, owner, i);
      while k < NDIRECT
        invariant 0 <= k <= NDIRECT && Ok() && ok
        invariant Emptied(l, old(blocks), old(inodes), old(owner), blocks, inodes, owner, i, k)
        invariant BitsLogged(l, old(blocks), old(journal), blocks, journal)
      {
        EmptiedStep(l, old(blocks), old(inodes), old(owner), blocks, inodes, owner, i, k);
        ghost var blocks1, journal1 := blocks, journal;
        ok := FreeSlot(i, k);
        BitsLoggedTrans(l, old(blocks), old(journal), blocks1, journal1, blocks, journal);
        k := k + 1;
      }
    }

    /** The second half of itrunc: the blocks the indirect block names, and the indirect block. */
    method FreeTail(i: nat) returns (ok: bool)
      requires Ok() && i < |inodes|
      modifies this
      ensures ok && Ok() && BitmapOnly(l, old(blocks), blocks)
      ensures inodes == Cleared(old(inodes), i, INDIRECT)
      ensures owner == old(owner) - BlockMap.Held(old(owner), i, INDIRECT, NSLOTS)
      ensures BitsLogged(l, old(blocks), old(journal), blocks, journal)
    {
      hide Bit, GetWord, BitsLogged;
      ok := true;
      BitsLoggedNone(l, blocks, journal);
      var p := inodes[i].addrs[INDIRECT];
      OneHeld(l, blocks, inodes, owner, i, INDIRECT);
      if p == 0 {
        NoTail(l, blocks, inodes, owner, i);
        assert inodes[i].addrs[INDIRECT := 0] == inodes[i].addrs;
        return;
      }
      InUse(l, blocks, inodes, owner, i, INDIRECT);
      var a := blocks[p];
      assert forall j: nat :: j < NINDIRECT ==> GetWord(a, j) == SlotAt(blocks, inodes, i, INDIRECT + 1 + j);
      hide SlotAt, SlotsOk;
      ok := FreeEntries(i, a);
      ghost var blocks1, journal1 := blocks, journal;
      ok := BFree(p, owner.Keys - BlockMap.Held(owner, i, INDIRECT + 1, NSLOTS));
      BitsLoggedTrans(l, old(blocks), old(journal), blocks1, journal1, blocks, journal);
      TailFreed(l, old(blocks), inodes, owner, blocks, i);
      inodes := inodes[i := inodes[i].(addrs := inodes[i].addrs[INDIRECT := 0])];
      owner := owner - BlockMap.Held(owner, i, INDIRECT, NSLOTS);
    }

    method FreeEntries(i: nat, a: Block) returns (ok: bool)
      requires Ok() && i < |inodes|
      requires forall j: nat :: j < NINDIRECT ==> GetWord(a, j) == SlotAt(blocks, inodes, i, INDIRECT + 1 + j)
      modifies `blocks, `journal
      ensures ok && BitmapOnly(l, old(blocks), blocks)
      ensures BitsOk(l, blocks, owner.Keys - BlockMap.Held(owner, i, INDIRECT + 1, NSLOTS))
      ensures BitsLogged(l, old(blocks), old(journal), blocks, journal)
    {
      hide Bit, GetWord, FsOk, SlotAt, BitsLogged;
      ok := true;
      var j := 0;
      BitsLoggedNone(l, blocks, journal);
      assert BitsOk(l, blocks, owner.Keys - BlockMap.Held(owner, i, INDIRECT + 1, INDIRECT + 1)) by {
        NoneFreed(l, blocks, inodes, owner, i);
      }
      while j < NINDIRECT
        invariant 0 <= j <= NINDIRECT && ok && BitmapOnly(l, old(blocks), blocks)
        invariant BitsOk(l, blocks, owner.Keys - BlockMap.Held(owner, i, INDIRECT + 1, INDIRECT + 1 + j))
        invariant BitsLogged(l, old(blocks), old(journal), blocks, journal)
      {
        var b := GetWord(a, j);
        EntryFreed(l, old(blocks), inodes, owner, i, j);
        if b != 0 {
          ghost var blocks1, journal1 := blocks, journal;
          ok := BFree(b, owner.Keys - BlockMap.Held(owner, i, INDIRECT + 1, INDIRECT + 1 + j));
          BitsLoggedTrans(l, old(blocks), old(journal), blocks1, journal1, blocks, journal);
        }
        j := j + 1;
      }
    }

    /** itrunc up to iupdate. */
    method FreeBlocks(i: nat) returns (ok: bool)
      requires Ok() && i < |inodes|
      modifies this
      ensures ok && Ok() && BitmapOnly(l, old(blocks), blocks)
      ensures inodes == old(inodes)[i := Inode(seq(NDIRECT + 1, x => 0), 0)]
      ensures owner == old(owner) - BlockMap.Held(old(owner), i, 0, NSLOTS)
      ensures BitsLogged(l, old(blocks), old(journal), blocks, journal)
    {
      hide SlotAt, GetWord, Bit, BitsOk, View, SlotsOk, SameViews, BitsLogged;
      ghost var o := owner;
      ok := FreeDirect(i);
      ghost var blocks1, journal1 := blocks, journal;
      ok := FreeTail(i);
      BitsLoggedTrans(l, old(blocks), old(journal), blocks1, journal1, blocks, journal);
      Resize(blocks, inodes, owner, i, 0);
      inodes := inodes[i := inodes[i].(size := 0)];
      HeldSplit(o, i, 0, NDIRECT, NSLOTS);
      assert owner == o - BlockMap.Held(o, i, 0, NSLOTS);
      assert inodes[i].addrs == seq(NDIRECT + 1, x => 0);
    }

    /** itrunc: the inode gives up all its blocks and no other block changes hands. */
    method ITrunc(i: nat) returns (ok: bool)
      requires Ok() && i < |inodes|
      modifies this
      ensures ok && Ok() && BitmapOnly(l, old(blocks), blocks)
      ensures inodes == old(inodes)[i := Inode(seq(NDIRECT + 1, x => 0), 0)]
      ensures owner == old(owner) - BlockMap.Held(old(owner), i, 0, NSLOTS)
      ensures forall b: nat :: b < l.size ==>
                (Bit(l, blocks, b) <==> Bit(l, old(blocks), b) && !(b in old(owner) && old(owner)[b].i == i))
      ensures forall j: nat, n: nat :: j != i ==> View(blocks, inodes, j, n) == View(old(blocks), old(inodes), j, n)
      ensures Logs(old(blocks), old(journal), blocks, journal)
      ensures Numbers(journal) <= Numbers(old(journal)) + BitmapBlocks(l) + {IBlock(l, i)}
      ensures OnDisk(l, old(blocks), old(inodes)) ==> OnDisk(l, blocks, inodes)
    {
      assert l.Valid();
      hide FsOk, SlotAt, Bit, View, SameViews, BitmapBlocks, Logs, Numbers, OnDisk, BitmapOnly, PutInode, InodesFit;
      ok := FreeBlocks(i);
      ghost var blocks1 := blocks;
      IUpdate(i, old(blocks), old(inodes), old(journal));
      MetaOnly(l, old(blocks), blocks1, blocks, i);
      FreedBits(l, old(blocks), old(inodes), old(owner), blocks, inodes, owner, i);
      OtherViews(l, old(blocks), old(inodes), old(owner), blocks, inodes, i);
    }

    /** iupdate: the inode goes to its place on disk.  blocks0, inodes0 and journal0 are from before the
        operation, which has left the other inodes alone. */
    method IUpdate(i: nat, ghost blocks0: seq<Block>, ghost inodes0: seq<Inode>, ghost journal0: seq<Write>)
      requires Ok() && i < |inodes| == |inodes0| && Logs(blocks0, journal0, blocks, journal)
      requires FrontKept(l, blocks0, blocks) && forall j: nat :: j < |inodes| && j != i ==> inodes[j] == inodes0[j]
      modifies `blocks, `journal
      ensures IBlock(l, i) < |old(blocks)| && |inodes[i].addrs| == NDIRECT + 1
      ensures Ok() && blocks == Stored(l, old(blocks), i, inodes[i])
      ensures SameViews(old(blocks), inodes, blocks, inodes)
      ensures forall j: nat, k: nat :: SlotAt(blocks, inodes, j, k) == SlotAt(old(blocks), inodes, j, k)
      ensures Logs(blocks0, journal0, blocks, journal) && Numbers(journal) == Numbers(old(journal)) + {IBlock(l, i)}
      ensures l.inodestart <= IBlock(l, i) < l.bmapstart
      ensures OnDisk(l, blocks0, inodes0) ==> OnDisk(l, blocks, inodes)
    {
      assert |inodes[i].addrs| == NDIRECT + 1;
      hide SlotAt, Bit, Logs, Numbers, OnDisk, SlotsOk, PutInode, SameViews;
      StoredKeeps(l, blocks, inodes, owner, i, inodes[i]);
      if OnDisk(l, blocks0, inodes0) { DiskInodes.Updated(l, blocks0, inodes0, blocks, inodes, i); }
      LogWrite(IBlock(l, i), PutInode(blocks[IBlock(l, i)], i % IPB, inodes[i]));
      LogsTrans(blocks0, journal0, old(blocks), old(journal), blocks, journal);
    }

    /** One step of writei's loop: the block is found or made, part of it replaced, and logged. */
    method WriteChunk(i: nat, off: nat, part: seq<Byte>) returns (ok: bool)
      requires Ok() && i < |inodes| && off % BSIZE + |part| <= BSIZE && part != []
      modifies this
      ensures !ok ==> off / BSIZE >= MAXFILE || AllUsed(l, blocks)
      ensures ok ==> |inodes| == |old(inodes)|
      ensures ok ==> Ok() && Wrote(old(blocks), old(inodes), blocks, inodes, i, off, part)
      ensures ok ==> Used(l, old(journal), old(owner).Keys, journal, owner.Keys, blocks, inodes, i,
                          off / BSIZE, off / BSIZE + 1)
      ensures ok ==> Logs(old(blocks), old(journal), blocks, journal) && FrontKept(l, old(blocks), blocks)
    {
      hide SlotAt, GetWord, Bit, Written, View, Logs, Numbers, Used, Wrote, InodesFit;
      var b := BMap(i, off / BSIZE);
      if b == 0 {
        return false;
      }
      InUse(l, blocks, inodes, owner, i, SlotOf(off / BSIZE));
      var at := off % BSIZE;
      var data := blocks[b][..at] + part + blocks[b][at + |part|..];
      ghost var blocks1, inodes1, journal1 := blocks, inodes, journal;
      Chunk(l, blocks, inodes, owner, i, off, part);
      LogWrite(b, data);
      LogsTrans(old(blocks), old(journal), blocks1, journal1, blocks, journal);
      ChunkWrote(old(blocks), old(inodes), blocks1, blocks, inodes, i, off, part);
      UsedAgain(l, old(journal), old(owner).Keys, journal1, journal, owner.Keys, blocks1, blocks, inodes, i,
                off / BSIZE, b);
      ok := true;
    }

    /** writei's loop. */
    method WriteBlocks(i: nat, off: Word, src: seq<Byte>) returns (ok: bool)
      requires Ok() && i < |inodes| && !Refuses(inodes[i].size, off, |src|)
      modifies this
      ensures !ok ==> AllUsed(l, blocks)
      ensures ok ==> |inodes| == |old(inodes)| && off / BSIZE <= EndBlock(off, |src|)
      ensures ok ==> Ok() && Wrote(old(blocks), old(inodes), blocks, inodes, i, off, src)
      ensures ok ==> Used(l, old(journal), old(owner).Keys, journal, owner.Keys, blocks, inodes, i,
                          off / BSIZE, EndBlock(off, |src|))
      ensures ok ==> Logs(old(blocks), old(journal), blocks, journal) && FrontKept(l, old(blocks), blocks)
    {
      hide SlotAt, FsOk, Wrote, EndBlock, Logs, Used;
      var tot := 0;
      WroteNone(blocks, inodes, i, off);
      UsedNone(l, journal, owner.Keys, blocks, inodes, i, off);
      LogsNone(blocks, journal);
      while tot < |src|
        invariant 0 <= tot <= |src| && Ok() && i < |inodes| == |old(inodes)| && off / BSIZE <= EndBlock(off, tot)
        invariant Wrote(old(blocks), old(inodes), blocks, inodes, i, off, src[..tot])
        invariant Used(l, old(journal), old(owner).Keys, journal, owner.Keys, blocks, inodes, i,
                       off / BSIZE, EndBlock(off, tot))
        invariant Logs(old(blocks), old(journal), blocks, journal) && FrontKept(l, old(blocks), blocks)
        invariant tot < |src| ==> tot == 0 || (off + tot) % BSIZE == 0
      {
        ghost var blocks1, inodes1, journal1, owner1 := blocks, inodes, journal, owner;
        var m := InOneBlock(off + tot, |src| - tot);
        NextBlock(off, tot, m, |src|);
        ok := WriteChunk(i, off + tot, src[tot..tot + m]);
        if !ok {
          return;
        }
        LogsTrans(old(blocks), old(journal), blocks1, journal1, blocks, journal);
        WroteMore(old(blocks), old(inodes), blocks1, inodes1, blocks, inodes, i, off, src[..tot], src[tot..tot + m]);
        UsedMore(l, old(journal), old(owner).Keys, journal1, owner1.Keys, journal, owner.Keys,
                 blocks1, inodes1, blocks, inodes, i, off / BSIZE, (off + tot) / BSIZE);
        assert src[..tot] + src[tot..tot + m] == src[..tot + m];
        tot := tot + m;
      }
      assert src[..tot] == src;
      ok := true;
    }

    /** writei: -1 for a range it refuses; otherwise all bytes are written, or the disk is full. */
    method WriteI(i: nat, off: Word, src: seq<Byte>) returns (r: Outcome<int>)
      requires Ok() && i < |inodes|
      modifies this
      ensures r == Returns(-1) <==> off > |File(old(blocks), old(inodes), i)| || off + |src| > 274432
      ensures r == Returns(-1) ==>
              blocks == old(blocks) && inodes == old(inodes) && owner == old(owner) && journal == old(journal)
      ensures r.Panics? ==> AllUsed(l, blocks)
      ensures r.Returns? && r.value != -1 ==>
              && r.value == |src| && Ok() && |inodes| == |old(inodes)|
              && File(blocks, inodes, i) == Spliced(File(old(blocks), old(inodes), i), off, src)
              && OthersSame(old(blocks), old(inodes), blocks, inodes, i)
              && (NoHoles(old(blocks), old(inodes), i) ==> NoHoles(blocks, inodes, i))
              && Logs(old(blocks), old(journal), blocks, journal)
              && (OnDisk(l, old(blocks), old(inodes)) ==> OnDisk(l, blocks, inodes))
              && Uses(l, old(journal), old(owner).Keys, journal, owner.Keys, blocks, inodes, i, off, |src|)
              && KeptSlots(old(blocks), old(inodes), blocks, inodes) && IBlock(l, i) in Numbers(journal)
    {
      hide SlotAt, FsOk, View, ByteAt, Logs, Used, OnDisk, Wrote, EndBlock;
      if Refuses(inodes[i].size, off, |src|) {
        return Returns(-1);
      }
      var ok := WriteBlocks(i, off, src);
      if !ok {
        return Panics;
      }
      ghost var blocks1, inodes1, journal1 := blocks, inodes, journal;
      WroteBounds(old(blocks), old(inodes), blocks, inodes, i, off, src);
      var size := if off + |src| > inodes[i].size then off + |src| else inodes[i].size;
      Resized(l, blocks, inodes, owner, i, size);
      inodes := inodes[i := inodes[i].(size := size)];
      IUpdate(i, old(blocks), old(inodes), old(journal));
      Grown(old(blocks), old(inodes), blocks1, inodes1, blocks, inodes, i, off, src);
      UsedStored(l, old(journal), old(owner).Keys, journal1, journal, owner.Keys, blocks1, inodes1, blocks, inodes,
                 i, off, |src|);
      r := Returns(|src|);
    }

    /** One step of readi's loop. */
    method ReadPart(i: nat, o: nat, m: nat) returns (r: Outcome<seq<Byte>>)
      requires Ok() && i < |inodes| && o % BSIZE + m <= BSIZE && o + m <= inodes[i].size && 0 < m
      modifies this
      ensures r.Returns? ==>
              && Ok() && |inodes| == |old(inodes)| && Mapped(old(blocks), old(inodes), blocks, inodes, i)
              && r.value == File(old(blocks), old(inodes), i)[o..o + m]
      ensures r.Panics? ==> o + m > 274432 || AllUsed(l, blocks)
      ensures NoHoles(old(blocks), old(inodes), i) ==>
              r.Returns? && blocks == old(blocks) && inodes == old(inodes) && owner == old(owner) && journal == old(journal)
    {
      hide SlotAt, FsOk, View;
      if NoHoles(blocks, inodes, i) { BlockBelow(blocks, inodes, i, o); }
      var b := BMap(i, o / BSIZE);
      if b == 0 {
        return Panics;
      }
      InUse(l, blocks, inodes, owner, i, SlotOf(o / BSIZE));
      ReadChunk(old(blocks), old(inodes), blocks, inodes, i, o, m);
      r := Returns(blocks[b][o % BSIZE..o % BSIZE + m]);
    }

    /** readi: the part of the file in range; None is -1, when the destination has no room for all of it.
        It allocates nothing if the file has no holes, and otherwise stops the machine only when the disk is
        full or the size is beyond the largest one. */
    method ReadI(i: nat, off: Word, n: Word, room: nat) returns (r: Outcome<Option<seq<Byte>>>)
      requires Ok() && i < |inodes|
      modifies this
      ensures r.Returns? ==>
              && Ok() && Mapped(old(blocks), old(inodes), blocks, inodes, i)
              && r.value == (var part := Clip(File(old(blocks), old(inodes), i), off, n);
                             if |part| <= room then Some(part) else None)
      ensures r.Panics? ==> |File(old(blocks), old(inodes), i)| > 274432 || AllUsed(l, blocks)
      ensures NoHoles(old(blocks), old(inodes), i) ==>
              r.Returns? && blocks == old(blocks) && inodes == old(inodes) && owner == old(owner) && journal == old(journal)
    {
      hide SlotAt, FsOk, View, Mapped, NoHoles, InOneBlock, ByteAt, InodesFit;
      ghost var file := File(blocks, inodes, i);
      MappedNone(blocks, inodes, i);
      var size := inodes[i].size;
      if off > size || off + n >= 0x1_0000_0000 {
        return Returns(Some([]));
      }
      var len := if off + n > size then size - off else n;
      assert Clip(file, off, n) == file[off..off + len];
      hide Clip, File;
      var acc := [];
      while |acc| < len
        invariant |acc| <= len && |acc| <= room && acc == file[off..off + |acc|]
        invariant Ok() && i < |inodes| == |old(inodes)| && Mapped(old(blocks), old(inodes), blocks, inodes, i)
        invariant NoHoles(old(blocks), old(inodes), i) ==>
                  blocks == old(blocks) && inodes == old(inodes) && owner == old(owner) && journal == old(journal)
      {
        var o := off + |acc|;
        var m := InOneBlock(o, len - |acc|);
        ghost var blocks1, inodes1 := blocks, inodes;
        MappedFile(old(blocks), old(inodes), blocks, inodes, i);
        var part := ReadPart(i, o, m);
        if part.Panics? {
          return Panics;
        }
        MappedTrans(old(blocks), old(inodes), blocks1, inodes1, blocks, inodes, i);
        if |acc| + m > room {
          return Returns(None);
        }
        SliceMore(file, off, o, o + m);
        acc := acc + part.value;
      }
      r := Returns(Some(acc));
    }

    /** One transaction of filewrite. */
    method WriteTransaction(i: nat, off: Word, part: seq<Byte>) returns (r: Outcome<int>)
      requires Ok() && i < |inodes| && |part| <= MAXWRITE
      modifies this
      ensures r == Returns(-1) <==> off > |File(old(blocks), old(inodes), i)| || off + |part| > 274432
      ensures r == Returns(-1) ==>
              blocks == old(blocks) && inodes == old(inodes) && owner == old(owner) && journal == []
      ensures r.Panics? ==> AllUsed(l, blocks)
      ensures r.Returns? && r.value != -1 ==>
              && r.value == |part| && Ok()
              && Transacted(l, old(blocks), old(inodes), blocks, inodes, owner, journal, i, off, part)
    {
      hide SlotAt, FsOk, View, ByteAt, Logs, Used, OnDisk, Uses, KeptSlots, File, NoHoles, OthersSame, Spliced;
      journal := [];
      ghost var o := owner;
      r := WriteI(i, off, part);
      if r.Returns? && r.value != -1 {
        FewLogged(l, old(blocks), old(inodes), o, blocks, inodes, owner, journal, i, off, |part|);
        LoggedPlaces(l, o.Keys, blocks, inodes, owner, journal, i, off, |part|);
        AllLogged(old(blocks), blocks, journal);
      }
    }

    /** filewrite on a file: one transaction per chunk.  The bytes written are a prefix of those asked
        for, all of them unless they go behind the largest size; peak is the most blocks that any of the
        transactions logged. */
    method FileWrite(i: nat, off: Word, src: seq<Byte>)
      returns (ret: Outcome<int>, off': Word, ghost done: nat, ghost peak: nat)
      requires Ok() && i < |inodes|
      modifies this
      ensures ret.Panics? ==> AllUsed(l, blocks)
      ensures ret.Returns? ==>
              && Ok() && |inodes| == |old(inodes)| && done <= |src| && off' == off + done
              && ret.value == (if done == |src| then |src| else -1)
              && FileIs(old(blocks), old(inodes), blocks, inodes, i, off, src[..done])
              && OthersSame(old(blocks), old(inodes), blocks, inodes, i)
              && (NoHoles(old(blocks), old(inodes), i) ==> NoHoles(blocks, inodes, i))
              && (OnDisk(l, old(blocks), old(inodes)) ==> OnDisk(l, blocks, inodes))
              && done == Accepted(|File(old(blocks), old(inodes), i)|, off, |src|)
      ensures NoHoles(old(blocks), old(inodes), i) || NBitmap(l) <= 4 ==> peak <= MAXOPBLOCKS
      ensures peak <= MAXOPBLOCKS + 1
    {
      hide SlotAt, FsOk, NoHoles, File, FileIs, OthersSame, Spliced, Apply, Numbers, OnDisk;
      NoneWritten(blocks, inodes, i, off);
      var k := 0;
      off', done, peak := off, 0, 0;
      while k < |src|
        invariant 0 <= k <= |src| && off' == off + k && done == k && (k == |src| || k % 3072 == 0)
        invariant k > 0 ==> off + k <= 274432
        invariant Ok() && i < |inodes| == |old(inodes)|
        invariant FileIs(old(blocks), old(inodes), blocks, inodes, i, off, src[..k])
        invariant OthersSame(old(blocks), old(inodes), blocks, inodes, i)
        invariant NoHoles(old(blocks), old(inodes), i) ==> NoHoles(blocks, inodes, i)
        invariant OnDisk(l, old(blocks), old(inodes)) ==> OnDisk(l, blocks, inodes)
        invariant NoHoles(old(blocks), old(inodes), i) || NBitmap(l) <= 4 ==> peak <= MAXOPBLOCKS
        invariant peak <= MAXOPBLOCKS + 1
      {
        var n1 := if |src| - k > MAXWRITE then MAXWRITE else |src| - k;
        ghost var blocks1, inodes1 := blocks, inodes;
        var r := WriteTransaction(i, off', src[k..k + n1]);
        if r.Panics? {
          ret := Panics;
          return;
        }
        if r.value != n1 {
          break;
        }
        peak := if |Numbers(journal)| > peak then |Numbers(journal)| else peak;
        FileGrows(old(blocks), old(inodes), blocks1, inodes1, blocks, inodes, i, off, src[..k], src[k..k + n1]);
        OthersTrans(old(blocks), old(inodes), blocks1, inodes1, blocks, inodes, i);
        assert src[..k] + src[k..k + n1] == src[..k + n1];
        off' := off' + n1;
        k := k + n1;
        done := k;
      }
      FileReaches(old(blocks), old(inodes), blocks, inodes, i, off, src[..k]);
      StopsAt(|File(old(blocks), old(inodes), i)|, |File(blocks, inodes, i)|, off, k, |src|);
      ret := Returns(if k == |src| then |src| else -1);
    }
  }

  lemma IndirectSlot(l: Layout, blocks: seq<Block>, inodes: seq<Inode>, owner: map<nat, Place>, i: nat)
    requires FsOk(l, blocks, inodes, owner) && i < |inodes|
    ensures |inodes[i].addrs| == NDIRECT + 1 && SlotAt(blocks, inodes, i, INDIRECT) == inodes[i].addrs[INDIRECT]
    ensures inodes[i].addrs[INDIRECT] != 0 ==> l.datastart <= inodes[i].addrs[INDIRECT] < l.size == |blocks|
    ensures l.Valid() && BitsOk(l, blocks, owner.Keys)
  {
    if inodes[i].addrs[INDIRECT] != 0 { InUse(l, blocks, inodes, owner, i, INDIRECT); }
  }

  // ---- What is logged ----

  lemma FrontAfter(l: Layout, b: seq<Block>, c: nat, data: Block)
    requires l.bmapstart <= c < |b|
    ensures FrontKept(l, b, b[c := data])
  {
  }

  lemma BitPlace(l: Layout, blocks: seq<Block>, used: set<nat>, b: nat)
    requires BitsOk(l, blocks, used) && l.datastart <= b < l.size
    ensures l.bmapstart <= l.BBlock(b) < |blocks| == l.size && l.BBlock(b) in BitmapBlocks(l)
    ensures BlockBit(blocks[l.BBlock(b)], b % BPB) <==> b in used
  {
    hide BlockBit;
    assert Bit(l, blocks, b) <==> b in used;
  }

  lemma UsedSlot(l: Layout, j0: seq<Write>, o0: set<nat>, j: seq<Write>, o: set<nat>,
                 b: seq<Block>, n: seq<Inode>, i: nat, k: nat, c: nat)
    requires SlotAt(b, n, i, SlotOf(k)) == c
    requires (j == j0 && o == o0) || (c !in o0 && o == o0 + {c} && Numbers(j) == Numbers(j0) + {l.BBlock(c), c})
    ensures Used(l, j0, o0, j, o, b, n, i, k, k + 1)
  {
    hide SlotAt, Numbers;
    assert c in Backing(b, n, i, k, k + 1);
    if o != o0 { assert c in o - o0; }
  }

  /** Through the indirect block p, which may be new itself. */
  lemma UsedEntry(l: Layout, j0: seq<Write>, o0: set<nat>, j: seq<Write>, o: set<nat>,
                  b: seq<Block>, n: seq<Inode>, i: nat, k: nat, p: nat, c: nat)
    requires SlotAt(b, n, i, SlotOf(NDIRECT + k)) == c && SlotAt(b, n, i, INDIRECT) == p && p != 0
    requires o0 <= o && o - o0 <= {p, c} && Numbers(j) <= Numbers(j0) + Bitmaps(l, o - o0) + {p, c}
    ensures Used(l, j0, o0, j, o, b, n, i, NDIRECT + k, NDIRECT + k + 1)
  {
    hide SlotAt, Numbers, Bitmaps;
    assert c in Backing(b, n, i, NDIRECT + k, NDIRECT + k + 1) && p in Indirect(b, n, i);
  }

  lemma UsedNone(l: Layout, j: seq<Write>, o: set<nat>, b: seq<Block>, n: seq<Inode>, i: nat, off: nat)
    ensures off / BSIZE == EndBlock(off, 0) && Used(l, j, o, j, o, b, n, i, off / BSIZE, EndBlock(off, 0))
  {
  }

  /** The block itself is logged once more. */
  lemma UsedAgain(l: Layout, j0: seq<Write>, o0: set<nat>, j1: seq<Write>, j: seq<Write>, o: set<nat>,
                  b1: seq<Block>, b: seq<Block>, n: seq<Inode>, i: nat, k: nat, c: nat)
    requires Used(l, j0, o0, j1, o, b1, n, i, k, k + 1) && SlotAt(b1, n, i, SlotOf(k)) == c
    requires Numbers(j) == Numbers(j1) + {c}
    requires forall i: nat, k: nat :: SlotAt(b, n, i, k) == SlotAt(b1, n, i, k)
    ensures Used(l, j0, o0, j, o, b, n, i, k, k + 1)
  {
    hide SlotAt, Numbers, Bitmaps;
    SameBacking(b1, n, b, n, i, k, k + 1);
  }

  lemma {:induction false} SameBacking(b1: seq<Block>, n1: seq<Inode>, b: seq<Block>, n: seq<Inode>, i: nat, lo: nat, hi: nat)
    requires lo <= hi && forall i: nat, k: nat :: SlotAt(b, n, i, k) == SlotAt(b1, n1, i, k)
    ensures Backing(b, n, i, lo, hi) == Backing(b1, n1, i, lo, hi) && Indirect(b, n, i) == Indirect(b1, n1, i)
    decreases hi
  {
    hide SlotAt;
    if lo < hi { SameBacking(b1, n1, b, n, i, lo, hi - 1); }
  }

  lemma BitmapsAdd(l: Layout, a: set<nat>, b: set<nat>, c: set<nat>)
    requires a <= b <= c
    ensures Bitmaps(l, c - a) == Bitmaps(l, b - a) + Bitmaps(l, c - b)
  {
    assert c - a == (b - a) + (c - b);
  }

  /** One block more. */
  lemma UsedMore(l: Layout, j0: seq<Write>, o0: set<nat>, j1: seq<Write>, o1: set<nat>, j2: seq<Write>, o2: set<nat>,
                 b1: seq<Block>, n1: seq<Inode>, b2: seq<Block>, n2: seq<Inode>, i: nat, lo: nat, mid: nat)
    requires lo <= mid && Exist(b1, n1, i, lo, mid) && KeptSlots(b1, n1, b2, n2)
    requires Used(l, j0, o0, j1, o1, b1, n1, i, lo, mid) && Used(l, j1, o1, j2, o2, b2, n2, i, mid, mid + 1)
    ensures Used(l, j0, o0, j2, o2, b2, n2, i, lo, mid + 1)
  {
    hide SlotAt, Numbers, Bitmaps;
    BackingKept(b1, n1, b2, n2, i, lo, mid);
    OneMore(b2, n2, i, lo, mid);
    BitmapsAdd(l, o0, o1, o2);
    Together(Numbers(j0), Numbers(j1), Numbers(j2), Bitmaps(l, o1 - o0), Bitmaps(l, o2 - o1), o0, o1, o2,
             Indirect(b1, n1, i), Indirect(b2, n2, i), Backing(b2, n2, i, lo, mid), Backing(b2, n2, i, mid, mid + 1));
  }

  lemma Together(g0: set<nat>, g1: set<nat>, g2: set<nat>, m1: set<nat>, m2: set<nat>,
                 o0: set<nat>, o1: set<nat>, o2: set<nat>, i1: set<nat>, i2: set<nat>, k1: set<nat>, k2: set<nat>)
    requires o0 <= o1 <= o2 && o1 - o0 <= i1 + k1 && o2 - o1 <= i2 + k2 && i1 <= i2
    requires g1 <= g0 + m1 + i1 + k1 && g2 <= g1 + m2 + i2 + k2
    ensures o2 - o0 <= i2 + (k1 + k2) && g2 <= g0 + (m1 + m2) + i2 + (k1 + k2)
  {
    assert forall c :: c in o2 - o0 ==> c in o1 - o0 || c in o2 - o1;
  }

  lemma BitsLoggedNone(l: Layout, b: seq<Block>, j: seq<Write>)
    ensures BitsLogged(l, b, j, b, j)
  {
    LogsNone(b, j);
  }

  lemma BitsLoggedTrans(l: Layout, b0: seq<Block>, j0: seq<Write>, b1: seq<Block>, j1: seq<Write>,
                        b2: seq<Block>, j2: seq<Write>)
    requires BitsLogged(l, b0, j0, b1, j1) && BitsLogged(l, b1, j1, b2, j2)
    ensures BitsLogged(l, b0, j0, b2, j2)
  {
    LogsTrans(b0, j0, b1, j1, b2, j2);
    hide Logs, Numbers, BitmapBlocks;
  }

  /** Truncation and iupdate touch no data block. */
  lemma MetaOnly(l: Layout, b0: seq<Block>, b1: seq<Block>, b: seq<Block>, i: nat)
    requires BitmapOnly(l, b0, b1) && |b| == |b1| && l.Valid() && IBlock(l, i) < l.bmapstart
    requires forall c: nat :: c < |b| && c != IBlock(l, i) ==> b[c] == b1[c]
    ensures BitmapOnly(l, b0, b)
  {
  }

  lemma FilledSlot(l: Layout, blocks: seq<Block>, inodes: seq<Inode>, owner: map<nat, Place>,
                   blocks': seq<Block>, i: nat, k: nat, b: Word)
    requires FsOk(l, blocks, inodes, owner) && |blocks'| == |blocks| && l.datastart <= b < l.size && b !in owner
    requires forall c: nat :: c < l.size && c != b && c != l.BBlock(b) ==> blocks'[c] == blocks[c]
    requires BitsOk(l, blocks', owner.Keys + {b}) && blocks'[b] == ZeroBlock()
    requires i < |inodes| && k <= INDIRECT && SlotAt(blocks, inodes, i, k) == 0
    ensures |inodes[i].addrs| == NDIRECT + 1
    ensures var inodes' := inodes[i := inodes[i].(addrs := inodes[i].addrs[k := b])];
            && FsOk(l, blocks', inodes', owner[b := Place(i, k)])
            && Mapped(blocks, inodes, blocks', inodes', i) && SlotsBut(blocks, inodes, blocks', inodes', i, k, b)
  {
    hide Bit, SlotAt;
    var inodes' := inodes[i := inodes[i].(addrs := inodes[i].addrs[k := b])];
    Moved(l, blocks, inodes, owner, blocks', b);
    Attach(blocks', inodes, owner, i, k, b);
    AttachViews(blocks, inodes, blocks', inodes', owner, i, k, b);
    assert owner[b := Place(i, k)].Keys == owner.Keys + {b};
  }

  lemma FilledEntry(l: Layout, blocks: seq<Block>, inodes: seq<Inode>, owner: map<nat, Place>,
                    blocks1: seq<Block>, i: nat, j: nat, b: Word)
    requires FsOk(l, blocks, inodes, owner) && |blocks1| == |blocks| && l.datastart <= b < l.size && b !in owner
    requires forall c: nat :: c < l.size && c != b && c != l.BBlock(b) ==> blocks1[c] == blocks[c]
    requires BitsOk(l, blocks1, owner.Keys + {b}) && blocks1[b] == ZeroBlock()
    requires i < |inodes| && j < NINDIRECT && SlotAt(blocks, inodes, i, INDIRECT) != 0
    requires SlotAt(blocks, inodes, i, INDIRECT + 1 + j) == 0
    ensures var p := SlotAt(blocks, inodes, i, INDIRECT);
            p < |blocks1| &&
            (var blocks' := blocks1[p := PutWord(blocks1[p], j, b)];
             && FsOk(l, blocks', inodes, owner[b := Place(i, INDIRECT + 1 + j)])
             && Mapped(blocks, inodes, blocks', inodes, i)
             && SlotsBut(blocks, inodes, blocks', inodes, i, INDIRECT + 1 + j, b))
  {
    hide Bit, SlotAt, PutWord;
    var p := SlotAt(blocks, inodes, i, INDIRECT);
    assert owner[p] == Place(i, INDIRECT);
    Moved(l, blocks, inodes, owner, blocks1, b);
    AttachEntry(blocks1, inodes, owner, i, j, b);
    var blocks' := blocks1[p := PutWord(blocks1[p], j, b)];
    DataBits(l, blocks1, owner.Keys + {b}, p, PutWord(blocks1[p], j, b));
    hide BitsOk;
    assert SlotsBut(blocks, inodes, blocks', inodes, i, INDIRECT + 1 + j, b);
    assert DataKept(blocks, blocks', owner);
    AttachViews(blocks, inodes, blocks', inodes, owner, i, INDIRECT + 1 + j, b);
    assert owner[b := Place(i, INDIRECT + 1 + j)].Keys == owner.Keys + {b};
  }

  /** Allocating a block moves no slot and touches no file's block. */
  lemma Moved(l: Layout, blocks: seq<Block>, inodes: seq<Inode>, owner: map<nat, Place>, blocks': seq<Block>, b: nat)
    requires FsOk(l, blocks, inodes, owner) && |blocks'| == |blocks| && l.datastart <= b < l.size && b !in owner
    requires forall c: nat :: c < l.size && c != b && c != l.BBlock(b) ==> blocks'[c] == blocks[c]
    ensures SlotsOk(blocks', inodes, owner) && DataKept(blocks, blocks', owner)
    ensures forall i: nat, k: nat :: SlotAt(blocks', inodes, i, k) == SlotAt(blocks, inodes, i, k)
  {
    hide Bit, SlotAt;
    var c := l.BBlock(b);
    Overwrite(blocks, inodes, owner, c, blocks'[c]);
    var mid := blocks[c := blocks'[c]];
    Overwrite(mid, inodes, owner, b, blocks'[b]);
    assert mid[b := blocks'[b]] == blocks';
  }

  // ---- Truncation ----

  function Cleared(inodes: seq<Inode>, i: nat, k: nat): seq<Inode> {
    if i < |inodes| && k < |inodes[i].addrs|
    then inodes[i := inodes[i].(addrs := inodes[i].addrs[k := 0])] else inodes
  }

  ghost predicate BitmapOnly(l: Layout, blocks: seq<Block>, blocks': seq<Block>) {
    |blocks'| == |blocks| && forall c: nat :: l.datastart <= c < |blocks| ==> blocks'[c] == blocks[c]
  }

  /** Slots below k of inode i are empty and everything else about ownership is as it was; only bitmap
      blocks have changed. */
  ghost predicate Emptied(l: Layout, blocks: seq<Block>, inodes: seq<Inode>, owner: map<nat, Place>,
                          blocks': seq<Block>, inodes': seq<Inode>, owner': map<nat, Place>, i: nat, k: nat) {
    && BitmapOnly(l, blocks, blocks') && i < |inodes'| == |inodes|
    && (forall j: nat :: j < |inodes| && j != i ==> inodes'[j] == inodes[j])
    && |inodes'[i].addrs| == |inodes[i].addrs| == NDIRECT + 1 && inodes'[i].size == inodes[i].size
    && (forall x: nat :: x <= INDIRECT ==> inodes'[i].addrs[x] == if x < k then 0 else inodes[i].addrs[x])
    && owner' == owner - BlockMap.Held(owner, i, 0, k)
  }

  /** A slot holds its block and no other. */
  lemma OneHeld(l: Layout, blocks: seq<Block>, inodes: seq<Inode>, owner: map<nat, Place>, i: nat, k: nat)
    requires FsOk(l, blocks, inodes, owner)
    ensures var b := SlotAt(blocks, inodes, i, k);
            BlockMap.Held(owner, i, k, k + 1) == if b == 0 then {} else {b}
  {
    hide SlotAt, BitsOk;
    var b := SlotAt(blocks, inodes, i, k);
    var held := BlockMap.Held(owner, i, k, k + 1);
    assert forall x :: x in held ==> owner[x] == Place(i, k);
  }

  lemma EmptiedNone(l: Layout, blocks: seq<Block>, inodes: seq<Inode>, owner: map<nat, Place>, i: nat)
    requires FsOk(l, blocks, inodes, owner) && i < |inodes|
    ensures Emptied(l, blocks, inodes, owner, blocks, inodes, owner, i, 0)
  {
  }

  lemma InUse(l: Layout, blocks: seq<Block>, inodes: seq<Inode>, owner: map<nat, Place>, i: nat, k: nat)
    requires FsOk(l, blocks, inodes, owner) && SlotAt(blocks, inodes, i, k) != 0
    ensures var b := SlotAt(blocks, inodes, i, k);
            b in owner && owner[b] == Place(i, k) && l.datastart <= b < l.size == |blocks| && l.BBlock(b) in BitmapBlocks(l)
  {
  }

  /** A direct block is freed. */
  lemma Dropped(l: Layout, blocks: seq<Block>, inodes: seq<Inode>, owner: map<nat, Place>, blocks': seq<Block>,
                i: nat, k: nat)
    requires FsOk(l, blocks, inodes, owner) && i < |inodes| && k < NDIRECT && SlotAt(blocks, inodes, i, k) != 0
    requires BitmapOnly(l, blocks, blocks')
    requires BitsOk(l, blocks', owner.Keys - {SlotAt(blocks, inodes, i, k)})
    ensures |inodes[i].addrs| == NDIRECT + 1
    ensures FsOk(l, blocks', inodes[i := inodes[i].(addrs := inodes[i].addrs[k := 0])],
                 owner - {SlotAt(blocks, inodes, i, k)})
  {
    hide Bit;
    BitmapMoves(l, blocks, inodes, owner, blocks');
    hide SlotAt;
    Detach(blocks', inodes, owner, i, k);
    var b := SlotAt(blocks, inodes, i, k);
    assert (owner - {b}).Keys == owner.Keys - {b};
  }

  /** Bitmap blocks hold no slots. */
  lemma BitmapMoves(l: Layout, blocks: seq<Block>, inodes: seq<Inode>, owner: map<nat, Place>, blocks': seq<Block>)
    requires SlotsOk(blocks, inodes, owner) && (forall b :: b in owner ==> l.datastart <= b < l.size)
    requires |blocks| == l.size && BitmapOnly(l, blocks, blocks')
    ensures SlotsOk(blocks', inodes, owner)
    ensures forall i: nat, k: nat :: SlotAt(blocks', inodes, i, k) == SlotAt(blocks, inodes, i, k)
  {
    hide GetWord;
    forall i: nat, k: nat
      ensures SlotAt(blocks', inodes, i, k) == SlotAt(blocks, inodes, i, k)
    {
      var p := SlotAt(blocks, inodes, i, INDIRECT);
      assert p != 0 ==> p in owner;
    }
    SameOk(blocks, inodes, blocks', inodes, owner);
  }

  lemma EmptiedStep(l: Layout, blocks: seq<Block>, inodes: seq<Inode>, owner: map<nat, Place>,
                    blocks1: seq<Block>, inodes1: seq<Inode>, owner1: map<nat, Place>, i: nat, k: nat)
    requires Emptied(l, blocks, inodes, owner, blocks1, inodes1, owner1, i, k) && k < NDIRECT
    ensures forall blocks2 :: BitmapOnly(l, blocks1, blocks2) ==>
              Emptied(l, blocks, inodes, owner, blocks2, Cleared(inodes1, i, k),
                      owner1 - BlockMap.Held(owner1, i, k, k + 1), i, k + 1)
  {
    assert owner1 - BlockMap.Held(owner1, i, k, k + 1) == owner - BlockMap.Held(owner, i, 0, k + 1);
    forall blocks2 | BitmapOnly(l, blocks1, blocks2)
      ensures Emptied(l, blocks, inodes, owner, blocks2, Cleared(inodes1, i, k),
                      owner1 - BlockMap.Held(owner1, i, k, k + 1), i, k + 1)
    {
    }
  }

  lemma HeldSplit(owner: map<nat, Place>, i: nat, lo: nat, mid: nat, hi: nat)
    requires lo <= mid <= hi
    ensures BlockMap.Held(owner, i, lo, hi) == BlockMap.Held(owner, i, lo, mid) + BlockMap.Held(owner, i, mid, hi)
  {
  }

  lemma NoneFreed(l: Layout, blocks: seq<Block>, inodes: seq<Inode>, owner: map<nat, Place>, i: nat)
    requires FsOk(l, blocks, inodes, owner)
    ensures BitsOk(l, blocks, owner.Keys - BlockMap.Held(owner, i, INDIRECT + 1, INDIRECT + 1))
  {
    hide Bit, SlotsOk;
    assert owner.Keys - BlockMap.Held(owner, i, INDIRECT + 1, INDIRECT + 1) == owner.Keys;
  }

  /** The next entry's block, if there is one, is still in use, and is the next to go. */
  lemma EntryFreed(l: Layout, blocks: seq<Block>, inodes: seq<Inode>, owner: map<nat, Place>, i: nat, j: nat)
    requires FsOk(l, blocks, inodes, owner) && j < NINDIRECT
    ensures var b := SlotAt(blocks, inodes, i, INDIRECT + 1 + j);
            var used := owner.Keys - BlockMap.Held(owner, i, INDIRECT + 1, INDIRECT + 1 + j);
            && (b != 0 ==> b in used && l.datastart <= b < l.size && l.BBlock(b) in BitmapBlocks(l))
            && owner.Keys - BlockMap.Held(owner, i, INDIRECT + 1, INDIRECT + 2 + j) == used - {b}
            && (b == 0 ==> used - {b} == used)
  {
    hide Bit, GetWord;
    var b := SlotAt(blocks, inodes, i, INDIRECT + 1 + j);
    OneHeld(l, blocks, inodes, owner, i, INDIRECT + 1 + j);
    HeldSplit(owner, i, INDIRECT + 1, INDIRECT + 1 + j, INDIRECT + 2 + j);
    if b != 0 { InUse(l, blocks, inodes, owner, i, INDIRECT + 1 + j); }
  }

  /** With its entries and then itself freed, the indirect block goes. */
  lemma TailFreed(l: Layout, blocks: seq<Block>, inodes: seq<Inode>, owner: map<nat, Place>, blocks': seq<Block>, i: nat)
    requires FsOk(l, blocks, inodes, owner) && i < |inodes| && BitmapOnly(l, blocks, blocks')
    requires SlotAt(blocks, inodes, i, INDIRECT) != 0
    requires BitsOk(l, blocks', owner.Keys - BlockMap.Held(owner, i, INDIRECT + 1, NSLOTS)
                                - {SlotAt(blocks, inodes, i, INDIRECT)})
    ensures |inodes[i].addrs| == NDIRECT + 1
    ensures FsOk(l, blocks', Cleared(inodes, i, INDIRECT), owner - BlockMap.Held(owner, i, INDIRECT, NSLOTS))
  {
    hide Bit, SlotAt, GetWord;
    OneHeld(l, blocks, inodes, owner, i, INDIRECT);
    HeldSplit(owner, i, INDIRECT, INDIRECT + 1, NSLOTS);
    BitmapMoves(l, blocks, inodes, owner, blocks');
    DetachTail(blocks', inodes, owner, i);
    var held := BlockMap.Held(owner, i, INDIRECT, NSLOTS);
    assert (owner - held).Keys == owner.Keys - held;
    assert owner.Keys - held ==
           owner.Keys - BlockMap.Held(owner, i, INDIRECT + 1, NSLOTS) - {SlotAt(blocks, inodes, i, INDIRECT)};
  }

  lemma NoTail(l: Layout, blocks: seq<Block>, inodes: seq<Inode>, owner: map<nat, Place>, i: nat)
    requires FsOk(l, blocks, inodes, owner) && SlotAt(blocks, inodes, i, INDIRECT) == 0
    ensures BlockMap.Held(owner, i, INDIRECT, NSLOTS) == {}
  {
    hide GetWord;
    var held := BlockMap.Held(owner, i, INDIRECT, NSLOTS);
    assert forall x :: x in held ==> SlotAt(blocks, inodes, i, owner[x].k) == x;
    assert forall k: nat :: k >= INDIRECT ==> SlotAt(blocks, inodes, i, k) == 0;
  }

  /** After truncation the bits that were cleared are those of the inode's blocks. */
  lemma FreedBits(l: Layout, blocks: seq<Block>, inodes: seq<Inode>, owner: map<nat, Place>,
                  blocks': seq<Block>, inodes': seq<Inode>, owner': map<nat, Place>, i: nat)
    requires FsOk(l, blocks, inodes, owner) && FsOk(l, blocks', inodes', owner')
    requires owner' == owner - BlockMap.Held(owner, i, 0, NSLOTS)
    ensures forall b: nat :: b < l.size ==>
              (Bit(l, blocks', b) <==> Bit(l, blocks, b) && !(b in owner && owner[b].i == i))
  {
    hide Bit;
    forall b | b in owner
      ensures owner[b].k < NSLOTS
    {
      assert SlotAt(blocks, inodes, owner[b].i, owner[b].k) == b;
    }
  }

  /** The other files are as they were. */
  lemma OtherViews(l: Layout, blocks: seq<Block>, inodes: seq<Inode>, owner: map<nat, Place>,
                   blocks': seq<Block>, inodes': seq<Inode>, i: nat)
    requires FsOk(l, blocks, inodes, owner) && BitmapOnly(l, blocks, blocks')
    requires i < |inodes| && |inodes'| == |inodes| && forall j: nat :: j < |inodes| && j != i ==> inodes'[j] == inodes[j]
    ensures forall j: nat, n: nat :: j != i ==> View(blocks', inodes', j, n) == View(blocks, inodes, j, n)
  {
    hide Bit, GetWord;
    BitmapMoves(l, blocks, inodes, owner, blocks');
    forall j: nat, n: nat | j != i
      ensures View(blocks', inodes', j, n) == View(blocks, inodes, j, n)
    {
      var b := SlotAt(blocks, inodes, j, SlotOf(n));
      assert b != 0 ==> b in owner;
      assert SlotAt(blocks', inodes', j, SlotOf(n)) == b;
    }
  }

  // ---- Contents ----

  lemma Chunk(l: Layout, blocks: seq<Block>, inodes: seq<Inode>, owner: map<nat, Place>, i: nat, off: nat, part: seq<Byte>)
    requires FsOk(l, blocks, inodes, owner) && i < |inodes| && off % BSIZE + |part| <= BSIZE
    requires SlotAt(blocks, inodes, i, SlotOf(off / BSIZE)) != 0
    ensures var b := SlotAt(blocks, inodes, i, SlotOf(off / BSIZE));
            var at := off % BSIZE;
            b < |blocks| &&
            (var data := blocks[b][..at] + part + blocks[b][at + |part|..];
             && FsOk(l, blocks[b := data], inodes, owner)
             && Written(blocks, inodes, blocks[b := data], inodes, i, off, part)
             && (forall i: nat, k: nat :: SlotAt(blocks[b := data], inodes, i, k) == SlotAt(blocks, inodes, i, k)))
  {
    hide SlotAt, GetWord, Bit, Written;
    var b := SlotAt(blocks, inodes, i, SlotOf(off / BSIZE));
    InUse(l, blocks, inodes, owner, i, SlotOf(off / BSIZE));
    var at := off % BSIZE;
    var data := blocks[b][..at] + part + blocks[b][at + |part|..];
    DataBits(l, blocks, owner.Keys, b, data);
    WriteView(blocks, inodes, owner, i, off / BSIZE, data);
    WrittenBlock(blocks, inodes, blocks[b := data], i, off, part);
  }

  /** Slots that had a block keep it. */
  ghost predicate KeptSlots(b0: seq<Block>, n0: seq<Inode>, b: seq<Block>, n: seq<Inode>) {
    forall i: nat, k: nat :: SlotAt(b0, n0, i, k) != 0 ==> SlotAt(b, n, i, k) == SlotAt(b0, n0, i, k)
  }

  /** Data has been written at off of file i, whose blocks there now exist. */
  ghost predicate Wrote(b0: seq<Block>, n0: seq<Inode>, b: seq<Block>, n: seq<Inode>, i: nat, off: nat, data: seq<Byte>) {
    && Written(b0, n0, b, n, i, off, data) && n[i].size == n0[i].size && KeptSlots(b0, n0, b, n)
    && off / BSIZE <= EndBlock(off, |data|) && Exist(b, n, i, off / BSIZE, EndBlock(off, |data|))
  }

  /** One chunk: the block was found or made, then written. */
  lemma ChunkWrote(b0: seq<Block>, n0: seq<Inode>, b1: seq<Block>, b: seq<Block>, n: seq<Inode>,
                   i: nat, off: nat, part: seq<Byte>)
    requires i < |n0| && Mapped(b0, n0, b1, n, i) && Written(b1, n, b, n, i, off, part)
    requires off % BSIZE + |part| <= BSIZE && part != [] && SlotAt(b1, n, i, SlotOf(off / BSIZE)) != 0
    requires forall i: nat, k: nat :: SlotAt(b, n, i, k) == SlotAt(b1, n, i, k)
    ensures Wrote(b0, n0, b, n, i, off, part)
  {
    MappedWritten(b0, n0, b1, n, b, n, i, off, part);
    hide SlotAt, Written, View;
    assert EndBlock(off, |part|) == off / BSIZE + 1;
  }

  lemma WroteNone(b: seq<Block>, n: seq<Inode>, i: nat, off: nat)
    requires i < |n|
    ensures Wrote(b, n, b, n, i, off, [])
  {
    WrittenNone(b, n, i, off);
  }

  lemma WroteMore(b0: seq<Block>, n0: seq<Inode>, b1: seq<Block>, n1: seq<Inode>, b2: seq<Block>, n2: seq<Inode>,
                  i: nat, off: nat, data: seq<Byte>, more: seq<Byte>)
    requires Wrote(b0, n0, b1, n1, i, off, data) && Wrote(b1, n1, b2, n2, i, off + |data|, more) && more != []
    requires EndBlock(off, |data|) == (off + |data|) / BSIZE && (off + |data|) % BSIZE + |more| <= BSIZE
    ensures Wrote(b0, n0, b2, n2, i, off, data + more)
    ensures EndBlock(off, |data + more|) == (off + |data|) / BSIZE + 1
    ensures Exist(b1, n1, i, off / BSIZE, (off + |data|) / BSIZE) && KeptSlots(b1, n1, b2, n2)
  {
    WrittenMore(b0, n0, b1, n1, b2, n2, i, off, data, more);
    hide SlotAt, Written;
    var mid := (off + |data|) / BSIZE;
    assert EndBlock(off + |data|, |more|) == mid + 1 && EndBlock(off, |data + more|) == mid + 1;
    hide EndBlock;
  }

  lemma WroteBounds(b0: seq<Block>, n0: seq<Inode>, b: seq<Block>, n: seq<Inode>, i: nat, off: nat, data: seq<Byte>)
    requires Wrote(b0, n0, b, n, i, off, data)
    ensures i < |n0| == |n| && n[i].size == n0[i].size && forall j: nat :: j < |n| && j != i ==> n[j] == n0[j]
    ensures off / BSIZE <= EndBlock(off, |data|) && Exist(b, n, i, off / BSIZE, EndBlock(off, |data|))
  {
    hide SlotAt, ByteAt, View, EndBlock;
  }

  lemma OneMore(b: seq<Block>, n: seq<Inode>, i: nat, lo: nat, mid: nat)
    requires lo <= mid
    ensures Backing(b, n, i, lo, mid + 1) == Backing(b, n, i, lo, mid) + Backing(b, n, i, mid, mid + 1)
  {
  }

  /** Each chunk lies in one block: the one after those touched so far. */
  lemma NextBlock(off: nat, tot: nat, m: nat, n: nat)
    requires tot < n && (tot == 0 || (off + tot) % BSIZE == 0)
    requires m == if n - tot < BSIZE - (off + tot) % BSIZE then n - tot else BSIZE - (off + tot) % BSIZE
    ensures EndBlock(off, tot) == (off + tot) / BSIZE && (off + tot) % BSIZE + m <= BSIZE && 0 < m
    ensures tot + m < n ==> (off + tot + m) % BSIZE == 0
  {
  }

  /** What writing len bytes at off uses: the blocks on the way, and the inode's block. */
  ghost predicate Uses(l: Layout, j0: seq<Write>, o0: set<nat>, j: seq<Write>, o: set<nat>,
                       b: seq<Block>, n: seq<Inode>, i: nat, off: nat, len: nat) {
    && off / BSIZE <= EndBlock(off, len) && Exist(b, n, i, off / BSIZE, EndBlock(off, len))
    && o0 <= o && o - o0 <= Indirect(b, n, i) + Backing(b, n, i, off / BSIZE, EndBlock(off, len))
    && Numbers(j) <= Numbers(j0) + Bitmaps(l, o - o0) + Indirect(b, n, i)
                     + Backing(b, n, i, off / BSIZE, EndBlock(off, len)) + {IBlock(l, i)}
  }

  lemma UsedStored(l: Layout, j0: seq<Write>, o0: set<nat>, j1: seq<Write>, j: seq<Write>, o: set<nat>,
                   b1: seq<Block>, n1: seq<Inode>, b: seq<Block>, n: seq<Inode>, i: nat, off: nat, len: nat)
    requires off / BSIZE <= EndBlock(off, len) && Exist(b1, n1, i, off / BSIZE, EndBlock(off, len))
    requires Used(l, j0, o0, j1, o, b1, n1, i, off / BSIZE, EndBlock(off, len))
    requires Numbers(j) == Numbers(j1) + {IBlock(l, i)}
    requires forall i: nat, k: nat :: SlotAt(b, n, i, k) == SlotAt(b1, n1, i, k)
    ensures Uses(l, j0, o0, j, o, b, n, i, off, len)
  {
    hide SlotAt, Numbers, Bitmaps, EndBlock;
    SameBacking(b1, n1, b, n, i, off / BSIZE, EndBlock(off, len));
  }

  ghost predicate OthersSame(b0: seq<Block>, n0: seq<Inode>, b: seq<Block>, n: seq<Inode>, i: nat) {
    |n| == |n0| && forall j: nat :: j < |n| && j != i ==> n[j] == n0[j] && File(b, n, j) == File(b0, n0, j)
  }

  lemma Resized(l: Layout, b: seq<Block>, n: seq<Inode>, owner: map<nat, Place>, i: nat, size: Word)
    requires FsOk(l, b, n, owner) && i < |n|
    ensures var n' := n[i := n[i].(size := size)];
            && FsOk(l, b, n', owner) && SameViews(b, n, b, n')
            && forall i: nat, k: nat :: SlotAt(b, n', i, k) == SlotAt(b, n, i, k)
  {
    hide SlotAt, View, Bit;
    Resize(b, n, owner, i, size);
  }

  /** The end of writei: the size has grown to take in what was written, and the inode is on disk. */
  lemma Grown(b0: seq<Block>, n0: seq<Inode>, b: seq<Block>, n: seq<Inode>, b': seq<Block>, n': seq<Inode>,
              i: nat, off: nat, src: seq<Byte>)
    requires Wrote(b0, n0, b, n, i, off, src) && i < |n0| == |n| == |n'| && !Refuses(n0[i].size, off, |src|)
    requires forall j: nat :: j < |n| && j != i ==> n'[j] == n[j]
    requires n'[i].size == if off + |src| > n0[i].size then off + |src| else n0[i].size
    requires SameViews(b, n, b', n')
    requires forall i: nat, k: nat :: SlotAt(b', n', i, k) == SlotAt(b, n, i, k)
    ensures File(b', n', i) == Spliced(File(b0, n0, i), off, src)
    ensures OthersSame(b0, n0, b', n', i) && KeptSlots(b0, n0, b', n')
    ensures NoHoles(b0, n0, i) ==> NoHoles(b', n', i)
  {
    hide SlotAt, View, EndBlock;
    WrittenResized(b0, n0, b, n, b', n', i, off, src);
    hide Written;
    SplicedFile(b0, n0, b', n', i, off, src);
    if NoHoles(b0, n0, i) { StillNoHoles(b0, n0, b', n', i, off, src); }
  }

  lemma WrittenResized(b0: seq<Block>, n0: seq<Inode>, b: seq<Block>, n: seq<Inode>, b': seq<Block>, n': seq<Inode>,
                       i: nat, off: nat, src: seq<Byte>)
    requires Written(b0, n0, b, n, i, off, src) && |n'| == |n| && forall j: nat :: j < |n| && j != i ==> n'[j] == n[j]
    requires SameViews(b, n, b', n')
    requires forall j: nat, k: nat :: SlotAt(b', n', j, k) == SlotAt(b, n, j, k)
    ensures Written(b0, n0, b', n', i, off, src)
  {
    hide SlotAt, View;
    forall o: nat
      ensures ByteAt(b', n', i, o) == ByteAt(b, n, i, o)
    {
    }
    hide ByteAt;
  }

  lemma StillNoHoles(b0: seq<Block>, n0: seq<Inode>, b: seq<Block>, n: seq<Inode>, i: nat, off: nat, src: seq<Byte>)
    requires NoHoles.requires(b0, n0, i) && NoHoles(b0, n0, i) && Written(b0, n0, b, n, i, off, src)
    requires off <= n0[i].size && n[i].size == if off + |src| > n0[i].size then off + |src| else n0[i].size
    requires Exist(b, n, i, off / BSIZE, EndBlock(off, |src|))
    ensures NoHoles(b, n, i)
  {
    hide SlotAt, View, ByteAt;
    forall k: nat | k * BSIZE < n[i].size
      ensures SlotAt(b, n, i, SlotOf(k)) != 0
    {
      if k * BSIZE < n0[i].size {
        assert SlotAt(b0, n0, i, SlotOf(k)) != 0;
      } else {
        assert off / BSIZE <= k < EndBlock(off, |src|);
      }
    }
  }

  lemma MappedNone(b: seq<Block>, n: seq<Inode>, i: nat)
    ensures Mapped(b, n, b, n, i)
  {
  }

  lemma MappedTrans(b0: seq<Block>, n0: seq<Inode>, b1: seq<Block>, n1: seq<Inode>, b2: seq<Block>, n2: seq<Inode>, i: nat)
    requires Mapped(b0, n0, b1, n1, i) && Mapped(b1, n1, b2, n2, i)
    ensures Mapped(b0, n0, b2, n2, i) && |n2| == |n0|
  {
    hide SlotAt, View;
    forall j: nat, n: nat
      ensures View(b2, n2, j, n) == View(b0, n0, j, n)
    {
      assert View(b1, n1, j, n) == View(b0, n0, j, n);
    }
  }

  lemma MappedFile(b0: seq<Block>, n0: seq<Inode>, b: seq<Block>, n: seq<Inode>, i: nat)
    requires Mapped(b0, n0, b, n, i) && i < |n0| == |n|
    ensures File(b, n, i) == File(b0, n0, i) && n[i].size == n0[i].size
  {
    hide SlotAt, View;
  }

  lemma BlockBelow(b: seq<Block>, n: seq<Inode>, i: nat, o: nat)
    requires i < |n| && NoHoles(b, n, i) && o < n[i].size
    ensures SlotAt(b, n, i, SlotOf(o / BSIZE)) != 0 && o / BSIZE < MAXFILE
  {
    assert o / BSIZE * BSIZE <= o;
  }

  /** Part of a block read through the block map is part of the file. */
  lemma ReadChunk(b0: seq<Block>, n0: seq<Inode>, b: seq<Block>, n: seq<Inode>, i: nat, o: nat, m: nat)
    requires i < |n0| && Mapped(b0, n0, b, n, i) && o % BSIZE + m <= BSIZE && o + m <= n0[i].size
    requires 0 < SlotAt(b, n, i, SlotOf(o / BSIZE)) < |b|
    ensures b[SlotAt(b, n, i, SlotOf(o / BSIZE))][o % BSIZE..o % BSIZE + m] == File(b0, n0, i)[o..o + m]
  {
    hide SlotAt, Mapped;
    var blk := b[SlotAt(b, n, i, SlotOf(o / BSIZE))];
    SameView(b0, n0, b, n, i, o / BSIZE);
    hide View;
    var f := File(b0, n0, i);
    forall y: nat | o % BSIZE <= y < o % BSIZE + m
      ensures blk[y] == f[o / BSIZE * BSIZE + y]
    {
      InBlock(o, y);
      assert f[o / BSIZE * BSIZE + y] == ByteAt(b0, n0, i, o / BSIZE * BSIZE + y);
    }
  }

  lemma SameView(b0: seq<Block>, n0: seq<Inode>, b: seq<Block>, n: seq<Inode>, i: nat, k: nat)
    requires Mapped(b0, n0, b, n, i) && 0 < SlotAt(b, n, i, SlotOf(k)) < |b|
    ensures b[SlotAt(b, n, i, SlotOf(k))] == View(b0, n0, i, k)
  {
    hide SlotAt;
    assert View(b, n, i, k) == View(b0, n0, i, k);
  }

  lemma SliceMore(f: seq<Byte>, lo: nat, mid: nat, hi: nat)
    requires lo <= mid <= hi <= |f|
    ensures f[lo..mid] + f[mid..hi] == f[lo..hi]
  {
  }

  lemma InBlock(o: nat, y: nat)
    requires y < BSIZE
    ensures (o / BSIZE * BSIZE + y) / BSIZE == o / BSIZE && (o / BSIZE * BSIZE + y) % BSIZE == y
  {
  }

  /** What a transaction of filewrite has done: the data is in the file, and all that changed is in the
      journal.  The inodes on disk are up to date.  It logs no more than an operation may: always when the
      file has no holes, and otherwise when the bitmap has at most four blocks. */
  ghost predicate Transacted(l: Layout, b0: seq<Block>, n0: seq<Inode>, b: seq<Block>, n: seq<Inode>,
                             owner: map<nat, Place>, j: seq<Write>, i: nat, off: nat, part: seq<Byte>) {
    && i < |n| == |n0| && off <= |File(b0, n0, i)| && FsOk(l, b, n, owner)
    && File(b, n, i) == Spliced(File(b0, n0, i), off, part) && OthersSame(b0, n0, b, n, i)
    && (NoHoles(b0, n0, i) ==> NoHoles(b, n, i)) && (OnDisk(l, b0, n0) ==> OnDisk(l, b, n))
    && InBounds(b0, j) && b == Apply(b0, j) && (forall c :: c in Numbers(j) ==> l.inodestart <= c < l.size)
    && IBlock(l, i) in Numbers(j) && (NoHoles(b0, n0, i) || NBitmap(l) <= 4 ==> |Numbers(j)| <= MAXOPBLOCKS)
    && |Numbers(j)| <= MAXOPBLOCKS + 1
  }

  lemma AllLogged(b0: seq<Block>, b: seq<Block>, j: seq<Write>)
    requires Logs(b0, [], b, j)
    ensures InBounds(b0, j) && b == Apply(b0, j)
  {
    assert j[0..] == j;
  }

  lemma {:induction false} FewBitmaps(l: Layout, s: set<nat>)
    ensures |Bitmaps(l, s)| <= |s|
    decreases |s|
  {
    if s == {} {
      assert Bitmaps(l, s) == {};
    } else {
      var x :| x in s;
      FewBitmaps(l, s - {x});
      assert Bitmaps(l, s) == Bitmaps(l, s - {x}) + {l.BBlock(x)};
    }
  }

  /** A block behind blocks lo..hi-1 of a file is behind one of them. */
  lemma {:induction false} BackedBy(b: seq<Block>, n: seq<Inode>, i: nat, lo: nat, hi: nat, x: nat) returns (k: nat)
    requires lo <= hi && x in Backing(b, n, i, lo, hi)
    ensures lo <= k < hi && SlotAt(b, n, i, SlotOf(k)) == x
    decreases hi
  {
    hide SlotAt;
    if SlotAt(b, n, i, SlotOf(hi - 1)) == x {
      k := hi - 1;
    } else {
      k := BackedBy(b, n, i, lo, hi - 1, x);
    }
  }

  /** The blocks behind a file lie in the data part of the disk. */
  lemma DataPlaces(l: Layout, b: seq<Block>, n: seq<Inode>, owner: map<nat, Place>, i: nat, lo: nat, hi: nat)
    requires lo <= hi && FsOk(l, b, n, owner) && Exist(b, n, i, lo, hi)
    ensures forall c :: c in Indirect(b, n, i) ==> l.datastart <= c < l.size
    ensures forall c :: c in Backing(b, n, i, lo, hi) ==> l.datastart <= c < l.size
  {
    hide SlotAt, FsOk, Backing;
    if SlotAt(b, n, i, INDIRECT) != 0 { InUse(l, b, n, owner, i, INDIRECT); }
    forall c | c in Backing(b, n, i, lo, hi)
      ensures l.datastart <= c < l.size
    {
      var k := BackedBy(b, n, i, lo, hi, c);
      InUse(l, b, n, owner, i, SlotOf(k));
    }
  }

  lemma BackingFront(b: seq<Block>, n: seq<Inode>, i: nat, lo: nat, hi: nat)
    requires lo < hi
    ensures Backing(b, n, i, lo, hi) <= {SlotAt(b, n, i, SlotOf(lo))} + Backing(b, n, i, lo + 1, hi)
  {
    hide SlotAt, Backing;
    forall x | x in Backing(b, n, i, lo, hi)
      ensures x == SlotAt(b, n, i, SlotOf(lo)) || x in Backing(b, n, i, lo + 1, hi)
    {
      var k := BackedBy(b, n, i, lo, hi, x);
    }
  }

  /** A file without holes gets no more than four new blocks: of four data blocks the first is there. */
  lemma FewFresh(l: Layout, b0: seq<Block>, n0: seq<Inode>, o0: map<nat, Place>, b: seq<Block>, n: seq<Inode>,
                 owner: map<nat, Place>, i: nat, off: nat, len: nat)
    requires FsOk(l, b0, n0, o0) && KeptSlots(b0, n0, b, n) && i < |n0| && off <= n0[i].size && len <= MAXWRITE
    requires off / BSIZE <= EndBlock(off, len)
    requires owner.Keys - o0.Keys <= Indirect(b, n, i) + Backing(b, n, i, off / BSIZE, EndBlock(off, len))
    ensures EndBlock(off, len) - off / BSIZE <= 4 && |owner.Keys - o0.Keys| <= 5
    ensures NoHoles(b0, n0, i) ==> |owner.Keys - o0.Keys| <= 4
  {
    hide SlotAt, Bit;
    var lo, hi := off / BSIZE, EndBlock(off, len);
    var made := owner.Keys - o0.Keys;
    assert hi - lo <= 4;
    SubsetSize(made, Indirect(b, n, i) + Backing(b, n, i, lo, hi));
    if NoHoles(b0, n0, i) && hi - lo == 4 {
      assert lo * BSIZE < off;
      InUse(l, b0, n0, o0, i, SlotOf(lo));
      BackingFront(b, n, i, lo, hi);
      SubsetSize(made, Indirect(b, n, i) + Backing(b, n, i, lo + 1, hi));
    }
  }

  lemma InBitmap(l: Layout, s: set<nat>)
    requires forall b :: b in s ==> b < l.size
    ensures Bitmaps(l, s) <= BitmapBlocks(l) && |Bitmaps(l, s)| <= NBitmap(l)
  {
    SubsetSize(Bitmaps(l, s), BitmapBlocks(l));
  }

  /** All that is logged lies behind the log. */
  lemma LoggedPlaces(l: Layout, o0: set<nat>, b: seq<Block>, n: seq<Inode>, owner: map<nat, Place>, j: seq<Write>,
                     i: nat, off: nat, len: nat)
    requires FsOk(l, b, n, owner) && InodesFit(l, |n|) && i < |n| && Uses(l, [], o0, j, owner.Keys, b, n, i, off, len)
    ensures forall c :: c in Numbers(j) ==> l.inodestart <= c < l.size
  {
    hide SlotAt, Bit, SlotsOk, EndBlock, Backing, Bitmaps;
    DataPlaces(l, b, n, owner, i, off / BSIZE, EndBlock(off, len));
    InodePlace(l, |n|, i);
    BitmapPlaces(l, b, owner.Keys, o0);
    assert Numbers([]) == {};
    hide BitsOk, SlotsOk, EndBlock, Indirect, Backing, Bitmaps, Numbers;
    Within(Numbers(j), Bitmaps(l, owner.Keys - o0), Indirect(b, n, i),
           Backing(b, n, i, off / BSIZE, EndBlock(off, len)), IBlock(l, i), l.inodestart, l.size);
  }

  lemma Within(g: set<nat>, m: set<nat>, p: set<nat>, k: set<nat>, x: nat, lo: nat, hi: nat)
    requires g <= m + p + k + {x} && lo <= x < hi && forall c :: c in m + p + k ==> lo <= c < hi
    ensures forall c :: c in g ==> lo <= c < hi
  {
  }

  lemma BitmapPlaces(l: Layout, b: seq<Block>, used: set<nat>, o0: set<nat>)
    requires BitsOk(l, b, used)
    ensures l.inodestart <= l.bmapstart < l.datastart
    ensures forall c :: c in Bitmaps(l, used - o0) ==> l.bmapstart <= c < l.datastart <= l.size
  {
    hide Bit;
  }

  /** Four data blocks at most, the indirect block, the inode's block, and a bitmap block for each new
      block. */
  lemma FewLogged(l: Layout, b0: seq<Block>, n0: seq<Inode>, o0: map<nat, Place>, b: seq<Block>, n: seq<Inode>,
                  owner: map<nat, Place>, j: seq<Write>, i: nat, off: nat, len: nat)
    requires FsOk(l, b0, n0, o0) && KeptSlots(b0, n0, b, n) && i < |n0| && off <= n0[i].size && len <= MAXWRITE
    requires FsOk(l, b, n, owner) && Uses(l, [], o0.Keys, j, owner.Keys, b, n, i, off, len)
    ensures NoHoles(b0, n0, i) || NBitmap(l) <= 4 ==> |Numbers(j)| <= MAXOPBLOCKS
    ensures |Numbers(j)| <= MAXOPBLOCKS + 1
  {
    assert forall c :: c in owner ==> c < l.size;
    FewFresh(l, b0, n0, o0, b, n, owner, i, off, len);
    hide SlotAt, FsOk, KeptSlots, NoHoles;
    var made := owner.Keys - o0.Keys;
    FewBitmaps(l, made);
    InBitmap(l, made);
    var all := Bitmaps(l, made) + Indirect(b, n, i) + Backing(b, n, i, off / BSIZE, EndBlock(off, len)) + {IBlock(l, i)};
    assert Numbers(j) <= all;
    SubsetSize(Numbers(j), all);
  }

  /** The file is as it was with the data written over it at off. */
  ghost predicate FileIs(b0: seq<Block>, n0: seq<Inode>, b: seq<Block>, n: seq<Inode>, i: nat, off: nat, data: seq<Byte>) {
    && i < |n0| && i < |n|
    && (data == [] ==> File(b, n, i) == File(b0, n0, i))
    && (data != [] ==> off <= |File(b0, n0, i)| && File(b, n, i) == Spliced(File(b0, n0, i), off, data))
  }

  lemma FileReaches(b0: seq<Block>, n0: seq<Inode>, b: seq<Block>, n: seq<Inode>, i: nat, off: nat, data: seq<Byte>)
    requires FileIs(b0, n0, b, n, i, off, data)
    ensures i < |n0| && i < |n|
    ensures if data == [] then |File(b, n, i)| == |File(b0, n0, i)|
            else off <= |File(b0, n0, i)| && off + |data| <= |File(b, n, i)|
  {
    hide File;
  }

  lemma NoneWritten(b: seq<Block>, n: seq<Inode>, i: nat, off: nat)
    requires i < |n|
    ensures FileIs(b, n, b, n, i, off, []) && OthersSame(b, n, b, n, i)
  {
  }

  lemma OthersTrans(b0: seq<Block>, n0: seq<Inode>, b1: seq<Block>, n1: seq<Inode>, b2: seq<Block>, n2: seq<Inode>, i: nat)
    requires OthersSame(b0, n0, b1, n1, i) && OthersSame(b1, n1, b2, n2, i)
    ensures OthersSame(b0, n0, b2, n2, i)
  {
    hide File;
  }

  lemma FileGrows(b0: seq<Block>, n0: seq<Inode>, b1: seq<Block>, n1: seq<Inode>, b2: seq<Block>, n2: seq<Inode>,
                  i: nat, off: nat, data: seq<Byte>, more: seq<Byte>)
    requires FileIs(b0, n0, b1, n1, i, off, data) && i < |n2| && off + |data| <= |File(b1, n1, i)| && more != []
    requires File(b2, n2, i) == Spliced(File(b1, n1, i), off + |data|, more)
    ensures FileIs(b0, n0, b2, n2, i, off, data + more)
  {
    hide File;
    var f := File(b0, n0, i);
    if data == [] {
      assert data + more == more;
    } else {
      SplicedTwice(f, off, data, more);
    }
  }

  lemma SplicedTwice(f: seq<Byte>, off: nat, a: seq<Byte>, b: seq<Byte>)
    requires off <= |f|
    ensures Spliced(Spliced(f, off, a), off + |a|, b) == Spliced(f, off, a + b)
  {
    var g := Spliced(f, off, a);
    assert g[..off + |a|] == f[..off] + a;
    var end := off + |a| + |b|;
    assert end < |g| ==> g[end..] == f[end..];
    assert f[..off] + a + b == f[..off] + (a + b);
  }
}
