/** Inodes as they are stored on disk, and iupdate (kernel/fs.c, kernel/fs.h). */
module DiskInodes {
  import opened Bytes
  import opened Bitmap
  import opened BlockMap

  const IPB := 16      // inodes per block
  const IWORDS := 16   // 32-bit words per inode: kind, device and links, then size, then addresses
  const SIZE := 2      // the word that holds the size; the addresses follow it

  function IBlock(l: Layout, i: nat): nat { i / IPB + l.inodestart }

  /** Every inode has its place in the inode blocks. */
  predicate InodesFit(l: Layout, n: nat) { l.inodestart <= l.bmapstart && n <= IPB * (l.bmapstart - l.inodestart) }

  /** Words at, at + 1, ... of a block overwritten. */
  function PutWords(b: Block, at: nat, ws: seq<Word>): (r: Block)
    requires at + |ws| <= WORDS
    ensures forall j: nat :: j < WORDS ==>
              GetWord(r, j) == if at <= j < at + |ws| then ws[j - at] else GetWord(b, j)
  {
    if ws == [] then b else
    PutWord(PutWords(b, at, ws[..|ws| - 1]), at + |ws| - 1, ws[|ws| - 1])
  }

  function DiskAddrs(b: Block, k: nat): seq<Word>
    requires k < IPB
  {
    seq<Word>(NDIRECT + 1, j requires 0 <= j <= NDIRECT => GetWord(b, IWORDS * k + SIZE + 1 + j))
  }

  /** The k-th inode of an inode block. */
  function DiskInode(b: Block, k: nat): (r: Inode)
    requires k < IPB
    ensures |r.addrs| == NDIRECT + 1
  {
    Inode(DiskAddrs(b, k), GetWord(b, IWORDS * k + SIZE))
  }

  /** iupdate: the block with its k-th inode replaced; kind, device and links stay. */
  function PutInode(b: Block, k: nat, x: Inode): Block
    requires k < IPB && |x.addrs| == NDIRECT + 1
  {
    PutWords(b, IWORDS * k + SIZE, [x.size] + x.addrs)
  }

  /** It reads back, and the block's other inodes are as they were. */
  lemma InodeReads(b: Block, k: nat, x: Inode, j: nat)
    requires k < IPB && |x.addrs| == NDIRECT + 1 && j < IPB
    ensures DiskInode(PutInode(b, k, x), j) == if j == k then x else DiskInode(b, j)
  {
    hide GetWord, PutWords;
    var r, ws := PutInode(b, k, x), [x.size] + x.addrs;
    var was := DiskInode(b, j);
    forall a: nat | a <= NDIRECT
      ensures GetWord(r, IWORDS * j + SIZE + 1 + a) == if j == k then x.addrs[a] else was.addrs[a]
    {
      assert j != k ==> IWORDS * j + IWORDS <= IWORDS * k || IWORDS * k + IWORDS <= IWORDS * j;
    }
  }

  /** The first two words of every inode, with kind, device and links, stay. */
  lemma KindsStay(b: Block, k: nat, x: Inode, j: nat, c: nat)
    requires k < 16 && |x.addrs| == 13 && j < 16 && c < 2
    ensures 16 * j + c < WORDS && GetWord(PutInode(b, k, x), 16 * j + c) == GetWord(b, 16 * j + c)
  {
    hide GetWord, PutWords;
    assert j < k ==> 16 * j + 16 <= 16 * k;
    assert k < j ==> 16 * k + 16 <= 16 * j;
  }

  /** The inodes in use are what the inode blocks say. */
  ghost predicate OnDisk(l: Layout, blocks: seq<Block>, inodes: seq<Inode>) {
    forall i: nat {:trigger InodeAt(l, blocks, inodes, i)} :: i < |inodes| ==> InodeAt(l, blocks, inodes, i)
  }

  ghost predicate InodeAt(l: Layout, blocks: seq<Block>, inodes: seq<Inode>, i: nat)
    requires i < |inodes|
  {
    IBlock(l, i) < |blocks| && DiskInode(blocks[IBlock(l, i)], i % IPB) == inodes[i]
  }

  /** The blocks in front of the bitmap have not changed. */
  ghost predicate FrontKept(l: Layout, blocks: seq<Block>, blocks': seq<Block>) {
    |blocks'| == |blocks| && forall c: nat :: c < l.bmapstart && c < |blocks| ==> blocks'[c] == blocks[c]
  }

  function Stored(l: Layout, blocks: seq<Block>, i: nat, x: Inode): (r: seq<Block>)
    requires IBlock(l, i) < |blocks| && |x.addrs| == NDIRECT + 1
    ensures |r| == |blocks|
  {
    blocks[IBlock(l, i) := PutInode(blocks[IBlock(l, i)], i % IPB, x)]
  }

  lemma InodePlace(l: Layout, n: nat, i: nat)
    requires l.Valid() && InodesFit(l, n) && i < n
    ensures l.inodestart <= IBlock(l, i) < l.bmapstart
  {
  }

  /** After iupdate the disk has all inodes as they are, if it had the others before. */
  lemma Updated(l: Layout, b0: seq<Block>, n0: seq<Inode>, b: seq<Block>, n: seq<Inode>, i: nat)
    requires OnDisk(l, b0, n0) && FrontKept(l, b0, b) && l.Valid() && InodesFit(l, |n0|)
    requires i < |n| == |n0| && |n[i].addrs| == NDIRECT + 1 && forall j: nat :: j < |n| && j != i ==> n[j] == n0[j]
    ensures IBlock(l, i) < |b| && OnDisk(l, Stored(l, b, i, n[i]), n)
  {
    hide DiskInode, PutInode;
    assert InodeAt(l, b0, n0, i);
    var b' := Stored(l, b, i, n[i]);
    forall j: nat | j < |n|
      ensures InodeAt(l, b', n, j)
    {
      InodePlace(l, |n|, j);
      assert InodeAt(l, b0, n0, j);
      InodeReads(b[IBlock(l, i)], i % IPB, n[i], j % IPB);
      if j != i && IBlock(l, j) == IBlock(l, i) { assert j % IPB != i % IPB; }
    }
  }

  /** Inode blocks hold no bits, no slots and no data. */
  lemma StoredKeeps(l: Layout, blocks: seq<Block>, inodes: seq<Inode>, owner: map<nat, Place>, i: nat, x: Inode)
    requires FsOk(l, blocks, inodes, owner) && InodesFit(l, |inodes|) && i < |inodes| && |x.addrs| == NDIRECT + 1
    ensures l.inodestart <= IBlock(l, i) < l.bmapstart <= |blocks|
    ensures var b' := Stored(l, blocks, i, x);
            && FsOk(l, b', inodes, owner) && SameViews(blocks, inodes, b', inodes)
            && forall j: nat, k: nat :: SlotAt(b', inodes, j, k) == SlotAt(blocks, inodes, j, k)
  {
    InodePlace(l, |inodes|, i);
    hide SlotAt, BlockBit, PutInode, SlotsOk;
    var c := IBlock(l, i);
    var b' := Stored(l, blocks, i, x);
    Overwrite(blocks, inodes, owner, c, b'[c]);
    forall b: nat | b < l.size
      ensures Bit(l, b', b) <==> Bit(l, blocks, b)
    {
    }
    hide Bit;
    forall j: nat, n: nat
      ensures View(b', inodes, j, n) == View(blocks, inodes, j, n)
    {
      NotInode(l, blocks, inodes, owner, c, j, SlotOf(n));
    }
  }

  lemma NotInode(l: Layout, blocks: seq<Block>, inodes: seq<Inode>, owner: map<nat, Place>, c: nat, j: nat, k: nat)
    requires FsOk(l, blocks, inodes, owner) && 0 < c < l.bmapstart
    ensures SlotAt(blocks, inodes, j, k) != c
  {
    hide SlotAt, Bit;
  }
}
