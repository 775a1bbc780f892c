/** Which disk block holds which block of which file: direct slots, the indirect slot, and the
    entries of the indirect block (kernel/fs.c). */
module BlockMap {
  import opened Bytes
  import opened Bitmap

  const NDIRECT := 12
  const NINDIRECT := 256
  const MAXFILE := 268
  const INDIRECT := 12        // the slot of the indirect block
  const NSLOTS := 269        // direct slots, the indirect slot, and the entries of the indirect block

  datatype Inode = Inode(addrs: seq<Word>, size: Word)

  /** A slot of an inode. */
  datatype Place = Place(i: nat, k: nat)

  /** The block number in slot k of inode i; 0 if there is none. */
  function SlotAt(blocks: seq<Block>, inodes: seq<Inode>, i: nat, k: nat): nat {
    if i >= |inodes| || |inodes[i].addrs| != NDIRECT + 1 || k >= NSLOTS then 0
    else if k <= INDIRECT then inodes[i].addrs[k]
    else if inodes[i].addrs[INDIRECT] == 0 || inodes[i].addrs[INDIRECT] >= |blocks| then 0
    else GetWord(blocks[inodes[i].addrs[INDIRECT]], k - INDIRECT - 1)
  }

  /** The slot for the n-th block of a file. */
  function SlotOf(n: nat): nat { if n < NDIRECT then n else n + 1 }

  /** Every block number in a slot is owned by that slot, and every owned block is in its slot: no
      block is in two slots. */
  ghost predicate SlotsOk(blocks: seq<Block>, inodes: seq<Inode>, owner: map<nat, Place>) {
    && (forall i :: 0 <= i < |inodes| ==> |inodes[i].addrs| == NDIRECT + 1)
    && (forall i: nat, k: nat :: SlotAt(blocks, inodes, i, k) != 0 ==>
          SlotAt(blocks, inodes, i, k) in owner && owner[SlotAt(blocks, inodes, i, k)] == Place(i, k))
    && (forall b :: b in owner ==>
          0 < b < |blocks| && SlotAt(blocks, inodes, owner[b].i, owner[b].k) == b)
  }

  /** Ownership and the bitmap together: a data block's bit is set exactly when some slot owns it. */
  ghost predicate FsOk(l: Layout, blocks: seq<Block>, inodes: seq<Inode>, owner: map<nat, Place>) {
    BitsOk(l, blocks, owner.Keys) && SlotsOk(blocks, inodes, owner)
  }

  /** The n-th block of a file; blocks that do not exist read as zeros. */
  function View(blocks: seq<Block>, inodes: seq<Inode>, i: nat, n: nat): Block {
    var b := SlotAt(blocks, inodes, i, SlotOf(n));
    if b == 0 || b >= |blocks| then ZeroBlock() else blocks[b]
  }

  ghost predicate SameViews(blocks: seq<Block>, inodes: seq<Inode>, blocks': seq<Block>, inodes': seq<Inode>) {
    forall i: nat, n: nat :: View(blocks', inodes', i, n) == View(blocks, inodes, i, n)
  }

  /** Other slots keep their block numbers. */
  ghost predicate SlotsBut(blocks: seq<Block>, inodes: seq<Inode>, blocks': seq<Block>, inodes': seq<Inode>,
                           i0: nat, k0: nat, b: nat) {
    && |inodes'| == |inodes| && |blocks'| == |blocks|
    && SlotAt(blocks', inodes', i0, k0) == b
    && (forall i: nat, k: nat :: (i, k) != (i0, k0) ==>
          SlotAt(blocks', inodes', i, k) == SlotAt(blocks, inodes, i, k))
  }

  lemma ZeroSlots(blocks: seq<Block>, inodes: seq<Inode>, i: nat, k: nat)
    requires i < |inodes| && |inodes[i].addrs| == NDIRECT + 1 && INDIRECT < k
    requires inodes[i].addrs[INDIRECT] < |blocks| && blocks[inodes[i].addrs[INDIRECT]] == ZeroBlock()
    ensures SlotAt(blocks, inodes, i, k) == 0
  {
  }

  /** A fresh block goes into an empty slot of the inode itself. */
  lemma Attach(blocks: seq<Block>, inodes: seq<Inode>, owner: map<nat, Place>, i0: nat, k0: nat, b: Word)
    requires SlotsOk(blocks, inodes, owner) && i0 < |inodes| && k0 <= INDIRECT
    requires SlotAt(blocks, inodes, i0, k0) == 0 && b !in owner && 0 < b < |blocks| && blocks[b] == ZeroBlock()
    ensures var inodes' := inodes[i0 := inodes[i0].(addrs := inodes[i0].addrs[k0 := b])];
            && SlotsBut(blocks, inodes, blocks, inodes', i0, k0, b)
            && SlotsOk(blocks, inodes', owner[b := Place(i0, k0)])
  {
    hide GetWord;
    var inodes' := inodes[i0 := inodes[i0].(addrs := inodes[i0].addrs[k0 := b])];
    forall i: nat, k: nat | (i, k) != (i0, k0)
      ensures SlotAt(blocks, inodes', i, k) == SlotAt(blocks, inodes, i, k)
    {
      if i == i0 && k0 == INDIRECT && INDIRECT < k { ZeroSlots(blocks, inodes', i, k); }
    }
    ButOk(blocks, inodes, blocks, inodes', owner, i0, k0, b);
  }

  /** A fresh block goes into an empty entry of an indirect block. */
  lemma AttachEntry(blocks: seq<Block>, inodes: seq<Inode>, owner: map<nat, Place>, i0: nat, j: nat, b: Word)
    requires SlotsOk(blocks, inodes, owner) && i0 < |inodes| && j < NINDIRECT
    requires SlotAt(blocks, inodes, i0, INDIRECT) != 0 && SlotAt(blocks, inodes, i0, INDIRECT + 1 + j) == 0
    requires b !in owner && 0 < b < |blocks|
    ensures var p := SlotAt(blocks, inodes, i0, INDIRECT);
            p < |blocks| &&
            (var blocks' := blocks[p := PutWord(blocks[p], j, b)];
             && SlotsBut(blocks, inodes, blocks', inodes, i0, INDIRECT + 1 + j, b)
             && SlotsOk(blocks', inodes, owner[b := Place(i0, INDIRECT + 1 + j)]))
  {
    var p := SlotAt(blocks, inodes, i0, INDIRECT);
    assert owner[p] == Place(i0, INDIRECT);
    var blocks' := blocks[p := PutWord(blocks[p], j, b)];
    hide GetWord;
    forall i: nat, k: nat | (i, k) != (i0, INDIRECT + 1 + j)
      ensures SlotAt(blocks', inodes, i, k) == SlotAt(blocks, inodes, i, k)
    {
      assert i != i0 ==> SlotAt(blocks, inodes, i, INDIRECT) != p;
    }
    ButOk(blocks, inodes, blocks', inodes, owner, i0, INDIRECT + 1 + j, b);
  }

  lemma ButOk(blocks: seq<Block>, inodes: seq<Inode>, blocks': seq<Block>, inodes': seq<Inode>,
              owner: map<nat, Place>, i0: nat, k0: nat, b: nat)
    requires SlotsOk(blocks, inodes, owner) && SlotsBut(blocks, inodes, blocks', inodes', i0, k0, b)
    requires SlotAt(blocks, inodes, i0, k0) == 0 && b !in owner && 0 < b < |blocks|
    requires forall i :: 0 <= i < |inodes'| ==> |inodes'[i].addrs| == NDIRECT + 1
    ensures SlotsOk(blocks', inodes', owner[b := Place(i0, k0)])
  {
    hide SlotAt;
  }

  lemma SameOk(blocks: seq<Block>, inodes: seq<Inode>, blocks': seq<Block>, inodes': seq<Inode>,
               owner: map<nat, Place>)
    requires SlotsOk(blocks, inodes, owner) && |blocks'| == |blocks|
    requires forall i :: 0 <= i < |inodes'| ==> |inodes'[i].addrs| == NDIRECT + 1
    requires forall i: nat, k: nat :: SlotAt(blocks', inodes', i, k) == SlotAt(blocks, inodes, i, k)
    ensures SlotsOk(blocks', inodes', owner)
  {
    hide SlotAt;
  }

  /** A block that is no indirect block can change without moving any slot. */
  lemma Overwrite(blocks: seq<Block>, inodes: seq<Inode>, owner: map<nat, Place>, b: nat, data: Block)
    requires SlotsOk(blocks, inodes, owner) && 0 < b < |blocks| && (b in owner ==> owner[b].k != INDIRECT)
    ensures SlotsOk(blocks[b := data], inodes, owner)
    ensures forall i: nat, k: nat :: SlotAt(blocks[b := data], inodes, i, k) == SlotAt(blocks, inodes, i, k)
  {
    hide GetWord;
    forall i: nat, k: nat
      ensures SlotAt(blocks[b := data], inodes, i, k) == SlotAt(blocks, inodes, i, k)
    {
      assert SlotAt(blocks, inodes, i, INDIRECT) != b;
    }
    SameOk(blocks, inodes, blocks[b := data], inodes, owner);
  }

  /** Blocks that belong to files keep their contents. */
  ghost predicate DataKept(blocks: seq<Block>, blocks': seq<Block>, owner: map<nat, Place>) {
    |blocks'| == |blocks| &&
    forall b: nat :: b < |blocks| && b in owner && owner[b].k != INDIRECT ==> blocks'[b] == blocks[b]
  }

  /** A zeroed block in an empty slot changes no file's contents. */
  lemma AttachViews(blocks: seq<Block>, inodes: seq<Inode>, blocks': seq<Block>, inodes': seq<Inode>,
                    owner: map<nat, Place>, i0: nat, k0: nat, b: nat)
    requires SlotsOk(blocks, inodes, owner) && SlotsBut(blocks, inodes, blocks', inodes', i0, k0, b)
    requires SlotAt(blocks, inodes, i0, k0) == 0 && b < |blocks'| && blocks'[b] == ZeroBlock()
    requires DataKept(blocks, blocks', owner)
    ensures SameViews(blocks, inodes, blocks', inodes')
  {
    hide SlotAt;
  }

  /** Writing a data block changes the one view it backs. */
  lemma WriteView(blocks: seq<Block>, inodes: seq<Inode>, owner: map<nat, Place>, i0: nat, n0: nat, data: Block)
    requires SlotsOk(blocks, inodes, owner) && SlotAt(blocks, inodes, i0, SlotOf(n0)) != 0
    ensures var b := SlotAt(blocks, inodes, i0, SlotOf(n0));
            && b < |blocks| && SlotsOk(blocks[b := data], inodes, owner)
            && (forall i: nat, k: nat :: SlotAt(blocks[b := data], inodes, i, k) == SlotAt(blocks, inodes, i, k))
            && (forall i: nat, n: nat :: View(blocks[b := data], inodes, i, n) ==
                                         if (i, n) == (i0, n0) then data else View(blocks, inodes, i, n))
  {
    var b := SlotAt(blocks, inodes, i0, SlotOf(n0));
    assert owner[b] == Place(i0, SlotOf(n0));
    Overwrite(blocks, inodes, owner, b, data);
    hide SlotAt;
    forall i: nat, n: nat
      ensures View(blocks[b := data], inodes, i, n) ==
              if (i, n) == (i0, n0) then data else View(blocks, inodes, i, n)
    {
      if SlotAt(blocks, inodes, i, SlotOf(n)) == b { assert Place(i, SlotOf(n)) == Place(i0, SlotOf(n0)); }
    }
  }

  /** A file's size is in no slot. */
  lemma Resize(blocks: seq<Block>, inodes: seq<Inode>, owner: map<nat, Place>, i0: nat, size: Word)
    requires SlotsOk(blocks, inodes, owner) && i0 < |inodes|
    ensures var inodes' := inodes[i0 := inodes[i0].(size := size)];
            && SlotsOk(blocks, inodes', owner) && SameViews(blocks, inodes, blocks, inodes')
            && forall i: nat, k: nat :: SlotAt(blocks, inodes', i, k) == SlotAt(blocks, inodes, i, k)
  {
    var inodes' := inodes[i0 := inodes[i0].(size := size)];
    assert forall i: nat, k: nat :: SlotAt(blocks, inodes', i, k) == SlotAt(blocks, inodes, i, k);
    SameOk(blocks, inodes, blocks, inodes', owner);
  }

  // ---- Taking blocks away ----

  /** A direct slot is emptied. */
  lemma Detach(blocks: seq<Block>, inodes: seq<Inode>, owner: map<nat, Place>, i0: nat, k0: nat)
    requires SlotsOk(blocks, inodes, owner) && i0 < |inodes| && k0 < NDIRECT
    requires SlotAt(blocks, inodes, i0, k0) != 0
    ensures var inodes' := inodes[i0 := inodes[i0].(addrs := inodes[i0].addrs[k0 := 0])];
            && SlotsBut(blocks, inodes, blocks, inodes', i0, k0, 0)
            && SlotsOk(blocks, inodes', owner - {SlotAt(blocks, inodes, i0, k0)})
  {
    hide GetWord;
    var inodes' := inodes[i0 := inodes[i0].(addrs := inodes[i0].addrs[k0 := 0])];
    var b := SlotAt(blocks, inodes, i0, k0);
    assert owner[b] == Place(i0, k0);
    assert SlotsBut(blocks, inodes, blocks, inodes', i0, k0, 0);
    hide SlotAt;
    forall x | x in owner - {b}
      ensures SlotAt(blocks, inodes', owner[x].i, owner[x].k) == x
    {
      assert SlotAt(blocks, inodes, owner[x].i, owner[x].k) == x;
    }
  }

  /** The blocks in slots lo..hi-1 of an inode. */
  ghost function Held(owner: map<nat, Place>, i0: nat, lo: nat, hi: nat): set<nat> {
    set b | b in owner && owner[b].i == i0 && lo <= owner[b].k < hi
  }

  lemma DetachTail(blocks: seq<Block>, inodes: seq<Inode>, owner: map<nat, Place>, i0: nat)
    requires SlotsOk(blocks, inodes, owner) && i0 < |inodes|
    ensures var inodes' := inodes[i0 := inodes[i0].(addrs := inodes[i0].addrs[INDIRECT := 0])];
            && SlotsOk(blocks, inodes', owner - Held(owner, i0, INDIRECT, NSLOTS))
            && (forall i: nat, k: nat :: SlotAt(blocks, inodes', i, k) ==
                  if i == i0 && k >= INDIRECT then 0 else SlotAt(blocks, inodes, i, k))
  {
    hide GetWord;
    var inodes' := inodes[i0 := inodes[i0].(addrs := inodes[i0].addrs[INDIRECT := 0])];
    forall i: nat, k: nat
      ensures SlotAt(blocks, inodes', i, k) == if i == i0 && k >= INDIRECT then 0 else SlotAt(blocks, inodes, i, k)
    {
    }
    hide SlotAt;
    forall x | x in owner - Held(owner, i0, INDIRECT, NSLOTS)
      ensures SlotAt(blocks, inodes', owner[x].i, owner[x].k) == x
    {
      assert SlotAt(blocks, inodes, owner[x].i, owner[x].k) == x;
    }
  }
}
