/** The bytes of a file, and what writing does to them. */
module Contents {
  import opened Bytes
  import opened BlockMap

  /** What bmap leaves alone: the contents of all files, every slot that had a block, the sizes. */
  ghost predicate Mapped(blocks: seq<Block>, inodes: seq<Inode>, blocks': seq<Block>, inodes': seq<Inode>, i0: nat) {
    && |inodes'| == |inodes| && |blocks'| == |blocks| && SameViews(blocks, inodes, blocks', inodes')
    && (forall i: nat, k: nat :: SlotAt(blocks, inodes, i, k) != 0 ==>
          SlotAt(blocks', inodes', i, k) == SlotAt(blocks, inodes, i, k))
    && (forall i: nat, k: nat :: i != i0 ==> SlotAt(blocks', inodes', i, k) == SlotAt(blocks, inodes, i, k))
    && (forall i: nat :: i < |inodes| ==> inodes'[i].size == inodes[i].size)
    && (forall i: nat :: i < |inodes| && i != i0 ==> inodes'[i] == inodes[i])
  }

  function ByteAt(blocks: seq<Block>, inodes: seq<Inode>, i: nat, o: nat): Byte {
    View(blocks, inodes, i, o / BSIZE)[o % BSIZE]
  }

  /** A file's contents. */
  function File(blocks: seq<Block>, inodes: seq<Inode>, i: nat): (r: seq<Byte>)
    requires i < |inodes|
    ensures |r| == inodes[i].size && forall o: nat :: o < |r| ==> r[o] == ByteAt(blocks, inodes, i, o)
  {
    seq(inodes[i].size, o requires 0 <= o => ByteAt(blocks, inodes, i, o))
  }

  /** Every block below the end of the file exists. */
  ghost predicate NoHoles(blocks: seq<Block>, inodes: seq<Inode>, i: nat)
    requires i < |inodes|
  {
    forall n: nat :: n * BSIZE < inodes[i].size ==> SlotAt(blocks, inodes, i, SlotOf(n)) != 0
  }

  /** The data has been written at off of file i; nothing else has changed, but blocks may have been
      allocated. */
  ghost predicate Written(blocks: seq<Block>, inodes: seq<Inode>, blocks': seq<Block>, inodes': seq<Inode>,
                          i0: nat, off: nat, data: seq<Byte>) {
    && |inodes'| == |inodes| && i0 < |inodes|
    && (forall o: nat :: ByteAt(blocks', inodes', i0, o) ==
          if off <= o < off + |data| then data[o - off] else ByteAt(blocks, inodes, i0, o))
    && (forall i: nat, n: nat :: i != i0 ==> View(blocks', inodes', i, n) == View(blocks, inodes, i, n))
    && (forall i: nat, k: nat :: SlotAt(blocks, inodes, i, k) != 0 ==>
          SlotAt(blocks', inodes', i, k) == SlotAt(blocks, inodes, i, k))
    && (forall i: nat :: i < |inodes| && i != i0 ==> inodes'[i] == inodes[i])
  }

  /** The blocks behind blocks lo..hi-1 of a file. */
  ghost function Backing(blocks: seq<Block>, inodes: seq<Inode>, i: nat, lo: nat, hi: nat): (r: set<nat>)
    requires lo <= hi
    ensures |r| <= hi - lo
    ensures forall n: nat :: lo <= n < hi ==> SlotAt(blocks, inodes, i, SlotOf(n)) in r
    decreases hi
  {
    if lo == hi then {} else Backing(blocks, inodes, i, lo, hi - 1) + {SlotAt(blocks, inodes, i, SlotOf(hi - 1))}
  }

  lemma WrittenNone(blocks: seq<Block>, inodes: seq<Inode>, i0: nat, off: nat)
    requires i0 < |inodes|
    ensures Written(blocks, inodes, blocks, inodes, i0, off, [])
  {
  }

  lemma WrittenMore(b0: seq<Block>, n0: seq<Inode>, b1: seq<Block>, n1: seq<Inode>, b2: seq<Block>, n2: seq<Inode>,
                    i0: nat, off: nat, data: seq<Byte>, more: seq<Byte>)
    requires Written(b0, n0, b1, n1, i0, off, data) && Written(b1, n1, b2, n2, i0, off + |data|, more)
    ensures Written(b0, n0, b2, n2, i0, off, data + more)
  {
    hide ByteAt, View, SlotAt;
    forall o: nat
      ensures ByteAt(b2, n2, i0, o) ==
              if off <= o < off + |data + more| then (data + more)[o - off] else ByteAt(b0, n0, i0, o)
    {
      assert ByteAt(b1, n1, i0, o) == if off <= o < off + |data| then data[o - off] else ByteAt(b0, n0, i0, o);
    }
  }

  /** Replacing part of one block writes those bytes of the file. */
  lemma WrittenBlock(blocks: seq<Block>, inodes: seq<Inode>, blocks': seq<Block>, i0: nat, off: nat, part: seq<Byte>)
    requires i0 < |inodes| && off % BSIZE + |part| <= BSIZE
    requires var was := View(blocks, inodes, i0, off / BSIZE); var at := off % BSIZE;
             forall i: nat, n: nat :: View(blocks', inodes, i, n) ==
               if (i, n) == (i0, off / BSIZE) then was[..at] + part + was[at + |part|..] else View(blocks, inodes, i, n)
    requires forall i: nat, k: nat :: SlotAt(blocks', inodes, i, k) == SlotAt(blocks, inodes, i, k)
    ensures Written(blocks, inodes, blocks', inodes, i0, off, part)
  {
    hide View, SlotAt;
    forall o: nat
      ensures ByteAt(blocks', inodes, i0, o) ==
              if off <= o < off + |part| then part[o - off] else ByteAt(blocks, inodes, i0, o)
    {
      var was := View(blocks, inodes, i0, off / BSIZE);
      var at := off % BSIZE;
      assert o == o / BSIZE * BSIZE + o % BSIZE && off == off / BSIZE * BSIZE + at;
      var now := was[..at] + part + was[at + |part|..];
      if o / BSIZE == off / BSIZE {
        assert ByteAt(blocks', inodes, i0, o) == now[o % BSIZE];
      }
    }
  }

  lemma MappedWritten(b0: seq<Block>, n0: seq<Inode>, b1: seq<Block>, n1: seq<Inode>, b2: seq<Block>, n2: seq<Inode>,
                      i0: nat, off: nat, part: seq<Byte>)
    requires Mapped(b0, n0, b1, n1, i0) && Written(b1, n1, b2, n2, i0, off, part)
    ensures Written(b0, n0, b2, n2, i0, off, part)
  {
    hide View, SlotAt;
    forall o: nat
      ensures ByteAt(b1, n1, i0, o) == ByteAt(b0, n0, i0, o)
    {
    }
  }

  /** The indirect block of a file, if it has one. */
  function Indirect(blocks: seq<Block>, inodes: seq<Inode>, i: nat): set<nat> {
    {SlotAt(blocks, inodes, i, INDIRECT)} - {0}
  }

  /** Blocks lo..hi-1 of the file exist. */
  ghost predicate Exist(blocks: seq<Block>, inodes: seq<Inode>, i: nat, lo: nat, hi: nat) {
    forall n: nat :: lo <= n < hi ==> SlotAt(blocks, inodes, i, SlotOf(n)) != 0
  }

  /** Blocks once there stay there. */
  lemma {:induction false} BackingKept(b1: seq<Block>, n1: seq<Inode>, b2: seq<Block>, n2: seq<Inode>, i: nat, lo: nat, hi: nat)
    requires lo <= hi && Exist(b1, n1, i, lo, hi)
    requires forall i: nat, k: nat :: SlotAt(b1, n1, i, k) != 0 ==> SlotAt(b2, n2, i, k) == SlotAt(b1, n1, i, k)
    ensures Backing(b2, n2, i, lo, hi) == Backing(b1, n1, i, lo, hi) && Exist(b2, n2, i, lo, hi)
    ensures Indirect(b1, n1, i) <= Indirect(b2, n2, i)
    decreases hi
  {
    hide SlotAt;
    if lo < hi { BackingKept(b1, n1, b2, n2, i, lo, hi - 1); }
  }

  /** f with d written over it at off. */
  function Spliced(f: seq<Byte>, off: nat, d: seq<Byte>): seq<Byte>
    requires off <= |f|
  {
    f[..off] + d + if off + |d| < |f| then f[off + |d|..] else []
  }

  lemma SplicedFile(blocks: seq<Block>, inodes: seq<Inode>, blocks': seq<Block>, inodes': seq<Inode>,
                    i0: nat, off: nat, data: seq<Byte>)
    requires Written(blocks, inodes, blocks', inodes', i0, off, data) && off <= inodes[i0].size
    requires inodes'[i0].size == if off + |data| > inodes[i0].size then off + |data| else inodes[i0].size
    ensures File(blocks', inodes', i0) == Spliced(File(blocks, inodes, i0), off, data)
    ensures forall j: nat :: j < |inodes| && j != i0 ==> File(blocks', inodes', j) == File(blocks, inodes, j)
  {
    hide View, SlotAt;
    var f, f' := File(blocks, inodes, i0), File(blocks', inodes', i0);
    assert forall o: nat :: o < |f'| ==> f'[o] == Spliced(f, off, data)[o];
    forall j: nat | j < |inodes| && j != i0
      ensures File(blocks', inodes', j) == File(blocks, inodes, j)
    {
      assert forall o: nat :: ByteAt(blocks', inodes', j, o) == ByteAt(blocks, inodes, j, o);
    }
  }
}
