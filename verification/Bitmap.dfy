/** Bits of the free-block bitmap (kernel/fs.c). */
module Bitmap {
  import opened Bytes

  const BPB := 8192   // bits per block

  /** (x & 1 << k) != 0. */
  predicate TestBit(x: nat, k: nat) {
    if k == 0 then x % 2 == 1 else TestBit(x / 2, k - 1)
  }

  /** x with bit k set to v: x | 1 << k, or x & ~(1 << k). */
  function PutBit(x: nat, k: nat, v: bool): nat {
    if k == 0 then x - x % 2 + (if v then 1 else 0) else 2 * PutBit(x / 2, k - 1, v) + x % 2
  }

  lemma {:induction false} PutBitReads(x: nat, k: nat, v: bool, j: nat)
    ensures TestBit(PutBit(x, k, v), j) <==> if j == k then v else TestBit(x, j)
  {
    if k > 0 && j > 0 {
      assert PutBit(x, k, v) / 2 == PutBit(x / 2, k - 1, v);
      PutBitReads(x / 2, k - 1, v, j - 1);
    }
  }

  function Pow2(n: nat): nat { if n == 0 then 1 else 2 * Pow2(n - 1) }

  lemma {:induction false} PutBitFits(x: nat, k: nat, v: bool, n: nat)
    requires k < n && x < Pow2(n)
    ensures PutBit(x, k, v) < Pow2(n)
  {
    var half := Pow2(n - 1);
    assert x == 2 * (x / 2) + x % 2 && x / 2 < half;
    if k > 0 { PutBitFits(x / 2, k - 1, v, n - 1); }
  }

  // ---- Bits of a block ----

  predicate BlockBit(b: Block, k: nat)
    requires k < BPB
  {
    TestBit(b[k / 8], k % 8)
  }

  function PutBlockBit(b: Block, k: nat, v: bool): (r: Block)
    requires k < BPB
    ensures forall j: nat :: j < BPB ==> (BlockBit(r, j) <==> if j == k then v else BlockBit(b, j))
  {
    assert Pow2(8) == 256;
    PutBitFits(b[k / 8], k % 8, v, 8);
    var r := b[k / 8 := PutBit(b[k / 8], k % 8, v)];
    assert forall j: nat :: j < BPB ==> (BlockBit(r, j) <==> if j == k then v else BlockBit(b, j)) by {
      forall j: nat | j < BPB
        ensures BlockBit(r, j) <==> if j == k then v else BlockBit(b, j)
      {
        PutBitReads(b[k / 8], k % 8, v, j % 8);
      }
    }
    r
  }

  // ---- Bits of the file system ----

  /** Where things are: [ boot | super | log | inodes | bitmap | data ]. */
  datatype Layout = Layout(size: nat, inodestart: nat, bmapstart: nat, datastart: nat)
  {
    ghost predicate Valid() {
      && 1 < inodestart <= bmapstart && 0 < size < 0x8000_0000
      && bmapstart + (size - 1) / BPB < datastart <= size
    }

    function BBlock(b: nat): nat { b / BPB + bmapstart }
  }

  /** The bitmap's bit for block b. */
  predicate Bit(l: Layout, blocks: seq<Block>, b: nat)
    requires l.BBlock(b) < |blocks|
  {
    BlockBit(blocks[l.BBlock(b)], b % BPB)
  }

  /** The bits that are set are those of the metadata and of the blocks in use. */
  ghost predicate BitsOk(l: Layout, blocks: seq<Block>, used: set<nat>) {
    && l.Valid() && |blocks| == l.size
    && (forall b :: b in used ==> l.datastart <= b < l.size)
    && (forall b: nat :: b < l.size ==> (Bit(l, blocks, b) <==> b < l.datastart || b in used))
  }

  /** Setting or clearing the bit of a data block puts it into use or out of use. */
  lemma PutBitOk(l: Layout, blocks: seq<Block>, used: set<nat>, b: nat, v: bool)
    requires BitsOk(l, blocks, used) && l.datastart <= b < l.size
    ensures BitsOk(l, blocks[l.BBlock(b) := PutBlockBit(blocks[l.BBlock(b)], b % BPB, v)],
                   if v then used + {b} else used - {b})
  {
    hide BlockBit;
    var blocks' := blocks[l.BBlock(b) := PutBlockBit(blocks[l.BBlock(b)], b % BPB, v)];
    forall c: nat | c < l.size
      ensures Bit(l, blocks', c) <==> if c == b then v else Bit(l, blocks, c)
    {
    }
  }

  /** Data blocks hold no bits. */
  lemma DataBits(l: Layout, blocks: seq<Block>, used: set<nat>, b: nat, data: Block)
    requires BitsOk(l, blocks, used) && l.datastart <= b < l.size
    ensures BitsOk(l, blocks[b := data], used)
  {
    hide BlockBit;
    var blocks' := blocks[b := data];
    forall c: nat | c < l.size
      ensures Bit(l, blocks', c) <==> Bit(l, blocks, c)
    {
      assert l.BBlock(c) < l.datastart;
    }
  }
}
