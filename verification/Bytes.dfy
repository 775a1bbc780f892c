/** Disk blocks as byte sequences, and the little-endian 32-bit words the kernel reads from them. */
module Bytes {

  const BSIZE := 1024
  const WORDS := 256

  type Byte = x: int | 0 <= x < 256
  type Word = w: int | 0 <= w < 0x1_0000_0000
  type Block = b: seq<Byte> | |b| == BSIZE witness ZeroBlock()

  function ZeroBlock(): (b: seq<Byte>)
    ensures |b| == BSIZE
    ensures forall i :: 0 <= i < BSIZE ==> b[i] == 0
  {
    seq(BSIZE, i => 0)
  }

  /** The j-th 32-bit word of a block. */
  function GetWord(b: Block, j: nat): Word
    requires j < WORDS
  {
    var b0: int, b1: int, b2: int, b3: int := b[4 * j], b[4 * j + 1], b[4 * j + 2], b[4 * j + 3];
    b0 + 0x100 * b1 + 0x1_0000 * b2 + 0x100_0000 * b3
  }

  /** A word is made of its four bytes. */
  lemma FourBytes(w: Word)
    ensures w % 0x100 + 0x100 * (w / 0x100 % 0x100) + 0x1_0000 * (w / 0x1_0000 % 0x100) + 0x100_0000 * (w / 0x100_0000) == w
    ensures 0 <= w / 0x100_0000 < 0x100
  {
    DivTwice(w);
    DivThrice(w);
    var x := w / 0x100;
    var y := x / 0x100;
    assert w == 0x100 * x + w % 0x100 && x == 0x100 * y + x % 0x100 && y == 0x100 * (y / 0x100) + y % 0x100;
  }

  lemma DivTwice(w: nat)
    ensures w / 0x1_0000 == w / 0x100 / 0x100
  {
  }

  lemma DivThrice(w: nat)
    ensures w / 0x100_0000 == w / 0x100 / 0x100 / 0x100
  {
  }

  /** Stores a word over the four bytes at 4j. */
  function PutWord(b: Block, j: nat, w: Word): (r: Block)
    requires j < WORDS
    ensures GetWord(r, j) == w
    ensures forall k: nat :: k < WORDS && k != j ==> GetWord(r, k) == GetWord(b, k)
    ensures forall i :: 0 <= i < BSIZE && i / 4 != j ==> r[i] == b[i]
  {
    FourBytes(w);
    b[4 * j := w % 0x100]
    [4 * j + 1 := w / 0x100 % 0x100]
    [4 * j + 2 := w / 0x1_0000 % 0x100]
    [4 * j + 3 := w / 0x100_0000]
  }
}
