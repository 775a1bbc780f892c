/** The free list of the user-level allocator: a ring of blocks in address order (user/umalloc.c).
    Addresses and sizes count headers, 16 bytes each. */
module HeapRing {

  datatype Header = Header(ptr: nat, size: nat)

  type Mem = map<nat, Header>

  /** A block of the ring: base is the lowest, and the only empty one. */
  ghost predicate Node(mem: Mem, ring: set<nat>, base: nat, b: nat) {
    b in mem && base <= b && mem[b].ptr in ring && (mem[b].size == 0 <==> b == base)
  }

  /** From b the ring goes up to the next block, or from the highest back to base; and b ends before
      any higher block. */
  ghost predicate Pair(mem: Mem, base: nat, b: nat, x: nat) {
    b in mem &&
    (if b < mem[b].ptr then !(b < x < mem[b].ptr) else x <= b && mem[b].ptr == base) &&
    (b < x ==> b + mem[b].size <= x)
  }

  /** The ptr fields lead round the blocks of ring in address order, and blocks do not overlap. */
  ghost predicate RingOk(mem: Mem, ring: set<nat>, base: nat) {
    && base in ring
    && (forall b {:trigger Node(mem, ring, base, b)} :: b in ring ==> Node(mem, ring, base, b))
    && (forall b, x {:trigger Pair(mem, base, b, x)} :: b in ring && x in ring ==> Pair(mem, base, b, x))
  }

  /** No two free blocks touch: they would have been merged. */
  ghost predicate Coalesced(mem: Mem, ring: set<nat>) {
    forall b, x :: b in ring && x in ring && b < x && b in mem ==> b + mem[b].size < x
  }

  lemma InsertRing(mem: Mem, ring: set<nat>, base: nat, p: nat, b: nat)
    requires RingOk(mem, ring, base) && p in ring && b in mem && mem[b].size > 0 && b !in ring && p < b
    requires p in mem && (mem[p].ptr <= p || b < mem[p].ptr)
    requires p + mem[p].size <= b && (p < mem[p].ptr ==> b + mem[b].size <= mem[p].ptr)
    ensures RingOk(mem[b := mem[b].(ptr := mem[p].ptr)][p := mem[p].(ptr := b)], ring + {b}, base)
  {
    var mem' := mem[b := mem[b].(ptr := mem[p].ptr)][p := mem[p].(ptr := b)];
    forall x | x in ring + {b}
      ensures Node(mem', ring + {b}, base, x)
    {
      assert Node(mem, ring, base, p);
      if x != b { assert Node(mem, ring, base, x); }
    }
    forall x, y | x in ring + {b} && y in ring + {b}
      ensures Pair(mem', base, x, y)
    {
      InsertPair(mem, ring, base, p, b, x, y);
    }
  }

  lemma InsertPair(mem: Mem, ring: set<nat>, base: nat, p: nat, b: nat, x: nat, y: nat)
    requires RingOk(mem, ring, base) && p in ring && b in mem && mem[b].size > 0 && b !in ring && p < b
    requires p in mem && (mem[p].ptr <= p || b < mem[p].ptr)
    requires p + mem[p].size <= b && (p < mem[p].ptr ==> b + mem[b].size <= mem[p].ptr)
    requires x in ring + {b} && y in ring + {b}
    ensures Pair(mem[b := mem[b].(ptr := mem[p].ptr)][p := mem[p].(ptr := b)], base, x, y)
  {
    assert Node(mem, ring, base, p) && Pair(mem, base, p, p);
    assert x != b ==> Pair(mem, base, x, p) && Pair(mem, base, x, mem[p].ptr) && Pair(mem, base, p, x);
    assert y != b ==> Pair(mem, base, p, y);
    assert x != b && y != b ==> Pair(mem, base, x, y);
  }

  /** A block and the one right behind it become one. */
  function Joined(mem: Mem, b: nat): Mem
    requires b in mem && mem[b].ptr in mem
  {
    mem[b := Header(mem[mem[b].ptr].ptr, mem[b].size + mem[mem[b].ptr].size)]
  }

  lemma JoinRing(mem: Mem, ring: set<nat>, base: nat, b: nat)
    requires RingOk(mem, ring, base) && b in ring && b != base && b in mem && b + mem[b].size == mem[b].ptr
    ensures mem[b].ptr in mem && mem[b].ptr in ring && mem[b].ptr > b
    ensures RingOk(Joined(mem, b), ring - {mem[b].ptr}, base)
  {
    var c := mem[b].ptr;
    assert Node(mem, ring, base, b) && Node(mem, ring, base, c);
    var mem' := Joined(mem, b);
    forall x | x in ring - {c}
      ensures Node(mem', ring - {c}, base, x)
    {
      assert Node(mem, ring, base, x) && Pair(mem, base, x, b) && Pair(mem, base, b, x) && Pair(mem, base, c, c);
    }
    forall x, y | x in ring - {c} && y in ring - {c}
      ensures Pair(mem', base, x, y)
    {
      assert Pair(mem, base, x, y) && Pair(mem, base, b, y) && Pair(mem, base, c, y) && Pair(mem, base, x, c);
    }
  }

  lemma RemoveRing(mem: Mem, ring: set<nat>, base: nat, p: nat)
    requires RingOk(mem, ring, base) && p in ring && p in mem && mem[p].ptr != base
    ensures mem[p].ptr in mem && mem[p].ptr in ring && mem[p].ptr > p
    ensures RingOk(mem[p := mem[p].(ptr := mem[mem[p].ptr].ptr)], ring - {mem[p].ptr}, base)
  {
    var c := mem[p].ptr;
    assert Node(mem, ring, base, p) && Node(mem, ring, base, c) && Pair(mem, base, p, p);
    var mem' := mem[p := mem[p].(ptr := mem[c].ptr)];
    forall x | x in ring - {c}
      ensures Node(mem', ring - {c}, base, x)
    {
      assert Node(mem, ring, base, x) && Pair(mem, base, x, p) && Pair(mem, base, p, x) && Pair(mem, base, c, c);
    }
    forall x, y | x in ring - {c} && y in ring - {c}
      ensures Pair(mem', base, x, y)
    {
      assert Pair(mem, base, x, y) && Pair(mem, base, p, y) && Pair(mem, base, c, y) && Pair(mem, base, x, c);
    }
  }

  /** A block of the ring gets smaller. */
  lemma ShrinkRing(mem: Mem, ring: set<nat>, base: nat, p: nat, n: nat)
    requires RingOk(mem, ring, base) && p in ring && p in mem && p != base && 0 < n <= mem[p].size
    ensures RingOk(mem[p := mem[p].(size := n)], ring, base)
  {
    var mem' := mem[p := mem[p].(size := n)];
    forall x | x in ring
      ensures Node(mem', ring, base, x)
    {
      assert Node(mem, ring, base, x);
    }
    forall x, y | x in ring && y in ring
      ensures Pair(mem', base, x, y)
    {
      assert Pair(mem, base, x, y);
    }
  }

  /** Headers outside the ring do not matter to it. */
  lemma OffRing(mem: Mem, ring: set<nat>, base: nat, q: nat, h: Header)
    requires RingOk(mem, ring, base) && Coalesced(mem, ring) && q !in ring
    ensures RingOk(mem[q := h], ring, base) && Coalesced(mem[q := h], ring)
  {
    var mem' := mem[q := h];
    assert Coalesced(mem', ring);
    hide Coalesced;
    forall x | x in ring
      ensures Node(mem', ring, base, x)
    {
      assert Node(mem, ring, base, x);
    }
    forall x, y | x in ring && y in ring
      ensures Pair(mem', base, x, y)
    {
      assert Pair(mem, base, x, y);
    }
  }
}
