/** malloc, free and morecore (user/umalloc.c, after section 8.7 of The C Programming Language, 2nd ed.). */
module Malloc {
  import opened HeapRing
  import opened HeapCells

  const MINCORE := 4096

  /** How many headers a request needs, its own included. */
  function Units(nbytes: nat): (r: nat)
    ensures nbytes <= 16 * (r - 1) < nbytes + 16
  {
    (nbytes + 15) / 16 + 1
  }

  /** sbrk's parameter is an int: what a byte count becomes. */
  function ToInt(n: nat): int {
    var w := n % 0x1_0000_0000;
    if w < 0x8000_0000 then w else w - 0x1_0000_0000
  }

  /** The request for nu headers reaches sbrk unchanged exactly when it is below 2^27. */
  lemma RequestExact(nu: nat)
    ensures ToInt(16 * nu) == 16 * nu <==> nu < 0x800_0000
  {
  }

  /** A request for 2^31 bytes asks sbrk to take memory away. */
  lemma RequestShrinks()
    ensures ToInt(16 * Units(0x8000_0000)) == -0x7fff_fff0
  {
  }

  /** Broken: sbrk was asked for fewer bytes than the block that morecore then sets up. */
  datatype Result = Null | Got(p: nat) | Broken

  /** Blocks of the ring above p. */
  ghost function Above(ring: set<nat>, p: nat): set<nat> { set x | x in ring && x > p }

  class Heap {
    const base: nat
    var mem: Mem
    var freep: nat
    var brk: nat
    ghost var ring: set<nat>
    ghost var alloc: set<nat>
    ghost var cell: map<nat, nat>

    ghost predicate Valid()
      reads this
    {
      && 0 < base < brk
      && (freep == 0 ==> ring == {} && alloc == {})
      && (freep != 0 ==> RingOk(mem, ring, base) && Coalesced(mem, ring) && freep in ring)
      && ring !! alloc && CellsOk(mem, ring - {base} + alloc, cell)
      && (forall u :: u in cell ==> base < u < brk)
    }

    /** A program that has just started: base is below the heap. */
    constructor (base: nat, brk: nat)
      requires 0 < base < brk
      ensures Valid() && freep == 0 && alloc == {} && cell == map[] && this.base == base && this.brk == brk
    {
      this.base, this.brk, this.freep := base, brk, 0;
      mem, ring, alloc, cell := map[], {}, {}, map[];
    }

    /** Where free's loop stops. */
    method FindGap(b: nat) returns (p: nat)
      requires Valid() && b in alloc
      ensures Gap(mem, ring, base, p, b) && base <= p && mem[p].ptr in mem
    {
      Allocated(mem, ring, base, alloc, cell, b);
      p := freep;
      assert Node(mem, ring, base, p);
      while !(b > p && b < mem[p].ptr)
        invariant p in ring && Node(mem, ring, base, p)
        decreases if p > b then 1 else 0, Above(ring, p)
      {
        assert Pair(mem, base, p, p);
        if p >= mem[p].ptr && (b > p || b < mem[p].ptr) {
          break;
        }
        assert p < mem[p].ptr ==> mem[p].ptr in Above(ring, p);
        p := mem[p].ptr;
        assert Node(mem, ring, base, p);
      }
      Placed(mem, ring, base, alloc, cell, p, b);
      assert Node(mem, ring, base, mem[p].ptr);
    }

    /** free: the block joins the free list, merged with the blocks it touches. */
    method Free(b: nat)
      requires Valid() && b in alloc
      modifies `mem, `freep, `ring, `alloc, `cell
      ensures Valid() && freep != 0 && alloc == old(alloc) - {b} && cell.Keys == old(cell).Keys
      ensures forall a :: a in alloc ==> a in mem && a in old(mem) && mem[a] == old(mem)[a]
      ensures exists x :: x in ring && x in mem && b in old(mem) && mem[x].size >= old(mem)[b].size
    {
      hide RingOk, Coalesced, CellsOk, SettledRing, SettledCells, TouchesPrev;
      var p := FindGap(b);
      SettledRingOk(mem, ring, base, p, b);
      SettledCoalesced(mem, ring, base, p, b);
      SettledCellsOk(mem, ring, base, alloc, cell, p, b);
      Undisturbed(mem, ring, base, alloc, cell, p, b);
      ring, cell, alloc := SettledRing(mem, ring, p, b), SettledCells(mem, cell, p, b), alloc - {b};
      Settle(p, b);
      freep := p;
      assert forall u :: u in cell ==> u in old(cell).Keys;
    }

    /** free's writes once the place is found. */
    method Settle(p: nat, b: nat)
      requires p in mem && b in mem && mem[p].ptr in mem
      modifies `mem
      ensures mem == Settled(old(mem), p, b)
    {
      var nxt := mem[p].ptr;
      if b + mem[b].size == nxt {
        mem := mem[b := Header(mem[nxt].ptr, mem[b].size + mem[nxt].size)];
      } else {
        mem := mem[b := mem[b].(ptr := nxt)];
      }
      if p + mem[p].size == b {
        mem := mem[p := Header(mem[b].ptr, mem[p].size + mem[b].size)];
      } else {
        mem := mem[p := mem[p].(ptr := b)];
      }
    }

    /** morecore: a new block of at least MINCORE units from sbrk joins the free list.  granted and at are
        sbrk's answer: whether there is memory, and where, beyond what other callers of sbrk have taken.
        Null when sbrk fails; Broken when the byte count does not fit sbrk's int, so that the call may even
        shrink the process. */
    method MoreCore(nu: nat, granted: bool, at: nat) returns (r: Result)
      requires Valid() && freep != 0 && nu > 0 && brk <= at
      modifies `mem, `freep, `brk, `ring, `alloc, `cell
      ensures r.Broken? <==> Core(nu) >= 0x800_0000
      ensures r.Null? <==> Core(nu) < 0x800_0000 && !granted
      ensures r.Null? ==>
              && mem == old(mem) && freep == old(freep) && brk == old(brk)
              && ring == old(ring) && alloc == old(alloc) && cell == old(cell)
      ensures r.Got? ==>
              && Valid() && r.p == freep && freep != 0 && alloc == old(alloc)
              && brk == at + Core(nu) && KeysGrow(old(cell), cell, at, Core(nu))
              && SameHeaders(old(mem), mem, alloc)
              && (exists x :: x in ring && x in mem && mem[x].size >= nu)
    {
      hide RingOk, Coalesced, CellsOk;
      var n := if nu < MINCORE then MINCORE else nu;
      if ToInt(16 * n) != 16 * n {
        RequestExact(n);
        return Broken;
      }
      RequestExact(n);
      if !granted {
        return Null;
      }
      NewCore(mem, ring, base, alloc, cell, at, n);
      mem := mem[at := Header(0, n)];
      brk := at + n;
      alloc := alloc + {at};
      cell := Extended(cell, at, n);
      Free(at);
      assert alloc == old(alloc);
      r := Got(freep);
    }

    /** malloc takes all of a block that fits exactly, or the end of a bigger one. */
    method Take(prev: nat, p: nat, n: nat) returns (q: nat)
      requires Valid() && freep != 0 && prev in ring && prev in mem && mem[prev].ptr == p && p in mem
      requires mem[p].size >= n > 0
      modifies `mem, `freep, `ring, `alloc, `cell
      ensures Valid() && freep != 0 && q !in old(alloc) && alloc == old(alloc) + {q} && cell.Keys == old(cell).Keys
      ensures q in mem && mem[q].size == n && SameHeaders(old(mem), mem, old(alloc))
    {
      hide RingOk, Coalesced, CellsOk;
      TakenFrom(mem, ring, base, alloc, cell, prev, n);
      if mem[p].size == n {
        TakeAll(mem, ring, base, alloc, cell, prev);
        q := p;
        mem := mem[prev := mem[prev].(ptr := mem[p].ptr)];
        ring, alloc := ring - {p}, alloc + {p};
      } else {
        TakeEnd(mem, ring, base, alloc, cell, p, n);
        var rest: nat := mem[p].size - n;
        q := p + rest;
        mem := mem[p := mem[p].(size := rest)][q := Header(0, n)];
        alloc, cell := alloc + {q}, Carved(cell, q, n);
        assert forall u :: u in cell ==> u in old(cell).Keys;
      }
      freep := prev;
    }

    /** The first call makes a ring of base alone. */
    method Start()
      requires Valid()
      modifies `mem, `freep, `ring
      ensures Valid() && freep != 0 && SameHeaders(old(mem), mem, alloc)
      ensures old(freep) != 0 ==> mem == old(mem) && freep == old(freep) && ring == old(ring)
      ensures old(freep) == 0 ==> old(ring) == {} && ring == {base} && base in mem && mem[base].size == 0
    {
      if freep == 0 {
        mem := mem[base := Header(base, 0)];
        freep, ring := base, {base};
        assert Node(mem, ring, base, base) && Pair(mem, base, base, base);
        assert old(ring) - {base} + alloc == {} && ring - {base} + alloc == {};
        SameSizes(old(mem), mem, {}, cell);
      } else {
        AllKnown(mem, ring - {base} + alloc, cell, alloc);
      }
    }

    /** malloc: a block of the right size that was free, or null when no free block is big enough and
        sbrk fails.  Other allocated blocks keep their units, and the heap grows by at most one call of
        morecore. */
    method Malloc(nbytes: nat, granted: bool, at: nat) returns (r: Result)
      requires Valid() && nbytes < 0x1_0000_0000 && brk <= at
      modifies this
      ensures r.Broken? <==> Units(nbytes) >= 0x800_0000 && NoneFits(old(mem), old(ring), Units(nbytes))
      ensures r.Null? <==>
              && Units(nbytes) < 0x800_0000 && NoneFits(old(mem), old(ring), Units(nbytes))
              && !granted
      ensures !r.Broken? ==> Valid() && SameHeaders(old(mem), mem, old(alloc))
      ensures r.Got? ==>
              && r.p > 0 && r.p - 1 !in old(alloc) && alloc == old(alloc) + {r.p - 1}
              && r.p - 1 in mem && mem[r.p - 1].size == Units(nbytes)
              && if brk == old(brk) then cell.Keys == old(cell).Keys
                 else && brk == at + Core(Units(nbytes))
                      && KeysGrow(old(cell), cell, at, Core(Units(nbytes)))
      ensures r.Got? ==> (brk == old(brk) <==> !NoneFits(old(mem), old(ring), Units(nbytes)))
      ensures r.Null? ==>
              && alloc == old(alloc) && cell.Keys == old(cell).Keys && brk == old(brk)
    {
      hide RingOk, Coalesced, CellsOk, NoneFits, Visited, KeysGrow, SameHeaders;
      var n := Units(nbytes);
      Start();
      ghost var mem1, ring1 := mem, ring;
      StartFits(old(mem), old(ring), mem, ring, base, old(freep), n);
      var prev := freep;
      FirstStep(mem, ring, base, freep, n);
      var p := mem[prev].ptr;
      ghost var grown := false;
      while true
        invariant Valid() && freep != 0 && prev in ring && prev in mem && mem[prev].ptr == p && p in ring && p in mem
        invariant alloc == old(alloc) && SameHeaders(old(mem), mem, alloc)
        invariant if grown then
                    && brk == at + Core(n) && KeysGrow(old(cell), cell, at, Core(n))
                    && !NoneFits(mem, ring, n)
                  else brk == old(brk) && cell.Keys == old(cell).Keys && mem == mem1 && ring == ring1
        invariant grown ==> NoneFits(mem1, ring1, n) && Core(n) < 0x800_0000 && granted
        invariant Visited(mem, ring, freep, p, n)
        decreases if grown then 0 else 1, if p <= freep then 0 else 1, Above(ring, p)
      {
        if mem[p].size >= n {
          OneFits(mem, ring, p, n);
          ghost var mem2, cell2 := mem, cell;
          var q := Take(prev, p, n);
          HeadersTrans(old(mem), mem2, mem, old(alloc));
          if grown { KeysTo(old(cell), cell2, cell, at, Core(n)); }
          return Got(q + 1);
        }
        if p == freep {
          Around(mem, ring, base, freep, n);
          assert !grown;
          ghost var mem2, cell2 := mem, cell;
          var c := MoreCore(n, granted, at);
          if c.Broken? { return Broken; }
          if c.Null? { return Null; }
          HeadersTrans(old(mem), mem2, mem, alloc);
          KeysFrom(old(cell), cell2, cell, at, Core(n));
          ghost var x :| x in ring && x in mem && mem[x].size >= n;
          OneFits(mem, ring, x, n);
          p := c.p;
          grown := true;
          FirstStep(mem, ring, base, freep, n);
        } else {
          Onward(mem, ring, base, freep, p, n);
        }
        prev := p;
        p := mem[p].ptr;
      }
    }
  }

  lemma HeadersTrans(mem0: Mem, mem1: Mem, mem2: Mem, alloc: set<nat>)
    requires SameHeaders(mem0, mem1, alloc) && SameHeaders(mem1, mem2, alloc)
    ensures SameHeaders(mem0, mem2, alloc)
  {
  }

  lemma KeysTo(cell0: map<nat, nat>, cell1: map<nat, nat>, cell2: map<nat, nat>, a: nat, n: nat)
    requires KeysGrow(cell0, cell1, a, n) && cell2.Keys == cell1.Keys
    ensures KeysGrow(cell0, cell2, a, n)
  {
  }

  lemma KeysFrom(cell0: map<nat, nat>, cell1: map<nat, nat>, cell2: map<nat, nat>, a: nat, n: nat)
    requires cell1.Keys == cell0.Keys && KeysGrow(cell1, cell2, a, n)
    ensures KeysGrow(cell0, cell2, a, n)
  {
  }

  lemma OneFits(mem: Mem, ring: set<nat>, x: nat, n: nat)
    requires x in ring && x in mem && mem[x].size >= n
    ensures !NoneFits(mem, ring, n)
  {
  }

  /** No free block has n units. */
  ghost predicate NoneFits(mem: Mem, ring: set<nat>, n: nat) {
    forall x :: x in ring ==> x in mem && mem[x].size < n
  }

  /** Setting up base brings no block that fits. */
  lemma StartFits(mem: Mem, ring: set<nat>, mem1: Mem, ring1: set<nat>, base: nat, freep: nat, n: nat)
    requires n > 0
    requires freep != 0 ==> mem1 == mem && ring1 == ring
    requires freep == 0 ==> ring == {} && ring1 == {base} && base in mem1 && mem1[base].size == 0
    ensures NoneFits(mem1, ring1, n) <==> NoneFits(mem, ring, n)
  {
  }

  /** x lies strictly after f and before p, going round the ring from f. */
  predicate InArc(f: nat, p: nat, x: nat) { if f < p then f < x < p else x > f || x < p }

  /** The blocks the scan has passed are too small. */
  ghost predicate Visited(mem: Mem, ring: set<nat>, f: nat, p: nat, n: nat) {
    forall x :: x in ring && x in mem && InArc(f, p, x) ==> mem[x].size < n
  }

  lemma AllKnown(mem: Mem, blocks: set<nat>, cell: map<nat, nat>, alloc: set<nat>)
    requires CellsOk(mem, blocks, cell) && alloc <= blocks
    ensures SameHeaders(mem, mem, alloc)
  {
    forall a | a in alloc
      ensures a in mem
    {
      assert Owns(mem, cell, a);
    }
  }

  lemma FirstStep(mem: Mem, ring: set<nat>, base: nat, f: nat, n: nat)
    requires RingOk(mem, ring, base) && f in ring
    ensures f in mem && mem[f].ptr in ring && mem[f].ptr in mem && Visited(mem, ring, f, mem[f].ptr, n)
  {
    assert Node(mem, ring, base, f) && Node(mem, ring, base, mem[f].ptr);
    forall x | x in ring
      ensures !InArc(f, mem[f].ptr, x)
    {
      assert Pair(mem, base, f, x) && Node(mem, ring, base, x);
    }
  }

  /** One step round the ring passes one block, and comes nearer to f. */
  lemma Onward(mem: Mem, ring: set<nat>, base: nat, f: nat, p: nat, n: nat)
    requires RingOk(mem, ring, base) && f in ring && p in ring && p != f && p in mem && mem[p].size < n
    requires Visited(mem, ring, f, p, n)
    ensures mem[p].ptr in ring && mem[p].ptr in mem && Visited(mem, ring, f, mem[p].ptr, n)
    ensures p < mem[p].ptr ==> Above(ring, mem[p].ptr) < Above(ring, p) && (p <= f ==> mem[p].ptr <= f)
    ensures mem[p].ptr <= p ==> f < p && mem[p].ptr <= f
  {
    var c := mem[p].ptr;
    assert Node(mem, ring, base, p) && Node(mem, ring, base, c) && Pair(mem, base, p, f) && Node(mem, ring, base, f);
    forall x | x in ring && x in mem && InArc(f, c, x)
      ensures mem[x].size < n
    {
      assert Pair(mem, base, p, x) && Node(mem, ring, base, x);
    }
    if p < c { assert c in Above(ring, p); }
  }

  /** Once the scan is back at f it has seen every block. */
  lemma Around(mem: Mem, ring: set<nat>, base: nat, f: nat, n: nat)
    requires RingOk(mem, ring, base) && f in ring && f in mem && mem[f].size < n && Visited(mem, ring, f, f, n)
    ensures NoneFits(mem, ring, n)
  {
    forall x | x in ring
      ensures x in mem && mem[x].size < n
    {
      assert Node(mem, ring, base, x);
    }
  }

  function Core(nu: nat): nat { if nu < MINCORE then MINCORE else nu }

  ghost predicate KeysGrow(cell: map<nat, nat>, cell': map<nat, nat>, a: nat, n: nat) {
    forall u :: u in cell' <==> u in cell || a <= u < a + n
  }

  ghost predicate SameHeaders(mem: Mem, mem': Mem, alloc: set<nat>) {
    forall a :: a in alloc ==> a in mem && a in mem' && mem'[a].size == mem[a].size
  }

  lemma NewCore(mem: Mem, ring: set<nat>, base: nat, alloc: set<nat>, cell: map<nat, nat>, a: nat, n: nat)
    requires RingOk(mem, ring, base) && Coalesced(mem, ring) && ring !! alloc && base < a && 0 < n
    requires CellsOk(mem, ring - {base} + alloc, cell) && forall u :: u in cell ==> base < u < a
    ensures var mem' := mem[a := Header(0, n)];
            && a !in ring && a !in alloc && RingOk(mem', ring, base) && Coalesced(mem', ring)
            && CellsOk(mem', ring - {base} + (alloc + {a}), Extended(cell, a, n))
            && SameHeaders(mem, mem', alloc)
  {
    ExtendCells(mem, ring - {base} + alloc, cell, a, n, 0);
    assert ring - {base} + alloc + {a} == ring - {base} + (alloc + {a});
    OffRing(mem, ring, base, a, Header(0, n));
    forall x | x in alloc
      ensures x in mem
    {
      assert Owns(mem, cell, x);
    }
  }

  /** A block with room is not base, and is the one after prev. */
  lemma TakenFrom(mem: Mem, ring: set<nat>, base: nat, alloc: set<nat>, cell: map<nat, nat>, prev: nat, n: nat)
    requires RingOk(mem, ring, base) && prev in ring && prev in mem && mem[prev].ptr in mem
    requires mem[mem[prev].ptr].size >= n > 0 && 0 < base
    ensures mem[prev].ptr in ring && mem[prev].ptr != base && prev < mem[prev].ptr && prev != 0
  {
    assert Node(mem, ring, base, prev) && Node(mem, ring, base, mem[prev].ptr) && Pair(mem, base, prev, prev);
  }

  lemma TakeAll(mem: Mem, ring: set<nat>, base: nat, alloc: set<nat>, cell: map<nat, nat>, prev: nat)
    requires RingOk(mem, ring, base) && Coalesced(mem, ring) && ring !! alloc
    requires CellsOk(mem, ring - {base} + alloc, cell)
    requires prev in ring && prev in mem && mem[prev].ptr in ring && mem[prev].ptr != base
    ensures var p := mem[prev].ptr;
            p in mem && p !in alloc &&
            (var mem' := mem[prev := mem[prev].(ptr := mem[p].ptr)];
             && RingOk(mem', ring - {p}, base) && Coalesced(mem', ring - {p})
             && CellsOk(mem', ring - {p} - {base} + (alloc + {p}), cell) && SameHeaders(mem, mem', alloc))
  {
    var p := mem[prev].ptr;
    RemoveRing(mem, ring, base, prev);
    var mem' := mem[prev := mem[prev].(ptr := mem[p].ptr)];
    SameSizes(mem, mem', ring - {base} + alloc, cell);
    assert ring - {p} - {base} + (alloc + {p}) == ring - {base} + alloc;
    forall x | x in alloc
      ensures x in mem
    {
      assert Owns(mem, cell, x);
    }
    hide RingOk, CellsOk;
  }

  lemma TakeEnd(mem: Mem, ring: set<nat>, base: nat, alloc: set<nat>, cell: map<nat, nat>, p: nat, n: nat)
    requires RingOk(mem, ring, base) && Coalesced(mem, ring) && ring !! alloc
    requires CellsOk(mem, ring - {base} + alloc, cell)
    requires p in ring && p in mem && p != base && 0 < n < mem[p].size
    ensures var rest: nat := mem[p].size - n;
            var mem' := mem[p := mem[p].(size := rest)][p + rest := Header(0, n)];
            && p + rest !in ring && p + rest !in alloc
            && RingOk(mem', ring, base) && Coalesced(mem', ring)
            && CellsOk(mem', ring - {base} + (alloc + {p + rest}), Carved(cell, p + rest, n))
            && SameHeaders(mem, mem', alloc)
  {
    var rest: nat := mem[p].size - n;
    var q := p + rest;
    assert Node(mem, ring, base, p);
    CarveCells(mem, ring - {base} + alloc, cell, p, n, 0);
    assert ring - {base} + alloc + {q} == ring - {base} + (alloc + {q});
    ShrinkRing(mem, ring, base, p, rest);
    var mem1 := mem[p := mem[p].(size := rest)];
    assert Coalesced(mem1, ring);
    OffRing(mem1, ring, base, q, Header(0, n));
  }

  lemma Allocated(mem: Mem, ring: set<nat>, base: nat, alloc: set<nat>, cell: map<nat, nat>, b: nat)
    requires ring !! alloc && b in alloc && CellsOk(mem, ring - {base} + alloc, cell) && forall u :: u in cell ==> base < u
    ensures b in mem && mem[b].size > 0 && b !in ring && b > base && b in cell
  {
    assert Owns(mem, cell, b);
    assert b in cell;
  }

  /** An allocated block between two neighbours of the ring overlaps neither. */
  lemma Placed(mem: Mem, ring: set<nat>, base: nat, alloc: set<nat>, cell: map<nat, nat>, p: nat, b: nat)
    requires RingOk(mem, ring, base) && Coalesced(mem, ring) && p in ring && ring !! alloc && b in alloc
    requires CellsOk(mem, ring - {base} + alloc, cell) && forall u :: u in cell ==> base < u
    requires p in mem && p < b && (mem[p].ptr <= p || b < mem[p].ptr)
    ensures Gap(mem, ring, base, p, b)
  {
    Allocated(mem, ring, base, alloc, cell, b);
    assert Node(mem, ring, base, p);
    if p != base { Apart(mem, ring - {base} + alloc, cell, p, b); }
    if p < mem[p].ptr { Apart(mem, ring - {base} + alloc, cell, b, mem[p].ptr); }
  }

  /** free changes no other allocated block, and leaves a free block at least as big as b. */
  lemma Undisturbed(mem: Mem, ring: set<nat>, base: nat, alloc: set<nat>, cell: map<nat, nat>, p: nat, b: nat)
    requires Gap(mem, ring, base, p, b) && ring !! alloc && b in alloc
    requires CellsOk(mem, ring - {base} + alloc, cell)
    ensures mem[p].ptr in mem && SettledRing(mem, ring, p, b) !! alloc - {b}
    ensures forall a :: a in alloc && a != b ==> a in mem && a in Settled(mem, p, b) && Settled(mem, p, b)[a] == mem[a]
    ensures var x := if TouchesPrev(mem, p, b) then p else b;
            x in SettledRing(mem, ring, p, b) && x in Settled(mem, p, b) && Settled(mem, p, b)[x].size >= mem[b].size
  {
    assert Node(mem, ring, base, p) && Node(mem, ring, base, mem[p].ptr) && Pair(mem, base, p, p);
    forall a | a in alloc && a != b
      ensures a in mem && a in Settled(mem, p, b) && Settled(mem, p, b)[a] == mem[a]
    {
      assert Owns(mem, cell, a);
    }
  }

  /** So malloc(2^31), the first call of a program, goes wrong whatever sbrk answers. */
  method FirstTooBig(granted: bool) returns (r: Result)
    ensures r == Broken
  {
    var h := new Heap(1, 2);
    r := h.Malloc(0x8000_0000, granted, 2);
  }
}
