/** Every unit of the heap is in exactly one block, free or allocated (user/umalloc.c). */
module HeapCells {
  import opened HeapRing

  /** Every unit of block b says it is in b. */
  ghost predicate Owns(mem: Mem, cell: map<nat, nat>, b: nat) {
    b in mem && mem[b].size > 0 && forall u: nat :: b <= u < b + mem[b].size ==> u in cell && cell[u] == b
  }

  /** The unit u is inside the block it says it is in. */
  ghost predicate Inside(mem: Mem, blocks: set<nat>, cell: map<nat, nat>, u: nat) {
    u in cell && cell[u] in blocks && cell[u] in mem && cell[u] <= u < cell[u] + mem[cell[u]].size
  }

  ghost predicate CellsOk(mem: Mem, blocks: set<nat>, cell: map<nat, nat>) {
    && (forall b {:trigger Owns(mem, cell, b)} :: b in blocks ==> Owns(mem, cell, b))
    && (forall u {:trigger Inside(mem, blocks, cell, u)} :: u in cell ==> Inside(mem, blocks, cell, u))
  }

  /** Blocks do not overlap. */
  lemma Apart(mem: Mem, blocks: set<nat>, cell: map<nat, nat>, b: nat, c: nat)
    requires CellsOk(mem, blocks, cell) && b in blocks && c in blocks && b < c
    ensures b in mem && c in mem && b + mem[b].size <= c
  {
    assert Owns(mem, cell, b) && Owns(mem, cell, c);
    assert c in cell && cell[c] == c;
  }

  lemma SameSizes(mem: Mem, mem': Mem, blocks: set<nat>, cell: map<nat, nat>)
    requires CellsOk(mem, blocks, cell)
    requires forall b :: b in blocks && b in mem ==> b in mem' && mem'[b].size == mem[b].size
    ensures CellsOk(mem', blocks, cell)
  {
    forall b | b in blocks
      ensures Owns(mem', cell, b)
    {
      assert Owns(mem, cell, b);
    }
    forall u | u in cell
      ensures Inside(mem', blocks, cell, u)
    {
      assert Inside(mem, blocks, cell, u);
    }
  }

  /** The units of block c become units of block b. */
  function Recell(cell: map<nat, nat>, c: nat, b: nat): map<nat, nat> {
    map u | u in cell :: if cell[u] == c then b else cell[u]
  }

  lemma JoinCells(mem: Mem, blocks: set<nat>, cell: map<nat, nat>, b: nat)
    requires CellsOk(mem, blocks, cell) && b in blocks && b in mem && mem[b].ptr in blocks
    requires b + mem[b].size == mem[b].ptr && mem[b].ptr in mem && mem[b].ptr > b
    ensures CellsOk(Joined(mem, b), blocks - {mem[b].ptr}, Recell(cell, mem[b].ptr, b))
  {
    var c := mem[b].ptr;
    var mem', cell' := Joined(mem, b), Recell(cell, c, b);
    assert Owns(mem, cell, b) && Owns(mem, cell, c);
    forall x | x in blocks - {c}
      ensures Owns(mem', cell', x)
    {
      assert Owns(mem, cell, x);
    }
    forall u | u in cell'
      ensures Inside(mem', blocks - {c}, cell', u)
    {
      assert Inside(mem, blocks, cell, u);
    }
  }

  /** The last n units of block p become a block of their own. */
  function Carved(cell: map<nat, nat>, q: nat, n: nat): map<nat, nat> {
    map u | u in cell :: if q <= u < q + n then q else cell[u]
  }

  lemma CarveCells(mem: Mem, blocks: set<nat>, cell: map<nat, nat>, p: nat, n: nat, ptr: nat)
    requires CellsOk(mem, blocks, cell) && p in blocks && p in mem && 0 < n < mem[p].size
    ensures var rest: nat := mem[p].size - n;
            var mem' := mem[p := mem[p].(size := rest)][p + rest := Header(ptr, n)];
            && p + rest !in blocks && CellsOk(mem', blocks + {p + rest}, Carved(cell, p + rest, n))
            && (forall b :: b in blocks && b != p ==> b in mem && b in mem' && mem'[b] == mem[b])
  {
    var rest: nat := mem[p].size - n;
    var q := p + rest;
    var mem' := mem[p := mem[p].(size := rest)][q := Header(ptr, n)];
    var cell' := Carved(cell, q, n);
    assert Owns(mem, cell, p);
    if q in blocks { Apart(mem, blocks, cell, p, q); }
    forall b | b in blocks + {q}
      ensures Owns(mem', cell', b)
    {
      if b != q { assert Owns(mem, cell, b); }
    }
    forall u | u in cell'
      ensures Inside(mem', blocks + {q}, cell', u)
    {
      assert Inside(mem, blocks, cell, u);
    }
    forall b | b in blocks && b != p
      ensures b in mem && b in mem' && mem'[b] == mem[b]
    {
      assert Owns(mem, cell, b);
    }
  }

  /** New units above all others become a block. */
  function Extended(cell: map<nat, nat>, a: nat, n: nat): (r: map<nat, nat>)
    ensures forall u :: u in r <==> u in cell || a <= u < a + n
    ensures forall u :: u in r ==> r[u] == if a <= u < a + n then a else cell[u]
  {
    if n == 0 then cell else Extended(cell, a, n - 1)[a + n - 1 := a]
  }

  lemma ExtendCells(mem: Mem, blocks: set<nat>, cell: map<nat, nat>, a: nat, n: nat, ptr: nat)
    requires CellsOk(mem, blocks, cell) && 0 < n && forall u :: u in cell ==> u < a
    ensures CellsOk(mem[a := Header(ptr, n)], blocks + {a}, Extended(cell, a, n)) && a !in blocks
  {
    var mem', cell' := mem[a := Header(ptr, n)], Extended(cell, a, n);
    assert a in blocks ==> Owns(mem, cell, a) && a in cell;
    forall b | b in blocks + {a}
      ensures Owns(mem', cell', b)
    {
      if b != a {
        assert Owns(mem, cell, b);
        forall u: nat | b <= u < b + mem[b].size
          ensures u in cell' && cell'[u] == b
        {
          assert u in cell;
        }
      }
    }
    forall u | u in cell'
      ensures Inside(mem', blocks + {a}, cell', u)
    {
      if u in cell { assert Inside(mem, blocks, cell, u); }
    }
  }

  // ---- What free does with a block once it has found its place after p ----

  /** free's writes. */
  function Settled(mem: Mem, p: nat, b: nat): Mem
    requires p in mem && b in mem && mem[p].ptr in mem
  {
    var nxt := mem[p].ptr;
    var mem1 := if b + mem[b].size == nxt then mem[b := Header(mem[nxt].ptr, mem[b].size + mem[nxt].size)]
                else mem[b := mem[b].(ptr := nxt)];
    if p + mem1[p].size == b then mem1[p := Header(mem1[b].ptr, mem1[p].size + mem1[b].size)]
    else mem1[p := mem1[p].(ptr := b)]
  }

  predicate TouchesNext(mem: Mem, p: nat, b: nat)
    requires p in mem && b in mem
  {
    b + mem[b].size == mem[p].ptr
  }

  predicate TouchesPrev(mem: Mem, p: nat, b: nat)
    requires p in mem && b in mem
  {
    p + mem[p].size == b
  }

  function SettledRing(mem: Mem, ring: set<nat>, p: nat, b: nat): set<nat>
    requires p in mem && b in mem
  {
    ring + {b} - (if TouchesNext(mem, p, b) then {mem[p].ptr} else {}) - (if TouchesPrev(mem, p, b) then {b} else {})
  }

  function SettledCells(mem: Mem, cell: map<nat, nat>, p: nat, b: nat): map<nat, nat>
    requires p in mem && b in mem
  {
    var cell1 := if TouchesNext(mem, p, b) then Recell(cell, mem[p].ptr, b) else cell;
    if TouchesPrev(mem, p, b) then Recell(cell1, b, p) else cell1
  }

  /** The block b, not free, lies between p and the next block of the ring. */
  ghost predicate Gap(mem: Mem, ring: set<nat>, base: nat, p: nat, b: nat) {
    && RingOk(mem, ring, base) && Coalesced(mem, ring) && p in ring && p in mem
    && b in mem && mem[b].size > 0 && b !in ring && p < b && (mem[p].ptr <= p || b < mem[p].ptr)
    && p + mem[p].size <= b && (p < mem[p].ptr ==> b + mem[b].size <= mem[p].ptr)
  }

  function Linked(mem: Mem, p: nat, b: nat): Mem
    requires p in mem && b in mem
  {
    mem[b := mem[b].(ptr := mem[p].ptr)][p := mem[p].(ptr := b)]
  }

  /** The writes amount to putting b in and joining it with the neighbours it touches. */
  lemma SettledSteps(mem: Mem, ring: set<nat>, base: nat, p: nat, b: nat)
    requires Gap(mem, ring, base, p, b)
    ensures mem[p].ptr in mem && mem[p].ptr != b
    ensures var mem1 := Linked(mem, p, b);
            var mem2 := if TouchesNext(mem, p, b) then Joined(mem1, b) else mem1;
            && (TouchesNext(mem, p, b) ==> p < mem[p].ptr)
            && Settled(mem, p, b) == if TouchesPrev(mem, p, b) then Joined(mem2, p) else mem2
  {
    assert Node(mem, ring, base, p) && Node(mem, ring, base, mem[p].ptr);
    assert Pair(mem, base, p, p);
  }

  lemma SettledRingOk(mem: Mem, ring: set<nat>, base: nat, p: nat, b: nat)
    requires Gap(mem, ring, base, p, b)
    ensures mem[p].ptr in mem && RingOk(Settled(mem, p, b), SettledRing(mem, ring, p, b), base)
    ensures p in SettledRing(mem, ring, p, b)
  {
    SettledSteps(mem, ring, base, p, b);
    InsertRing(mem, ring, base, p, b);
    var mem1, ring1 := Linked(mem, p, b), ring + {b};
    assert Node(mem, ring, base, p) && Node(mem, ring, base, mem[p].ptr);
    hide RingOk;
    if TouchesNext(mem, p, b) {
      JoinRing(mem1, ring1, base, b);
      var mem2, ring2 := Joined(mem1, b), ring1 - {mem[p].ptr};
      assert SettledRing(mem, ring, p, b) == if TouchesPrev(mem, p, b) then ring2 - {b} else ring2;
      if TouchesPrev(mem, p, b) { JoinRing(mem2, ring2, base, p); }
    } else if TouchesPrev(mem, p, b) {
      JoinRing(mem1, ring1, base, p);
      assert SettledRing(mem, ring, p, b) == ring1 - {b};
    } else {
      assert SettledRing(mem, ring, p, b) == ring1;
    }
  }

  lemma SettledCoalesced(mem: Mem, ring: set<nat>, base: nat, p: nat, b: nat)
    requires Gap(mem, ring, base, p, b)
    ensures mem[p].ptr in mem && Coalesced(Settled(mem, p, b), SettledRing(mem, ring, p, b))
  {
    assert Node(mem, ring, base, p) && Node(mem, ring, base, mem[p].ptr);
    var mem', ring' := Settled(mem, p, b), SettledRing(mem, ring, p, b);
    forall x, y | x in ring' && y in ring' && x < y && x in mem'
      ensures x + mem'[x].size < y
    {
      assert x != b ==> Pair(mem, base, p, x) && Node(mem, ring, base, x);
      assert y != b ==> Pair(mem, base, p, y);
      assert x != b && y != b ==> x + mem[x].size < y;
      var c := mem[p].ptr;
      assert y != b && c < y ==> c + mem[c].size < y;
      assert x != b && x < p ==> x + mem[x].size < p;
    }
  }

  lemma SettledCellsOk(mem: Mem, ring: set<nat>, base: nat, alloc: set<nat>, cell: map<nat, nat>, p: nat, b: nat)
    requires Gap(mem, ring, base, p, b) && b in alloc && ring !! alloc
    requires CellsOk(mem, ring - {base} + alloc, cell)
    ensures mem[p].ptr in mem
    ensures CellsOk(Settled(mem, p, b), SettledRing(mem, ring, p, b) - {base} + (alloc - {b}),
                    SettledCells(mem, cell, p, b))
    ensures SettledCells(mem, cell, p, b).Keys == cell.Keys
  {
    SettledSteps(mem, ring, base, p, b);
    assert Node(mem, ring, base, p) && Node(mem, ring, base, mem[p].ptr) && Pair(mem, base, p, p);
    var mem1, blocks := Linked(mem, p, b), ring - {base} + alloc;
    SameSizes(mem, mem1, blocks, cell);
    hide RingOk, CellsOk;
    var nxt := mem[p].ptr;
    var blocks2 := if TouchesNext(mem, p, b) then blocks - {nxt} else blocks;
    var mem2 := if TouchesNext(mem, p, b) then Joined(mem1, b) else mem1;
    var cell2 := if TouchesNext(mem, p, b) then Recell(cell, nxt, b) else cell;
    if TouchesNext(mem, p, b) { JoinCells(mem1, blocks, cell, b); }
    if TouchesPrev(mem, p, b) {
      JoinCells(mem2, blocks2, cell2, p);
      assert blocks2 - {b} == SettledRing(mem, ring, p, b) - {base} + (alloc - {b});
    } else {
      assert blocks2 == SettledRing(mem, ring, p, b) - {base} + (alloc - {b});
    }
  }
}
