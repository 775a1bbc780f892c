/** The physical page allocator and the page-table operations of the kernel (kernel/kalloc.c, kernel/vm.c). */
module Vm {
  import opened PageTree
  import opened PageRanges
  import opened PageCount
  import opened TreeFree

  class Memory {
    var mem: map<nat, seq<nat>>
    var free: seq<nat>
    ghost var use: map<nat, Use>

    ghost function W(): World
      reads this
    {
      World(mem, use)
    }

    ghost predicate Ok()
      reads this
    {
      Valid(W()) && FreeList(free, use)
    }

    /** kinit: freerange hands over the pages lo..hi-1 one by one. */
    constructor (lo: nat, hi: nat)
      requires 0 < lo <= hi
      ensures Ok()
      ensures forall p: nat :: p in use <==> lo <= p < hi
      ensures forall p :: p in use ==> use[p].Free?
    {
      mem, free, use := map[], [], map[];
      new;
      var p := lo;
      while p < hi
        invariant lo <= p <= hi && Ok()
        invariant forall q: nat :: q in use <==> lo <= q < p
        invariant forall q :: q in use ==> use[q].Free?
      {
        AddFree(W(), p);
        PushFree(free, use, p);
        mem := mem[p := Filled(FREED_WORD)];
        free := [p] + free;
        use := use[p := Free];
        p := p + 1;
      }
    }

    /** kalloc; 0 when no page is left. */
    method Kalloc() returns (p: nat)
      requires Ok()
      modifies this
      ensures Ok() && SameMaps(old(W()), W())
      ensures p == 0 <==> old(free) == []
      ensures p == 0 ==> W() == old(W()) && free == old(free)
      ensures p != 0 ==>
              && p == old(free)[0] && free == old(free)[1..]
              && p in old(use) && old(use)[p].Free?
              && W() == World(old(mem)[p := Filled(FRESH_WORD)], old(use)[p := Held])
    {
      if free == [] {
        return 0;
      }
      p := free[0];
      assert p in free;
      Rehold(W(), p, Held, Filled(FRESH_WORD));
      free := free[1..];
      mem := mem[p := Filled(FRESH_WORD)];
      use := use[p := Held];
    }

    /** kfree of a page nobody else uses; ok == false is the panic for pages outside managed memory. */
    method Kfree(p: nat) returns (ok: bool)
      requires Ok() && (p in use ==> use[p].Held?)
      modifies this
      ensures Ok() && SameMaps(old(W()), W())
      ensures ok <==> p in old(use)
      ensures !ok ==> W() == old(W()) && free == old(free)
      ensures ok ==>
              && free == [p] + old(free)
              && W() == World(old(mem)[p := Filled(FREED_WORD)], old(use)[p := Free])
    {
      ok := p in mem;
      if ok {
        Rehold(W(), p, Free, Filled(FREED_WORD));
        PushFree(free, use, p);
        mem := mem[p := Filled(FREED_WORD)];
        free := [p] + free;
        use := use[p := Free];
      }
    }

    /** uvmcreate: an empty tree; 0 when no page is left. */
    method UvmCreate() returns (root: nat)
      requires Ok()
      modifies this
      ensures Ok() && SameMaps(old(W()), W())
      ensures root == 0 <==> old(free) == []
      ensures root == 0 ==> W() == old(W())
      ensures root != 0 ==>
              && root in old(use) && old(use)[root].Free? && use == old(use)[root := Root]
              && MapsExactly(W(), root, 0)
    {
      root := Kalloc();
      if root != 0 {
        hide Valid, Lookup;
        NewRoot(W(), root, Filled(0));
        Retag(free, use, root, Root);
        mem := mem[root := Filled(0)];
        use := use[root := Root];
      }
    }

    /** walk puts a new, zeroed table into an empty slot; 0 when no page is left. */
    method NewTable(t: nat, k: nat) returns (c: nat)
      requires Ok() && t in use && (use[t].Root? || use[t].Mid?) && !IsValid(W().At(t, k))
      requires k < if use[t].Root? then 256 else ENTRIES
      modifies this
      ensures Ok() && SameMaps(old(W()), W()) && OnlyTables(old(W()), W())
      ensures c == 0 <==> old(free) == []
      ensures c == 0 ==> W() == old(W()) && free == old(free)
      ensures c != 0 ==>
              && c in old(use) && old(use)[c].Free?
              && t in old(mem) && |old(mem)[t]| == ENTRIES
              && W() == Linked(old(W()), t, k, c) && free == old(free)[1..]
    {
      hide Valid, Lookup, MakePte, SameMaps, OnlyTables, FreeList;
      ghost var w := W();
      Unchanged(w);
      c := Kalloc();
      if c != 0 {
        LinkFresh(w, t, k, c);
        Retag(free, use, c, Below(use[t], Slot(t, k)));
        mem := mem[c := Filled(0)];
        var row: seq<nat> := mem[t][k := MakePte(c, 0)];
        mem := mem[t := row];
        use := use[c := Below(use[t], Slot(t, k))];
        assert W() == Linked(w, t, k, c);
      }
    }

    /** walk: the slot for a virtual page, allocating tables on the way if asked to. */
    method Walk(root: nat, vpn: nat, alloc: bool) returns (r: Found)
      requires Ok() && IsRoot(W(), root)
      modifies this
      ensures Ok() && IsRoot(W(), root) && SameMaps(old(W()), W()) && OnlyTables(old(W()), W())
      ensures !alloc ==> W() == old(W()) && free == old(free)
      ensures r.Panics? <==> vpn >= MAXVPN
      ensures r.Entry? ==> Reaches(W(), root, vpn) && r.slot == Slot(LowTable(W(), root, vpn), Px(0, vpn))
      ensures r.Missing? ==> !Reaches(old(W()), root, vpn) && (alloc ==> free == [])
      ensures !r.Panics? && !alloc ==> (r.Entry? <==> Reaches(W(), root, vpn))
      ensures !r.Panics? && alloc ==> (r.Entry? <==> |old(free)| >= Lacks(old(W()), root, vpn))
      ensures r.Entry? && alloc ==>
              |free| == |old(free)| - Lacks(old(W()), root, vpn) && Added(old(W()), W(), root, vpn, 0)
    {
      hide Valid, Px, MakePte, Lookup, SameMaps, OnlyTables, FreeList, Linked, Added;
      ghost var w0 := W();
      Unchanged(w0);
      AddedNone(w0, root, vpn);
      if vpn >= MAXVPN {
        return Panics;
      }
      var t, level := root, 2;
      while level > 0
        invariant 0 <= level <= 2 && Ok() && IsRoot(W(), root)
        invariant WalkAt(W(), root, vpn, level, t)
        invariant SameMaps(w0, W()) && OnlyTables(w0, W())
        invariant !alloc ==> free == old(free)
        invariant !alloc || Reaches(w0, root, vpn) ==> W() == w0
        invariant alloc ==> |old(free)| + Lacks(W(), root, vpn) == |free| + Lacks(w0, root, vpn)
        invariant alloc ==> Added(w0, W(), root, vpn, level)
      {
        ghost var w := W();
        WalkTable(w, root, vpn, level, t);
        var e := mem[t][Px(level, vpn)];
        if IsValid(e) {
          if alloc { FoundTable(w0, w, root, vpn, level, t); }
          t := Ppn(e);
        } else {
          if !alloc {
            return Missing;
          }
          var c := NewTable(t, Px(level, vpn));
          if c == 0 {
            assert Lacks(w, root, vpn) > 0;
            return Missing;
          }
          MadeTable(w0, w, root, vpn, level, t, c);
          OnlyTablesTwice(w0, w, W());
          LinkReaches(w, root, vpn, level, t, c);
          StaysRoot(w, W(), root);
          t := c;
        }
        level := level - 1;
      }
      r := Entry(Slot(t, Px(0, vpn)));
    }

    /** One turn of mappages's loop. */
    method MapPage(root: nat, vpn: nat, ppn: nat, perm: nat, ghost own: bool) returns (r: Mapped)
      requires Ok() && IsRoot(W(), root) && perm < 1024 && IsLeaf(perm)
      requires own ==> ppn in use && use[ppn].Held?
      modifies this
      ensures Ok() && IsRoot(W(), root)
      ensures r.Remap? <==> vpn >= MAXVPN || Lookup(old(W()), root, vpn) != 0
      ensures r.NoMemory? ==> free == [] && |old(free)| < Lacks(old(W()), root, vpn)
      ensures r.Done? ==> |free| == |old(free)| - Lacks(old(W()), root, vpn) && Added(old(W()), W(), root, vpn, 0)
      ensures !r.Done? ==> SameMaps(old(W()), W()) && OnlyTables(old(W()), W())
      ensures r.Done? ==>
              && MapsBut(old(W()), W(), root, vpn, MakePte(ppn, perm))
              && HandedOver(old(W()), W(), ppn, if own then 1 else 0)
              && (own ==> Owned(W(), root, vpn))
    {
      hide Valid, Lookup, MakePte, SameMaps, OnlyTables, MapsBut, HandedOver, FreeList, Px, Owned;
      ghost var w0 := W();
      var f := Walk(root, vpn, true);
      if f.Panics? {
        return Remap;
      }
      LookupSame(w0, W(), root, vpn);
      if f.Missing? {
        return NoMemory;
      }
      ghost var w := W();
      var Slot(t, k) := f.slot;
      ReachedEntry(w, root, vpn);
      if IsValid(mem[t][k]) {
        return Remap;
      }
      FillSlot(w0, w, root, vpn, MakePte(ppn, perm), own);
      AddedLeaf(w0, w, root, vpn, MakePte(ppn, perm), own);
      if own { HeldSame(w0, w, ppn); Retag(free, use, ppn, Data(f.slot)); }
      var row: seq<nat> := mem[t][k := MakePte(ppn, perm)];
      mem := mem[t := row];
      use := if own then use[ppn := Data(f.slot)] else use;
      assert W() == Filling(w, SlotOf(w, root, vpn), MakePte(ppn, perm), own);
      StaysRootBut(w0, W(), root, vpn, MakePte(ppn, perm));
      r := Done;
    }

    /** mappages: on success the pages of va..va+size-1 map consecutive frames; otherwise the first
        `done` of them do.  Remap stands for both panics. */
    method MapPages(root: nat, va: nat, size: nat, pa: nat, perm: nat, ghost own: bool)
      returns (r: Mapped, ghost done: nat)
      requires Ok() && IsRoot(W(), root) && perm < 1024 && IsLeaf(perm) && size > 0
      requires own ==> forall p: nat :: pa / PGSIZE <= p <= pa / PGSIZE + (va + size - 1) / PGSIZE - va / PGSIZE ==>
                                          p in use && use[p].Held?
      modifies this
      ensures Ok() && IsRoot(W(), root)
      ensures done <= (va + size - 1) / PGSIZE - va / PGSIZE + 1 && (done > 0 ==> va / PGSIZE + done <= MAXVPN)
      ensures r.Done? <==> done == (va + size - 1) / PGSIZE - va / PGSIZE + 1
      ensures r.Remap? ==> va / PGSIZE + done >= MAXVPN || Lookup(old(W()), root, va / PGSIZE + done) != 0
      ensures r.NoMemory? ==>
              free == [] && va / PGSIZE + done < MAXVPN && |old(free)| < Need(old(W()), root, va / PGSIZE, done + 1)
      ensures r.Done? ==> |old(free)| == |free| + Need(old(W()), root, va / PGSIZE, done)
      ensures r.Done? ==> Tabled(old(W()), W(), root, va / PGSIZE, done)
      ensures Unmapped(old(W()), root, va / PGSIZE, done)
      ensures MapsRange(old(W()), W(), root, va / PGSIZE, done, pa / PGSIZE, perm)
      ensures HandedOver(old(W()), W(), pa / PGSIZE, if own then done else 0)
      ensures own ==> OwnsAll(W(), root, va / PGSIZE, done)
    {
      hide Valid, Lookup, MakePte, SameMaps, OnlyTables, MapsBut, MapsRange, HandedOver, OwnsAll, FreeList, Px, Owned;
      hide Lacks, More, Tabled, Added;
      ghost var w0 := W();
      TabledNone(w0, root, va / PGSIZE);
      var first, last, frame := va / PGSIZE, (va + size - 1) / PGSIZE, pa / PGSIZE;
      EmptyRange(w0, root, first, frame, perm);
      var k := 0;
      while true
        invariant Ok() && IsRoot(W(), root) && first + k <= last && (k > 0 ==> first + k <= MAXVPN)
        invariant MapsRange(w0, W(), root, first, k, frame, perm)
        invariant HandedOver(w0, W(), frame, if own then k else 0)
        invariant own ==> OwnsAll(W(), root, first, k)
        invariant Unmapped(w0, root, first, k)
        invariant Tabled(w0, W(), root, first, k) && |old(free)| == |free| + Need(w0, root, first, k)
        decreases last - first - k
      {
        ghost var w := W();
        if own { StillHeld(w0, w, frame, k, frame + k); }
        NextNeed(w0, w, root, first, k);
        r := MapPage(root, first + k, frame + k, perm, own);
        done := k;
        if r.Done? {
          MapStep(w0, w, W(), root, first, k, frame, perm, own);
          NextUnmapped(w0, w, root, first, k, frame, perm);
          TabledNext(w0, w, W(), root, first, k);
          done := k + 1;
          if first + k == last {
            break;
          }
          k := k + 1;
        } else {
          MapStop(w0, w, W(), root, first, k, frame, perm, own);
          return;
        }
      }
    }

    /** One turn of uvmunmap's loop; ok == false is one of its panics. */
    method UnmapPage(root: nat, vpn: nat, doFree: bool) returns (ok: bool)
      requires Ok() && IsRoot(W(), root)
      requires doFree && vpn < MAXVPN && Lookup(W(), root, vpn) != 0 ==> Owned(W(), root, vpn)
      modifies this
      ensures Ok() && IsRoot(W(), root)
      ensures ok <==> vpn < MAXVPN && Lookup(old(W()), root, vpn) != 0
      ensures !ok ==> W() == old(W()) && free == old(free)
      ensures ok ==>
              && MapsBut(old(W()), W(), root, vpn, 0)
              && Drops(old(W()), W(), root, vpn, doFree)
              && free == if doFree then [Ppn(Lookup(old(W()), root, vpn))] + old(free) else old(free)
    {
      hide Valid, Lookup, SameMaps, OnlyTables, MapsBut, FreeList, Px, Owned;
      ghost var w := W();
      var f := Walk(root, vpn, false);
      if f.Panics? {
        return false;
      }
      LookupSame(w, w, root, vpn) by { Unchanged(w); }
      if f.Missing? {
        return false;
      }
      ReachedEntry(w, root, vpn);
      var Slot(t, k) := f.slot;
      var pte := mem[t][k];
      if !IsValid(pte) {
        return false;
      }
      LookupLeaf(w, root, vpn);
      if Flags(pte) == PTE_V {
        LeafFlags(pte);
        assert false;
      }
      var p := Ppn(pte);
      DropSlot(w, root, vpn, doFree);
      if p in use && use[p] == Data(f.slot) { Retag(free, use, p, Held); }
      LetGo(w, f.slot, p);
      use := Freed(use, f.slot, p);
      if doFree {
        assert p in use && use[p].Held? by { OwnedPage(w, root, vpn); }
        var freed := Kfree(p);
      }
      var row: seq<nat> := mem[t][k := 0];
      mem := mem[t := row];
      assert W() == Dropped(w, f.slot, p, doFree);
      StaysRootBut(w, W(), root, vpn, 0);
      ok := true;
    }

    /** uvmunmap: n mappings from va go, and with doFree their memory; ok == false is a panic, raised
        exactly when va is not aligned or some page is not mapped. */
    method UvmUnmap(root: nat, va: nat, npages: nat, doFree: bool) returns (ok: bool)
      requires Ok() && IsRoot(W(), root)
      requires doFree ==> forall v: nat :: va / PGSIZE <= v < va / PGSIZE + npages && v < MAXVPN ==>
                            Lookup(W(), root, v) == 0 || Owned(W(), root, v)
      modifies this
      ensures Ok() && IsRoot(W(), root)
      ensures ok <==> va % PGSIZE == 0 && AllMapped(old(W()), root, va / PGSIZE, npages)
      ensures ok ==> Unmaps(old(W()), W(), root, va / PGSIZE, npages)
      ensures ok ==> Releases(old(W()), W(), root, va / PGSIZE, npages, if doFree then Free else Held)
      ensures ok ==> |free| == |old(free)| + if doFree then npages else 0
    {
      hide Valid, Lookup, MapsBut, FreeList, Px, Owned, Drops, Releases, Unmaps;
      if va % PGSIZE != 0 {
        return false;
      }
      ghost var w0 := W();
      var lo, k := va / PGSIZE, 0;
      NothingReleased(w0, root, lo, if doFree then Free else Held);
      while k < npages
        invariant 0 <= k <= npages && Ok() && IsRoot(W(), root)
        invariant AllMapped(w0, root, lo, k)
        invariant Unmaps(w0, W(), root, lo, k)
        invariant Releases(w0, W(), root, lo, k, if doFree then Free else Held)
        invariant |free| == |old(free)| + if doFree then k else 0
      {
        ghost var w := W();
        NextToDrop(w0, w, root, lo, k, if doFree then Free else Held);
        ok := UnmapPage(root, lo + k, doFree);
        if !ok {
          NotAll(w0, root, lo, k, npages);
          return;
        }
        DropStep(w0, w, W(), root, lo, k, doFree);
        k := k + 1;
      }
      ok := true;
    }

    /** uvmdealloc; ok == false is a panic of uvmunmap. */
    method UvmDealloc(root: nat, oldsz: nat, newsz: nat) returns (ok: bool, sz: nat)
      requires Ok() && IsRoot(W(), root)
      requires forall v: nat :: Pages(newsz) <= v < Pages(oldsz) && v < MAXVPN ==>
                 Lookup(W(), root, v) == 0 || Owned(W(), root, v)
      modifies this
      ensures Ok() && IsRoot(W(), root)
      ensures ok <==> newsz >= oldsz || AllMapped(old(W()), root, Pages(newsz), Pages(oldsz) - Pages(newsz))
      ensures newsz >= oldsz ==> sz == oldsz && W() == old(W()) && free == old(free)
      ensures newsz < oldsz && ok ==>
              && sz == newsz
              && Unmaps(old(W()), W(), root, Pages(newsz), Pages(oldsz) - Pages(newsz))
              && Releases(old(W()), W(), root, Pages(newsz), Pages(oldsz) - Pages(newsz), Free)
              && |free| == |old(free)| + Pages(oldsz) - Pages(newsz)
    {
      hide Valid, Lookup, FreeList, Px, Owned, Releases, Unmaps;
      if newsz >= oldsz {
        return true, oldsz;
      }
      sz, ok := newsz, true;
      if Pages(newsz) * PGSIZE < Pages(oldsz) * PGSIZE {
        ok := UvmUnmap(root, Pages(newsz) * PGSIZE, Pages(oldsz) - Pages(newsz), true);
      } else {
        NothingReleased(W(), root, Pages(newsz), Free);
      }
    }

    /** kalloc, fill, mappages: one turn of the loops of uvmalloc and uvmcopy. */
    method AddPage(root: nat, vpn: nat, words: seq<nat>, perm: nat, ghost w0: World, ghost lo: nat)
      returns (r: Mapped, ghost p: nat)
      requires Ok() && Valid(w0) && IsRoot(w0, root) && IsRoot(W(), root)
      requires lo <= vpn && (vpn > lo ==> vpn <= MAXVPN)
      requires perm < 1024 && IsLeaf(perm) && |words| == ENTRIES
      requires Grew(w0, W(), root, lo, vpn - lo) && Tabled(w0, W(), root, lo, vpn - lo)
      modifies this
      ensures Ok() && IsRoot(W(), root)
      ensures r.Remap? ==> vpn >= MAXVPN || Lookup(w0, root, vpn) != 0
      ensures r.NoMemory? ==> Grew(w0, W(), root, lo, vpn - lo) && SameMaps(old(W()), W())
      ensures r.NoMemory? ==> |free| <= 1 && |old(free)| < 1 + More(w0, root, lo, vpn - lo)
      ensures r.Done? ==>
              |old(free)| == |free| + 1 + More(w0, root, lo, vpn - lo) && Tabled(w0, W(), root, lo, vpn - lo + 1)
      ensures r.Done? ==>
              && vpn < MAXVPN && Grew(w0, W(), root, lo, vpn - lo + 1)
              && Lookup(W(), root, vpn) == MakePte(p, perm) && p in mem && mem[p] == words
              && Grew(old(W()), W(), root, vpn, 1)
    {
      hide Valid, Lookup, MakePte, FreeList, Px, SameMaps, MapsRange, HandedOver, OwnsAll, Grew, Unmapped, Fresh;
      hide Lacks, More, Tabled, Need;
      ghost var w := W();
      var page := Kalloc();
      p := page;
      if page == 0 {
        return NoMemory, p;
      }
      FreshOk(w, page, words);
      FreshNeed(w0, w, page, words, root, lo, vpn - lo);
      mem := mem[page := words];
      ghost var v := W();
      assert v == Fresh(w, page, words);
      ghost var done;
      NotYet(w0, w, v, root, lo, vpn);
      r, done := MapPages(root, vpn * PGSIZE, PGSIZE, page * PGSIZE, perm, true);
      if r.Done? {
        GrowBoth(w0, w, W(), root, lo, vpn - lo, page, words, perm);
        FreshTabled(w0, w, W(), page, words, root, lo, vpn - lo);
      } else if r.NoMemory? {
        ghost var v' := W();
        BackHeld(w, v, v', root, vpn, page, perm);
        var freed := Kfree(page);
        GrowStay(w0, w, v, v', W(), root, lo, vpn - lo, page, perm);
      }
    }

    /** uvmalloc: the process grows by zeroed pages of its own; or memory runs out, the mappings are as
        before, and every page but those that became tables is back on the free list. */
    method UvmAlloc(root: nat, oldsz: nat, newsz: nat) returns (r: Growth)
      requires Ok() && IsRoot(W(), root)
      modifies this
      ensures Ok() && IsRoot(W(), root)
      ensures newsz < oldsz ==> r == Size(oldsz) && W() == old(W()) && free == old(free)
      ensures r.Size? && newsz >= oldsz ==>
              && r.sz == newsz
              && Grew(old(W()), W(), root, Pages(oldsz), Span(oldsz, newsz))
              && ZeroPages(W(), root, Pages(oldsz), Span(oldsz, newsz))
              && |old(free)| == |free| + Span(oldsz, newsz) + Need(old(W()), root, Pages(oldsz), Span(oldsz, newsz))
      ensures r.OutOfMemory? ==> SameMaps(old(W()), W()) && OnlyTables(old(W()), W())
      ensures r.OutOfMemory? ==>
              && |free| <= Span(oldsz, newsz)
              && |old(free)| < Span(oldsz, newsz) + Need(old(W()), root, Pages(oldsz), Span(oldsz, newsz))
      ensures r.Panicked? ==> exists v: nat :: Pages(oldsz) <= v < Pages(newsz) && CannotMap(old(W()), root, v)
    {
      hide Valid, Lookup, MakePte, FreeList, Px, SameMaps, OnlyTables, OwnsAll, Grew, Unmapped, ZeroPages, Owned;
      hide Lacks, Tabled, More, Need;
      if newsz < oldsz {
        return Size(oldsz);
      }
      ghost var w0 := W();
      var lo := Pages(oldsz);
      var a := lo;
      GrewNone(w0, root, lo);
      TabledNone(w0, root, lo);
      ZeroNone(w0, root, lo);
      while a * PGSIZE < newsz
        invariant lo <= a && (a > lo ==> a <= MAXVPN && a <= Pages(newsz)) && Ok() && IsRoot(W(), root)
        invariant Grew(w0, W(), root, lo, a - lo)
        invariant ZeroPages(W(), root, lo, a - lo)
        invariant Tabled(w0, W(), root, lo, a - lo) && |old(free)| == |free| + (a - lo) + Need(w0, root, lo, a - lo)
        decreases newsz - a * PGSIZE
      {
        ghost var w := W();
        ghost var p;
        var m;
        NeedMore(w0, root, lo, a - lo);
        m, p := AddPage(root, a, Filled(0), PTE_W + PTE_X + PTE_R + PTE_U, w0, lo);
        if m.Remap? {
          assert CannotMap(w0, root, a);
          return Panicked;
        }
        if m.NoMemory? {
          GrewOwns(w0, W(), root, lo, a - lo);
          NeedGrows(w0, root, lo, a - lo + 1, Span(oldsz, newsz));
          ghost var v := W();
          Rounded(a);
          Rounded(lo);
          var ok, sz := UvmDealloc(root, a * PGSIZE, lo * PGSIZE);
          Undone(w0, v, W(), root, lo, a - lo);
          return OutOfMemory;
        }
        GrewOwns(w0, w, root, lo, a - lo);
        ZeroNext(w, W(), root, lo, a - lo, p);
        a := a + 1;
      }
      assert a - lo == Span(oldsz, newsz);
      r := Size(newsz);
    }

    /** uvmcopy: the child gains a copy of each page of the parent, with the parent's flags; or memory
        runs out, the mappings are as before, and every page but those that became tables is free again. */
    method UvmCopy(parent: nat, child: nat, sz: nat) returns (r: Copy)
      requires Ok() && IsRoot(W(), parent) && IsRoot(W(), child) && parent != child
      requires forall v: nat :: v < Pages(sz) && v < MAXVPN ==> Lookup(W(), parent, v) == 0 || Owned(W(), parent, v)
      modifies this
      ensures Ok() && (!r.CopyPanicked? ==> IsRoot(W(), parent) && IsRoot(W(), child))
      ensures r.Copied? ==>
              && AllMapped(old(W()), parent, 0, Pages(sz))
              && Grew(old(W()), W(), child, 0, Pages(sz))
              && Copies(old(W()), W(), parent, child, Pages(sz))
              && |old(free)| == |free| + Pages(sz) + Need(old(W()), child, 0, Pages(sz))
      ensures r.CopyFailed? ==> SameMaps(old(W()), W()) && OnlyTables(old(W()), W())
      ensures r.CopyFailed? ==> |free| <= Pages(sz) && |old(free)| < Pages(sz) + Need(old(W()), child, 0, Pages(sz))
      ensures r.CopyPanicked? ==> exists v: nat :: v < Pages(sz) && CannotCopy(old(W()), parent, child, v)
    {
      hide Valid, Lookup, MakePte, FreeList, Px, SameMaps, OnlyTables, OwnsAll, Grew, Unmapped, Copies, Owned, AllMapped;
      hide Lacks, Tabled, More, Need;
      ghost var w0 := W();
      TabledNone(w0, child, 0);
      var i := 0;
      CopyNone(w0, parent, child);
      while i * PGSIZE < sz
        invariant 0 <= i <= MAXVPN && i <= Pages(sz) && Ok() && IsRoot(W(), parent) && IsRoot(W(), child)
        invariant AllMapped(w0, parent, 0, i)
        invariant Grew(w0, W(), child, 0, i)
        invariant Copies(w0, W(), parent, child, i)
        invariant Tabled(w0, W(), child, 0, i) && |old(free)| == |free| + i + Need(w0, child, 0, i)
        decreases sz - i * PGSIZE
      {
        ghost var w := W();
        var f := Walk(parent, i, false);
        if f.Panics? {
          assert CannotCopy(w0, parent, child, i);
          return CopyPanicked;
        }
        ParentSame(w0, w, parent, child, i);
        if f.Missing? {
          LookupSame(w, w, parent, i) by { Unchanged(w); }
          assert CannotCopy(w0, parent, child, i);
          return CopyPanicked;
        }
        ReachedEntry(w, parent, i);
        var pte := mem[f.slot.page][f.slot.idx];
        if !IsValid(pte) {
          assert CannotCopy(w0, parent, child, i);
          return CopyPanicked;
        }
        LookupLeaf(w, parent, i);
        LeafPerm(pte);
        ghost var p;
        var m;
        NeedMore(w0, child, 0, i);
        m, p := AddPage(child, i, mem[Ppn(pte)], Flags(pte), w0, 0);
        KeepRoot(w, W(), child, i, m, parent);
        if m.Remap? {
          assert CannotCopy(w0, parent, child, i);
          return CopyPanicked;
        }
        if m.NoMemory? {
          GrewOwns(w0, W(), child, 0, i);
          NeedGrows(w0, child, 0, i + 1, Pages(sz));
          ghost var v := W();
          var ok := UvmUnmap(child, 0, i, true);
          Undone(w0, v, W(), child, 0, i);
          StaysRoot(w0, W(), parent);
          return CopyFailed;
        }
        CopyNext(w0, w, W(), parent, child, i, p);
        i := i + 1;
      }
      r := Copied;
    }

    /** freewalk: every table at and below t goes back to the free list; ok == false is the panic for a
        leaf.  The slot above t still names it: the caller clears it next. */
    method FreeWalk(t: nat) returns (ok: bool)
      requires Ok() && t in use && use[t].IsTable()
      modifies this
      decreases Level(use[t])
      ensures ok <==> NoLeaf(old(W()), t)
      ensures ok ==> FreeList(free, use) && Felled(old(W()), W(), t)
      ensures ok && old(use[t]).Root? ==> Valid(W())
      ensures ok && !old(use[t]).Root? ==> ValidBut(W(), old(use[t]).up)
    {
      hide Valid, ValidBut, FreeList, NoLeaf, NoLeafTo, Felled, FelledTo;
      ghost var w := W();
      FelledNone(w, t);
      NoLeafNone(w, t);
      var i := 0;
      while i < ENTRIES
        invariant 0 <= i <= ENTRIES && Ok()
        invariant FelledTo(w, W(), t, i) && NoLeafTo(w, t, i)
      {
        ghost var v := W();
        TableKept(w, v, t, i);
        var pte := mem[t][i];
        if IsValid(pte) {
          EntryKind(v, t, i);
          if !IsLeaf(pte) {
            ok := FreeWalk(Ppn(pte));
            if !ok {
              LeafBelow(w, v, t, i, Ppn(pte));
              return;
            }
            FelledSlot(w, v, W(), t, i, Ppn(pte));
            ClearSlot(W(), Slot(t, i));
            var row: seq<nat> := mem[t][i := 0];
            mem := mem[t := row];
          } else {
            LeafHere(w, t, i);
            return false;
          }
        } else {
          FelledSkip(w, v, t, i);
        }
        i := i + 1;
      }
      FelledAll(w, W(), t, Filled(FREED_WORD));
      NoLeafWhole(w, t);
      FreeTable(W(), t, Filled(FREED_WORD));
      PushFree(free, use, t);
      mem := mem[t := Filled(FREED_WORD)];
      free := [t] + free;
      use := use[t := Free];
      ok := true;
    }

    /** uvmfree: the memory below sz and all tables of the tree become free; ok == false is a panic. */
    method UvmFree(root: nat, sz: nat) returns (ok: bool)
      requires Ok() && IsRoot(W(), root)
      requires forall v: nat :: v < Pages(sz) && v < MAXVPN ==> Lookup(W(), root, v) == 0 || Owned(W(), root, v)
      modifies this
      ensures ok <==> MapsExactly(old(W()), root, Pages(sz))
      ensures ok ==> Ok() && Gone(old(W()), W(), root)
    {
      hide Valid, Lookup, FreeList, Px, Owned, Releases, Unmaps, Felled, NoLeaf, Gone, MapsExactly;
      ghost var w0 := W();
      NothingReleased(w0, root, 0, Free);
      ExactlyNone(w0, root);
      if sz > 0 {
        ok := UvmUnmap(root, 0, Pages(sz), true);
        if !ok {
          NotExactly(w0, root, Pages(sz));
          return;
        }
      }
      ghost var w1 := W();
      ExactlyLeft(w0, w1, root, Pages(sz));
      ok := FreeWalk(root);
      if ok {
        UvmGone(w0, w1, W(), root, Pages(sz));
      }
    }

    /** proc_freepagetable: the trampoline and the trapframe are unmapped, not freed; then the whole
        address space is returned.  ok == false is a panic. */
    method ProcFreePagetable(root: nat, sz: nat) returns (ok: bool)
      requires Ok() && IsRoot(W(), root) && Pages(sz) <= TRAPFRAME
      requires forall v: nat :: v < Pages(sz) ==> Lookup(W(), root, v) == 0 || Owned(W(), root, v)
      requires !Owned(W(), root, TRAMPOLINE) && !Owned(W(), root, TRAPFRAME)
      modifies this
      ensures ok <==> UserSpace(old(W()), root, Pages(sz))
      ensures ok ==> Ok() && Gone(old(W()), W(), root)
    {
      hide Valid, Lookup, FreeList, Px, Owned, Releases, Unmaps, Gone, MapsExactly, UserSpace;
      ghost var w0 := W();
      ok := UvmUnmap(root, TRAMPOLINE * PGSIZE, 1, false);
      if !ok {
        NoSpace(w0, root, Pages(sz));
        return;
      }
      ghost var w1 := W();
      Untouched(w0, w1, root, TRAMPOLINE);
      ok := UvmUnmap(root, TRAPFRAME * PGSIZE, 1, false);
      if !ok {
        NoSpace(w0, root, Pages(sz));
        return;
      }
      ghost var w2 := W();
      Untouched(w1, w2, root, TRAPFRAME);
      SpaceLeft(w0, w1, w2, root, Pages(sz));
      ok := UvmFree(root, sz);
      if ok {
        GoneFrom(w0, w1, w2, W(), root);
      }
    }
  }

  /** The virtual pages of the trampoline and, below it, of the trapframe. */
  const TRAMPOLINE: nat := MAXVPN - 1
  const TRAPFRAME: nat := MAXVPN - 2

  /** Page v is beyond MAXVA, or the parent does not map it, or the child already does. */
  ghost predicate CannotCopy(w: World, parent: nat, child: nat, v: nat) {
    v >= MAXVPN || Lookup(w, parent, v) == 0 || Lookup(w, child, v) != 0
  }

  /** Page v is beyond MAXVA or mapped. */
  ghost predicate CannotMap(w: World, root: nat, v: nat) {
    v >= MAXVPN || Lookup(w, root, v) != 0
  }

  /** The tree maps the first n pages and nothing else. */
  ghost predicate MapsExactly(w: World, root: nat, n: nat) {
    AllMapped(w, root, 0, n) && forall v: nat :: n <= v < MAXVPN ==> Lookup(w, root, v) == 0
  }

  /** The first n pages, the trampoline and the trapframe are mapped, and nothing else. */
  ghost predicate UserSpace(w: World, root: nat, n: nat) {
    && AllMapped(w, root, 0, n)
    && Lookup(w, root, TRAMPOLINE) != 0 && Lookup(w, root, TRAPFRAME) != 0
    && forall v: nat :: n <= v < TRAPFRAME ==> Lookup(w, root, v) == 0
  }

  lemma ExactlyNone(w: World, root: nat)
    ensures AllMapped(w, root, 0, 0) && Pages(0) == 0
  {
  }

  lemma NotAll(w: World, root: nat, lo: nat, k: nat, n: nat)
    requires k < n && (lo + k >= MAXVPN || Lookup(w, root, lo + k) == 0)
    ensures !AllMapped(w, root, lo, n)
  {
    hide Lookup;
    var _ := Lookup(w, root, lo + k);
  }

  lemma NotExactly(w: World, root: nat, n: nat)
    requires !AllMapped(w, root, 0, n)
    ensures !MapsExactly(w, root, n)
  {
  }

  /** With the first n pages gone, the tree is empty exactly if it mapped nothing more. */
  lemma ExactlyLeft(w: World, w': World, root: nat, n: nat)
    requires Valid(w') && IsRoot(w, root) && IsRoot(w', root) && Unmaps(w, w', root, 0, n) && AllMapped(w, root, 0, n)
    ensures MapsExactly(w, root, n) <==> NoLeaf(w', root)
  {
    hide Lookup, NoLeaf, Valid;
    NoLeafMapsNothing(w', root);
    if MapsExactly(w, root, n) {
      forall v: nat | v < MAXVPN
        ensures Lookup(w', root, v) == 0
      {
      }
    }
    if forall v: nat :: v < MAXVPN ==> Lookup(w', root, v) == 0 {
      forall v: nat | n <= v < MAXVPN
        ensures Lookup(w, root, v) == 0
      {
        assert Lookup(w', root, v) == Lookup(w, root, v);
      }
    }
  }

  /** Releasing the memory and felling the tables frees all the tree had, and only that. */
  lemma UvmGone(w0: World, w1: World, w2: World, root: nat, n: nat)
    requires Valid(w0) && Valid(w1) && IsRoot(w0, root) && IsRoot(w1, root) && MapsExactly(w0, root, n)
    requires Unmaps(w0, w1, root, 0, n) && Releases(w0, w1, root, 0, n, Free) && Felled(w1, w2, root)
    ensures Gone(w0, w2, root)
  {
    hide Valid, Lookup, Owned, Px, Felled, Releases, Belongs, MapsExactly, Unmaps;
    GoneKeys(w0, w1, w2, root, n);
    forall p | p in w0.use
      ensures w2.use[p] == if Belongs(w0, root, p) then Free else w0.use[p]
    {
      GonePage(w0, w1, w2, root, n, p);
    }
    forall r: nat, v: nat | IsRoot(w0, r) && r != root && v < MAXVPN
      ensures Lookup(w2, r, v) == Lookup(w0, r, v)
    {
      GoneOthers(w0, w1, w2, root, n, r, v);
    }
  }

  lemma GoneKeys(w0: World, w1: World, w2: World, root: nat, n: nat)
    requires Releases(w0, w1, root, 0, n, Free) && Felled(w1, w2, root)
    ensures w2.use.Keys == w0.use.Keys
  {
    hide OwnedIn, Under;
  }

  lemma GoneOthers(w0: World, w1: World, w2: World, root: nat, n: nat, r: nat, v: nat)
    requires Valid(w1) && IsRoot(w1, root) && IsRoot(w0, r) && r != root && v < MAXVPN
    requires Unmaps(w0, w1, root, 0, n) && Felled(w1, w2, root)
    ensures Lookup(w2, r, v) == Lookup(w0, r, v)
  {
    hide Valid, Lookup, Felled;
    assert IsRoot(w1, r) && Lookup(w1, r, v) == Lookup(w0, r, v);
    FelledOthers(w1, w2, root, r, v);
  }

  lemma GonePage(w0: World, w1: World, w2: World, root: nat, n: nat, p: nat)
    requires Valid(w0) && Valid(w1) && IsRoot(w0, root) && IsRoot(w1, root) && MapsExactly(w0, root, n) && p in w0.use
    requires Releases(w0, w1, root, 0, n, Free) && Felled(w1, w2, root)
    ensures w2.use[p] == if Belongs(w0, root, p) then Free else w0.use[p]
  {
    hide Valid, Lookup, Owned, Px;
    UnderSame(w0, w1, root, n, p);
    if w0.use[p].Data? && Under(w0.use, root, w0.use[p].up.page) {
      DataMapped(w0, root, p);
      var v: nat :| v < MAXVPN && Owned(w0, root, v) && Ppn(Lookup(w0, root, v)) == p;
      assert Lookup(w0, root, v) != 0 by { OwnedPage(w0, root, v); }
      assert v < n;
      assert OwnedIn(w0, root, 0, n, p);
    } else if OwnedIn(w0, root, 0, n, p) {
      var v: nat :| 0 <= v < n && v < MAXVPN && Owned(w0, root, v) && Ppn(Lookup(w0, root, v)) == p;
      OwnedHangs(w0, root, v);
    }
  }

  /** With the tables as they were, what hangs below a root is what hung below it. */
  lemma SameAbove(use: map<nat, Use>, use': map<nat, Use>, root: nat, p: nat)
    requires use'.Keys == use.Keys && p in use && root in use && use[root].Root?
    requires forall t :: t in use && use[t].IsTable() ==> use'[t] == use[t]
    requires use'[p] == use[p] || use'[p].Free?
    requires use[p].Low? ==> use[p].up.page in use && use[use[p].up.page].Mid?
    ensures Under(use', root, p) <==> Under(use, root, p)
    ensures Under(use, root, p) ==> use'[p] == use[p] && use[p].IsTable()
  {
  }

  /** Releasing memory leaves the tables where they hang. */
  lemma UnderSame(w0: World, w1: World, root: nat, n: nat, p: nat)
    requires Valid(w0) && IsRoot(w0, root) && Releases(w0, w1, root, 0, n, Free) && p in w0.use
    ensures Under(w1.use, root, p) <==> Under(w0.use, root, p)
    ensures Under(w0.use, root, p) ==> w1.use[p] == w0.use[p] && w0.use[p].IsTable()
  {
    hide Lookup, Px, EntryOk, OwnedIn;
    assert HangsOk(w0, p);
    assert w1.use[p] == w0.use[p] || w1.use[p].Free?;
    TablesKept(w0, w1, root, 0, n, Free);
    hide Valid, Releases, HangsOk;
    SameAbove(w0.use, w1.use, root, p);
  }

  lemma NoSpace(w: World, root: nat, n: nat)
    requires Lookup(w, root, TRAMPOLINE) == 0 || Lookup(w, root, TRAPFRAME) == 0
    ensures !UserSpace(w, root, n)
  {
  }

  /** Unmapping a page the tree does not own changes one entry and no page's hands. */
  lemma Untouched(w: World, w': World, root: nat, x: nat)
    requires Valid(w) && Valid(w') && IsRoot(w, root) && IsRoot(w', root) && x < MAXVPN && !Owned(w, root, x)
    requires Unmaps(w, w', root, x, 1) && Releases(w, w', root, x, 1, Held)
    ensures w'.use == w.use && Lookup(w', root, x) == 0
    ensures forall r: nat, v: nat :: IsRoot(w, r) && v < MAXVPN && (r, v) != (root, x) ==>
              Lookup(w', r, v) == Lookup(w, r, v)
    ensures forall v: nat :: v < MAXVPN && v != x ==> (Owned(w', root, v) <==> Owned(w, root, v))
  {
    hide Valid, Lookup, Px;
    forall p | p in w.use
      ensures !OwnedIn(w, root, x, 1, p)
    {
      hide Owned;
    }
    assert w'.use == w.use;
    forall v: nat | v < MAXVPN && v != x
      ensures Owned(w', root, v) <==> Owned(w, root, v)
    {
      assert Lookup(w', root, v) == Lookup(w, root, v);
      if Owned(w, root, v) {
        OwnedStable(w, w', root, v);
      }
      if Owned(w', root, v) {
        OwnedStable(w', w, root, v);
      }
    }
  }

  lemma SpaceLeft(w0: World, w1: World, w2: World, root: nat, n: nat)
    requires IsRoot(w0, root) && IsRoot(w1, root) && n <= TRAPFRAME
    requires Lookup(w0, root, TRAMPOLINE) != 0 && Lookup(w1, root, TRAPFRAME) != 0
    requires Lookup(w1, root, TRAMPOLINE) == 0 && Lookup(w2, root, TRAPFRAME) == 0
    requires forall v: nat :: v < MAXVPN && v != TRAMPOLINE ==> Lookup(w1, root, v) == Lookup(w0, root, v)
    requires forall v: nat :: v < MAXVPN && v != TRAPFRAME ==> Lookup(w2, root, v) == Lookup(w1, root, v)
    ensures UserSpace(w0, root, n) <==> MapsExactly(w2, root, n)
  {
    hide Lookup;
    assert forall v: nat :: v < TRAPFRAME ==> Lookup(w2, root, v) == Lookup(w0, root, v);
  }

  lemma GoneFrom(w0: World, w1: World, w2: World, w3: World, root: nat)
    requires w1.use == w0.use && w2.use == w0.use && Gone(w2, w3, root)
    requires forall r: nat, v: nat :: IsRoot(w0, r) && v < MAXVPN && r != root ==> Lookup(w1, r, v) == Lookup(w0, r, v)
    requires forall r: nat, v: nat :: IsRoot(w0, r) && v < MAXVPN && r != root ==> Lookup(w2, r, v) == Lookup(w1, r, v)
    ensures Gone(w0, w3, root)
  {
    hide Lookup;
    assert forall p :: p in w0.use ==> (Belongs(w0, root, p) <==> Belongs(w2, root, p));
  }
}
