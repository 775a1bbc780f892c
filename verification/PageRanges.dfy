/** Ranges of pages mapped, unmapped, grown and released, as changes of the whole memory. */
module PageRanges {
  import opened PageTree

  const PGSIZE := 4096

  /** memset(pa, 1, PGSIZE) and memset(pa, 5, PGSIZE), read as 64-bit words. */
  const FREED_WORD := 0x0101_0101_0101_0101
  const FRESH_WORD := 0x0505_0505_0505_0505

  function Filled(word: nat): (words: seq<nat>)
    ensures |words| == ENTRIES
  {
    seq(ENTRIES, i => word)
  }

  /** The free list names every free page once, and no other page. */
  ghost predicate FreeList(free: seq<nat>, use: map<nat, Use>) {
    && (forall i, j :: 0 <= i < j < |free| ==> free[i] != free[j])
    && (forall p: nat :: p in free <==> p in use && use[p].Free?)
    && 0 !in use
  }

  /** Where walk ends: a panic, no entry, or the slot of the entry. */
  datatype Found = Panics | Missing | Entry(slot: Slot)

  /** Page tables may have taken free pages; nothing else has changed hands. */
  ghost predicate OnlyTables(w: World, w': World) {
    && w'.use.Keys == w.use.Keys == w.mem.Keys == w'.mem.Keys
    && (forall p :: p in w.use ==> w'.use[p] == w.use[p] || (w.use[p].Free? && (w'.use[p].Mid? || w'.use[p].Low?)))
    && (forall p :: p in w.use && (w.use[p].Held? || w.use[p].Data?) ==> w'.mem[p] == w.mem[p])
  }

  /** The table walk has reached when `level` levels are left. */
  ghost predicate WalkAt(w: World, root: nat, vpn: nat, level: nat, t: nat) {
    match level
    case 2 => t == root
    case 1 => IsValid(w.At(root, Px(2, vpn))) && t == Ppn(w.At(root, Px(2, vpn)))
    case 0 => Reaches(w, root, vpn) && t == LowTable(w, root, vpn)
    case _ => false
  }

  lemma WalkTable(w: World, root: nat, vpn: nat, level: nat, t: nat)
    requires Valid(w) && IsRoot(w, root) && WalkAt(w, root, vpn, level, t)
    ensures t in w.use && w.use[t].IsTable() && t in w.mem && |w.mem[t]| == ENTRIES
    ensures level == 2 <==> w.use[t].Root?
    ensures level == 1 <==> w.use[t].Mid?
    ensures level > 0 && IsValid(w.At(t, Px(level, vpn))) ==>
              WalkAt(w, root, vpn, level - 1, Ppn(w.At(t, Px(level, vpn))))
    ensures level > 0 && !IsValid(w.At(t, Px(level, vpn))) ==> !Reaches(w, root, vpn)
  {
    RootEntry(w, root, vpn);
  }

  /** kalloc, memset 0 and the store into the parent, as one change of the world. */
  ghost function Linked(w: World, t: nat, k: nat, c: nat): World
    requires t in w.mem && k < |w.mem[t]|
    requires t in w.use
  {
    var row: seq<nat> := w.mem[t][k := MakePte(c, 0)];
    World(w.mem[c := Filled(0)][t := row], w.use[c := Below(w.use[t], Slot(t, k))])
  }

  lemma LinkFresh(w: World, t: nat, k: nat, c: nat)
    requires Valid(w) && t in w.use && (w.use[t].Root? || w.use[t].Mid?)
    requires k < if w.use[t].Root? then 256 else ENTRIES
    requires !IsValid(w.At(t, k)) && c in w.use && w.use[c].Free?
    ensures t in w.mem && |w.mem[t]| == ENTRIES
    ensures var w' := Linked(w, t, k, c); Valid(w') && SameMaps(w, w') && OnlyTables(w, w')
  {
    hide MakePte, EntryOk, HangsOk, Lookup;
    Rehold(w, c, Held, Filled(0));
    var v := World(w.mem[c := Filled(0)], w.use[c := Held]);
    assert v.At(t, k) == w.At(t, k);
    LinkTable(v, t, k, c);
    var w' := Linked(w, t, k, c);
    assert w' == SetWord(v, t, k, MakePte(c, 0)).(use := v.use[c := Below(v.use[t], Slot(t, k))]);
    SameMapsTwice(w, v, w');
    LinkOnlyTables(w, t, k, c);
  }

  lemma LinkOnlyTables(w: World, t: nat, k: nat, c: nat)
    requires Sized(w) && t in w.use && (w.use[t].Root? || w.use[t].Mid?) && k < ENTRIES
    requires c in w.use && w.use[c].Free?
    ensures OnlyTables(w, Linked(w, t, k, c))
  {
    hide MakePte;
  }

  lemma SameMapsTwice(w: World, v: World, w': World)
    requires SameMaps(w, v) && SameMaps(v, w')
    ensures SameMaps(w, w')
  {
    hide Lookup, IsRoot;
  }

  lemma LinkReaches(w: World, root: nat, vpn: nat, level: nat, t: nat, c: nat)
    requires Valid(w) && IsRoot(w, root) && 0 < level && WalkAt(w, root, vpn, level, t)
    requires !IsValid(w.At(t, Px(level, vpn))) && c in w.use && w.use[c].Free?
    requires t in w.mem && |w.mem[t]| == ENTRIES && t in w.use
    ensures WalkAt(Linked(w, t, Px(level, vpn), c), root, vpn, level - 1, c)
  {
    hide Px, MakePte, EntryOk, HangsOk;
    WalkTable(w, root, vpn, level, t);
    WalkTable(w, root, vpn, 2, root);
    var w' := Linked(w, t, Px(level, vpn), c);
    assert w'.At(t, Px(level, vpn)) == MakePte(c, 0);
    if level == 1 {
      assert w'.At(root, Px(2, vpn)) == w.At(root, Px(2, vpn));
    }
  }

  lemma Unchanged(w: World)
    requires Valid(w)
    ensures SameMaps(w, w) && OnlyTables(w, w)
  {
  }

  lemma StaysRoot(w: World, w': World, root: nat)
    requires SameMaps(w, w') && IsRoot(w, root)
    ensures IsRoot(w', root)
  {
  }

  /** Nothing but tables taken, twice. */
  lemma OnlyTablesTwice(w: World, v: World, w': World)
    requires OnlyTables(w, v) && OnlyTables(v, w') && SameMaps(w, v) && SameMaps(v, w')
    ensures OnlyTables(w, w') && SameMaps(w, w')
  {
  }

  /** A page that is new to memory, or no longer used, goes to the front of the free list. */
  lemma PushFree(free: seq<nat>, use: map<nat, Use>, p: nat)
    requires FreeList(free, use) && (p in use || p != 0) && (p in use ==> !use[p].Free?)
    ensures FreeList([p] + free, use[p := Free])
  {
    assert p !in free;
  }

  lemma Retag(free: seq<nat>, use: map<nat, Use>, p: nat, u: Use)
    requires FreeList(free, use) && p in use && !use[p].Free? && !u.Free?
    ensures FreeList(free, use[p := u])
  {
  }

  /** A new page that is free changes nothing for the trees. */
  lemma AddFree(w: World, p: nat)
    requires Valid(w) && p !in w.use
    ensures Valid(World(w.mem[p := Filled(FREED_WORD)], w.use[p := Free]))
  {
    var w' := World(w.mem[p := Filled(FREED_WORD)], w.use[p := Free]);
    forall t: nat, k: nat | t in w'.use && w'.use[t].IsTable() && k < ENTRIES
      ensures EntryOk(w', t, k)
    {
      assert EntryOk(w, t, k);
    }
    forall q | q in w'.use
      ensures HangsOk(w', q)
    {
      assert q != p ==> HangsOk(w, q);
    }
  }

  // ---- Ranges of pages ----

  /** Trees map the same pages, but for n pages from lo in one tree, which map consecutive frames. */
  ghost predicate MapsRange(w: World, w': World, root: nat, lo: nat, n: nat, ppn: nat, perm: nat)
    requires perm < 1024
  {
    && (forall r :: IsRoot(w, r) ==> IsRoot(w', r))
    && (forall v: nat :: lo <= v < lo + n ==> Lookup(w', root, v) == MakePte(ppn + (v - lo), perm))
    && OthersSame(w, w', root, lo, n)
  }

  ghost predicate OthersSame(w: World, w': World, root: nat, lo: nat, n: nat) {
    forall r: nat, v: nat :: IsRoot(w, r) && v < MAXVPN && !(r == root && lo <= v < lo + n) ==>
      Lookup(w', r, v) == Lookup(w, r, v)
  }

  /** As OnlyTables, but the held pages lo..lo+n-1 were handed to a tree. */
  ghost predicate HandedOver(w: World, w': World, lo: nat, n: nat) {
    && w'.use.Keys == w.use.Keys == w.mem.Keys == w'.mem.Keys
    && (forall p :: p in w.use && !(lo <= p < lo + n) ==>
          w'.use[p] == w.use[p] || (w.use[p].Free? && (w'.use[p].Mid? || w'.use[p].Low?)))
    && (forall p :: p in w.use && lo <= p < lo + n ==> w.use[p].Held? && w'.use[p].Data?)
    && (forall p :: p in w.use && (w.use[p].Held? || w.use[p].Data?) ==> w'.mem[p] == w.mem[p])
  }

  ghost predicate Unmapped(w: World, root: nat, lo: nat, n: nat) {
    forall v: nat :: lo <= v < lo + n ==> Lookup(w, root, v) == 0
  }

  ghost predicate OwnsAll(w: World, root: nat, lo: nat, n: nat) {
    forall v: nat :: lo <= v < lo + n ==> Owned(w, root, v)
  }

  /** mappages's outcomes. */
  datatype Mapped = Done | NoMemory | Remap

  /** The world once a slot of a lowest table is filled. */
  ghost function Filling(w: World, s: Slot, e: nat, own: bool): World
    requires s.page in w.mem && s.idx < |w.mem[s.page]|
  {
    SetWord(w, s.page, s.idx, e).(use := if own then w.use[Ppn(e) := Data(s)] else w.use)
  }

  lemma FillSlot(w0: World, w: World, root: nat, vpn: nat, e: nat, own: bool)
    requires Valid(w0) && Valid(w) && IsRoot(w0, root) && vpn < MAXVPN && Reaches(w, root, vpn)
    requires SameMaps(w0, w) && OnlyTables(w0, w)
    requires Lookup(w, root, vpn) == 0 && IsValid(e) && IsLeaf(e)
    requires own ==> Ppn(e) in w0.use && w0.use[Ppn(e)].Held?
    ensures var s := SlotOf(w, root, vpn);
            && s.page in w.mem && |w.mem[s.page]| == ENTRIES
            && var w' := Filling(w, s, e, own);
               && Valid(w') && MapsBut(w0, w', root, vpn, e)
               && HandedOver(w0, w', Ppn(e), if own then 1 else 0)
               && (own ==> Owned(w', root, vpn))
  {
    hide Valid, Lookup, Px, HandedOver, OnlyTables, SameMaps, MapsBut;
    var s := SlotOf(w, root, vpn);
    if own { HeldSame(w0, w, Ppn(e)); }
    StaysRoot(w0, w, root);
    MapLeaf(w, root, vpn, e, own);
    PathOk(w, root, vpn);
    var w' := Filling(w, s, e, own);
    MapsButAfter(w0, w, w', root, vpn, e);
    FillHands(w0, w, s, e, own);
    if own {
      FillOwns(w, root, vpn, e);
    }
  }

  lemma FillHands(w0: World, w: World, s: Slot, e: nat, own: bool)
    requires OnlyTables(w0, w) && Sized(w) && s.page in w.use && w.use[s.page].Low? && s.idx < ENTRIES
    requires own ==> Ppn(e) in w0.use && w0.use[Ppn(e)].Held?
    ensures HandedOver(w0, Filling(w, s, e, own), Ppn(e), if own then 1 else 0)
  {
  }

  lemma FillOwns(w: World, root: nat, vpn: nat, e: nat)
    requires Valid(w) && IsRoot(w, root) && vpn < MAXVPN && Reaches(w, root, vpn)
    requires Ppn(e) in w.use && w.use[Ppn(e)].Held?
    requires SlotOf(w, root, vpn).page in w.mem && |w.mem[SlotOf(w, root, vpn).page]| == ENTRIES
    requires Valid(Filling(w, SlotOf(w, root, vpn), e, true))
    requires Lookup(Filling(w, SlotOf(w, root, vpn), e, true), root, vpn) == e && e != 0
    ensures Owned(Filling(w, SlotOf(w, root, vpn), e, true), root, vpn)
  {
    hide Valid, Lookup, Px;
    PathOk(w, root, vpn);
    PathBack(Filling(w, SlotOf(w, root, vpn), e, true), root, vpn, Tables(w, root, vpn).0, LowTable(w, root, vpn));
  }

  lemma MapsButAfter(w0: World, w: World, w': World, root: nat, vpn: nat, e: nat)
    requires SameMaps(w0, w) && MapsBut(w, w', root, vpn, e)
    ensures MapsBut(w0, w', root, vpn, e)
  {
    hide Lookup, IsRoot;
  }

  /** One more page joins a mapped range. */
  lemma RangeGrows(w0: World, w: World, w': World, root: nat, lo: nat, k: nat, ppn: nat, perm: nat)
    requires perm < 1024 && IsRoot(w0, root) && lo + k < MAXVPN
    requires MapsRange(w0, w, root, lo, k, ppn, perm) && MapsBut(w, w', root, lo + k, MakePte(ppn + k, perm))
    ensures MapsRange(w0, w', root, lo, k + 1, ppn, perm)
  {
    hide Lookup, MakePte;
  }

  lemma HandsGrow(w0: World, w: World, w': World, lo: nat, k: nat)
    requires HandedOver(w0, w, lo, k) && HandedOver(w, w', lo + k, 1)
    requires lo + k in w.use
    ensures HandedOver(w0, w', lo, k + 1)
  {
  }

  lemma NoHands(w0: World, w: World, w': World, lo: nat, ppn: nat)
    requires HandedOver(w0, w, lo, 0) && HandedOver(w, w', ppn, 0)
    ensures HandedOver(w0, w', lo, 0)
  {
  }

  /** How uvmalloc ends: the new size, no memory (the source's 0), or a panic of mappages. */
  datatype Growth = Size(sz: nat) | OutOfMemory | Panicked

  datatype Copy = Copied | CopyFailed | CopyPanicked

  /** Each of the child's pages 0..n-1 has the flags and the contents the parent's had in w0. */
  ghost predicate Copies(w0: World, w: World, parent: nat, child: nat, n: nat) {
    forall v: nat :: v < n ==>
      var p, c := Ppn(Lookup(w0, parent, v)), Ppn(Lookup(w, child, v));
      && Flags(Lookup(w, child, v)) == Flags(Lookup(w0, parent, v))
      && p in w0.mem && c in w.mem && w.mem[c] == w0.mem[p]
  }

  /** How many pages lie between two sizes. */
  function Span(oldsz: nat, newsz: nat): nat {
    if Pages(newsz) > Pages(oldsz) then Pages(newsz) - Pages(oldsz) else 0
  }

  /** Pages lo..lo+k-1 map zeroed memory the user may read, write and run. */
  ghost predicate ZeroPages(w: World, root: nat, lo: nat, k: nat) {
    forall v: nat :: lo <= v < lo + k ==>
      && Flags(Lookup(w, root, v)) == PTE_W + PTE_X + PTE_R + PTE_U + PTE_V
      && Ppn(Lookup(w, root, v)) in w.mem && w.mem[Ppn(Lookup(w, root, v))] == Filled(0)
  }

  /** PGROUNDUP(sz) / PGSIZE. */
  function Pages(sz: nat): nat { (sz + PGSIZE - 1) / PGSIZE }

  // ---- Lemmas on ranges ----

  lemma EmptyRange(w: World, root: nat, lo: nat, ppn: nat, perm: nat)
    requires Valid(w) && perm < 1024
    ensures MapsRange(w, w, root, lo, 0, ppn, perm) && HandedOver(w, w, ppn, 0) && OwnsAll(w, root, lo, 0)
  {
  }

  /** A failed last step leaves the pages mapped so far as they are. */
  lemma RangeStays(w0: World, w: World, w': World, root: nat, lo: nat, k: nat, ppn: nat, perm: nat, held: nat)
    requires perm < 1024 && IsRoot(w0, root) && (k > 0 ==> lo + k <= MAXVPN)
    requires MapsRange(w0, w, root, lo, k, ppn, perm) && SameMaps(w, w')
    requires HandedOver(w0, w, ppn, held) && OnlyTables(w, w')
    ensures MapsRange(w0, w', root, lo, k, ppn, perm) && HandedOver(w0, w', ppn, held)
  {
    hide Lookup, MakePte;
  }

  /** Pages a tree owns stay its own while others are mapped. */
  lemma OwnsStay(w: World, w': World, root: nat, lo: nat, k: nat, ppn: nat, held: nat)
    requires Valid(w) && Valid(w') && IsRoot(w, root) && OwnsAll(w, root, lo, k)
    requires k > 0 ==> lo + k <= MAXVPN
    requires HandedOver(w, w', ppn, held)
    requires forall v: nat :: lo <= v < lo + k ==> Lookup(w', root, v) == Lookup(w, root, v)
    ensures OwnsAll(w', root, lo, k)
  {
    hide Valid, Lookup, Px;
    forall v: nat | lo <= v < lo + k
      ensures Owned(w', root, v)
    {
      assert Owned(w, root, v);
      OwnedStable(w, w', root, v);
    }
  }

  lemma StillHeld(w0: World, w: World, lo: nat, k: nat, p: nat)
    requires HandedOver(w0, w, lo, k) && p in w0.use && w0.use[p].Held? && p >= lo + k
    ensures p in w.use && w.use[p].Held?
  {
  }

  /** One successful turn of mappages's loop. */
  lemma MapStep(w0: World, w: World, w': World, root: nat, lo: nat, k: nat, ppn: nat, perm: nat, own: bool)
    requires Valid(w) && Valid(w') && perm < 1024 && IsRoot(w0, root) && IsRoot(w, root) && lo + k < MAXVPN
    requires MapsRange(w0, w, root, lo, k, ppn, perm) && HandedOver(w0, w, ppn, if own then k else 0)
    requires MapsBut(w, w', root, lo + k, MakePte(ppn + k, perm)) && HandedOver(w, w', ppn + k, if own then 1 else 0)
    requires own ==> OwnsAll(w, root, lo, k) && Owned(w', root, lo + k) && ppn + k in w.use
    ensures MapsRange(w0, w', root, lo, k + 1, ppn, perm)
    ensures HandedOver(w0, w', ppn, if own then k + 1 else 0)
    ensures own ==> OwnsAll(w', root, lo, k + 1)
  {
    hide Valid, Lookup, MakePte, HandedOver, Owned;
    RangeGrows(w0, w, w', root, lo, k, ppn, perm);
    if own {
      HandsGrow(w0, w, w', ppn, k);
      OwnsStay(w, w', root, lo, k, ppn + k, 1);
    } else {
      NoHands(w0, w, w', ppn, ppn + k);
    }
  }

  lemma NextUnmapped(w0: World, w: World, root: nat, lo: nat, k: nat, ppn: nat, perm: nat)
    requires perm < 1024 && IsRoot(w0, root) && lo + k < MAXVPN && MapsRange(w0, w, root, lo, k, ppn, perm)
    requires Unmapped(w0, root, lo, k) && Lookup(w, root, lo + k) == 0
    ensures Unmapped(w0, root, lo, k + 1)
  {
    hide Lookup, MakePte;
  }

  /** A turn of mappages's loop that fails. */
  lemma MapStop(w0: World, w: World, w': World, root: nat, lo: nat, k: nat, ppn: nat, perm: nat, own: bool)
    requires Valid(w) && Valid(w') && perm < 1024 && IsRoot(w0, root) && IsRoot(w, root)
    requires k > 0 ==> lo + k <= MAXVPN
    requires MapsRange(w0, w, root, lo, k, ppn, perm) && HandedOver(w0, w, ppn, if own then k else 0)
    requires SameMaps(w, w') && OnlyTables(w, w')
    requires own ==> OwnsAll(w, root, lo, k)
    ensures MapsRange(w0, w', root, lo, k, ppn, perm)
    ensures HandedOver(w0, w', ppn, if own then k else 0)
    ensures own ==> OwnsAll(w', root, lo, k)
    ensures lo + k < MAXVPN ==> Lookup(w, root, lo + k) == Lookup(w0, root, lo + k)
  {
    hide Valid, Lookup, MakePte, Owned;
    RangeStays(w0, w, w', root, lo, k, ppn, perm, if own then k else 0);
    if own {
      OwnsStay(w, w', root, lo, k, 0, 0);
    }
  }

  // ---- Growing an address space ----

  /** From w0 to w, the tree has gained the pages lo..lo+k-1, all its own and none mapped before; the
      memory and the tables for them came from the free list, and nothing else changed. */
  ghost predicate Grew(w0: World, w: World, root: nat, lo: nat, k: nat) {
    && w.use.Keys == w0.use.Keys == w0.mem.Keys == w.mem.Keys
    && (forall r :: IsRoot(w0, r) ==> IsRoot(w, r))
    && (forall p :: p in w0.use ==> w.use[p] == w0.use[p] || (w0.use[p].Free? && Gained(w, root, lo, k, p)))
    && (forall p :: p in w0.use && (w0.use[p].Held? || w0.use[p].Data?) ==> w.mem[p] == w0.mem[p])
    && OwnsAll(w, root, lo, k) && Unmapped(w0, root, lo, k) && OthersSame(w0, w, root, lo, k)
  }

  ghost predicate Gained(w: World, root: nat, lo: nat, k: nat, p: nat)
    requires p in w.use
  {
    w.use[p].Mid? || w.use[p].Low? || (w.use[p].Data? && OwnedIn(w, root, lo, k, p))
  }

  lemma GrewNone(w: World, root: nat, lo: nat)
    requires Valid(w)
    ensures Grew(w, w, root, lo, 0)
  {
  }

  /** The world once kalloc has handed out p and its contents are set. */
  ghost function Fresh(w: World, p: nat, words: seq<nat>): World {
    World(w.mem[p := words], w.use[p := Held])
  }

  /** One more page: kalloc, fill, mappages. */
  lemma GrowStep(w0: World, w: World, w': World, root: nat, lo: nat, k: nat, p: nat, words: seq<nat>, perm: nat)
    requires Valid(w0) && Valid(w) && Valid(w') && perm < 1024 && IsRoot(w0, root) && lo + k < MAXVPN
    requires Grew(w0, w, root, lo, k) && p in w.use && w.use[p].Free? && |words| == ENTRIES
    requires MapsRange(Fresh(w, p, words), w', root, lo + k, 1, p, perm)
    requires HandedOver(Fresh(w, p, words), w', p, 1) && OwnsAll(w', root, lo + k, 1)
    requires Unmapped(Fresh(w, p, words), root, lo + k, 1)
    ensures Grew(w0, w', root, lo, k + 1)
  {
    hide Valid, Lookup, Px, MakePte, MapsRange, HandedOver, Unmapped, OthersSame, SameMaps, Fresh, OwnsAll, Gained;
    hide IsRoot;
    var v := Fresh(w, p, words);
    FreshOk(w, p, words);
    RootKept(w0, w, v, root, lo, k);
    GrowOwns(w0, w, v, w', root, lo, k, p, perm);
    GrowUses(w0, w, v, w', root, lo, k, p, perm);
    LookupSame(w, v, root, lo + k);
    GrowElse(w0, w, v, w', root, lo, k, p, perm);
    GrowRest(w0, w, v, w', root, lo, k, p, perm);
  }

  lemma RootKept(w0: World, w: World, v: World, root: nat, lo: nat, k: nat)
    requires Grew(w0, w, root, lo, k) && SameMaps(w, v) && IsRoot(w0, root)
    ensures IsRoot(w, root) && IsRoot(v, root)
  {
    hide Lookup;
  }

  /** The pages owned so far stay owned, and the next one joins them. */
  lemma GrowOwns(w0: World, w: World, v: World, w': World, root: nat, lo: nat, k: nat, p: nat, perm: nat)
    requires Valid(w) && Valid(w') && perm < 1024 && IsRoot(w, root) && IsRoot(v, root) && lo + k < MAXVPN
    requires Grew(w0, w, root, lo, k) && SameMaps(w, v) && p in w.use && w.use[p].Free? && v.use == w.use[p := Held]
    requires MapsRange(v, w', root, lo + k, 1, p, perm) && HandedOver(v, w', p, 1) && OwnsAll(w', root, lo + k, 1)
    ensures OwnsAll(w', root, lo, k + 1)
    ensures forall x: nat :: lo <= x < lo + k ==> Lookup(w', root, x) == Lookup(w, root, x)
  {
    hide Valid, Lookup, MapsRange, HandedOver, SameMaps, Owned, OthersSame, Gained, IsRoot;
    forall x: nat | lo <= x < lo + k
      ensures Owned(w', root, x) && Lookup(w', root, x) == Lookup(w, root, x)
    {
      assert Owned(w, root, x);
      GrowOwned(w, v, w', root, lo + k, x, p, perm);
    }
    assert Owned(w', root, lo + k);
  }

  /** Pages, roots and contents, one page on. */
  lemma GrowRest(w0: World, w: World, v: World, w': World, root: nat, lo: nat, k: nat, p: nat, perm: nat)
    requires Grew(w0, w, root, lo, k) && p in w.use && w.use[p].Free? && v.use == w.use[p := Held] && SameMaps(w, v)
    requires v.mem.Keys == w.mem.Keys && (forall q :: q in w.mem && q != p ==> v.mem[q] == w.mem[q]) && perm < 1024
    requires HandedOver(v, w', p, 1) && MapsRange(v, w', root, lo + k, 1, p, perm)
    ensures w'.use.Keys == w0.use.Keys == w0.mem.Keys == w'.mem.Keys
    ensures forall r :: IsRoot(w0, r) ==> IsRoot(w', r)
    ensures forall q :: q in w0.use && (w0.use[q].Held? || w0.use[q].Data?) ==> w'.mem[q] == w0.mem[q]
  {
    hide Lookup, OthersSame, Gained, MakePte, OwnsAll, Unmapped;
  }

  /** Everything outside the range stays as it was, one page on. */
  lemma GrowElse(w0: World, w: World, v: World, w': World, root: nat, lo: nat, k: nat, p: nat, perm: nat)
    requires perm < 1024 && IsRoot(w0, root) && lo + k < MAXVPN && SameMaps(w, v)
    requires Grew(w0, w, root, lo, k) && MapsRange(v, w', root, lo + k, 1, p, perm)
    requires Unmapped(v, root, lo + k, 1) && Lookup(v, root, lo + k) == Lookup(w, root, lo + k)
    ensures Unmapped(w0, root, lo, k + 1) && OthersSame(w0, w', root, lo, k + 1)
  {
    hide Lookup, MakePte, Gained, Owned;
  }

  /** A page owned before is owned after. */
  lemma GrowOwned(w: World, v: World, w': World, root: nat, next: nat, x: nat, p: nat, perm: nat)
    requires Valid(w) && Valid(w') && perm < 1024 && IsRoot(w, root) && IsRoot(v, root) && x < next < MAXVPN
    requires Owned(w, root, x) && SameMaps(w, v) && p in w.use && w.use[p].Free? && v.use == w.use[p := Held]
    requires MapsRange(v, w', root, next, 1, p, perm) && HandedOver(v, w', p, 1)
    ensures Owned(w', root, x)
    ensures Lookup(w', root, x) == Lookup(w, root, x)
  {
    hide Valid, Lookup, Px, MakePte;
    assert Lookup(w', root, x) == Lookup(v, root, x) == Lookup(w, root, x);
    OwnedStable(w, w', root, x);
  }

  /** Which pages changed hands in one more step. */
  lemma GrowUses(w0: World, w: World, v: World, w': World, root: nat, lo: nat, k: nat, p: nat, perm: nat)
    requires Grew(w0, w, root, lo, k) && p in w.use && w.use[p].Free? && v.use == w.use[p := Held]
    requires HandedOver(v, w', p, 1) && OwnsAll(w', root, lo, k + 1) && lo + k < MAXVPN && perm < 1024
    requires MapsRange(v, w', root, lo + k, 1, p, perm)
    requires forall x: nat :: lo <= x < lo + k ==> Lookup(w', root, x) == Lookup(w, root, x)
    ensures forall q :: q in w0.use ==>
              w'.use[q] == w0.use[q] || (w0.use[q].Free? && Gained(w', root, lo, k + 1, q))
  {
    hide Lookup, MakePte, Owned;
    forall q | q in w0.use && w'.use[q] != w0.use[q]
      ensures w0.use[q].Free? && Gained(w', root, lo, k + 1, q)
    {
      if q == p {
        assert Owned(w', root, lo + k) && Ppn(Lookup(w', root, lo + k)) == p;
      } else if w.use[q].Data? && OwnedIn(w, root, lo, k, q) {
        var x :| lo <= x < lo + k && x < MAXVPN && Owned(w, root, x) && Ppn(Lookup(w, root, x)) == q;
        assert Owned(w', root, x);
      }
    }
  }

  lemma FreshOk(w: World, p: nat, words: seq<nat>)
    requires Valid(w) && p in w.use && w.use[p].Free? && |words| == ENTRIES
    ensures Valid(Fresh(w, p, words)) && SameMaps(w, Fresh(w, p, words))
    ensures Fresh(w, p, words).use == w.use[p := Held] && Fresh(w, p, words).mem == w.mem[p := words]
    ensures Fresh(w, p, words).mem.Keys == w.mem.Keys
    ensures forall r :: IsRoot(w, r) ==> IsRoot(Fresh(w, p, words), r)
  {
    Rehold(w, p, Held, words);
  }

  lemma NotYet(w0: World, w: World, v: World, root: nat, lo: nat, vpn: nat)
    requires lo <= vpn && Grew(w0, w, root, lo, vpn - lo) && SameMaps(w, v) && IsRoot(w0, root) && IsRoot(w, root)
    ensures vpn < MAXVPN ==> Lookup(v, root, vpn) == Lookup(w0, root, vpn)
  {
    hide Lookup;
  }

  /** GrowStep, for the whole range and for the new page alone. */
  lemma GrowBoth(w0: World, w: World, w': World, root: nat, lo: nat, k: nat, p: nat, words: seq<nat>, perm: nat)
    requires Valid(w0) && Valid(w) && Valid(w') && perm < 1024 && IsRoot(w0, root) && IsRoot(w, root)
    requires lo + k < MAXVPN
    requires Grew(w0, w, root, lo, k) && p in w.use && w.use[p].Free? && |words| == ENTRIES
    requires MapsRange(Fresh(w, p, words), w', root, lo + k, 1, p, perm)
    requires HandedOver(Fresh(w, p, words), w', p, 1) && OwnsAll(w', root, lo + k, 1)
    requires Unmapped(Fresh(w, p, words), root, lo + k, 1)
    ensures Grew(w0, w', root, lo, k + 1) && Grew(w, w', root, lo + k, 1)
    ensures Lookup(w', root, lo + k) == MakePte(p, perm) && p in w'.mem && w'.mem[p] == words
  {
    hide Valid, Lookup, Px, MakePte, Owned, Grew, MapsRange, HandedOver, OwnsAll, Unmapped, Fresh, IsRoot;
    GrowStep(w0, w, w', root, lo, k, p, words, perm);
    GrewNone(w, root, lo + k);
    GrowStep(w, w, w', root, lo + k, 0, p, words, perm);
    NewPage(w, w', root, lo + k, p, words, perm);
  }

  lemma NewPage(w: World, w': World, root: nat, vpn: nat, p: nat, words: seq<nat>, perm: nat)
    requires perm < 1024 && MapsRange(Fresh(w, p, words), w', root, vpn, 1, p, perm)
    requires HandedOver(Fresh(w, p, words), w', p, 1) && p in w.use
    ensures Lookup(w', root, vpn) == MakePte(p, perm) && p in w'.mem && w'.mem[p] == words
  {
    hide Lookup, MakePte;
  }

  lemma BackHeld(w: World, v: World, v': World, root: nat, vpn: nat, p: nat, perm: nat)
    requires perm < 1024 && p in w.use && v.use == w.use[p := Held]
    requires HandedOver(v, v', p, 0)
    ensures p in v'.use && v'.use[p].Held?
  {
  }

  /** No page changed hands, but that free ones, other than p, may have become tables. */
  ghost predicate Stayed(w: World, w': World, p: nat) {
    && w'.use.Keys == w.use.Keys == w.mem.Keys == w'.mem.Keys && p in w.use && w'.use[p] == w.use[p]
    && (forall q :: q in w.use && q != p ==>
          w'.use[q] == w.use[q] || (w.use[q].Free? && (w'.use[q].Mid? || w'.use[q].Low?)))
    && (forall q :: q in w.use && (w.use[q].Held? || w.use[q].Data?) ==> w'.mem[q] == w.mem[q])
  }

  lemma StayPages(w: World, v: World, v': World, w': World, p: nat)
    requires p in w.use && w.use[p].Free? && w.use.Keys == w.mem.Keys
    requires v.use == w.use[p := Held] && v.mem.Keys == w.mem.Keys
    requires forall q :: q in w.mem && q != p ==> v.mem[q] == w.mem[q]
    requires HandedOver(v, v', p, 0) && w' == World(v'.mem[p := Filled(FREED_WORD)], v'.use[p := Free])
    ensures Stayed(w, w', p)
  {
  }

  lemma StayMaps(w: World, v: World, v': World, w': World, root: nat, next: nat, p: nat, perm: nat)
    requires perm < 1024 && SameMaps(w, v) && MapsRange(v, v', root, next, 0, p, perm) && SameMaps(v', w')
    ensures SameMaps(w, w')
  {
    hide Lookup, MakePte;
    forall r: nat, x: nat | IsRoot(w, r) && x < MAXVPN
      ensures Lookup(w', r, x) == Lookup(w, r, x)
    {
      assert Lookup(v, r, x) == Lookup(w, r, x) && Lookup(v', r, x) == Lookup(v, r, x);
    }
  }

  lemma StayOwned(w: World, w': World, root: nat, x: nat, p: nat)
    requires Valid(w) && Valid(w') && IsRoot(w, root) && Stayed(w, w', p) && SameMaps(w, w')
    requires Owned(w, root, x) && x < MAXVPN
    ensures Owned(w', root, x) && Lookup(w', root, x) == Lookup(w, root, x)
  {
    hide Valid, Lookup, Px;
    assert Lookup(w', root, x) == Lookup(w, root, x);
    OwnedStable(w, w', root, x);
  }

  lemma StayOthers(w0: World, w: World, w': World, root: nat, lo: nat, k: nat)
    requires Grew(w0, w, root, lo, k) && SameMaps(w, w')
    ensures OthersSame(w0, w', root, lo, k) && forall r :: IsRoot(w0, r) ==> IsRoot(w', r)
  {
    hide Lookup, Gained, OwnsAll;
  }

  /** A page that could not be mapped goes back; only tables may have been taken. */
  lemma GrowStay(w0: World, w: World, v: World, v': World, w': World, root: nat, lo: nat, k: nat, p: nat, perm: nat)
    requires Valid(w0) && Valid(w) && Valid(w') && perm < 1024 && IsRoot(w0, root) && IsRoot(w, root)
    requires Grew(w0, w, root, lo, k) && p in w.use && w.use[p].Free? && (k > 0 ==> lo + k <= MAXVPN)
    requires v.use == w.use[p := Held] && SameMaps(w, v) && v.mem.Keys == w.mem.Keys
    requires forall q :: q in w.mem && q != p ==> v.mem[q] == w.mem[q]
    requires MapsRange(v, v', root, lo + k, 0, p, perm) && HandedOver(v, v', p, 0)
    requires w' == World(v'.mem[p := Filled(FREED_WORD)], v'.use[p := Free]) && SameMaps(v', w')
    ensures Grew(w0, w', root, lo, k) && SameMaps(w, w')
  {
    hide Valid, Lookup, Px, MakePte, SameMaps, MapsRange, HandedOver, Grew, IsRoot, Filled, Stayed;
    SameKeys(w0, w, root, lo, k);
    StayPages(w, v, v', w', p);
    StayMaps(w, v, v', w', root, lo + k, p, perm);
    GrewStays(w0, w, w', root, lo, k, p);
  }

  lemma SameKeys(w0: World, w: World, root: nat, lo: nat, k: nat)
    requires Grew(w0, w, root, lo, k)
    ensures w.use.Keys == w0.use.Keys == w0.mem.Keys == w.mem.Keys
  {
  }

  lemma GrewStays(w0: World, w: World, w': World, root: nat, lo: nat, k: nat, p: nat)
    requires Valid(w) && Valid(w') && IsRoot(w, root) && (k > 0 ==> lo + k <= MAXVPN)
    requires Grew(w0, w, root, lo, k) && Stayed(w, w', p) && SameMaps(w, w')
    ensures Grew(w0, w', root, lo, k)
  {
    hide Valid, Lookup, Px, SameMaps, Owned, IsRoot, OthersSame, Gained;
    StayOthers(w0, w, w', root, lo, k);
    forall x: nat | lo <= x < lo + k
      ensures Owned(w', root, x) && Lookup(w', root, x) == Lookup(w, root, x)
    {
      assert Owned(w, root, x);
      StayOwned(w, w', root, x, p);
    }
    StayUses(w0, w, w', root, lo, k, p);
  }

  lemma StayUses(w0: World, w: World, w': World, root: nat, lo: nat, k: nat, p: nat)
    requires Grew(w0, w, root, lo, k) && Stayed(w, w', p)
    requires forall x: nat :: lo <= x < lo + k ==> Owned(w', root, x)
    requires forall x: nat :: lo <= x < lo + k ==> Lookup(w', root, x) == Lookup(w, root, x)
    ensures forall q :: q in w0.use ==>
              w'.use[q] == w0.use[q] || (w0.use[q].Free? && Gained(w', root, lo, k, q))
  {
    hide Lookup, Owned, OthersSame;
    forall q | q in w0.use && w'.use[q] != w0.use[q]
      ensures w0.use[q].Free? && Gained(w', root, lo, k, q)
    {
      if w.use[q].Data? && OwnedIn(w, root, lo, k, q) {
        var x :| lo <= x < lo + k && x < MAXVPN && Owned(w, root, x) && Ppn(Lookup(w, root, x)) == q;
        assert Owned(w', root, x);
      }
    }
  }

  lemma ZeroNone(w: World, root: nat, lo: nat)
    ensures ZeroPages(w, root, lo, 0)
  {
  }

  /** Earlier pages keep their contents when one more is added. */
  lemma ZeroNext(w: World, w': World, root: nat, lo: nat, k: nat, p: nat)
    requires Valid(w) && IsRoot(w, root) && lo + k < MAXVPN && ZeroPages(w, root, lo, k) && OwnsAll(w, root, lo, k)
    requires Grew(w, w', root, lo + k, 1)
    requires Lookup(w', root, lo + k) == MakePte(p, PTE_W + PTE_X + PTE_R + PTE_U)
    requires p in w'.mem && w'.mem[p] == Filled(0)
    ensures ZeroPages(w', root, lo, k + 1)
  {
    hide Valid, Lookup, Px;
    forall v: nat | lo <= v < lo + k
      ensures Lookup(w', root, v) == Lookup(w, root, v)
      ensures Ppn(Lookup(w, root, v)) in w.use && w'.mem[Ppn(Lookup(w, root, v))] == w.mem[Ppn(Lookup(w, root, v))]
    {
      assert Owned(w, root, v);
    }
  }

  lemma Rounded(a: nat)
    ensures a * PGSIZE / PGSIZE == a && Pages(a * PGSIZE) == a
  {
  }

  lemma GrewOwns(w0: World, w: World, root: nat, lo: nat, k: nat)
    requires Grew(w0, w, root, lo, k) && (k > 0 ==> lo + k <= MAXVPN)
    ensures OwnsAll(w, root, lo, k) && forall v: nat :: lo <= v < lo + k ==> Owned(w, root, v)
    ensures AllMapped(w, root, lo, k)
  {
    hide Lookup, Px;
    forall v: nat | lo <= v < lo + k
      ensures v < MAXVPN && Lookup(w, root, v) != 0
    {
      assert Owned(w, root, v);
    }
  }

  /** Growing and then unmapping what was gained leaves only tables behind. */
  lemma Undone(w0: World, w: World, w': World, root: nat, lo: nat, k: nat)
    requires Valid(w0) && Valid(w) && IsRoot(w0, root) && (k > 0 ==> lo + k <= MAXVPN)
    requires Grew(w0, w, root, lo, k)
    requires (k == 0 && w' == w) || (Unmaps(w, w', root, lo, k) && Releases(w, w', root, lo, k, Free))
    ensures SameMaps(w0, w') && OnlyTables(w0, w')
  {
    hide Valid, Lookup, Px;
    if k == 0 && w' == w {
      NothingReleased(w, root, lo, Free);
    }
    forall p | p in w0.use && w'.use[p] != w0.use[p]
      ensures w0.use[p].Free? && (w'.use[p].Mid? || w'.use[p].Low?)
    {
      if OwnedIn(w, root, lo, k, p) {
        NotBefore(w0, w, root, lo, k, p);
      }
    }
    forall r: nat, v: nat | IsRoot(w0, r) && v < MAXVPN
      ensures Lookup(w', r, v) == Lookup(w0, r, v)
    {
    }
  }

  /** Memory a tree gained was free before. */
  lemma NotBefore(w0: World, w: World, root: nat, lo: nat, k: nat, p: nat)
    requires Valid(w0) && Valid(w) && IsRoot(w0, root) && Grew(w0, w, root, lo, k)
    requires p in w0.use && OwnedIn(w, root, lo, k, p)
    ensures w0.use[p].Free?
  {
    hide Valid, Lookup, Px;
    var v :| lo <= v < lo + k && v < MAXVPN && Owned(w, root, v) && Ppn(Lookup(w, root, v)) == p;
    if w0.use[p] == w.use[p] {
      DataReached(w0, p);
      var r: nat, x: nat :| IsRoot(w0, r) && x < MAXVPN && Owned(w0, r, x) && Ppn(Lookup(w0, r, x)) == p;
      DataSlot(w0, w, root, lo, k, r, x, v, p);
      assert false;
    }
  }

  /** Data hanging from the same slot before and after is at the same virtual page. */
  lemma DataSlot(w0: World, w: World, root: nat, lo: nat, k: nat, r: nat, x: nat, v: nat, p: nat)
    requires Valid(w0) && Valid(w) && IsRoot(w0, root) && IsRoot(w0, r) && Grew(w0, w, root, lo, k)
    requires x < MAXVPN && v < MAXVPN && Owned(w0, r, x) && Owned(w, root, v)
    requires Ppn(Lookup(w0, r, x)) == p == Ppn(Lookup(w, root, v)) && w0.use[p] == w.use[p]
    ensures r == root && x == v
  {
    hide Valid, Lookup, Px;
    LookupSame(w0, w0, r, x) by { Unchanged(w0); }
    LookupSame(w, w, root, v) by { Unchanged(w); }
    PathOk(w0, r, x);
    PathBack(w, r, x, Tables(w0, r, x).0, LowTable(w0, r, x));
    PathUnique(w, root, v, r, x);
  }

  lemma CopyNone(w: World, parent: nat, child: nat)
    requires Valid(w)
    ensures AllMapped(w, parent, 0, 0) && Grew(w, w, child, 0, 0) && Copies(w, w, parent, child, 0)
  {
  }

  /** The parent's next page is untouched by what the child has gained. */
  lemma ParentSame(w0: World, w: World, parent: nat, child: nat, v: nat)
    requires Valid(w) && IsRoot(w0, parent) && parent != child && v < MAXVPN && Grew(w0, w, child, 0, v)
    requires Lookup(w0, parent, v) == 0 || Owned(w0, parent, v)
    ensures Lookup(w, parent, v) == Lookup(w0, parent, v)
    ensures Lookup(w, parent, v) != 0 ==>
              var p := Ppn(Lookup(w, parent, v));
              p in w0.mem && p in w.mem && w.mem[p] == w0.mem[p] && |w.mem[p]| == ENTRIES
  {
    hide Lookup, Px, EntryOk, HangsOk;
  }

  lemma LeafPerm(e: nat)
    requires IsValid(e) && IsLeaf(e)
    ensures Flags(e) < 1024 && IsLeaf(Flags(e)) && IsValid(Flags(e))
  {
    PteLow(e / 1024, e % 1024);
  }

  lemma KeepRoot(w: World, w': World, child: nat, v: nat, m: Mapped, parent: nat)
    requires IsRoot(w, parent)
    requires m.NoMemory? ==> SameMaps(w, w')
    requires m.Done? ==> Grew(w, w', child, v, 1)
    ensures !m.Remap? ==> IsRoot(w', parent)
  {
    hide Lookup;
  }

  /** One more page copied; the earlier copies keep their contents. */
  lemma CopyNext(w0: World, w: World, w': World, parent: nat, child: nat, v: nat, p: nat)
    requires Valid(w) && IsRoot(w, child) && v < MAXVPN && Grew(w0, w, child, 0, v) && Grew(w, w', child, v, 1)
    requires AllMapped(w0, parent, 0, v) && Copies(w0, w, parent, child, v)
    requires Lookup(w, parent, v) == Lookup(w0, parent, v) != 0
    requires IsValid(Flags(Lookup(w, parent, v))) && Flags(Lookup(w, parent, v)) < 1024
    requires Lookup(w', child, v) == MakePte(p, Flags(Lookup(w, parent, v))) && p in w'.mem
    requires Ppn(Lookup(w0, parent, v)) in w0.mem && w'.mem[p] == w0.mem[Ppn(Lookup(w0, parent, v))]
    ensures AllMapped(w0, parent, 0, v + 1) && Copies(w0, w', parent, child, v + 1)
  {
    hide Valid, Lookup, Px, MakePte;
    forall x: nat | x < v
      ensures Lookup(w', child, x) == Lookup(w, child, x)
      ensures Ppn(Lookup(w, child, x)) in w.use && w'.mem[Ppn(Lookup(w, child, x))] == w.mem[Ppn(Lookup(w, child, x))]
    {
      assert Owned(w, child, x);
    }
  }

  // ---- Unmapping ----

  /** The world after an entry is cleared: the tree lets go of the page, which may then be freed. */
  ghost function Dropped(w: World, s: Slot, p: nat, doFree: bool): World
    requires s.page in w.mem && s.idx < |w.mem[s.page]|
  {
    var use := Freed(w.use, s, p);
    var mem := if doFree then w.mem[p := Filled(FREED_WORD)] else w.mem;
    if s.idx < |mem[s.page]|
    then
      var row: seq<nat> := mem[s.page][s.idx := 0];
      World(mem[s.page := row], if doFree then use[p := Free] else use)
    else w
  }

  ghost predicate Drops(w: World, w': World, root: nat, vpn: nat, doFree: bool) {
    var s, p := SlotOf(w, root, vpn), Ppn(Lookup(w, root, vpn));
    s.page in w.mem && s.idx < |w.mem[s.page]| && w' == Dropped(w, s, p, doFree)
  }

  lemma LeafFlags(e: nat)
    requires IsValid(e) && IsLeaf(e)
    ensures Flags(e) != PTE_V
  {
  }

  lemma OwnedPage(w: World, root: nat, vpn: nat)
    requires Owned(w, root, vpn)
    ensures var s, p := SlotOf(w, root, vpn), Ppn(Lookup(w, root, vpn));
            Lookup(w, root, vpn) != 0 && p in w.use && w.use[p] == Data(s) && Freed(w.use, s, p) == w.use[p := Held]
  {
  }

  /** Clearing an entry, with everything it brings about. */
  lemma DropSlot(w: World, root: nat, vpn: nat, doFree: bool)
    requires Valid(w) && IsRoot(w, root) && vpn < MAXVPN && Lookup(w, root, vpn) != 0
    requires doFree ==> Owned(w, root, vpn)
    ensures var s, p := SlotOf(w, root, vpn), Ppn(Lookup(w, root, vpn));
            && s.page in w.mem && |w.mem[s.page]| == ENTRIES && (doFree ==> s.page != p)
            && Valid(Dropped(w, s, p, doFree)) && MapsBut(w, Dropped(w, s, p, doFree), root, vpn, 0)
  {
    hide EntryOk, HangsOk, Lookup, Px, SameMaps, MapsBut;
    var s, p := SlotOf(w, root, vpn), Ppn(Lookup(w, root, vpn));
    PathOk(w, root, vpn) by { LookupSame(w, w, root, vpn) by { Unchanged(w); } }
    LetGo(w, s, p);
    var w1 := w.(use := Freed(w.use, s, p));
    var w2 := if doFree then World(w1.mem[p := Filled(FREED_WORD)], w1.use[p := Free]) else w1;
    if doFree {
      Rehold(w1, p, Free, Filled(FREED_WORD));
      SameMapsTwice(w, w1, w2);
    }
    StaysRoot(w, w2, root);
    PathBack(w2, root, vpn, Tables(w, root, vpn).0, LowTable(w, root, vpn));
    LookupSame(w, w2, root, vpn);
    UnmapLeaf(w2, root, vpn);
    var w3 := Dropped(w, s, p, doFree);
    assert Freed(w2.use, s, p) == w2.use;
    assert w3 == SetWord(w2, s.page, s.idx, 0).(use := Freed(w2.use, s, p));
    MapsButAfter(w, w2, w3, root, vpn, 0);
  }

  ghost predicate AllMapped(w: World, root: nat, lo: nat, n: nat) {
    forall v: nat :: lo <= v < lo + n ==> v < MAXVPN && Lookup(w, root, v) != 0
  }

  ghost predicate Unmaps(w: World, w': World, root: nat, lo: nat, n: nat) {
    && (forall r :: IsRoot(w, r) ==> IsRoot(w', r))
    && (forall v: nat :: lo <= v < lo + n && v < MAXVPN ==> Lookup(w', root, v) == 0)
    && OthersSame(w, w', root, lo, n)
  }

  /** Page p is memory the tree owned in the range. */
  ghost predicate OwnedIn(w: World, root: nat, lo: nat, n: nat, p: nat) {
    exists v: nat :: lo <= v < lo + n && v < MAXVPN && Owned(w, root, v) && Ppn(Lookup(w, root, v)) == p
  }

  /** Exactly the pages the tree owned in the range have changed hands; held and data pages that
      have not keep their contents. */
  ghost predicate Releases(w: World, w': World, root: nat, lo: nat, n: nat, u: Use) {
    && w'.use.Keys == w.use.Keys == w.mem.Keys == w'.mem.Keys
    && (forall p :: p in w.use ==> w'.use[p] == if OwnedIn(w, root, lo, n, p) then u else w.use[p])
    && (forall p :: p in w.use && (w.use[p].Held? || w.use[p].Data?) && w'.use[p] == w.use[p] ==>
          w'.mem[p] == w.mem[p])
  }

  lemma NothingReleased(w: World, root: nat, lo: nat, u: Use)
    requires Valid(w)
    ensures Unmaps(w, w, root, lo, 0) && Releases(w, w, root, lo, 0, u)
  {
  }

  /** The page after the range unmapped so far is as it was. */
  lemma NextToDrop(w0: World, w: World, root: nat, lo: nat, k: nat, u: Use)
    requires Valid(w0) && Valid(w) && IsRoot(w0, root)
    requires Unmaps(w0, w, root, lo, k) && Releases(w0, w, root, lo, k, u) && (u.Free? || u.Held?)
    ensures lo + k < MAXVPN ==>
              && Lookup(w, root, lo + k) == Lookup(w0, root, lo + k)
              && (Owned(w, root, lo + k) <==> Owned(w0, root, lo + k))
              && (Lookup(w0, root, lo + k) != 0 ==> SlotOf(w, root, lo + k) == SlotOf(w0, root, lo + k))
  {
    hide Valid, Lookup, Px;
    var v := lo + k;
    if v < MAXVPN && Lookup(w0, root, v) != 0 {
      LookupSame(w0, w0, root, v) by { Unchanged(w0); }
      PathOk(w0, root, v);
      TablesKept(w0, w, root, lo, k, u);
      PathBack(w, root, v, Tables(w0, root, v).0, LowTable(w0, root, v));
      if Owned(w0, root, v) { NotAmong(w0, root, lo, k); }
    }
  }

  /** A page owned at the next place is none of those owned before it. */
  lemma NotAmong(w: World, root: nat, lo: nat, k: nat)
    requires Valid(w) && IsRoot(w, root) && lo + k < MAXVPN && Owned(w, root, lo + k)
    ensures !OwnedIn(w, root, lo, k, Ppn(Lookup(w, root, lo + k)))
  {
    hide Valid, Lookup, Owned;
    var p := Ppn(Lookup(w, root, lo + k));
    if OwnedIn(w, root, lo, k, p) {
      var v :| lo <= v < lo + k && v < MAXVPN && Owned(w, root, v) && Ppn(Lookup(w, root, v)) == p;
      OwnedApart(w, root, lo + k, root, v);
    }
  }

  lemma TablesKept(w0: World, w: World, root: nat, lo: nat, k: nat, u: Use)
    requires Releases(w0, w, root, lo, k, u)
    ensures forall t :: t in w0.use && w0.use[t].IsTable() ==> w.use[t] == w0.use[t]
  {
  }

  /** One more page unmapped. */
  lemma DropStep(w0: World, w: World, w': World, root: nat, lo: nat, k: nat, doFree: bool)
    requires Valid(w0) && Valid(w) && IsRoot(w0, root) && lo + k < MAXVPN && Lookup(w, root, lo + k) != 0
    requires Unmaps(w0, w, root, lo, k) && Releases(w0, w, root, lo, k, if doFree then Free else Held)
    requires MapsBut(w, w', root, lo + k, 0) && Drops(w, w', root, lo + k, doFree)
    requires Lookup(w, root, lo + k) == Lookup(w0, root, lo + k)
    requires Owned(w, root, lo + k) <==> Owned(w0, root, lo + k)
    requires doFree ==> Owned(w, root, lo + k)
    ensures Unmaps(w0, w', root, lo, k + 1)
    ensures Releases(w0, w', root, lo, k + 1, if doFree then Free else Held)
  {
    hide Valid, Lookup, Px, Releases, Drops, Owned;
    ReleaseStep(w0, w, w', root, lo, k, doFree);
  }

  lemma ReleaseStep(w0: World, w: World, w': World, root: nat, lo: nat, k: nat, doFree: bool)
    requires Valid(w) && IsRoot(w, root) && lo + k < MAXVPN && Lookup(w, root, lo + k) != 0
    requires Releases(w0, w, root, lo, k, if doFree then Free else Held)
    requires Drops(w, w', root, lo + k, doFree)
    requires Lookup(w, root, lo + k) == Lookup(w0, root, lo + k)
    requires Owned(w, root, lo + k) <==> Owned(w0, root, lo + k)
    requires doFree ==> Owned(w, root, lo + k)
    ensures Releases(w0, w', root, lo, k + 1, if doFree then Free else Held)
  {
    hide Valid, Lookup, Px, OwnedIn, Dropped, Freed, Owned;
    var s, p := SlotOf(w, root, lo + k), Ppn(Lookup(w, root, lo + k));
    LookupSame(w, w, root, lo + k) by { Unchanged(w); }
    PathOk(w, root, lo + k);
    DropUses(w, root, lo + k, doFree);
    forall q | q in w0.use
      ensures w'.use[q] == if OwnedIn(w0, root, lo, k + 1, q) then (if doFree then Free else Held) else w0.use[q]
    {
      OwnedInNext(w0, root, lo, k, q);
    }
    forall q | q in w0.use && (w0.use[q].Held? || w0.use[q].Data?) && w'.use[q] == w0.use[q]
      ensures w'.mem[q] == w0.mem[q]
    {
      assert q != s.page;
      assert w.use[q] == w0.use[q];
    }
  }

  /** What dropping an entry does to each page. */
  lemma DropUses(w: World, root: nat, vpn: nat, doFree: bool)
    requires Valid(w) && Lookup(w, root, vpn) != 0 && (doFree ==> Owned(w, root, vpn))
    requires SlotOf(w, root, vpn).page in w.use && w.use[SlotOf(w, root, vpn).page].Low?
    requires SlotOf(w, root, vpn).idx < ENTRIES
    ensures var s, p := SlotOf(w, root, vpn), Ppn(Lookup(w, root, vpn));
            var w' := Dropped(w, s, p, doFree);
            && w'.use.Keys == w.use.Keys == w'.mem.Keys
            && (forall q :: q in w.use ==>
                  w'.use[q] == if Owned(w, root, vpn) && q == p then (if doFree then Free else Held) else w.use[q])
            && (forall q :: q in w.use && q != s.page && (q == p ==> !doFree) ==> w'.mem[q] == w.mem[q])
  {
    hide Lookup, Px, EntryOk, HangsOk;
  }

  lemma OwnedInNext(w: World, root: nat, lo: nat, k: nat, q: nat)
    requires lo + k < MAXVPN
    ensures OwnedIn(w, root, lo, k + 1, q) <==>
              OwnedIn(w, root, lo, k, q) || (Owned(w, root, lo + k) && Ppn(Lookup(w, root, lo + k)) == q)
  {
    hide Owned, Lookup;
  }

  lemma LookupSame(w: World, w': World, root: nat, vpn: nat)
    requires SameMaps(w, w') && IsRoot(w, root) && vpn < MAXVPN
    ensures Lookup(w', root, vpn) == Lookup(w, root, vpn)
    ensures !Reaches(w, root, vpn) ==> Lookup(w, root, vpn) == 0
  {
  }

  lemma ReachedEntry(w: World, root: nat, vpn: nat)
    requires Valid(w) && IsRoot(w, root) && Reaches(w, root, vpn)
    ensures var s := SlotOf(w, root, vpn);
            && s.page in w.mem && s.idx < |w.mem[s.page]|
            && (IsValid(w.mem[s.page][s.idx]) <==> Lookup(w, root, vpn) != 0)
            && (Lookup(w, root, vpn) != 0 ==> Lookup(w, root, vpn) == w.mem[s.page][s.idx])
  {
    PathOk(w, root, vpn);
  }

  lemma HeldSame(w: World, w': World, p: nat)
    requires OnlyTables(w, w') && p in w.use && w.use[p].Held?
    ensures p in w'.use && w'.use[p].Held?
  {
  }

  lemma StaysRootBut(w: World, w': World, root: nat, vpn: nat, e: nat)
    requires MapsBut(w, w', root, vpn, e) && IsRoot(w, root)
    ensures IsRoot(w', root)
  {
  }
}
