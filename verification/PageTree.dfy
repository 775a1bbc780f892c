/** Sv39 page tables in physical memory, and who uses each physical page (kernel/vm.c, kernel/kalloc.c).
    Pages are named by their page number; a page is 512 64-bit words. */
module PageTree {

  const ENTRIES := 512
  const PTE_V := 1
  const PTE_R := 2
  const PTE_W := 4
  const PTE_X := 8
  const PTE_U := 16

  /** One beyond the highest virtual page number: MAXVA / PGSIZE. */
  const MAXVPN := 0x400_0000

  // ---- Page table entries ----

  predicate IsValid(e: nat) { e % 2 == 1 }

  /** Any of R, W, X: the entry maps a page instead of pointing to the next table. */
  predicate IsLeaf(e: nat) { e / 2 % 8 != 0 }

  function Ppn(e: nat): nat { e / 1024 }

  function Flags(e: nat): nat { e % 1024 }

  /** PA2PTE(pa) | perm | PTE_V. */
  function MakePte(ppn: nat, perm: nat): (e: nat)
    requires perm < 1024
    ensures IsValid(e) && Ppn(e) == ppn && Flags(e) == if IsValid(perm) then perm else perm + 1
    ensures IsLeaf(e) <==> IsLeaf(perm)
  {
    PteHigh(ppn, if perm % 2 == 1 then perm else perm + 1);
    PteLow(ppn, if perm % 2 == 1 then perm else perm + 1);
    ppn * 1024 + if perm % 2 == 1 then perm else perm + 1
  }

  lemma PteHigh(ppn: nat, f: nat)
    requires f < 1024
    ensures (ppn * 1024 + f) / 1024 == ppn && (ppn * 1024 + f) % 1024 == f
  {
  }

  lemma PteLow(ppn: nat, f: nat)
    requires f < 1024
    ensures (ppn * 1024 + f) % 2 == f % 2 && (ppn * 1024 + f) / 2 % 8 == f / 2 % 8
  {
    Halved(ppn, f);
    InEights(ppn, f / 2);
  }

  lemma Halved(ppn: nat, f: nat)
    ensures (ppn * 1024 + f) % 2 == f % 2 && (ppn * 1024 + f) / 2 == ppn * 512 + f / 2
  {
  }

  lemma InEights(ppn: nat, h: nat)
    ensures (ppn * 512 + h) % 8 == h % 8
  {
  }

  /** The index of a virtual page in the table of the given level: PX(level, va). */
  function Px(level: nat, vpn: nat): (i: nat)
    requires level <= 2
    ensures i < ENTRIES
    ensures level == 2 && vpn < MAXVPN ==> i < 256
  {
    if level == 0 then vpn % 512 else if level == 1 then vpn / 512 % 512 else vpn / 0x4_0000 % 512
  }

  /** The three indices determine the page, below MAXVA. */
  lemma PxInjective(v: nat, w: nat)
    requires v < MAXVPN && w < MAXVPN
    requires Px(2, v) == Px(2, w) && Px(1, v) == Px(1, w) && Px(0, v) == Px(0, w)
    ensures v == w
  {
    assert v / 0x4_0000 == v / 512 / 512 && w / 0x4_0000 == w / 512 / 512;
  }

  /** The indices are the three 9-bit fields of the page number. */
  lemma PxFields(a: nat, b: nat, c: nat)
    requires a < 512 && b < 512 && c < 512
    ensures var vpn := a * 0x4_0000 + b * 0x200 + c; Px(2, vpn) == a && Px(1, vpn) == b && Px(0, vpn) == c
  {
    var vpn := a * 0x4_0000 + b * 0x200 + c;
    assert vpn / 512 == a * 512 + b && vpn / 0x4_0000 == a;
  }

  // ---- Who uses a page ----

  datatype Slot = Slot(page: nat, idx: nat)

  /** Free pages are on the free list; Held pages belong to a caller of kalloc; every other page is the
      root of a tree or hangs from exactly one slot of the table above it. */
  datatype Use = Free | Held | Root | Mid(up: Slot) | Low(up: Slot) | Data(up: Slot)
  {
    predicate IsTable() { Root? || Mid? || Low? }
  }

  datatype World = World(mem: map<nat, seq<nat>>, use: map<nat, Use>)
  {
    /** A word of a page; 0 outside memory. */
    function At(t: nat, k: nat): nat {
      if t in mem && k < |mem[t]| then mem[t][k] else 0
    }
  }

  /** A valid entry of an upper table leads to a table of the next level that hangs from it; a valid
      entry of a lowest table maps a page. */
  ghost predicate EntryOk(w: World, t: nat, k: nat)
    requires t in w.use
  {
    var e := w.At(t, k);
    IsValid(e) ==>
      match w.use[t]
      case Root => Flags(e) == PTE_V && Ppn(e) in w.use && w.use[Ppn(e)] == Mid(Slot(t, k))
      case Mid(_) => Flags(e) == PTE_V && Ppn(e) in w.use && w.use[Ppn(e)] == Low(Slot(t, k))
      case Low(_) => IsLeaf(e)
      case _ => true
  }

  /** The slot a page hangs from is in a table of the right level and names the page; addresses stop
      at MAXVA, halfway through the root table. */
  ghost predicate HangsOk(w: World, p: nat)
    requires p in w.use
  {
    match w.use[p]
    case Mid(s) => PointsTo(w, s, p) && w.use[s.page].Root? && s.idx < 256 && Flags(w.At(s.page, s.idx)) == PTE_V
    case Low(s) => PointsTo(w, s, p) && w.use[s.page].Mid? && Flags(w.At(s.page, s.idx)) == PTE_V
    case Data(s) => PointsTo(w, s, p) && w.use[s.page].Low?
    case _ => true
  }

  ghost predicate PointsTo(w: World, s: Slot, p: nat) {
    s.page in w.use && s.idx < ENTRIES && IsValid(w.At(s.page, s.idx)) && Ppn(w.At(s.page, s.idx)) == p
  }

  ghost predicate Sized(w: World) {
    w.mem.Keys == w.use.Keys && forall p :: p in w.mem ==> |w.mem[p]| == ENTRIES
  }

  ghost predicate Valid(w: World) {
    && Sized(w)
    && (forall t: nat, k: nat :: t in w.use && w.use[t].IsTable() && k < ENTRIES ==> EntryOk(w, t, k))
    && (forall p :: p in w.use ==> HangsOk(w, p))
  }

  ghost predicate IsRoot(w: World, root: nat) { root in w.use && w.use[root].Root? }

  // ---- What a tree maps ----

  /** The lowest table on the way to a page, if the tables above it exist. */
  function Tables(w: World, root: nat, vpn: nat): (nat, nat, nat) {
    var e2 := w.At(root, Px(2, vpn));
    if !IsValid(e2) then (0, 0, 2) else
    var e1 := w.At(Ppn(e2), Px(1, vpn));
    if !IsValid(e1) then (Ppn(e2), 0, 1) else
    (Ppn(e2), Ppn(e1), 0)
  }

  /** The tables above the page exist. */
  predicate Reaches(w: World, root: nat, vpn: nat) { Tables(w, root, vpn).2 == 0 }

  function LowTable(w: World, root: nat, vpn: nat): nat { Tables(w, root, vpn).1 }

  /** The abstract map of a tree: the entry that maps a virtual page, or 0. */
  function Lookup(w: World, root: nat, vpn: nat): nat {
    if Reaches(w, root, vpn) && IsValid(w.At(LowTable(w, root, vpn), Px(0, vpn)))
    then w.At(LowTable(w, root, vpn), Px(0, vpn)) else 0
  }

  /** An address is looked up field by field, and every entry on the way has to be valid. */
  lemma LookupFields(w: World, root: nat, a: nat, b: nat, c: nat)
    requires a < 512 && b < 512 && c < 512
    ensures var e2 := w.At(root, a);
            var e1 := w.At(Ppn(e2), b);
            var e0 := w.At(Ppn(e1), c);
            Lookup(w, root, a * 0x4_0000 + b * 0x200 + c) ==
            if IsValid(e2) && IsValid(e1) && IsValid(e0) then e0 else 0
  {
    hide Px;
    PxFields(a, b, c);
  }

  /** The tables on the way to a page hang one from the other. */
  lemma PathOk(w: World, root: nat, vpn: nat)
    requires Valid(w) && IsRoot(w, root) && Reaches(w, root, vpn)
    ensures var (mid, low, _) := Tables(w, root, vpn);
            && mid in w.use && w.use[mid] == Mid(Slot(root, Px(2, vpn)))
            && low in w.use && w.use[low] == Low(Slot(mid, Px(1, vpn)))
  {
    assert EntryOk(w, root, Px(2, vpn));
    assert EntryOk(w, Ppn(w.At(root, Px(2, vpn))), Px(1, vpn));
  }

  /** No table is shared: a slot of a lowest table belongs to one page of one tree. */
  lemma PathUnique(w: World, root: nat, vpn: nat, root': nat, vpn': nat)
    requires Valid(w) && IsRoot(w, root) && IsRoot(w, root')
    requires vpn < MAXVPN && vpn' < MAXVPN
    requires Reaches(w, root, vpn) && Reaches(w, root', vpn')
    requires LowTable(w, root, vpn) == LowTable(w, root', vpn') && Px(0, vpn) == Px(0, vpn')
    ensures root == root' && vpn == vpn'
  {
    PathOk(w, root, vpn);
    PathOk(w, root', vpn');
    PxInjective(vpn, vpn');
  }

  /** Every valid entry found in a tree is a leaf. */
  lemma LookupLeaf(w: World, root: nat, vpn: nat)
    requires Valid(w) && IsRoot(w, root) && Lookup(w, root, vpn) != 0
    ensures IsValid(Lookup(w, root, vpn)) && IsLeaf(Lookup(w, root, vpn))
  {
    PathOk(w, root, vpn);
    assert EntryOk(w, LowTable(w, root, vpn), Px(0, vpn));
  }

  // ---- The transitions ----

  ghost function SetWord(w: World, t: nat, k: nat, e: nat): World
    requires t in w.mem && k < |w.mem[t]|
  {
    var row: seq<nat> := w.mem[t][k := e];
    w.(mem := w.mem[t := row])
  }

  /** Trees map the same pages. */
  ghost predicate SameMaps(w: World, w': World) {
    && (forall root :: IsRoot(w, root) ==> IsRoot(w', root))
    && (forall root: nat, vpn: nat :: IsRoot(w, root) && vpn < MAXVPN ==>
          Lookup(w', root, vpn) == Lookup(w, root, vpn))
  }

  /** Trees map the same pages but for one page of one tree, which has the entry e. */
  ghost predicate MapsBut(w: World, w': World, root: nat, vpn: nat, e: nat) {
    && (forall root :: IsRoot(w, root) ==> IsRoot(w', root))
    && Lookup(w', root, vpn) == e
    && (forall root': nat, vpn': nat :: IsRoot(w, root') && vpn' < MAXVPN && (root', vpn') != (root, vpn) ==>
          Lookup(w', root', vpn') == Lookup(w, root', vpn'))
  }

  /** Pages that are neither free nor in a tree may change hands, and contents, freely. */
  lemma Rehold(w: World, p: nat, u: Use, words: seq<nat>)
    requires Valid(w) && p in w.use && (w.use[p].Free? || w.use[p].Held?) && (u.Free? || u.Held?)
    requires |words| == ENTRIES
    ensures var w' := World(w.mem[p := words], w.use[p := u]); Valid(w') && SameMaps(w, w')
  {
    var w' := World(w.mem[p := words], w.use[p := u]);
    forall t: nat, k: nat | t in w'.use && w'.use[t].IsTable() && k < ENTRIES
      ensures EntryOk(w', t, k)
    {
      assert EntryOk(w, t, k);
    }
    forall q | q in w'.use
      ensures HangsOk(w', q)
    {
      assert HangsOk(w, q);
    }
    forall root: nat, vpn: nat | IsRoot(w, root) && vpn < MAXVPN
      ensures Lookup(w', root, vpn) == Lookup(w, root, vpn)
    {
      RootEntry(w, root, vpn);
    }
  }

  /** The upper part of a walk stays among the tables of the tree. */
  lemma RootEntry(w: World, root: nat, vpn: nat)
    requires Valid(w) && IsRoot(w, root)
    ensures var e2 := w.At(root, Px(2, vpn));
            IsValid(e2) ==>
              && Ppn(e2) in w.use && w.use[Ppn(e2)] == Mid(Slot(root, Px(2, vpn)))
              && var e1 := w.At(Ppn(e2), Px(1, vpn));
                 IsValid(e1) ==> Ppn(e1) in w.use && w.use[Ppn(e1)] == Low(Slot(Ppn(e2), Px(1, vpn)))
  {
    assert EntryOk(w, root, Px(2, vpn));
    var e2 := w.At(root, Px(2, vpn));
    if IsValid(e2) {
      assert EntryOk(w, Ppn(e2), Px(1, vpn));
    }
  }

  /** The table one level below t that hangs from slot k. */
  function Below(u: Use, s: Slot): Use {
    if u.Root? then Mid(s) else Low(s)
  }

  /** walk puts a zeroed page into an empty slot of an upper table. */
  lemma LinkTable(w: World, t: nat, k: nat, c: nat)
    requires Valid(w) && t in w.use && (w.use[t].Root? || w.use[t].Mid?)
    requires k < if w.use[t].Root? then 256 else ENTRIES
    requires !IsValid(w.At(t, k)) && c in w.use && w.use[c].Held?
    requires forall i: nat :: i < ENTRIES ==> w.At(c, i) == 0
    ensures var w' := SetWord(w, t, k, MakePte(c, 0)).(use := w.use[c := Below(w.use[t], Slot(t, k))]);
            Valid(w') && SameMaps(w, w')
  {
    hide EntryOk, HangsOk, MakePte, Lookup;
    var w' := SetWord(w, t, k, MakePte(c, 0)).(use := w.use[c := Below(w.use[t], Slot(t, k))]);
    LinkEntries(w, t, k, c);
    LinkHangs(w, t, k, c);
    forall root: nat, vpn: nat | IsRoot(w, root) && vpn < MAXVPN
      ensures Lookup(w', root, vpn) == Lookup(w, root, vpn)
    {
      LinkLookup(w, t, k, c, root, vpn);
    }
  }

  lemma LinkEntries(w: World, t: nat, k: nat, c: nat)
    requires Valid(w) && t in w.use && (w.use[t].Root? || w.use[t].Mid?)
    requires k < if w.use[t].Root? then 256 else ENTRIES
    requires !IsValid(w.At(t, k)) && c in w.use && w.use[c].Held?
    requires forall i: nat :: i < ENTRIES ==> w.At(c, i) == 0
    ensures var w' := SetWord(w, t, k, MakePte(c, 0)).(use := w.use[c := Below(w.use[t], Slot(t, k))]);
            forall u: nat, i: nat :: u in w'.use && w'.use[u].IsTable() && i < ENTRIES ==> EntryOk(w', u, i)
  {
    hide MakePte, HangsOk;
    var w' := SetWord(w, t, k, MakePte(c, 0)).(use := w.use[c := Below(w.use[t], Slot(t, k))]);
    forall u: nat, i: nat | u in w'.use && w'.use[u].IsTable() && i < ENTRIES
      ensures EntryOk(w', u, i)
    {
      if u == c {
        assert w'.At(c, i) == w.At(c, i);
      } else if (u, i) != (t, k) {
        assert EntryOk(w, u, i);
        assert w'.At(u, i) == w.At(u, i);
      }
    }
  }

  /** A new table is empty, so it maps nothing. */
  lemma LinkLookup(w: World, t: nat, k: nat, c: nat, root: nat, vpn: nat)
    requires Valid(w) && t in w.use && (w.use[t].Root? || w.use[t].Mid?)
    requires k < if w.use[t].Root? then 256 else ENTRIES
    requires !IsValid(w.At(t, k)) && c in w.use && w.use[c].Held?
    requires forall i: nat :: i < ENTRIES ==> w.At(c, i) == 0
    requires IsRoot(w, root)
    ensures var w' := SetWord(w, t, k, MakePte(c, 0)).(use := w.use[c := Below(w.use[t], Slot(t, k))]);
            Lookup(w', root, vpn) == Lookup(w, root, vpn)
  {
    hide MakePte, Px;
    var w' := SetWord(w, t, k, MakePte(c, 0)).(use := w.use[c := Below(w.use[t], Slot(t, k))]);
    RootEntry(w, root, vpn);
    assert forall u: nat, i: nat :: u != t || i != k ==> w'.At(u, i) == w.At(u, i);
    assert forall i: nat :: i < ENTRIES ==> w'.At(c, i) == w.At(c, i);
    if root == t && Px(2, vpn) == k {
      assert w'.At(root, Px(2, vpn)) == MakePte(c, 0);
    } else if IsValid(w.At(root, Px(2, vpn))) {
      var mid := Ppn(w.At(root, Px(2, vpn)));
      if mid == t && Px(1, vpn) == k {
        assert w'.At(mid, Px(1, vpn)) == MakePte(c, 0);
      }
    }
  }

  lemma LinkHangs(w: World, t: nat, k: nat, c: nat)
    requires Valid(w) && t in w.use && (w.use[t].Root? || w.use[t].Mid?)
    requires k < if w.use[t].Root? then 256 else ENTRIES
    requires !IsValid(w.At(t, k)) && c in w.use && w.use[c].Held?
    ensures var w' := SetWord(w, t, k, MakePte(c, 0)).(use := w.use[c := Below(w.use[t], Slot(t, k))]);
            forall p :: p in w'.use ==> HangsOk(w', p)
  {
    var w' := SetWord(w, t, k, MakePte(c, 0)).(use := w.use[c := Below(w.use[t], Slot(t, k))]);
    forall p | p in w'.use
      ensures HangsOk(w', p)
    {
      if p != c {
        assert HangsOk(w, p);
      }
    }
  }

  lemma LeafSlot(w: World, s: Slot, e: nat, own: bool)
    requires Valid(w) && s.page in w.use && w.use[s.page].Low? && s.idx < ENTRIES && !IsValid(w.At(s.page, s.idx))
    requires IsValid(e) && IsLeaf(e) && (own ==> Ppn(e) in w.use && w.use[Ppn(e)].Held?)
    ensures Valid(SetWord(w, s.page, s.idx, e).(use := if own then w.use[Ppn(e) := Data(s)] else w.use))
  {
    var w' := SetWord(w, s.page, s.idx, e).(use := if own then w.use[Ppn(e) := Data(s)] else w.use);
    forall u: nat, i: nat | u in w'.use && w'.use[u].IsTable() && i < ENTRIES
      ensures EntryOk(w', u, i)
    {
      assert EntryOk(w, u, i);
    }
    forall p | p in w'.use
      ensures HangsOk(w', p)
    {
      assert HangsOk(w, p);
    }
  }

  /** mappages fills an empty slot of a lowest table; the page becomes the tree's if it was handed over. */
  lemma MapLeaf(w: World, root: nat, vpn: nat, e: nat, own: bool)
    requires Valid(w) && IsRoot(w, root) && vpn < MAXVPN && Reaches(w, root, vpn)
    requires Lookup(w, root, vpn) == 0 && IsValid(e) && IsLeaf(e)
    requires own ==> Ppn(e) in w.use && w.use[Ppn(e)].Held?
    ensures LowTable(w, root, vpn) in w.use && Sized(w)
    ensures var s := Slot(LowTable(w, root, vpn), Px(0, vpn));
            var w' := SetWord(w, s.page, s.idx, e).(use := if own then w.use[Ppn(e) := Data(s)] else w.use);
            Valid(w') && MapsBut(w, w', root, vpn, e)
  {
    PathOk(w, root, vpn);
    var s := Slot(LowTable(w, root, vpn), Px(0, vpn));
    var w' := SetWord(w, s.page, s.idx, e).(use := if own then w.use[Ppn(e) := Data(s)] else w.use);
    LeafSlot(w, s, e, own);
    LeafChanged(w, w', root, vpn, e);
  }

  /** Writing one slot of a lowest table changes what one page of one tree maps to, and nothing else. */
  lemma LeafChanged(w: World, w': World, root: nat, vpn: nat, e: nat)
    requires Valid(w) && IsRoot(w, root) && vpn < MAXVPN && Reaches(w, root, vpn)
    requires IsValid(e) || e == 0
    requires LowTable(w, root, vpn) in w.mem && Sized(w)
    requires w'.mem == SetWord(w, LowTable(w, root, vpn), Px(0, vpn), e).mem
    requires w'.use.Keys == w.use.Keys
    requires forall t :: t in w.use && w.use[t].IsTable() ==> w'.use[t] == w.use[t]
    ensures MapsBut(w, w', root, vpn, e)
  {
    PathOk(w, root, vpn);
    forall root': nat, vpn': nat | IsRoot(w, root') && vpn' < MAXVPN && (root', vpn') != (root, vpn)
      ensures Lookup(w', root', vpn') == Lookup(w, root', vpn')
    {
      RootEntry(w, root', vpn');
      if Reaches(w, root', vpn') && LowTable(w, root', vpn') == LowTable(w, root, vpn) && Px(0, vpn') == Px(0, vpn) {
        PathUnique(w, root, vpn, root', vpn');
      }
    }
  }

  /** uvmunmap empties a slot of a lowest table; a page the tree owned is back in the caller's hands. */
  lemma UnmapLeaf(w: World, root: nat, vpn: nat)
    requires Valid(w) && IsRoot(w, root) && vpn < MAXVPN && Lookup(w, root, vpn) != 0
    ensures LowTable(w, root, vpn) in w.use && Sized(w)
    ensures var s := Slot(LowTable(w, root, vpn), Px(0, vpn));
            var p := Ppn(Lookup(w, root, vpn));
            var w' := SetWord(w, s.page, s.idx, 0).(use := Freed(w.use, s, p));
            Valid(w') && MapsBut(w, w', root, vpn, 0)
  {
    PathOk(w, root, vpn);
    var s := Slot(LowTable(w, root, vpn), Px(0, vpn));
    var p := Ppn(Lookup(w, root, vpn));
    var w' := SetWord(w, s.page, s.idx, 0).(use := Freed(w.use, s, p));
    EmptySlot(w, s, p);
    LeafChanged(w, w', root, vpn, 0);
  }

  lemma EmptySlot(w: World, s: Slot, p: nat)
    requires Valid(w) && s.page in w.use && w.use[s.page].Low? && s.idx < ENTRIES
    requires IsValid(w.At(s.page, s.idx)) && Ppn(w.At(s.page, s.idx)) == p
    ensures Valid(SetWord(w, s.page, s.idx, 0).(use := Freed(w.use, s, p)))
  {
    var w' := SetWord(w, s.page, s.idx, 0).(use := Freed(w.use, s, p));
    forall u: nat, i: nat | u in w'.use && w'.use[u].IsTable() && i < ENTRIES
      ensures EntryOk(w', u, i)
    {
      assert EntryOk(w, u, i);
    }
    hide EntryOk;
    forall q | q in w'.use
      ensures HangsOk(w', q)
    {
      assert HangsOk(w, q);
      EmptyHangs(w, s, p, q);
    }
    hide HangsOk;
  }

  lemma EmptyHangs(w: World, s: Slot, p: nat, q: nat)
    requires Sized(w) && s.page in w.use && w.use[s.page].Low? && s.idx < ENTRIES
    requires IsValid(w.At(s.page, s.idx)) && Ppn(w.At(s.page, s.idx)) == p && q in w.use && HangsOk(w, q)
    ensures HangsOk(SetWord(w, s.page, s.idx, 0).(use := Freed(w.use, s, p)), q)
  {
  }

  /** The tree lets go of page p if p hung from slot s. */
  function Freed(use: map<nat, Use>, s: Slot, p: nat): map<nat, Use> {
    if p in use && use[p] == Data(s) then use[p := Held] else use
  }

  // ---- Ownership of mapped pages ----

  ghost function SlotOf(w: World, root: nat, vpn: nat): Slot { Slot(LowTable(w, root, vpn), Px(0, vpn)) }

  /** The tree maps the page and the mapped memory is its own. */
  ghost predicate Owned(w: World, root: nat, vpn: nat) {
    var p := Ppn(Lookup(w, root, vpn));
    Lookup(w, root, vpn) != 0 && p in w.use && w.use[p] == Data(SlotOf(w, root, vpn))
  }

  /** A chain of hanging tables is what a walk finds. */
  lemma PathBack(w: World, root: nat, vpn: nat, mid: nat, low: nat)
    requires Valid(w) && IsRoot(w, root) && mid in w.use && low in w.use
    requires w.use[mid] == Mid(Slot(root, Px(2, vpn))) && w.use[low] == Low(Slot(mid, Px(1, vpn)))
    ensures Reaches(w, root, vpn) && LowTable(w, root, vpn) == low
  {
    hide Px;
    assert HangsOk(w, mid) && HangsOk(w, low);
  }

  /** Trees whose tables stay in place keep their slots, and with them what they own. */
  lemma OwnedStable(w: World, w': World, root: nat, vpn: nat)
    requires Valid(w) && Valid(w') && IsRoot(w, root) && vpn < MAXVPN && Owned(w, root, vpn)
    requires w'.use.Keys == w.use.Keys
    requires forall t :: t in w.use && w.use[t].IsTable() ==> w'.use[t] == w.use[t]
    requires Lookup(w', root, vpn) == Lookup(w, root, vpn)
    requires w'.use[Ppn(Lookup(w, root, vpn))] == w.use[Ppn(Lookup(w, root, vpn))]
    ensures Owned(w', root, vpn)
  {
    hide Px;
    PathOk(w, root, vpn);
    PathBack(w', root, vpn, Tables(w, root, vpn).0, LowTable(w, root, vpn));
  }

  /** Pages owned at different places are different. */
  lemma OwnedApart(w: World, root: nat, vpn: nat, root': nat, vpn': nat)
    requires Valid(w) && IsRoot(w, root) && IsRoot(w, root') && vpn < MAXVPN && vpn' < MAXVPN
    requires Owned(w, root, vpn) && Owned(w, root', vpn')
    requires Ppn(Lookup(w, root, vpn)) == Ppn(Lookup(w, root', vpn'))
    ensures root == root' && vpn == vpn'
  {
    PathUnique(w, root, vpn, root', vpn');
  }

  /** Every page a tree owns is mapped somewhere in it. */
  lemma DataReached(w: World, p: nat)
    requires Valid(w) && p in w.use && w.use[p].Data?
    ensures exists root: nat, vpn: nat :: IsRoot(w, root) && vpn < MAXVPN && Owned(w, root, vpn)
                                          && Ppn(Lookup(w, root, vpn)) == p
  {
    assert HangsOk(w, p);
    var s0 := w.use[p].up;
    assert HangsOk(w, s0.page);
    var s1 := w.use[s0.page].up;
    assert HangsOk(w, s1.page);
    var s2 := w.use[s1.page].up;
    var vpn := s2.idx * 0x4_0000 + s1.idx * 512 + s0.idx;
    PxOf(s2.idx, s1.idx, s0.idx);
    PathBack(w, s2.page, vpn, s1.page, s0.page);
    assert Owned(w, s2.page, vpn);
  }

  lemma PxOf(i: nat, j: nat, k: nat)
    requires i < 256 && j < 512 && k < 512
    ensures var v := i * 0x4_0000 + j * 512 + k;
            v < MAXVPN && Px(2, v) == i && Px(1, v) == j && Px(0, v) == k
  {
    var v := i * 0x4_0000 + j * 512 + k;
    assert v / 512 == i * 512 + j;
    assert v / 0x4_0000 == i;
  }

  lemma SameMem(w: World, w': World, root: nat, vpn: nat)
    requires w'.mem == w.mem
    ensures Lookup(w', root, vpn) == Lookup(w, root, vpn)
  {
  }

  /** A tree may give up a page while it still maps it: the first half of unmapping. */
  lemma LetGo(w: World, s: Slot, p: nat)
    requires Valid(w)
    ensures Valid(w.(use := Freed(w.use, s, p))) && SameMaps(w, w.(use := Freed(w.use, s, p)))
  {
    var w' := w.(use := Freed(w.use, s, p));
    forall root: nat, vpn: nat
      ensures Lookup(w', root, vpn) == Lookup(w, root, vpn)
    {
      SameMem(w, w', root, vpn);
    }
    hide Lookup;
    forall t: nat, k: nat | t in w'.use && w'.use[t].IsTable() && k < ENTRIES
      ensures EntryOk(w', t, k)
    {
      assert EntryOk(w, t, k);
    }
    forall q | q in w'.use
      ensures HangsOk(w', q)
    {
      assert HangsOk(w, q);
    }
  }

  lemma NewRootOk(w: World, p: nat, words: seq<nat>)
    requires Valid(w) && p in w.use && w.use[p].Held? && |words| == ENTRIES
    requires forall k :: 0 <= k < ENTRIES ==> words[k] == 0
    ensures Valid(World(w.mem[p := words], w.use[p := Root]))
  {
    var w' := World(w.mem[p := words], w.use[p := Root]);
    forall t: nat, k: nat | t in w'.use && w'.use[t].IsTable() && k < ENTRIES
      ensures EntryOk(w', t, k)
    {
      if t != p { assert EntryOk(w, t, k); }
    }
    hide EntryOk;
    forall q | q in w'.use
      ensures HangsOk(w', q)
    {
      assert HangsOk(w, q);
    }
    hide HangsOk;
  }

  /** A zeroed page nobody uses becomes the root of a tree that maps nothing. */
  lemma NewRoot(w: World, p: nat, words: seq<nat>)
    requires Valid(w) && p in w.use && w.use[p].Held? && |words| == ENTRIES
    requires forall k :: 0 <= k < ENTRIES ==> words[k] == 0
    ensures var w' := World(w.mem[p := words], w.use[p := Root]);
            && Valid(w') && IsRoot(w', p) && SameMaps(w, w')
            && (forall vpn: nat :: vpn < MAXVPN ==> Lookup(w', p, vpn) == 0)
  {
    NewRootOk(w, p, words);
    var w' := World(w.mem[p := words], w.use[p := Root]);
    assert Sized(w);
    hide Valid, Px;
    forall root: nat, vpn: nat | IsRoot(w, root) && vpn < MAXVPN
      ensures Lookup(w', root, vpn) == Lookup(w, root, vpn)
    {
      RootEntry(w, root, vpn);
    }
  }

  /** Every managed page is in exactly one place: a page some tree maps as its own is mapped so at
      exactly one address of exactly one tree. */
  lemma OnePlace(w: World, p: nat)
    requires Valid(w) && p in w.use
    ensures w.use[p].Data? <==>
              exists root: nat, vpn: nat :: IsRoot(w, root) && vpn < MAXVPN && Owned(w, root, vpn)
                                            && Ppn(Lookup(w, root, vpn)) == p
    ensures forall root: nat, vpn: nat, root': nat, vpn': nat ::
              && IsRoot(w, root) && vpn < MAXVPN && Owned(w, root, vpn) && Ppn(Lookup(w, root, vpn)) == p
              && IsRoot(w, root') && vpn' < MAXVPN && Owned(w, root', vpn') && Ppn(Lookup(w, root', vpn')) == p
              ==> root == root' && vpn == vpn'
  {
    hide Valid, Lookup, IsRoot;
    if w.use[p].Data? { DataReached(w, p); }
    forall root: nat, vpn: nat, root': nat, vpn': nat |
      && IsRoot(w, root) && vpn < MAXVPN && Owned(w, root, vpn) && Ppn(Lookup(w, root, vpn)) == p
      && IsRoot(w, root') && vpn' < MAXVPN && Owned(w, root', vpn') && Ppn(Lookup(w, root', vpn')) == p
      ensures root == root' && vpn == vpn'
    {
      OwnedApart(w, root, vpn, root', vpn');
    }
  }
}
