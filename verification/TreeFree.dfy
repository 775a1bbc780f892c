/** Tearing a tree of page tables down, table by table (kernel/vm.c). */
module TreeFree {
  import opened PageTree

  /** Everything Valid says but for one slot, whose table has just been freed. */
  ghost predicate ValidBut(w: World, s: Slot) {
    && Sized(w)
    && (forall t: nat, k: nat :: t in w.use && w.use[t].IsTable() && k < ENTRIES && Slot(t, k) != s ==> EntryOk(w, t, k))
    && (forall p :: p in w.use ==> HangsOk(w, p))
  }

  ghost predicate NoEntries(w: World, t: nat) {
    forall k: nat :: k < ENTRIES ==> !IsValid(w.At(t, k))
  }

  ghost function WithFreed(w: World, t: nat, words: seq<nat>): World {
    World(w.mem[t := words], w.use[t := Free])
  }

  /** An empty table can be freed: nothing hangs from it, and only its own slot still names it. */
  lemma FreeTable(w: World, t: nat, words: seq<nat>)
    requires Valid(w) && t in w.use && w.use[t].IsTable() && NoEntries(w, t) && |words| == ENTRIES
    ensures w.use[t].Root? ==> Valid(WithFreed(w, t, words))
    ensures !w.use[t].Root? ==> ValidBut(WithFreed(w, t, words), w.use[t].up)
  {
    var w' := WithFreed(w, t, words);
    forall u: nat, k: nat | u in w'.use && w'.use[u].IsTable() && k < ENTRIES
                            && (w.use[t].Root? || Slot(u, k) != w.use[t].up)
      ensures EntryOk(w', u, k)
    {
      assert EntryOk(w, u, k);
    }
    forall p | p in w'.use
      ensures HangsOk(w', p)
    {
      assert HangsOk(w, p);
    }
  }

  /** Clearing the slot of a freed table makes the tree whole again. */
  lemma ClearSlot(w: World, s: Slot)
    requires ValidBut(w, s) && s.page in w.use && (w.use[s.page].Root? || w.use[s.page].Mid?) && s.idx < ENTRIES
    requires Ppn(w.At(s.page, s.idx)) in w.use && w.use[Ppn(w.At(s.page, s.idx))].Free?
    ensures Valid(SetWord(w, s.page, s.idx, 0))
  {
    var w' := SetWord(w, s.page, s.idx, 0);
    forall u: nat, k: nat | u in w'.use && w'.use[u].IsTable() && k < ENTRIES
      ensures EntryOk(w', u, k)
    {
      assert Slot(u, k) != s ==> EntryOk(w, u, k) && w'.At(u, k) == w.At(u, k);
    }
    forall p | p in w'.use
      ensures HangsOk(w', p)
    {
      assert HangsOk(w, p);
    }
  }

  // ---- The tables below a table ----

  datatype Via = None | Through(idx: nat)

  /** The slot of table t below which table p hangs. */
  ghost function SlotAbove(use: map<nat, Use>, t: nat, p: nat): Via {
    if p in use && (use[p].Mid? || use[p].Low?) then
      var m := use[p].up.page;
      if m == t then Through(use[p].up.idx)
      else if use[p].Low? && m in use && use[m].Mid? && use[m].up.page == t then Through(use[m].up.idx)
      else None
    else None
  }

  ghost predicate Before(v: Via, i: nat) { v.Through? && v.idx < i }

  ghost predicate Under(use: map<nat, Use>, t: nat, p: nat) { p == t || SlotAbove(use, t, p).Through? }

  /** No table at or below t maps a page. */
  ghost predicate NoLeaf(w: World, t: nat) {
    forall p: nat, k: nat :: p in w.use && w.use[p].Low? && Under(w.use, t, p) && k < ENTRIES ==> !IsValid(w.At(p, k))
  }

  /** Exactly the tables at and below t are now free; every other page is as it was. */
  ghost predicate Felled(w: World, w': World, t: nat) {
    && w'.use.Keys == w.use.Keys == w.mem.Keys == w'.mem.Keys
    && (forall p :: p in w.use ==> w'.use[p] == if Under(w.use, t, p) then Free else w.use[p])
    && (forall p :: p in w.use && !Under(w.use, t, p) ==> w'.mem[p] == w.mem[p])
  }

  /** freewalk's loop on t has dealt with the slots below i. */
  ghost predicate FelledTo(w: World, w': World, t: nat, i: nat) {
    && t in w.mem && w'.use.Keys == w.use.Keys == w.mem.Keys == w'.mem.Keys
    && (forall p :: p in w.use ==>
          w'.use[p] == if Before(SlotAbove(w.use, t, p), i) then Free else w.use[p])
    && (forall p :: p in w.use && p != t && w'.use[p] == w.use[p] ==> w'.mem[p] == w.mem[p])
    && |w'.mem[t]| == |w.mem[t]| == ENTRIES
    && (forall k: nat :: k < i && k < ENTRIES ==> !IsValid(w'.At(t, k)))
    && (forall k: nat :: i <= k < ENTRIES ==> w'.At(t, k) == w.At(t, k))
  }

  lemma FelledNone(w: World, t: nat)
    requires Valid(w) && t in w.use
    ensures FelledTo(w, w, t, 0)
  {
  }

  /** A table hangs below itself nowhere. */
  lemma NotBelowSelf(w: World, t: nat)
    requires Valid(w) && t in w.use && w.use[t].IsTable()
    ensures SlotAbove(w.use, t, t).None?
  {
    assert HangsOk(w, t);
  }

  /** After the last slot the table itself can go. */
  lemma FelledAll(w: World, v: World, t: nat, words: seq<nat>)
    requires Valid(w) && t in w.use && w.use[t].IsTable() && FelledTo(w, v, t, ENTRIES)
    ensures t in v.use && v.use[t] == w.use[t] && NoEntries(v, t)
    ensures Felled(w, WithFreed(v, t, words), t)
  {
    hide Valid, SlotAbove, World.At, IsValid;
    NotBelowSelf(w, t);
    forall p | p in w.use
      ensures SlotAbove(w.use, t, p).Through? ==> SlotAbove(w.use, t, p).idx < ENTRIES
    {
      ThroughBound(w, t, p);
    }
  }

  lemma ThroughBound(w: World, t: nat, p: nat)
    requires Valid(w) && p in w.use
    ensures SlotAbove(w.use, t, p).Through? ==> SlotAbove(w.use, t, p).idx < ENTRIES
  {
    hide EntryOk;
    if w.use[p].Mid? || w.use[p].Low? {
      assert HangsOk(w, p);
      assert HangsOk(w, w.use[p].up.page);
    }
  }

  ghost predicate NoLeafTo(w: World, t: nat, i: nat)
    requires t in w.use
  {
    && (forall p: nat, k: nat :: p in w.use && w.use[p].Low? && k < ENTRIES && Before(SlotAbove(w.use, t, p), i) ==>
          !IsValid(w.At(p, k)))
    && (w.use[t].Low? ==> forall k: nat :: k < i && k < ENTRIES ==> !IsValid(w.At(t, k)))
  }

  lemma NoLeafWhole(w: World, t: nat)
    requires Valid(w) && t in w.use && w.use[t].IsTable() && NoLeafTo(w, t, ENTRIES)
    ensures NoLeaf(w, t)
  {
    forall p: nat | p in w.use && w.use[p].Low? && SlotAbove(w.use, t, p).Through?
      ensures SlotAbove(w.use, t, p).idx < ENTRIES
    {
      assert HangsOk(w, p);
      assert HangsOk(w, w.use[p].up.page);
    }
  }

  /** Nothing hangs from an empty slot. */
  lemma NothingThrough(w: World, t: nat, i: nat, p: nat)
    requires Valid(w) && t in w.use && w.use[t].IsTable() && !IsValid(w.At(t, i)) && p in w.use
    ensures SlotAbove(w.use, t, p) != Through(i)
  {
    assert HangsOk(w, p);
    if w.use[p].Low? {
      assert HangsOk(w, w.use[p].up.page);
    }
  }

  /** freewalk passes over an empty slot. */
  lemma FelledSkip(w: World, v: World, t: nat, i: nat)
    requires Valid(w) && t in w.use && w.use[t].IsTable() && i < ENTRIES && FelledTo(w, v, t, i)
    requires NoLeafTo(w, t, i) && !IsValid(v.At(t, i))
    ensures FelledTo(w, v, t, i + 1) && NoLeafTo(w, t, i + 1)
  {
    hide Valid;
    forall p | p in w.use
      ensures SlotAbove(w.use, t, p) != Through(i)
    {
      NothingThrough(w, t, i, p);
    }
  }

  /** The tables below slot i of t are those at and below the table it leads to. */
  lemma SlotSubtree(w: World, t: nat, i: nat, c: nat, p: nat)
    requires Valid(w) && t in w.use && (w.use[t].Root? || w.use[t].Mid?) && i < ENTRIES
    requires IsValid(w.At(t, i)) && Ppn(w.At(t, i)) == c && p in w.use
    ensures c in w.use && w.use[c] == PageTree.Below(w.use[t], Slot(t, i))
    ensures SlotAbove(w.use, t, p) == Through(i) <==> Under(w.use, c, p)
    ensures !Under(w.use, c, t)
  {
    assert EntryOk(w, t, i);
    assert HangsOk(w, p);
    assert HangsOk(w, t);
    if w.use[p].Low? {
      assert HangsOk(w, w.use[p].up.page);
    }
  }

  /** What is left of the tree reads as before, below a slot not yet dealt with. */
  lemma SubtreeKept(w: World, v: World, t: nat, i: nat, c: nat, p: nat)
    requires Valid(w) && t in w.use && (w.use[t].Root? || w.use[t].Mid?) && i < ENTRIES
    requires FelledTo(w, v, t, i) && IsValid(w.At(t, i)) && Ppn(w.At(t, i)) == c && p in w.use
    ensures Under(v.use, c, p) <==> Under(w.use, c, p)
    ensures p in v.use && p in v.mem && p in w.mem
    ensures Under(w.use, c, p) ==> v.use[p] == w.use[p] && v.mem[p] == w.mem[p]
  {
    hide Valid, IsValid, Ppn, Under, SlotAbove;
    forall q | q in w.use
      ensures Under(w.use, c, q) ==> SlotAbove(w.use, t, q) == Through(i) && v.use[q] == w.use[q] && q != t
    {
      SlotSubtree(w, t, i, c, q);
    }
    UnderKept(w.use, v.use, c, p);
  }

  lemma UnderKept(use: map<nat, Use>, use': map<nat, Use>, c: nat, p: nat)
    requires use'.Keys == use.Keys && p in use && forall q :: q in use ==> use'[q] == use[q] || use'[q].Free?
    requires forall q :: q in use && Under(use, c, q) ==> use'[q] == use[q]
    ensures Under(use', c, p) <==> Under(use, c, p)
  {
    if use[p].Low? { var _ := Under(use, c, use[p].up.page); }
  }

  /** freewalk has felled the subtree below slot i and clears the slot. */
  lemma FelledSlot(w: World, v: World, v': World, t: nat, i: nat, c: nat)
    requires Valid(w) && t in w.use && (w.use[t].Root? || w.use[t].Mid?) && i < ENTRIES
    requires FelledTo(w, v, t, i) && NoLeafTo(w, t, i)
    requires IsValid(v.At(t, i)) && Ppn(v.At(t, i)) == c && Felled(v, v', c) && NoLeaf(v, c)
    ensures t in v'.mem && |v'.mem[t]| == ENTRIES && t in v'.use && v'.use[t] == w.use[t] && v'.At(t, i) == w.At(t, i)
    ensures c in v'.use && v'.use[c].Free?
    ensures FelledTo(w, SetWord(v', t, i, 0), t, i + 1) && NoLeafTo(w, t, i + 1)
  {
    hide EntryOk, HangsOk, Felled, NoLeaf, NoLeafTo;
    assert v.At(t, i) == w.At(t, i) by { SlotKept(w, v, t, i); }
    SlotSubtree(w, t, i, c, t);
    forall p | p in w.use
      ensures SlotAbove(w.use, t, p).Through? ==> !w.use[p].Free?
      ensures Under(v.use, c, p) <==> SlotAbove(w.use, t, p) == Through(i)
      ensures Under(v.use, c, p) ==> v.use[p] == w.use[p] && v.mem[p] == w.mem[p]
    {
      SlotSubtree(w, t, i, c, p);
      SubtreeKept(w, v, t, i, c, p);
    }
    NotBelowSelf(w, t);
    FelledJoin(w, v, v', t, i, c);
    NoLeafJoin(w, v, t, i, c);
  }

  lemma FelledJoin(w: World, v: World, v': World, t: nat, i: nat, c: nat)
    requires Sized(w) && t in w.use && i < ENTRIES && SlotAbove(w.use, t, t).None? && c in w.use
    requires FelledTo(w, v, t, i) && Felled(v, v', c)
    requires forall p :: p in w.use && SlotAbove(w.use, t, p).Through? ==> !w.use[p].Free?
    requires forall p :: p in w.use ==> (Under(v.use, c, p) <==> SlotAbove(w.use, t, p) == Through(i))
    ensures t in v'.mem && |v'.mem[t]| == ENTRIES && t in v'.use && v'.use[t] == w.use[t] && v'.At(t, i) == w.At(t, i)
    ensures c in v'.use && v'.use[c].Free?
    ensures FelledTo(w, SetWord(v', t, i, 0), t, i + 1)
  {
    hide SlotAbove, Under;
    assert Under(v.use, c, c) by { UnderSelf(v.use, c); }
    assert !Under(v.use, c, t);
    JoinSlots(w, v, v', t, i);
    hide IsValid, World.At;
  }

  lemma JoinSlots(w: World, v: World, v': World, t: nat, i: nat)
    requires FelledTo(w, v, t, i) && t in v'.mem && v'.mem[t] == v.mem[t] && i < ENTRIES
    ensures var v'' := SetWord(v', t, i, 0);
            && |v''.mem[t]| == ENTRIES && v'.At(t, i) == w.At(t, i)
            && (forall k: nat :: k < i + 1 && k < ENTRIES ==> !IsValid(v''.At(t, k)))
            && (forall k: nat :: i + 1 <= k < ENTRIES ==> v''.At(t, k) == w.At(t, k))
  {
    hide SlotAbove;
    var v'' := SetWord(v', t, i, 0);
    forall k: nat | k < ENTRIES && k != i
      ensures v''.At(t, k) == v.At(t, k)
    {
    }
  }

  lemma SlotKept(w: World, v: World, t: nat, i: nat)
    requires FelledTo(w, v, t, i) && i < ENTRIES
    ensures v.At(t, i) == w.At(t, i)
  {
  }

  lemma UnderSelf(use: map<nat, Use>, c: nat)
    ensures Under(use, c, c)
  {
  }

  lemma NoLeafJoin(w: World, v: World, t: nat, i: nat, c: nat)
    requires Sized(w) && t in w.use && !w.use[t].Low? && i < ENTRIES && FelledTo(w, v, t, i)
    requires NoLeafTo(w, t, i) && NoLeaf(v, c)
    requires forall p :: p in w.use ==> (Under(v.use, c, p) <==> SlotAbove(w.use, t, p) == Through(i))
    requires forall p :: p in w.use && Under(v.use, c, p) ==> v.use[p] == w.use[p] && v.mem[p] == w.mem[p]
    ensures NoLeafTo(w, t, i + 1)
  {
    hide SlotAbove, Under;
    forall p: nat, k: nat | p in w.use && w.use[p].Low? && k < ENTRIES && Before(SlotAbove(w.use, t, p), i + 1)
      ensures !IsValid(w.At(p, k))
    {
      if SlotAbove(w.use, t, p) == Through(i) {
        assert Under(v.use, c, p);
        assert !IsValid(v.At(p, k));
      }
    }
  }

  /** A leaf below the slot is a leaf below the table. */
  lemma LeafBelow(w: World, v: World, t: nat, i: nat, c: nat)
    requires Valid(w) && t in w.use && (w.use[t].Root? || w.use[t].Mid?) && i < ENTRIES
    requires FelledTo(w, v, t, i) && IsValid(v.At(t, i)) && Ppn(v.At(t, i)) == c && !NoLeaf(v, c)
    ensures !NoLeaf(w, t)
  {
    hide Valid;
    var p: nat, k: nat :| p in v.use && v.use[p].Low? && Under(v.use, c, p) && k < ENTRIES && IsValid(v.At(p, k));
    SubtreeKept(w, v, t, i, c, p);
    SlotSubtree(w, t, i, c, p);
    assert Under(w.use, t, p) && IsValid(w.At(p, k));
  }

  ghost function Level(u: Use): nat { if u.Root? then 2 else if u.Mid? then 1 else 0 }

  lemma NotLeaf(e: nat)
    requires Flags(e) == PTE_V
    ensures IsValid(e) && !IsLeaf(e)
  {
    var q := e / 1024;
    assert e == 1024 * q + 1;
    assert e / 2 == 8 * (64 * q);
  }

  /** In upper tables valid entries lead to lower tables; in lowest tables they map pages. */
  lemma EntryKind(w: World, t: nat, i: nat)
    requires Valid(w) && t in w.use && w.use[t].IsTable() && i < ENTRIES && IsValid(w.At(t, i))
    ensures IsLeaf(w.At(t, i)) <==> w.use[t].Low?
    ensures !w.use[t].Low? ==>
              var c := Ppn(w.At(t, i));
              c in w.use && w.use[c].IsTable() && Level(w.use[c]) < Level(w.use[t])
              && !w.use[c].Root? && w.use[c].up == Slot(t, i)
  {
    assert EntryOk(w, t, i);
    if Flags(w.At(t, i)) == PTE_V {
      NotLeaf(w.At(t, i));
    }
  }

  /** A tree maps nothing exactly when none of its tables has a leaf. */
  lemma NoLeafMapsNothing(w: World, root: nat)
    requires Valid(w) && IsRoot(w, root)
    ensures NoLeaf(w, root) <==> forall v: nat :: v < MAXVPN ==> Lookup(w, root, v) == 0
  {
    if NoLeaf(w, root) {
      forall v: nat | v < MAXVPN
        ensures Lookup(w, root, v) == 0
      {
        if Reaches(w, root, v) {
          PathOk(w, root, v);
          assert Under(w.use, root, LowTable(w, root, v));
        }
      }
    }
    if forall v: nat :: v < MAXVPN ==> Lookup(w, root, v) == 0 {
      forall p: nat, k: nat | p in w.use && w.use[p].Low? && Under(w.use, root, p) && k < ENTRIES
        ensures !IsValid(w.At(p, k))
      {
        LeafMapped(w, root, p, k);
      }
    }
  }

  /** Every entry of a lowest table is the entry of some virtual page of its tree. */
  lemma LeafMapped(w: World, root: nat, p: nat, k: nat)
    requires Valid(w) && IsRoot(w, root) && p in w.use && w.use[p].Low? && Under(w.use, root, p) && k < ENTRIES
    ensures exists v: nat :: v < MAXVPN && Reaches(w, root, v) && LowTable(w, root, v) == p && Px(0, v) == k
                             && (IsValid(w.At(p, k)) ==> Lookup(w, root, v) == w.At(p, k) != 0)
  {
    hide Px;
    assert HangsOk(w, p);
    var s1 := w.use[p].up;
    assert HangsOk(w, s1.page);
    var s2 := w.use[s1.page].up;
    var v := s2.idx * 0x4_0000 + s1.idx * 512 + k;
    PxOf(s2.idx, s1.idx, k);
    PathBack(w, root, v, s1.page, p);
  }

  lemma NoLeafNone(w: World, t: nat)
    requires t in w.use
    ensures NoLeafTo(w, t, 0)
  {
  }

  /** The table being walked stays in place until its slots are done. */
  lemma TableKept(w: World, v: World, t: nat, i: nat)
    requires Valid(w) && t in w.use && w.use[t].IsTable() && FelledTo(w, v, t, i)
    ensures t in v.use && v.use[t] == w.use[t] && t in v.mem && |v.mem[t]| == ENTRIES
    ensures i < ENTRIES ==> v.At(t, i) == v.mem[t][i] == w.At(t, i)
  {
    NotBelowSelf(w, t);
  }

  lemma LeafHere(w: World, t: nat, i: nat)
    requires t in w.use && w.use[t].Low? && i < ENTRIES && IsValid(w.At(t, i))
    ensures !NoLeaf(w, t)
  {
    assert Under(w.use, t, t);
  }

  // ---- A whole address space ----

  /** Page p is a table of the tree, or memory that hangs from one of its tables. */
  ghost predicate Belongs(w: World, root: nat, p: nat)
    requires p in w.use
  {
    Under(w.use, root, p) || (w.use[p].Data? && Under(w.use, root, w.use[p].up.page))
  }

  /** Every page of the tree is free, every other page is in the same hands, and the other trees map
      what they mapped. */
  ghost predicate Gone(w: World, w': World, root: nat) {
    && w'.use.Keys == w.use.Keys
    && (forall p :: p in w.use ==> w'.use[p] == if Belongs(w, root, p) then Free else w.use[p])
    && (forall r: nat, v: nat :: IsRoot(w, r) && r != root && v < MAXVPN ==> Lookup(w', r, v) == Lookup(w, r, v))
  }

  /** Tables of other trees are not touched. */
  lemma FelledOthers(w: World, w': World, root: nat, r: nat, v: nat)
    requires Valid(w) && IsRoot(w, root) && IsRoot(w, r) && r != root && Felled(w, w', root)
    ensures Lookup(w', r, v) == Lookup(w, r, v)
  {
    hide Px;
    RootEntry(w, r, v);
  }

  /** Memory that hangs in a tree is mapped by it. */
  lemma DataMapped(w: World, root: nat, p: nat)
    requires Valid(w) && IsRoot(w, root) && p in w.use && w.use[p].Data? && Under(w.use, root, w.use[p].up.page)
    ensures exists v: nat :: v < MAXVPN && Owned(w, root, v) && Ppn(Lookup(w, root, v)) == p
  {
    hide Px;
    assert HangsOk(w, p);
    LeafMapped(w, root, w.use[p].up.page, w.use[p].up.idx);
  }

  /** Memory a tree owns hangs in it. */
  lemma OwnedHangs(w: World, root: nat, v: nat)
    requires Valid(w) && IsRoot(w, root) && Owned(w, root, v)
    ensures var p := Ppn(Lookup(w, root, v)); p in w.use && w.use[p].Data? && Belongs(w, root, p)
  {
    hide Px;
    PathOk(w, root, v);
  }
}
