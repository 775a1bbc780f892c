/** How many pages the tables of an address space take (kernel/vm.c). */
module PageCount {
  import opened PageTree
  import opened PageRanges

  /** Tables missing on the way to a page. */
  function Lacks(w: World, root: nat, vpn: nat): nat { Tables(w, root, vpn).2 }

  /** What page v lacks of the x tables that it lacked, once the upper levels of the way to page u, down to
      the given one, exist.  A lowest table serves 512 pages, one above it 512 times as many. */
  function Left(x: nat, u: nat, v: nat, level: nat): nat {
    if level == 0 && u / 512 == v / 512 then 0
    else if level <= 1 && u / 0x4_0000 == v / 0x4_0000 && x > 1 then 1
    else x
  }

  /** From w to w' the tables on the way to page u have been added, down to the level, and no others. */
  ghost predicate Added(w: World, w': World, root: nat, u: nat, level: nat) {
    forall v: nat :: v < MAXVPN ==> Lacks(w', root, v) == Left(Lacks(w, root, v), u, v, level)
  }

  /** The tables that page lo+k still lacks when the pages lo..lo+k-1 have theirs. */
  function More(w: World, root: nat, lo: nat, k: nat): nat {
    if k == 0 then Lacks(w, root, lo) else Left(Lacks(w, root, lo + k), lo + k - 1, lo + k, 0)
  }

  /** The tables that the pages lo..lo+k-1 lack. */
  function Need(w: World, root: nat, lo: nat, k: nat): nat {
    if k == 0 then 0 else Need(w, root, lo, k - 1) + More(w, root, lo, k - 1)
  }

  /** From w0 to w the tables for the pages lo..lo+k-1 have been added, as far as later pages can tell. */
  ghost predicate Tabled(w0: World, w: World, root: nat, lo: nat, k: nat) {
    forall v: nat :: lo + k <= v < MAXVPN ==>
      Lacks(w, root, v) == if k == 0 then Lacks(w0, root, v) else Left(Lacks(w0, root, v), lo + k - 1, v, 0)
  }

  // ---- One walk ----

  lemma SamePath(u: nat, v: nat)
    requires u < MAXVPN && v < MAXVPN
    ensures Px(2, u) == Px(2, v) <==> u / 0x4_0000 == v / 0x4_0000
    ensures Px(2, u) == Px(2, v) && Px(1, u) == Px(1, v) <==> u / 512 == v / 512
  {
    assert u / 0x4_0000 == u / 512 / 512 && v / 0x4_0000 == v / 512 / 512;
  }

  lemma AddedNone(w: World, root: nat, u: nat)
    ensures Added(w, w, root, u, 2)
  {
    hide Lacks;
  }

  /** walk finds the next table. */
  lemma FoundTable(w0: World, w: World, root: nat, u: nat, level: nat, t: nat)
    requires u < MAXVPN && 0 < level <= 2 && WalkAt(w, root, u, level, t) && IsValid(w.At(t, Px(level, u)))
    requires Added(w0, w, root, u, level)
    ensures Added(w0, w, root, u, level - 1)
  {
    hide Px;
    forall v: nat | v < MAXVPN
      ensures Lacks(w, root, v) == Left(Lacks(w0, root, v), u, v, level - 1)
    {
      SamePath(u, v);
    }
  }

  lemma FreshLacks(w: World, p: nat, words: seq<nat>, root: nat, vpn: nat)
    requires Valid(w) && IsRoot(w, root) && p in w.use && (w.use[p].Free? || w.use[p].Held?) && |words| == ENTRIES
    ensures Lacks(Fresh(w, p, words), root, vpn) == Lacks(w, root, vpn)
  {
    hide Px;
    RootEntry(w, root, vpn);
    var v := Fresh(w, p, words);
    assert forall t: nat, k: nat :: t != p ==> v.At(t, k) == w.At(t, k);
  }

  lemma LinkedAt(w: World, t: nat, k: nat, c: nat)
    requires Valid(w) && t in w.mem && |w.mem[t]| == ENTRIES && t in w.use && k < ENTRIES && c != t
    ensures var w' := Linked(w, t, k, c);
            && (forall i: nat :: i < ENTRIES ==> w'.At(c, i) == 0) && w'.At(t, k) == MakePte(c, 0)
            && (forall u: nat, i: nat :: u != c && (u, i) != (t, k) ==> w'.At(u, i) == w.At(u, i))
  {
    hide MakePte;
  }

  /** walk puts in a new table: pages that share it lack one less. */
  lemma NewTableLacks(w: World, root: nat, u: nat, level: nat, t: nat, c: nat, v: nat)
    requires Valid(w) && IsRoot(w, root) && u < MAXVPN && v < MAXVPN && 0 < level && WalkAt(w, root, u, level, t)
    requires !IsValid(w.At(t, Px(level, u))) && c in w.use && w.use[c].Free?
    requires t in w.mem && |w.mem[t]| == ENTRIES && t in w.use
    ensures Lacks(w, root, u) == level
    ensures Lacks(Linked(w, t, Px(level, u), c), root, v) == Left(Lacks(w, root, v), u, v, level - 1)
  {
    hide Px, MakePte, EntryOk, HangsOk, Linked;
    WalkTable(w, root, u, level, t);
    RootEntry(w, root, u);
    RootEntry(w, root, v);
    SamePath(u, v);
    LinkedAt(w, t, Px(level, u), c);
    assert IsValid(MakePte(c, 0)) && Ppn(MakePte(c, 0)) == c && !IsValid(0);
  }

  lemma MadeTable(w0: World, w: World, root: nat, u: nat, level: nat, t: nat, c: nat)
    requires Valid(w) && IsRoot(w, root) && u < MAXVPN && 0 < level && WalkAt(w, root, u, level, t)
    requires !IsValid(w.At(t, Px(level, u))) && c in w.use && w.use[c].Free?
    requires t in w.mem && |w.mem[t]| == ENTRIES && t in w.use && Added(w0, w, root, u, level)
    ensures Lacks(w, root, u) == level && Lacks(Linked(w, t, Px(level, u), c), root, u) == level - 1
    ensures Added(w0, Linked(w, t, Px(level, u), c), root, u, level - 1)
  {
    hide Px, Linked, Lacks, Valid;
    var w' := Linked(w, t, Px(level, u), c);
    NewTableLacks(w, root, u, level, t, c, u);
    forall v: nat | v < MAXVPN
      ensures Lacks(w', root, v) == Left(Lacks(w0, root, v), u, v, level - 1)
    {
      NewTableLacks(w, root, u, level, t, c, v);
    }
  }

  /** Entries of a lowest table lead to no tables. */
  lemma LeafLacks(w: World, root: nat, vpn: nat, e: nat, own: bool, v: nat)
    requires Valid(w) && IsRoot(w, root) && Reaches(w, root, vpn) && LowTable(w, root, vpn) in w.mem
    requires |w.mem[LowTable(w, root, vpn)]| == ENTRIES
    ensures Lacks(Filling(w, SlotOf(w, root, vpn), e, own), root, v) == Lacks(w, root, v)
  {
    hide Px;
    RootEntry(w, root, vpn);
    RootEntry(w, root, v);
    var w' := Filling(w, SlotOf(w, root, vpn), e, own);
    assert forall t: nat, k: nat :: t != LowTable(w, root, vpn) ==> w'.At(t, k) == w.At(t, k);
  }

  lemma AddedLeaf(w0: World, w: World, root: nat, vpn: nat, e: nat, own: bool)
    requires Valid(w) && IsRoot(w, root) && Reaches(w, root, vpn) && LowTable(w, root, vpn) in w.mem
    requires |w.mem[LowTable(w, root, vpn)]| == ENTRIES && Added(w0, w, root, vpn, 0)
    ensures Added(w0, Filling(w, SlotOf(w, root, vpn), e, own), root, vpn, 0)
  {
    hide Px, Lacks, Filling, Valid;
    forall v: nat | v < MAXVPN
      ensures Lacks(Filling(w, SlotOf(w, root, vpn), e, own), root, v) == Left(Lacks(w0, root, v), vpn, v, 0)
    {
      LeafLacks(w, root, vpn, e, own, v);
    }
  }

  // ---- Many walks ----

  lemma TabledNone(w: World, root: nat, lo: nat)
    ensures Tabled(w, w, root, lo, 0) && Need(w, root, lo, 0) == 0
  {
    hide Lacks;
  }

  lemma NeedMore(w: World, root: nat, lo: nat, k: nat)
    ensures Need(w, root, lo, k + 1) == Need(w, root, lo, k) + More(w, root, lo, k)
  {
    hide More;
  }

  lemma NextNeed(w0: World, w: World, root: nat, lo: nat, k: nat)
    requires Tabled(w0, w, root, lo, k)
    ensures lo + k < MAXVPN ==> Lacks(w, root, lo + k) == More(w0, root, lo, k)
    ensures Need(w0, root, lo, k + 1) == Need(w0, root, lo, k) + More(w0, root, lo, k)
  {
    hide Lacks;
  }

  lemma LeftTwice(x: nat, u: nat, v: nat)
    requires u < v
    ensures Left(Left(x, u, v, 0), u + 1, v, 0) == Left(x, u + 1, v, 0)
  {
    assert u / 512 <= (u + 1) / 512 <= v / 512 && u / 0x4_0000 <= (u + 1) / 0x4_0000 <= v / 0x4_0000;
  }

  lemma TabledNext(w0: World, w: World, w': World, root: nat, lo: nat, k: nat)
    requires Tabled(w0, w, root, lo, k) && Added(w, w', root, lo + k, 0)
    ensures Tabled(w0, w', root, lo, k + 1)
  {
    hide Lacks, Left;
    forall v: nat | lo + k + 1 <= v < MAXVPN
      ensures Lacks(w', root, v) == Left(Lacks(w0, root, v), lo + k, v, 0)
    {
      if k > 0 { LeftTwice(Lacks(w0, root, v), lo + k - 1, v); }
    }
  }

  lemma FreshNeed(w0: World, w: World, p: nat, words: seq<nat>, root: nat, lo: nat, k: nat)
    requires Valid(w) && IsRoot(w, root) && p in w.use && w.use[p].Free? && |words| == ENTRIES
    requires Tabled(w0, w, root, lo, k)
    ensures lo + k < MAXVPN ==> Need(Fresh(w, p, words), root, lo + k, 1) == More(w0, root, lo, k)
  {
    hide Lacks, Fresh;
    FreshLacks(w, p, words, root, lo + k);
    assert Need(Fresh(w, p, words), root, lo + k, 0) == 0;
  }

  lemma FreshTabled(w0: World, w: World, w': World, p: nat, words: seq<nat>, root: nat, lo: nat, k: nat)
    requires Valid(w) && IsRoot(w, root) && p in w.use && w.use[p].Free? && |words| == ENTRIES
    requires Tabled(w0, w, root, lo, k) && Tabled(Fresh(w, p, words), w', root, lo + k, 1)
    ensures Tabled(w0, w', root, lo, k + 1)
  {
    hide Lacks, Fresh, Left, Valid;
    forall v: nat | lo + k + 1 <= v < MAXVPN
      ensures Lacks(w', root, v) == Left(Lacks(w0, root, v), lo + k, v, 0)
    {
      FreshLacks(w, p, words, root, v);
      if k > 0 { LeftTwice(Lacks(w0, root, v), lo + k - 1, v); }
    }
  }

  lemma {:induction false} NeedGrows(w: World, root: nat, lo: nat, k: nat, n: nat)
    requires k <= n
    ensures Need(w, root, lo, k) <= Need(w, root, lo, n)
    decreases n
  {
    if k < n { NeedGrows(w, root, lo, k, n - 1); }
  }

  /** So the pages lo..lo+k-1 never need more tables than one for each stretch of 512 pages and one for
      each stretch of 512 times 512; and a tree without tables below its root needs exactly those. */
  lemma {:induction false} NeedBound(w: World, root: nat, lo: nat, k: nat)
    requires k > 0
    ensures var stretches := (lo + k - 1) / 512 - lo / 512 + 1 + ((lo + k - 1) / 0x4_0000 - lo / 0x4_0000 + 1);
            && Need(w, root, lo, k) <= stretches
            && ((forall v: nat :: lo <= v < lo + k ==> Lacks(w, root, v) == 2) ==> Need(w, root, lo, k) == stretches)
    decreases k
  {
    hide Lacks, Left;
    if k == 1 {
      assert Need(w, root, lo, 0) == 0;
      LacksTwo(w, root, lo);
    } else {
      NeedBound(w, root, lo, k - 1);
      hide Need;
      NeedNext(w, root, lo, k - 1);
      LacksTwo(w, root, lo + k - 1);
      OneStretch(Lacks(w, root, lo + k - 1), lo + k - 2);
    }
  }

  lemma LacksTwo(w: World, root: nat, v: nat)
    ensures Lacks(w, root, v) <= 2
  {
  }

  lemma NeedNext(w: World, root: nat, lo: nat, k: nat)
    requires k > 0
    ensures Need(w, root, lo, k + 1) == Need(w, root, lo, k) + Left(Lacks(w, root, lo + k), lo + k - 1, lo + k, 0)
  {
    hide Lacks, Left;
  }

  lemma OneStretch(x: nat, v: nat)
    requires x <= 2
    ensures var more := (v + 1) / 512 - v / 512 + ((v + 1) / 0x4_0000 - v / 0x4_0000);
            Left(x, v, v + 1, 0) <= more && (x == 2 ==> Left(x, v, v + 1, 0) == more)
  {
    NextStretch(v);
  }

  lemma NextStretch(v: nat)
    ensures (v + 1) / 512 == v / 512 || (v + 1) / 512 == v / 512 + 1
    ensures (v + 1) / 0x4_0000 == v / 0x4_0000 || (v + 1) / 0x4_0000 == v / 0x4_0000 + 1
    ensures (v + 1) / 512 == v / 512 ==> (v + 1) / 0x4_0000 == v / 0x4_0000
  {
    assert v / 0x4_0000 == v / 512 / 512 && (v + 1) / 0x4_0000 == (v + 1) / 512 / 512;
  }
}
