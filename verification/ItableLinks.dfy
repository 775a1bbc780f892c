/** The inode table when iget is only asked for inodes that have links: ilock then never finds a free
    inode (kernel/fs.c). */
module ItableLinks {
  import opened Common
  import opened Itable

  /** The inode number a hand is for. */
  function InumOf(s: State, x: Hand): Option<nat> {
    if x.Empty? then None else if x.Getting? then Some(x.inum)
    else if x.e < |s.table| then Some(s.table[x.e].inum) else None
  }

  /** Hands whose inode must be allocated on disk: all but those past freeing it. */
  predicate Alive(x: Hand) { !x.Empty? && !x.Freeing2? && !x.Freeing3? && !x.Freeing4? }

  ghost predicate AliveOk(s: State, h: nat)
    requires h < |s.hands|
  {
    var x := s.hands[h];
    && (x.Getting? ==> x.inum < |s.disk| && s.disk[x.inum].nlink == 0 && s.disk[x.inum].rest == 0)
    && (Alive(x) ==>
          InumOf(s, x).Some? && InumOf(s, x).value < |s.disk| && s.disk[InumOf(s, x).value].kind > 0)
  }

  /** Two hands: a number just allocated is nobody else's; a reference being freed is the only one. */
  ghost predicate PairOk(s: State, h: nat, k: nat)
    requires h < |s.hands| && k < |s.hands|
  {
    var x, y := s.hands[h], s.hands[k];
    h != k ==>
      && (x.Getting? && Alive(y) ==> InumOf(s, y) != Some(x.inum))
      && (x.Freeing0? || x.Freeing1? ==> InumOf(s, y) != InumOf(s, x))
  }

  ghost predicate Linked(s: State) {
    && Inv(s)
    && (forall h: nat {:trigger AliveOk(s, h)} :: h < |s.hands| ==> AliveOk(s, h))
    && (forall h: nat, k: nat {:trigger PairOk(s, h, k)} :: h < |s.hands| && k < |s.hands| ==> PairOk(s, h, k))
  }

  /** A step that asks iget for no inode without links. */
  predicate LinkedAct(s: State, a: Act) {
    a.IGet? && a.inum < |s.disk| ==> s.disk[a.inum].kind > 0 && s.disk[a.inum].nlink > 0
  }

  predicate LinkedActs(s: State, acts: seq<(nat, Act)>)
    decreases |acts|
  {
    acts == [] ||
    (var r := Step(s, acts[0].0, acts[0].1);
     LinkedAct(s, acts[0].1) && LinkedActs(if r.Next? then r.s else s, acts[1..]))
  }

  // ---- One hand ----

  /** Nobody frees an inode that somebody else relies on. */
  lemma KindKept(s: State, h: nat, a: Act, k: nat)
    requires Linked(s) && Step(s, h, a).Next? && k < |s.hands| && k != h && Alive(s.hands[k])
    ensures var n := InumOf(s, s.hands[k]);
            n.Some? && n.value < |s.disk| == |Step(s, h, a).s.disk| && Step(s, h, a).s.disk[n.value].kind > 0
  {
    hide Distinct, Count, Find, FindEmpty;
    assert h < |s.hands| && HandOk(s, h) && AliveOk(s, k) && PairOk(s, h, k);
    if a.Trunc? { assert EntryOk(s, s.hands[h].e); }
  }

  /** A number just allocated has no links and lists no blocks until its owner gives it some. */
  lemma NoLinks(s: State, h: nat, a: Act, k: nat)
    requires Linked(s) && Step(s, h, a).Next? && k < |s.hands| && k != h && s.hands[k].Getting?
    ensures s.hands[k].inum < |Step(s, h, a).s.disk|
    ensures var d := Step(s, h, a).s.disk[s.hands[k].inum]; d.nlink == 0 && d.rest == 0
  {
    hide Distinct, Count, Find, FindEmpty, EntryOk;
    assert h < |s.hands| && HandOk(s, h) && AliveOk(s, k) && PairOk(s, k, h);
  }

  lemma OtherAlive(s: State, h: nat, a: Act, k: nat)
    requires Linked(s) && Step(s, h, a).Next? && k < |s.hands| && k != h
    ensures |Step(s, h, a).s.hands| == |s.hands| && AliveOk(Step(s, h, a).s, k)
  {
    hide Step, Inv;
    SameInum(s, h, a, k);
    hide Linked;
    if Alive(s.hands[k]) { KindKept(s, h, a, k); }
    if s.hands[k].Getting? { NoLinks(s, h, a, k); }
  }

  lemma OwnAlive(s: State, h: nat, a: Act)
    requires Linked(s) && LinkedAct(s, a) && Step(s, h, a).Next?
    ensures h < |Step(s, h, a).s.hands| && AliveOk(Step(s, h, a).s, h)
  {
    hide Distinct, Count, Find, FindEmpty;
    assert h < |s.hands| && HandOk(s, h) && AliveOk(s, h);
    if a.Trunc? { assert EntryOk(s, s.hands[h].e); }
    if a.IDup? {
      var y :| 0 <= y < |s.hands| && (s.hands[y] == Free(a.e) || s.hands[y] == Locked(a.e));
      assert AliveOk(s, y);
    }
  }

  // ---- Pairs of hands ----

  lemma SameInum(s: State, h: nat, a: Act, k: nat)
    requires Inv(s) && Step(s, h, a).Next? && k < |s.hands| && k != h
    ensures |Step(s, h, a).s.hands| == |s.hands| && Step(s, h, a).s.hands[k] == s.hands[k]
    ensures InumOf(Step(s, h, a).s, s.hands[k]) == InumOf(s, s.hands[k])
  {
    hide Step, Distinct, Count, EntryOk;
    Frame(s, h, a);
    assert HandOk(s, k);
    if !s.hands[k].Empty? && !s.hands[k].Getting? { EntryChange(s, h, a, s.hands[k].e); }
  }

  /** h's own hand against another's, whichever is looked at first. */
  lemma OwnPair(s: State, h: nat, a: Act, k: nat)
    requires Linked(s) && LinkedAct(s, a) && Step(s, h, a).Next? && k < |s.hands| && k != h
    ensures h < |s.hands| == |Step(s, h, a).s.hands|
    ensures PairOk(Step(s, h, a).s, h, k) && PairOk(Step(s, h, a).s, k, h)
  {
    SameInum(s, h, a, k);
    assert h < |s.hands| && HandOk(s, h) && HandOk(s, k) && PairOk(s, h, k) && PairOk(s, k, h);
    hide Count, Distinct, EntryOk;
    if a.IAlloc? || a.IGetNew? || a.IGet? || a.IDup? {
      NewPair(s, h, a, k);
    } else if a.IPut? {
      LastOne(s, h, k);
    }
  }

  /** A new hand against the others. */
  lemma NewPair(s: State, h: nat, a: Act, k: nat)
    requires Linked(s) && LinkedAct(s, a) && Step(s, h, a).Next? && k < |s.hands| && k != h
    requires a.IAlloc? || a.IGetNew? || a.IGet? || a.IDup?
    ensures h < |s.hands| == |Step(s, h, a).s.hands|
    ensures PairOk(Step(s, h, a).s, h, k) && PairOk(Step(s, h, a).s, k, h)
  {
    SameInum(s, h, a, k);
    assert h < |s.hands| && HandOk(s, h) && HandOk(s, k) && PairOk(s, h, k) && PairOk(s, k, h);
    assert AliveOk(s, h) && AliveOk(s, k);
    hide Count, Distinct;
    if s.hands[k].Freeing0? || s.hands[k].Freeing1? { assert EntryOk(s, s.hands[k].e); }
    if a.IDup? {
      var y :| 0 <= y < |s.hands| && (s.hands[y] == Free(a.e) || s.hands[y] == Locked(a.e));
      assert PairOk(s, k, y);
    }
  }

  /** The holder of the only reference to an inode is the only hand on its number. */
  lemma LastOne(s: State, h: nat, k: nat)
    requires Linked(s) && h < |s.hands| && s.hands[h].Free? && k < |s.hands| && k != h
    ensures s.hands[h].e < |s.table|
    ensures s.table[s.hands[h].e].ref == 1 ==> InumOf(s, s.hands[k]) != Some(s.table[s.hands[h].e].inum)
  {
    assert HandOk(s, h) && HandOk(s, k) && PairOk(s, k, h);
    var e := s.hands[h].e;
    assert EntryOk(s, e);
    if Has(s.hands[k], e) {
      if h < k { CountTwo(s.hands, h, k, e); } else { CountTwo(s.hands, k, h, e); }
    } else if !s.hands[k].Empty? && !s.hands[k].Getting? {
      assert Distinct(s, e, s.hands[k].e);
    }
  }

  lemma OtherPair(s: State, h: nat, a: Act, i: nat, j: nat)
    requires Linked(s) && Step(s, h, a).Next? && i < |s.hands| && j < |s.hands| && i != h && j != h
    ensures |Step(s, h, a).s.hands| == |s.hands| && PairOk(Step(s, h, a).s, i, j)
  {
    hide Step, Count, Inv;
    SameInum(s, h, a, i);
    SameInum(s, h, a, j);
    assert PairOk(s, i, j);
  }

  lemma SelfPair(s: State, i: nat)
    requires i < |s.hands|
    ensures PairOk(s, i, i)
  {
  }

  // ---- Every step, every run ----

  lemma LinkedStep(s: State, h: nat, a: Act)
    requires Linked(s) && LinkedAct(s, a) && Step(s, h, a).Next?
    ensures Linked(Step(s, h, a).s)
  {
    var s' := Step(s, h, a).s;
    Frame(s, h, a);
    StepInv(s, h, a);
    hide Step, Inv, AliveOk, PairOk, LinkedAct;
    forall k: nat | k < |s.hands|
      ensures AliveOk(s', k)
    {
      if k == h { OwnAlive(s, h, a); } else { OtherAlive(s, h, a, k); }
    }
    forall i: nat, j: nat | i < |s.hands| && j < |s.hands|
      ensures PairOk(s', i, j)
    {
      if i == j { SelfPair(s', i); }
      else if i == h { OwnPair(s, h, a, j); }
      else if j == h { OwnPair(s, h, a, i); }
      else { OtherPair(s, h, a, i, j); }
    }
  }

  lemma LoadFinds(s: State, h: nat, a: Act)
    requires Linked(s)
    ensures !Step(s, h, a).NoType?
  {
    hide Distinct, Count, EntryOk;
    if h < |s.hands| { assert AliveOk(s, h) && HandOk(s, h); }
  }

  lemma {:induction false} LinkedRun(s: State, acts: seq<(nat, Act)>)
    requires Linked(s) && LinkedActs(s, acts)
    ensures !Run(s, acts).NoType? && (Run(s, acts).Next? ==> Linked(Run(s, acts).s))
    decreases |acts|
  {
    hide Step, Linked, LinkedAct;
    if acts != [] {
      LoadFinds(s, acts[0].0, acts[0].1);
      var r := Step(s, acts[0].0, acts[0].1);
      if r.Next? {
        LinkedStep(s, acts[0].0, acts[0].1);
        LinkedRun(r.s, acts[1..]);
      } else if r.Off? {
        LinkedRun(s, acts[1..]);
      }
    }
  }

  /** In a run in which iget is asked only for inodes that are allocated and linked at that moment, ilock
      never panics: only a full table stops the machine.  And an inode on its way out of ialloc is
      allocated, without links and without blocks. */
  lemma LinkedSafe(s: State, acts: seq<(nat, Act)>, h: nat)
    requires Start(s) && LinkedActs(s, acts)
    ensures Run(s, acts).Next? || Run(s, acts).NoInodes?
    ensures Run(s, acts).Next? && h < |Run(s, acts).s.hands| && Run(s, acts).s.hands[h].Getting? ==>
            var t := Run(s, acts).s; var i := t.hands[h].inum;
            i < |t.disk| && t.disk[i].kind > 0 && t.disk[i].nlink == 0 && t.disk[i].rest == 0
  {
    StartInv(s);
    assert Linked(s);
    hide Step, Start, Inv, Linked;
    LinkedRun(s, acts);
    RunInv(s, acts);
    if Run(s, acts).Next? && h < |Run(s, acts).s.hands| && Run(s, acts).s.hands[h].Getting? { GettingBlank(Run(s, acts).s, h); }
  }

  lemma GettingBlank(s: State, h: nat)
    requires Linked(s) && h < |s.hands| && s.hands[h].Getting?
    ensures var i := s.hands[h].inum;
            i < |s.disk| && s.disk[i].kind > 0 && s.disk[i].nlink == 0 && s.disk[i].rest == 0
  {
    hide Inv;
    assert AliveOk(s, h);
  }
}
