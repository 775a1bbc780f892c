/** What iput's freeing leaves on disk: a free inode lists no blocks, and an inode is freed once for each
    time it is allocated (kernel/fs.c). */
module ItableFree {
  import opened Common
  import opened Itable

  /** Inodes that are free on disk list no blocks; an inode that iput has truncated lists none any more. */
  ghost predicate Hollow(s: State) {
    && (forall i: nat :: i < |s.disk| && s.disk[i].kind == 0 ==> s.disk[i].rest == 0)
    && (forall h: nat {:trigger s.hands[h]} :: h < |s.hands| && s.hands[h].Freeing1? && s.hands[h].e < |s.table| ==>
          s.table[s.hands[h].e].copy.rest == 0)
  }

  lemma DiskStep(s: State, h: nat, a: Act, i: nat)
    requires Inv(s) && Hollow(s) && Step(s, h, a).Next? && i < |s.disk|
    ensures |Step(s, h, a).s.disk| == |s.disk|
    ensures Step(s, h, a).s.disk[i].kind == 0 ==> Step(s, h, a).s.disk[i].rest == 0
  {
    hide Distinct, Count, Find, FindEmpty;
    assert h < |s.hands| && HandOk(s, h);
    if s.hands[h].Freeing0? { assert EntryOk(s, s.hands[h].e); }
  }

  lemma HandStep(s: State, h: nat, a: Act, k: nat)
    requires Inv(s) && Hollow(s) && Step(s, h, a).Next? && k < |s.hands|
    ensures |Step(s, h, a).s.hands| == |s.hands|
    ensures var s' := Step(s, h, a).s;
            s'.hands[k].Freeing1? && s'.hands[k].e < |s'.table| ==> s'.table[s'.hands[k].e].copy.rest == 0
  {
    hide Distinct, Count, EntryOk;
    Frame(s, h, a);
    assert HandOk(s, k);
    if k != h && s.hands[k].Freeing1? { EntryChange(s, h, a, s.hands[k].e); }
  }

  lemma HollowStep(s: State, h: nat, a: Act)
    requires Inv(s) && Hollow(s) && Step(s, h, a).Next?
    ensures Hollow(Step(s, h, a).s)
  {
    hide Step, HandOk, EntryOk, Distinct;
    var s' := Step(s, h, a).s;
    Frame(s, h, a);
    forall i: nat | i < |s'.disk| && s'.disk[i].kind == 0
      ensures s'.disk[i].rest == 0
    {
      DiskStep(s, h, a, i);
    }
    forall k: nat | k < |s'.hands| && s'.hands[k].Freeing1? && s'.hands[k].e < |s'.table|
      ensures s'.table[s'.hands[k].e].copy.rest == 0
    {
      HandStep(s, h, a, k);
    }
  }

  lemma {:induction false} HollowRun(s: State, acts: seq<(nat, Act)>)
    requires Inv(s) && Hollow(s) && Run(s, acts).Next?
    ensures Hollow(Run(s, acts).s)
    decreases |acts|
  {
    hide Step, HandOk, EntryOk, Distinct, Hollow;
    if acts != [] {
      var (h, a) := acts[0];
      if Step(s, h, a).Next? {
        StepInv(s, h, a);
        HollowStep(s, h, a);
        HollowRun(Step(s, h, a).s, acts[1..]);
      } else {
        HollowRun(s, acts[1..]);
      }
    }
  }

  /** In every run from a disk whose free inodes list no blocks, that stays so: iput has given back all
      blocks of an inode before it frees it. */
  lemma FreedEmpty(s: State, acts: seq<(nat, Act)>, i: nat)
    requires Start(s) && Run(s, acts).Next? && i < |Run(s, acts).s.disk|
    requires forall j: nat :: j < |s.disk| && s.disk[j].kind == 0 ==> s.disk[j].rest == 0
    ensures Run(s, acts).s.disk[i].kind == 0 ==> Run(s, acts).s.disk[i].rest == 0
  {
    StartInv(s);
    assert Hollow(s);
    hide Run, Inv, Start;
    HollowRun(s, acts);
  }

  // ---- The last iput of an inode without links ----

  /** iput from its first step to its last. */
  function PutActs(h: nat): seq<(nat, Act)> {
    [(h, IPut), (h, Trunc), (h, Clear), (h, Invalidate), (h, Unlock2), (h, Drop)]
  }

  lemma {:induction false} RunTwo(s: State, x: (nat, Act), acts: seq<(nat, Act)>)
    requires Step(s, x.0, x.1).Next?
    ensures Run(s, [x] + acts) == Run(Step(s, x.0, x.1).s, acts)
  {
    assert ([x] + acts)[1..] == acts;
  }

  lemma RunOne(s: State, h: nat, a: Act)
    requires Step(s, h, a).Next?
    ensures Run(s, [(h, a)]) == Step(s, h, a)
  {
    hide Step;
    assert [(h, a)][1..] == [];
  }

  /** The states that an iput which frees goes through, from the one with the entry's lock taken. */
  function Emptied(s: State, h: nat, k: nat): State
    requires h < |s.hands| && s.hands[h].Freeing0? && s.hands[h].e < |s.table|
    requires s.table[s.hands[h].e].ref > 0 && s.table[s.hands[h].e].inum < |s.disk|
  {
    var e := s.hands[h].e;
    var x := s.table[e];
    var cut := x.copy.(rest := 0);
    var blank := cut.(kind := 0);
    match k
    case 0 => s
    case 1 => State(s.disk[x.inum := cut], s.table[e := x.(copy := cut)], s.hands[h := Freeing1(e)])
    case 2 => State(s.disk[x.inum := blank], s.table[e := x.(copy := blank)], s.hands[h := Freeing2(e)])
    case 3 => State(s.disk[x.inum := blank], s.table[e := x.(copy := blank, valid := false)], s.hands[h := Freeing3(e)])
    case 4 =>
      State(s.disk[x.inum := blank], s.table[e := x.(copy := blank, valid := false, lock := None)],
            s.hands[h := Freeing4(e)])
    case _ =>
      State(s.disk[x.inum := blank], s.table[e := Entry(x.inum, x.ref - 1, false, blank, None)], s.hands[h := Empty])
  }

  lemma EmptyingStep(s: State, h: nat, k: nat)
    requires h < |s.hands| && s.hands[h].Freeing0? && s.hands[h].e < |s.table| && k < 5
    requires s.table[s.hands[h].e].ref > 0 && s.table[s.hands[h].e].inum < |s.disk|
    ensures Step(Emptied(s, h, k), h, PutActs(h)[k + 1].1) == Next(Emptied(s, h, k + 1))
  {
  }

  /** The rest of an iput that frees. */
  lemma {:induction false} EmptyingRun(s: State, h: nat, k: nat)
    requires h < |s.hands| && s.hands[h].Freeing0? && s.hands[h].e < |s.table| && k <= 5
    requires s.table[s.hands[h].e].ref > 0 && s.table[s.hands[h].e].inum < |s.disk|
    ensures Run(Emptied(s, h, k), PutActs(h)[k + 1..]) == Next(Emptied(s, h, 5))
    decreases 5 - k
  {
    hide Step, Emptied;
    var acts := PutActs(h);
    if k < 5 {
      assert acts[k + 1].0 == h;
      EmptyingStep(s, h, k);
      hide PutActs;
      assert acts[k + 1..] == [acts[k + 1]] + acts[k + 2..];
      RunTwo(Emptied(s, h, k), acts[k + 1], acts[k + 2..]);
      EmptyingRun(s, h, k + 1);
    }
  }

  lemma PutLast(s: State, h: nat, e: nat)
    requires h < |s.hands| && s.hands[h] == Free(e) && e < |s.table| && s.table[e].inum < |s.disk|
    requires s.table[e].ref == 1 && s.table[e].valid && s.table[e].copy.nlink == 0 && s.table[e].lock.None?
    ensures var x := s.table[e];
            Run(s, PutActs(h)) ==
            Next(State(s.disk[x.inum := Dinode(0, 0, 0)],
                       s.table[e := Entry(x.inum, 0, false, Dinode(0, 0, 0), None)], s.hands[h := Empty]))
  {
    var x := s.table[e];
    var s0 := State(s.disk, s.table[e := x.(lock := Some(h))], s.hands[h := Freeing0(e)]);
    assert Step(s, h, IPut) == Next(s0);
    hide Step;
    assert PutActs(h) == [(h, IPut)] + PutActs(h)[1..];
    RunTwo(s, (h, IPut), PutActs(h)[1..]);
    EmptyingRun(s0, h, 0);
    hide Run;
    assert s0.table[e := Entry(x.inum, 0, false, Dinode(0, 0, 0), None)]
        == s.table[e := Entry(x.inum, 0, false, Dinode(0, 0, 0), None)];
    assert s0.hands[h := Empty] == s.hands[h := Empty];
  }

  lemma PutOne(s: State, h: nat, e: nat)
    requires h < |s.hands| && s.hands[h] == Free(e) && e < |s.table| && s.table[e].ref > 0
    requires s.table[e].ref > 1 || !s.table[e].valid || s.table[e].copy.nlink > 0
    ensures Run(s, [(h, IPut)]) ==
            Next(PutHand(PutEntry(s, e, s.table[e].(ref := s.table[e].ref - 1)), h, Empty))
  {
    hide Run, DoGet, PutHand, PutEntry;
    RunOne(s, h, IPut);
  }

  lemma PutFacts(s: State, h: nat)
    requires Inv(s) && h < |s.hands| && s.hands[h].Free?
    ensures s.hands[h].e < |s.table| && s.table[s.hands[h].e].inum < |s.disk|
    ensures var x := s.table[s.hands[h].e];
            && x.ref > 0 && (x.ref == 1 ==> x.lock.None?)
            && (x.ref == 1 && x.valid ==> x.copy == s.disk[x.inum])
  {
    hide Distinct, Count;
    assert HandOk(s, h) && EntryOk(s, s.hands[h].e);
    NobodyElse(s, h);
  }

  /** An iput that is not interleaved: it frees the inode on disk, with all its blocks, exactly when this was
      the last reference, the entry is valid and the inode has no links; in any case it gives up one
      reference, and changes no other inode and no other entry. */
  lemma PutExact(s: State, h: nat)
    requires Inv(s) && h < |s.hands| && s.hands[h].Free?
    ensures s.hands[h].e < |s.table| && s.table[s.hands[h].e].inum < |s.disk| && s.table[s.hands[h].e].ref > 0
    ensures var e := s.hands[h].e; var x := s.table[e];
            var last := x.ref == 1 && x.valid && s.disk[x.inum].nlink == 0;
            var r := Run(s, if last then PutActs(h) else [(h, IPut)]);
            && r.Next? && r.s.hands == s.hands[h := Empty]
            && |r.s.table| == |s.table| && r.s.table == s.table[e := r.s.table[e]] && r.s.table[e].ref == x.ref - 1
            && r.s.disk == if last then s.disk[x.inum := Dinode(0, 0, 0)] else s.disk
  {
    hide Inv, Run, PutActs;
    PutFacts(s, h);
    var e := s.hands[h].e;
    var x := s.table[e];
    if x.ref == 1 && x.valid && s.disk[x.inum].nlink == 0 { PutLast(s, h, e); } else { PutOne(s, h, e); }
  }

  // ---- Allocated and freed in turn ----

  function InUse(s: State, i: nat): nat { if i < |s.disk| && s.disk[i].kind > 0 then 1 else 0 }

  /** This step allocates inode i. */
  predicate Allocates(s: State, h: nat, a: Act, i: nat) { a.IAlloc? && a.inum == i && Step(s, h, a).Next? }

  /** This step of iput writes inode i back as free. */
  predicate Frees(s: State, h: nat, a: Act, i: nat) {
    && a.Clear? && Step(s, h, a).Next? && h < |s.hands| && s.hands[h].Freeing1?
    && s.hands[h].e < |s.table| && s.table[s.hands[h].e].inum == i
  }

  function Allocations(s: State, acts: seq<(nat, Act)>, i: nat): nat
    decreases |acts|
  {
    if acts == [] then 0 else
    var (h, a) := acts[0];
    var r := Step(s, h, a);
    (if Allocates(s, h, a, i) then 1 else 0) + Allocations(if r.Next? then r.s else s, acts[1..], i)
  }

  function Freeings(s: State, acts: seq<(nat, Act)>, i: nat): nat
    decreases |acts|
  {
    if acts == [] then 0 else
    var (h, a) := acts[0];
    var r := Step(s, h, a);
    (if Frees(s, h, a, i) then 1 else 0) + Freeings(if r.Next? then r.s else s, acts[1..], i)
  }

  lemma UseStep(s: State, h: nat, a: Act, i: nat)
    requires Inv(s) && Step(s, h, a).Next?
    ensures InUse(s, i) + (if Allocates(s, h, a, i) then 1 else 0)
            == InUse(Step(s, h, a).s, i) + if Frees(s, h, a, i) then 1 else 0
  {
    hide Distinct, Count, Find, FindEmpty;
    assert h < |s.hands| && HandOk(s, h);
    var x := s.hands[h];
    if !x.Empty? && !x.Getting? { assert EntryOk(s, x.e); }
  }

  lemma {:induction false} UseRun(s: State, acts: seq<(nat, Act)>, i: nat)
    requires Inv(s) && Run(s, acts).Next?
    ensures InUse(s, i) + Allocations(s, acts, i) == InUse(Run(s, acts).s, i) + Freeings(s, acts, i)
    decreases |acts|
  {
    hide Step, HandOk, EntryOk, Distinct, InUse;
    if acts != [] {
      var (h, a) := acts[0];
      if Step(s, h, a).Next? {
        UseStep(s, h, a, i);
        StepInv(s, h, a);
        UseRun(Step(s, h, a).s, acts[1..], i);
      } else {
        UseRun(s, acts[1..], i);
      }
    }
  }

  /** In every run, an inode is freed exactly once for each time it was allocated, or is still in use. */
  lemma FreedOnce(s: State, acts: seq<(nat, Act)>, i: nat)
    requires Start(s) && Run(s, acts).Next?
    ensures InUse(s, i) + Allocations(s, acts, i) == Freeings(s, acts, i) + InUse(Run(s, acts).s, i)
  {
    StartInv(s);
    hide Run, Inv, Start;
    UseRun(s, acts, i);
  }
}
