/** The inode table: ialloc, iget, idup, ilock, iunlock and iput interleaved (kernel/fs.c).  An agent is a
    reference to an inode, from the moment it is asked for until it is given back; code under itable.lock
    is one step. */
module Itable {

  import opened Common

  /** An inode on disk; kind 0 is free, rest stands for size and block addresses. */
  datatype Dinode = Dinode(kind: nat, nlink: nat, rest: int)

  datatype Entry = Entry(inum: nat, ref: nat, valid: bool, copy: Dinode, lock: Option<nat>)

  /** What has become of a reference. */
  datatype Hand =
    | Empty
    | Getting(inum: nat)   // ialloc: marked allocated on disk, about to call iget
    | Free(e: nat)         // a reference, not locked
    | Loading(e: nat)      // ilock: holding the entry's lock
    | Locked(e: nat)       // ilock has returned
    | Freeing0(e: nat)     // iput: last reference, no links; holding the entry's lock
    | Freeing1(e: nat)     // iput: truncated
    | Freeing2(e: nat)     // iput: kind 0 written to disk
    | Freeing3(e: nat)     // iput: valid == 0
    | Freeing4(e: nat)     // iput: lock released

  datatype State = State(disk: seq<Dinode>, table: seq<Entry>, hands: seq<Hand>)

  /** NoInodes: iget's panic.  NoType: ilock's panic.  Blocked: iput would have to wait for the lock. */
  datatype Outcome = Off | NoInodes | NoType | Blocked | Next(s: State)

  datatype Act =
    | IAlloc(inum: nat, kind: nat) | IGetNew | IGet(inum: nat) | IDup(e: nat)
    | ILock | ILoad | Update(d: Dinode) | IUnlock
    | IPut | Trunc | Clear | Invalidate | Unlock2 | Drop

  predicate Has(x: Hand, e: nat) { !x.Empty? && !x.Getting? && x.e == e }

  /** Hands that hold an entry's lock. */
  predicate HoldsLock(x: Hand) {
    x.Loading? || x.Locked? || x.Freeing0? || x.Freeing1? || x.Freeing2? || x.Freeing3?
  }

  function PutHand(s: State, h: nat, x: Hand): State
    requires h < |s.hands|
  {
    s.(hands := s.hands[h := x])
  }

  function PutEntry(s: State, e: nat, x: Entry): State
    requires e < |s.table|
  {
    s.(table := s.table[e := x])
  }

  /** iget's scan: the entry in use for inum, or else the first one not in use. */
  function Find(table: seq<Entry>, inum: nat): (r: Option<nat>)
    ensures r.Some? ==> r.value < |table| && table[r.value].ref > 0 && table[r.value].inum == inum
    ensures r.None? ==> forall e :: 0 <= e < |table| && table[e].ref > 0 ==> table[e].inum != inum
  {
    if table == [] then None else
    var n := |table| - 1;
    var r := Find(table[..n], inum);
    if r.Some? then r else if table[n].ref > 0 && table[n].inum == inum then Some(n) else None
  }

  function FindEmpty(table: seq<Entry>): (r: Option<nat>)
    ensures r.Some? ==> r.value < |table| && table[r.value].ref == 0 && forall e :: 0 <= e < r.value ==> table[e].ref > 0
    ensures r.None? ==> forall e :: 0 <= e < |table| ==> table[e].ref > 0
  {
    if table == [] then None else
    var n := |table| - 1;
    var r := FindEmpty(table[..n]);
    if r.Some? then r else if table[n].ref == 0 then Some(n) else None
  }

  /** iget: an entry for inum with one reference more. */
  function DoGet(s: State, h: nat, inum: nat): Outcome
    requires h < |s.hands|
  {
    var found := Find(s.table, inum);
    if found.Some? then
      var e := found.value;
      Next(PutHand(PutEntry(s, e, s.table[e].(ref := s.table[e].ref + 1)), h, Free(e)))
    else
      var empty := FindEmpty(s.table);
      if empty.None? then NoInodes else
      var e := empty.value;
      Next(PutHand(PutEntry(s, e, s.table[e].(inum := inum, ref := 1, valid := false)), h, Free(e)))
  }

  function Step(s: State, h: nat, a: Act): Outcome {
    if h >= |s.hands| then Off else
    match (a, s.hands[h])
    case (IAlloc(inum, kind), Empty) =>
      if 0 < inum < |s.disk| && s.disk[inum].kind == 0 && kind > 0
      then Next(PutHand(s.(disk := s.disk[inum := Dinode(kind, 0, 0)]), h, Getting(inum))) else Off
    case (IGetNew, Getting(inum)) => DoGet(s, h, inum)
    // dirlookup: whatever number a directory entry holds
    case (IGet(inum), Empty) => if inum < |s.disk| then DoGet(s, h, inum) else Off
    case (IDup(e), Empty) =>
      if e < |s.table| && (exists x :: 0 <= x < |s.hands| && (s.hands[x] == Free(e) || s.hands[x] == Locked(e)))
      then Next(PutHand(PutEntry(s, e, s.table[e].(ref := s.table[e].ref + 1)), h, Free(e))) else Off
    case (ILock, Free(e)) =>
      if e < |s.table| && s.table[e].lock.None?
      then Next(PutHand(PutEntry(s, e, s.table[e].(lock := Some(h))), h, Loading(e))) else Off
    case (ILoad, Loading(e)) =>
      if e >= |s.table| || s.table[e].inum >= |s.disk| then Off else
      var x := s.table[e];
      if x.valid then Next(PutHand(s, h, Locked(e)))
      else if s.disk[x.inum].kind == 0 then NoType
      else Next(PutHand(PutEntry(s, e, x.(valid := true, copy := s.disk[x.inum])), h, Locked(e)))
    case (Update(d), Locked(e)) =>
      if e < |s.table| && s.table[e].inum < |s.disk| && d.kind > 0
      then Next(PutEntry(s, e, s.table[e].(copy := d)).(disk := s.disk[s.table[e].inum := d])) else Off
    case (IUnlock, Locked(e)) =>
      if e < |s.table| then Next(PutHand(PutEntry(s, e, s.table[e].(lock := None)), h, Free(e))) else Off
    case (IPut, Free(e)) =>
      if e >= |s.table| || s.table[e].ref == 0 then Off else
      var x := s.table[e];
      if x.ref == 1 && x.valid && x.copy.nlink == 0 then
        if x.lock.Some? then Blocked
        else Next(PutHand(PutEntry(s, e, x.(lock := Some(h))), h, Freeing0(e)))
      else Next(PutHand(PutEntry(s, e, x.(ref := x.ref - 1)), h, Empty))
    case (Trunc, Freeing0(e)) =>
      if e >= |s.table| || s.table[e].inum >= |s.disk| then Off else
      var d := s.table[e].copy.(rest := 0);
      Next(PutHand(PutEntry(s, e, s.table[e].(copy := d)).(disk := s.disk[s.table[e].inum := d]), h, Freeing1(e)))
    case (Clear, Freeing1(e)) =>
      if e >= |s.table| || s.table[e].inum >= |s.disk| then Off else
      var d := s.table[e].copy.(kind := 0);
      Next(PutHand(PutEntry(s, e, s.table[e].(copy := d)).(disk := s.disk[s.table[e].inum := d]), h, Freeing2(e)))
    case (Invalidate, Freeing2(e)) =>
      if e < |s.table| then Next(PutHand(PutEntry(s, e, s.table[e].(valid := false)), h, Freeing3(e))) else Off
    case (Unlock2, Freeing3(e)) =>
      if e < |s.table| then Next(PutHand(PutEntry(s, e, s.table[e].(lock := None)), h, Freeing4(e))) else Off
    case (Drop, Freeing4(e)) =>
      if e < |s.table| && s.table[e].ref > 0
      then Next(PutHand(PutEntry(s, e, s.table[e].(ref := s.table[e].ref - 1)), h, Empty)) else Off
    case _ => Off
  }

  // ---- The invariant ----

  function Count(hands: seq<Hand>, e: nat): nat {
    if hands == [] then 0 else (if Has(hands[0], e) then 1 else 0) + Count(hands[1..], e)
  }

  ghost predicate HandOk(s: State, h: nat)
    requires h < |s.hands|
  {
    var x := s.hands[h];
    && (!x.Empty? && !x.Getting? ==>
          && x.e < |s.table| && s.table[x.e].ref > 0 && s.table[x.e].inum < |s.disk|
          && (HoldsLock(x) <==> s.table[x.e].lock == Some(h)))
    && (x.Getting? ==> x.inum < |s.disk|)
    && (x.Locked? || x.Freeing0? || x.Freeing1? || x.Freeing2? ==> s.table[x.e].valid)
    && (x.Freeing0? || x.Freeing1? ==> s.table[x.e].copy.nlink == 0)
    && (x.Freeing2? ==> s.table[x.e].copy.kind == 0)
    && (x.Freeing3? ==> !s.table[x.e].valid)
  }

  ghost predicate EntryOk(s: State, e: nat)
    requires e < |s.table|
  {
    var x := s.table[e];
    && x.ref == Count(s.hands, e)
    && (x.lock.Some? ==> x.lock.value < |s.hands| && HoldsLock(s.hands[x.lock.value]) && s.hands[x.lock.value].e == e)
    // a valid copy is what is on disk, until the last step before it is thrown away
    && (x.ref > 0 && x.valid && !(x.lock.Some? && s.hands[x.lock.value].Freeing2?) ==>
          x.inum < |s.disk| && x.copy == s.disk[x.inum] && x.copy.kind > 0)
  }

  /** No two entries in use are of the same inode. */
  ghost predicate Distinct(s: State, e: nat, f: nat)
    requires e < |s.table| && f < |s.table|
  {
    e != f && s.table[e].ref > 0 && s.table[f].ref > 0 ==> s.table[e].inum != s.table[f].inum
  }

  ghost predicate Inv(s: State) {
    && (forall h: nat :: h < |s.hands| ==> HandOk(s, h))
    && (forall e: nat :: e < |s.table| ==> EntryOk(s, e))
    && (forall e: nat, f: nat {:trigger Distinct(s, e, f)} :: e < |s.table| && f < |s.table| ==> Distinct(s, e, f))
  }

  ghost predicate Start(s: State) {
    && (forall h :: 0 <= h < |s.hands| ==> s.hands[h] == Empty)
    && (forall e :: 0 <= e < |s.table| ==> s.table[e].ref == 0 && s.table[e].lock.None?)
  }

  /** iinit, over any disk. */
  function Initial(disk: seq<Dinode>, entries: nat, hands: nat): (s: State)
    ensures Start(s)
  {
    State(disk, seq(entries, e => Entry(0, 0, false, Dinode(0, 0, 0), None)), seq(hands, h => Empty))
  }

  lemma StartInv(s: State)
    requires Start(s)
    ensures Inv(s)
  {
    forall e: nat | e < |s.table|
      ensures EntryOk(s, e)
    {
      CountNone(s.hands, e);
    }
  }

  lemma {:induction false} CountNone(hands: seq<Hand>, e: nat)
    requires forall h :: 0 <= h < |hands| ==> !Has(hands[h], e)
    ensures Count(hands, e) == 0
  {
    if hands != [] { CountNone(hands[1..], e); }
  }

  lemma {:induction false} CountUpdate(hands: seq<Hand>, h: nat, x: Hand, e: nat)
    requires h < |hands|
    ensures Count(hands[h := x], e) == Count(hands, e) - (if Has(hands[h], e) then 1 else 0) + (if Has(x, e) then 1 else 0)
  {
    if h == 0 {
      assert hands[0 := x][1..] == hands[1..];
    } else {
      assert hands[h := x][1..] == hands[1..][h - 1 := x];
      CountUpdate(hands[1..], h - 1, x, e);
    }
  }

  lemma {:induction false} CountTwo(hands: seq<Hand>, h: nat, k: nat, e: nat)
    requires h < k < |hands| && Has(hands[h], e) && Has(hands[k], e)
    ensures Count(hands, e) >= 2
  {
    if h == 0 {
      CountOne(hands[1..], k - 1, e);
    } else {
      CountTwo(hands[1..], h - 1, k - 1, e);
    }
  }

  lemma {:induction false} CountOne(hands: seq<Hand>, h: nat, e: nat)
    requires h < |hands| && Has(hands[h], e)
    ensures Count(hands, e) >= 1
  {
    if h > 0 { CountOne(hands[1..], h - 1, e); }
  }

  // ---- Every step keeps it ----

  /** What a step may do to the entry it is about: the rest of the table, and other hands, stay. */
  lemma Frame(s: State, h: nat, a: Act)
    requires Step(s, h, a).Next?
    ensures h < |s.hands|
    ensures var s' := Step(s, h, a).s;
            && |s'.hands| == |s.hands| && |s'.table| == |s.table| && |s'.disk| == |s.disk|
            && (forall k :: 0 <= k < |s.hands| && k != h ==> s'.hands[k] == s.hands[k])
  {
  }

  /** Only a holder of an entry in use changes it, but for the count, and nobody changes its number. */
  lemma EntryChange(s: State, h: nat, a: Act, e: nat)
    requires Inv(s) && Step(s, h, a).Next? && e < |s.table| && s.table[e].ref > 0
    ensures h < |s.hands|
    ensures var s' := Step(s, h, a).s; var x, x' := s.table[e], s'.table[e];
            && |s'.table| == |s.table| && |s'.hands| == |s.hands|
            && x'.inum == x.inum
            && (x'.lock != x.lock ==> (x.lock == None && x'.lock == Some(h)) || (x.lock == Some(h) && x'.lock == None))
            && (x'.valid != x.valid || x'.copy != x.copy ==> x.lock == Some(h))
            && (x'.ref == x.ref || x'.ref == x.ref + 1 || (x'.ref == x.ref - 1 && Has(s.hands[h], e)))
  {
    hide EntryOk, Distinct, Count;
    assert h < |s.hands| && HandOk(s, h);
  }

  lemma OtherHand(s: State, h: nat, a: Act, k: nat)
    requires Inv(s) && Step(s, h, a).Next? && k < |s.hands| && k != h
    ensures |Step(s, h, a).s.hands| == |s.hands| && HandOk(Step(s, h, a).s, k)
  {
    hide Step, Distinct, Count, EntryOk;
    Frame(s, h, a);
    assert HandOk(s, h) && HandOk(s, k);
    var x := s.hands[k];
    if !x.Empty? && !x.Getting? {
      EntryChange(s, h, a, x.e);
      StillUsed(s, h, a, k);
    }
  }

  lemma StillUsed(s: State, h: nat, a: Act, k: nat)
    requires Inv(s) && Step(s, h, a).Next? && k < |s.hands| && k != h && !s.hands[k].Empty? && !s.hands[k].Getting?
    ensures s.hands[k].e < |Step(s, h, a).s.table| && Step(s, h, a).s.table[s.hands[k].e].ref > 0
  {
    hide Step, Distinct;
    Frame(s, h, a);
    assert HandOk(s, k);
    var e := s.hands[k].e;
    EntryChange(s, h, a, e);
    assert EntryOk(s, e);
    if Has(s.hands[h], e) {
      if h < k { CountTwo(s.hands, h, k, e); } else { CountTwo(s.hands, k, h, e); }
    }
  }

  lemma OwnHand(s: State, h: nat, a: Act)
    requires Inv(s) && Step(s, h, a).Next?
    ensures h < |Step(s, h, a).s.hands| && HandOk(Step(s, h, a).s, h)
  {
    hide Distinct, Count;
    assert h < |s.hands| && HandOk(s, h);
    var x := s.hands[h];
    if !x.Empty? && !x.Getting? { assert EntryOk(s, x.e); }
    if a.IDup? {
      var y :| 0 <= y < |s.hands| && (s.hands[y] == Free(a.e) || s.hands[y] == Locked(a.e));
      assert HandOk(s, y);
    }
    if x.Getting? || a.IGet? || a.IDup? { LockedByOther(s, h); }
  }

  /** A hand without an entry holds no lock. */
  lemma LockedByOther(s: State, h: nat)
    requires Inv(s) && h < |s.hands| && (s.hands[h].Empty? || s.hands[h].Getting?)
    ensures forall e: nat :: e < |s.table| ==> s.table[e].lock != Some(h)
  {
    hide Distinct, Count, HandOk;
    forall e: nat | e < |s.table|
      ensures s.table[e].lock != Some(h)
    {
      assert EntryOk(s, e);
    }
  }

  // ---- Entries ----

  /** A step changes an entry's count by one for a hand that it puts on the entry or takes off it. */
  lemma RefStep(s: State, h: nat, a: Act, e: nat)
    requires Step(s, h, a).Next? && e < |s.table|
    ensures h < |s.hands| == |Step(s, h, a).s.hands| && |Step(s, h, a).s.table| == |s.table|
    ensures Step(s, h, a).s.table[e].ref
         == s.table[e].ref - (if Has(s.hands[h], e) then 1 else 0)
            + (if Has(Step(s, h, a).s.hands[h], e) then 1 else 0)
  {
    hide HoldsLock;
  }

  lemma CountStep(s: State, h: nat, a: Act, e: nat)
    requires Inv(s) && Step(s, h, a).Next? && e < |s.table|
    ensures |Step(s, h, a).s.table| == |s.table| && Step(s, h, a).s.table[e].ref == Count(Step(s, h, a).s.hands, e)
  {
    hide Step, HandOk, Distinct;
    var s' := Step(s, h, a).s;
    Frame(s, h, a);
    RefStep(s, h, a, e);
    assert EntryOk(s, e);
    CountUpdate(s.hands, h, s'.hands[h], e);
    assert s'.hands == s.hands[h := s'.hands[h]];
  }

  lemma LockStep(s: State, h: nat, a: Act, e: nat)
    requires Inv(s) && Step(s, h, a).Next? && e < |s.table|
    ensures |Step(s, h, a).s.table| == |s.table| && |Step(s, h, a).s.hands| == |s.hands|
    ensures var s' := Step(s, h, a).s; var x := s'.table[e];
            x.lock.Some? ==> x.lock.value < |s'.hands| && HoldsLock(s'.hands[x.lock.value]) && s'.hands[x.lock.value].e == e
  {
    hide Distinct, Count;
    assert h < |s.hands| && HandOk(s, h) && EntryOk(s, e);
  }

  /** An entry in use that h does not have keeps agreeing with the disk. */
  lemma ValidElse(s: State, h: nat, a: Act, e: nat)
    requires Inv(s) && Step(s, h, a).Next? && e < |s.table| && s.table[e].ref > 0 && s.table[e].valid
    requires s.table[e].inum < |s.disk| && s.table[e].copy == s.disk[s.table[e].inum] && s.table[e].copy.kind > 0
    requires h < |s.hands| && !Has(s.hands[h], e)
    ensures |Step(s, h, a).s.disk| == |s.disk| && Step(s, h, a).s.disk[s.table[e].inum] == s.disk[s.table[e].inum]
  {
    hide Count, Find, FindEmpty;
    assert HandOk(s, h);
    if !s.hands[h].Empty? && !s.hands[h].Getting? { assert Distinct(s, s.hands[h].e, e); }
  }

  /** The copy agrees with the disk wherever it has to. */
  ghost predicate Agrees(s: State, e: nat)
    requires e < |s.table|
  {
    var x := s.table[e];
    x.ref > 0 && x.valid && !(x.lock.Some? && x.lock.value < |s.hands| && s.hands[x.lock.value].Freeing2?) ==>
      x.inum < |s.disk| && x.copy == s.disk[x.inum] && x.copy.kind > 0
  }

  lemma OwnAgrees(s: State, h: nat, a: Act, e: nat)
    requires Inv(s) && Step(s, h, a).Next? && e < |s.table| && h < |s.hands| && Has(s.hands[h], e)
    ensures |Step(s, h, a).s.table| == |s.table| && Agrees(Step(s, h, a).s, e)
  {
    hide Distinct, Count;
    assert HandOk(s, h) && EntryOk(s, e);
  }

  lemma ElseAgrees(s: State, h: nat, a: Act, e: nat)
    requires Inv(s) && Step(s, h, a).Next? && e < |s.table| && h < |s.hands| && !Has(s.hands[h], e)
    ensures |Step(s, h, a).s.table| == |s.table| && Agrees(Step(s, h, a).s, e)
  {
    assert EntryOk(s, e);
    if s.table[e].ref > 0 {
      hide Step, Distinct, Count;
      Frame(s, h, a);
      EntryChange(s, h, a, e);
      LockChange(s, h, a, e);
      if s.table[e].valid && s.table[e].copy.kind > 0 && s.table[e].inum < |s.disk|
         && s.table[e].copy == s.disk[s.table[e].inum] {
        ValidElse(s, h, a, e);
      }
    } else {
      hide Distinct, Count;
      assert HandOk(s, h);
      if a.IDup? {
        var y :| 0 <= y < |s.hands| && (s.hands[y] == Free(a.e) || s.hands[y] == Locked(a.e));
        assert HandOk(s, y);
      }
    }
  }

  /** Locks change only in the hands of those who have the entry. */
  lemma LockChange(s: State, h: nat, a: Act, e: nat)
    requires Inv(s) && Step(s, h, a).Next? && e < |s.table| && h < |s.hands| && !Has(s.hands[h], e)
    ensures |Step(s, h, a).s.table| == |s.table| && Step(s, h, a).s.table[e].lock == s.table[e].lock
    ensures s.table[e].lock != Some(h)
  {
    hide Distinct, Count;
    assert HandOk(s, h) && EntryOk(s, e);
  }

  lemma EntryStep(s: State, h: nat, a: Act, e: nat)
    requires Inv(s) && Step(s, h, a).Next? && e < |s.table|
    ensures |Step(s, h, a).s.table| == |s.table| && EntryOk(Step(s, h, a).s, e)
  {
    hide Step, Count, Inv;
    Frame(s, h, a);
    CountStep(s, h, a, e);
    LockStep(s, h, a, e);
    if Has(s.hands[h], e) { OwnAgrees(s, h, a, e); } else { ElseAgrees(s, h, a, e); }
  }

  lemma DistinctStep(s: State, h: nat, a: Act, e: nat, f: nat)
    requires Inv(s) && Step(s, h, a).Next? && e < |s.table| && f < |s.table|
    ensures |Step(s, h, a).s.table| == |s.table| && Distinct(Step(s, h, a).s, e, f)
  {
    hide EntryOk, Count;
    assert h < |s.hands| && HandOk(s, h) && Distinct(s, e, f);
    if a.IDup? {
      var y :| 0 <= y < |s.hands| && (s.hands[y] == Free(a.e) || s.hands[y] == Locked(a.e));
      assert HandOk(s, y);
    }
  }

  lemma StepInv(s: State, h: nat, a: Act)
    requires Inv(s) && Step(s, h, a).Next?
    ensures Inv(Step(s, h, a).s)
  {
    var s' := Step(s, h, a).s;
    Frame(s, h, a);
    hide Step, HandOk, EntryOk, Distinct;
    forall k: nat | k < |s.hands|
      ensures HandOk(s', k)
    {
      if k == h { OwnHand(s, h, a); } else { OtherHand(s, h, a, k); }
    }
    forall e: nat | e < |s.table|
      ensures EntryOk(s', e)
    {
      EntryStep(s, h, a, e);
    }
    forall e: nat, f: nat | e < |s.table| && f < |s.table|
      ensures Distinct(s', e, f)
    {
      DistinctStep(s, h, a, e, f);
    }
  }

  /** iput never waits for the lock of an inode it frees. */
  lemma NeverBlocks(s: State, h: nat, a: Act)
    requires Inv(s)
    ensures !Step(s, h, a).Blocked?
  {
    hide Distinct, Count;
    if h < |s.hands| && a.IPut? && s.hands[h].Free? { NobodyElse(s, h); }
  }

  /** Whoever has a reference can go on with it: only a lock that is taken makes a caller wait. */
  lemma HandMoves(s: State, h: nat)
    requires Inv(s) && h < |s.hands|
    ensures match s.hands[h]
            case Empty => true
            case Getting(_) => !Step(s, h, IGetNew).Off?
            case Free(e) => e < |s.table| && Step(s, h, IPut).Next? && (Step(s, h, ILock).Next? <==> s.table[e].lock.None?)
            case Loading(_) => !Step(s, h, ILoad).Off?
            case Locked(_) => Step(s, h, IUnlock).Next? && forall d: Dinode :: d.kind > 0 ==> Step(s, h, Update(d)).Next?
            case Freeing0(_) => Step(s, h, Trunc).Next?
            case Freeing1(_) => Step(s, h, Clear).Next?
            case Freeing2(_) => Step(s, h, Invalidate).Next?
            case Freeing3(_) => Step(s, h, Unlock2).Next?
            case Freeing4(_) => Step(s, h, Drop).Next?
  {
    hide Distinct, Count, EntryOk;
    assert HandOk(s, h);
    if s.hands[h].Free? { NeverBlocks(s, h, IPut); }
  }

  /** iget panics exactly when the inode is not in the table and every entry is in use. */
  lemma GetPanics(s: State, h: nat, inum: nat)
    requires h < |s.hands| && inum < |s.disk| && s.hands[h] == Empty
    ensures Step(s, h, IGet(inum)).NoInodes? <==>
              forall e :: 0 <= e < |s.table| ==> s.table[e].ref > 0 && s.table[e].inum != inum
    ensures Step(s, h, IGet(inum)).NoInodes? || Step(s, h, IGet(inum)).Next?
  {
    hide Find, FindEmpty;
  }

  /** ilock panics exactly when, with the entry's lock in hand, the inode is free on disk: an entry that
      is valid then is of an allocated one. */
  lemma LockPanics(s: State, h: nat)
    requires Inv(s) && h < |s.hands| && s.hands[h].Loading?
    ensures s.hands[h].e < |s.table| && s.table[s.hands[h].e].inum < |s.disk|
    ensures Step(s, h, ILoad).NoType? <==> s.disk[s.table[s.hands[h].e].inum].kind == 0
  {
    hide Distinct, Count;
    assert HandOk(s, h) && EntryOk(s, s.hands[h].e);
  }

  lemma NobodyElse(s: State, h: nat)
    requires Inv(s) && h < |s.hands| && s.hands[h].Free?
    ensures s.hands[h].e < |s.table| && (s.table[s.hands[h].e].ref == 1 ==> s.table[s.hands[h].e].lock.None?)
  {
    assert HandOk(s, h);
    var e := s.hands[h].e;
    assert EntryOk(s, e);
    if s.table[e].lock.Some? {
      var k := s.table[e].lock.value;
      if h < k { CountTwo(s.hands, h, k, e); } else { CountTwo(s.hands, k, h, e); }
    }
  }

  // ---- Whole runs ----

  function Run(s: State, acts: seq<(nat, Act)>): Outcome
    decreases |acts|
  {
    if acts == [] then Next(s) else
    var r := Step(s, acts[0].0, acts[0].1);
    match r
    case Off => Run(s, acts[1..])
    case Next(s') => Run(s', acts[1..])
    case _ => r
  }

  lemma {:induction false} RunInv(s: State, acts: seq<(nat, Act)>)
    requires Inv(s)
    ensures !Run(s, acts).Blocked? && !Run(s, acts).Off?
    ensures Run(s, acts).Next? ==> Inv(Run(s, acts).s)
    decreases |acts|
  {
    hide Step, HandOk, EntryOk, Distinct;
    if acts != [] {
      NeverBlocks(s, acts[0].0, acts[0].1);
      match Step(s, acts[0].0, acts[0].1)
      case Off => RunInv(s, acts[1..]);
      case Next(s') =>
        StepInv(s, acts[0].0, acts[0].1);
        RunInv(s', acts[1..]);
      case _ =>
    }
  }

  /** A caller whose ilock finds the entry's lock free sees it panic exactly when the inode is free on
      disk at the call. */
  lemma ILockPanics(s: State, h: nat)
    requires Inv(s) && h < |s.hands| && s.hands[h].Free? && s.hands[h].e < |s.table|
    requires s.table[s.hands[h].e].lock.None?
    ensures s.table[s.hands[h].e].inum < |s.disk|
    ensures Run(s, [(h, ILock), (h, ILoad)]).NoType? <==> s.disk[s.table[s.hands[h].e].inum].kind == 0
  {
    assert HandOk(s, h);
    StepInv(s, h, ILock);
    hide Inv;
    var t := Step(s, h, ILock).s;
    LockPanics(t, h);
    assert [(h, ILock), (h, ILoad)][1..] == [(h, ILoad)];
    assert Run(t, [(h, ILoad)]).NoType? <==> Step(t, h, ILoad).NoType?;
  }

  /** In every run, whatever numbers iget is asked for: no two entries in use are of the same inode;
      whoever has an inode locked sees what is on disk, and it is allocated; iput never has to wait; and
      only a full table, or ilock of an inode that is free on disk, stops the machine. */
  lemma InodesSafe(s: State, acts: seq<(nat, Act)>, e: nat, f: nat, h: nat)
    requires Start(s)
    ensures Run(s, acts).Next? || Run(s, acts).NoInodes? || Run(s, acts).NoType?
    ensures Run(s, acts).Next? ==>
            var t := Run(s, acts).s;
            && (e < |t.table| && f < |t.table| && e != f && t.table[e].ref > 0 && t.table[f].ref > 0 ==>
                  t.table[e].inum != t.table[f].inum)
            && (h < |t.hands| && t.hands[h].Locked? ==>
                  && t.hands[h].e < |t.table| && t.table[t.hands[h].e].inum < |t.disk|
                  && t.table[t.hands[h].e].copy == t.disk[t.table[t.hands[h].e].inum]
                  && t.table[t.hands[h].e].copy.kind > 0)
            && (h < |t.hands| && t.hands[h].Loading? ==>
                  && t.hands[h].e < |t.table| && t.table[t.hands[h].e].inum < |t.disk|
                  && (Step(t, h, ILoad).NoType? <==> t.disk[t.table[t.hands[h].e].inum].kind == 0))
  {
    StartInv(s);
    hide Step, Start, Count;
    RunInv(s, acts);
    hide Run;
    if Run(s, acts).Next? {
      var t := Run(s, acts).s;
      if e < |t.table| && f < |t.table| { assert Distinct(t, e, f); }
      if h < |t.hands| {
        assert HandOk(t, h);
        if t.hands[h].Locked? { assert EntryOk(t, t.hands[h].e); }
        if t.hands[h].Loading? { LockPanics(t, h); }
      }
    }
  }

  // ---- The window in iput ----

  const BLANK := Dinode(0, 0, 0)

  /** A run of two hands over one entry: one allocates an inode, locks and unlocks it, and gives it back;
      before it has dropped its reference the other allocates the same number. */
  function Window(k: nat): State {
    var one, two := Dinode(1, 0, 0), Dinode(2, 0, 0);
    match k
    case 0 => State([BLANK, BLANK], [Entry(0, 0, false, BLANK, None)], [Empty, Empty])
    case 1 => State([BLANK, one], [Entry(0, 0, false, BLANK, None)], [Getting(1), Empty])
    case 2 => State([BLANK, one], [Entry(1, 1, false, BLANK, None)], [Free(0), Empty])
    case 3 => State([BLANK, one], [Entry(1, 1, false, BLANK, Some(0))], [Loading(0), Empty])
    case 4 => State([BLANK, one], [Entry(1, 1, true, one, Some(0))], [Locked(0), Empty])
    case 5 => State([BLANK, one], [Entry(1, 1, true, one, None)], [Free(0), Empty])
    case 6 => State([BLANK, one], [Entry(1, 1, true, one, Some(0))], [Freeing0(0), Empty])
    case 7 => State([BLANK, one], [Entry(1, 1, true, one, Some(0))], [Freeing1(0), Empty])
    case 8 => State([BLANK, BLANK], [Entry(1, 1, true, BLANK, Some(0))], [Freeing2(0), Empty])
    case 9 => State([BLANK, two], [Entry(1, 1, true, BLANK, Some(0))], [Freeing2(0), Getting(1)])
    case _ => State([BLANK, two], [Entry(1, 2, true, BLANK, Some(0))], [Freeing2(0), Free(0)])
  }

  function WindowAct(k: nat): (nat, Act) {
    match k
    case 0 => (0, IAlloc(1, 1))
    case 1 => (0, IGetNew)
    case 2 => (0, ILock)
    case 3 => (0, ILoad)
    case 4 => (0, IUnlock)
    case 5 => (0, IPut)
    case 6 => (0, Trunc)
    case 7 => (0, Clear)
    case 8 => (1, IAlloc(1, 2))
    case _ => (1, IGetNew)
  }

  lemma WindowOpens(k: nat)
    requires k < 5
    ensures Step(Window(k), WindowAct(k).0, WindowAct(k).1) == Next(Window(k + 1))
  {
    assert Window(1).table[..0] == [];
  }

  lemma WindowCloses(k: nat)
    requires 5 <= k < 10
    ensures Step(Window(k), WindowAct(k).0, WindowAct(k).1) == Next(Window(k + 1))
  {
    assert Window(9).table[..0] == [];
  }

  function WindowActs(k: nat): seq<(nat, Act)>
    requires k <= 10
    decreases 10 - k
  {
    if k == 10 then [] else [WindowAct(k)] + WindowActs(k + 1)
  }

  lemma {:induction false} WindowRuns(k: nat)
    requires k <= 10
    ensures Run(Window(k), WindowActs(k)) == Next(Window(10))
    decreases 10 - k
  {
    hide Step, Window, WindowAct;
    if k < 10 {
      if k < 5 { WindowOpens(k); } else { WindowCloses(k); }
      WindowRuns(k + 1);
      assert WindowActs(k)[1..] == WindowActs(k + 1);
    }
  }

  /** The window between freeing an inode on disk and dropping its last reference is real: another
      ialloc can take the number meanwhile and get the same entry, whose copy is then out of date. */
  lemma ReuseWindow()
    ensures Start(Window(0)) && Run(Window(0), WindowActs(0)) == Next(Window(10))
    ensures var t := Window(10);
            && t.hands[0] == Freeing2(0) && t.hands[1] == Free(0) && t.table[0].ref == 2
            && t.table[0].valid && t.table[0].copy != t.disk[t.table[0].inum]
  {
    WindowRuns(0);
    hide Run;
  }

  // ---- A stale directory entry ----

  /** A run over one entry: inode 1 is looked up, its last link goes, and it is given back and freed; then
      a directory that was removed before still names it.  So it goes with a process in /a/b once both
      directories are unlinked: chdir("..") looks the freed number up in b. */
  function Stale(k: nat): State {
    var linked, unlinked := Dinode(1, 1, 0), Dinode(1, 0, 0);
    match k
    case 0 => State([BLANK, linked], [Entry(0, 0, false, BLANK, None)], [Empty])
    case 1 => State([BLANK, linked], [Entry(1, 1, false, BLANK, None)], [Free(0)])
    case 2 => State([BLANK, linked], [Entry(1, 1, false, BLANK, Some(0))], [Loading(0)])
    case 3 => State([BLANK, linked], [Entry(1, 1, true, linked, Some(0))], [Locked(0)])
    case 4 => State([BLANK, unlinked], [Entry(1, 1, true, unlinked, Some(0))], [Locked(0)])
    case 5 => State([BLANK, unlinked], [Entry(1, 1, true, unlinked, None)], [Free(0)])
    case 6 => State([BLANK, unlinked], [Entry(1, 1, true, unlinked, Some(0))], [Freeing0(0)])
    case 7 => State([BLANK, unlinked], [Entry(1, 1, true, unlinked, Some(0))], [Freeing1(0)])
    case 8 => State([BLANK, BLANK], [Entry(1, 1, true, BLANK, Some(0))], [Freeing2(0)])
    case 9 => State([BLANK, BLANK], [Entry(1, 1, false, BLANK, Some(0))], [Freeing3(0)])
    case 10 => State([BLANK, BLANK], [Entry(1, 1, false, BLANK, None)], [Freeing4(0)])
    case 11 => State([BLANK, BLANK], [Entry(1, 0, false, BLANK, None)], [Empty])
    case 12 => State([BLANK, BLANK], [Entry(1, 1, false, BLANK, None)], [Free(0)])
    case _ => State([BLANK, BLANK], [Entry(1, 1, false, BLANK, Some(0))], [Loading(0)])
  }

  function StaleAct(k: nat): Act {
    match k
    case 0 => IGet(1)
    case 1 => ILock
    case 2 => ILoad
    case 3 => Update(Dinode(1, 0, 0))
    case 4 => IUnlock
    case 5 => IPut
    case 6 => Trunc
    case 7 => Clear
    case 8 => Invalidate
    case 9 => Unlock2
    case 10 => Drop
    case 11 => IGet(1)
    case 12 => ILock
    case _ => ILoad
  }

  lemma StaleUsed(k: nat)
    requires k < 6
    ensures Step(Stale(k), 0, StaleAct(k)) == Next(Stale(k + 1))
  {
    assert Stale(0).table[..0] == [];
  }

  lemma StaleFreed(k: nat)
    requires 6 <= k < 13
    ensures Step(Stale(k), 0, StaleAct(k)) == Next(Stale(k + 1))
  {
    assert Stale(11).table[..0] == [];
  }

  function StaleActs(k: nat): seq<(nat, Act)>
    requires k <= 13
    decreases 13 - k
  {
    [(0, StaleAct(k))] + if k == 13 then [] else StaleActs(k + 1)
  }

  lemma {:induction false} StaleRuns(k: nat)
    requires k <= 13
    ensures Run(Stale(k), StaleActs(k)) == NoType
    decreases 13 - k
  {
    if k == 13 {
      assert Step(Stale(13), 0, ILoad) == NoType;
      assert StaleActs(13)[0] == (0, ILoad);
    } else {
      hide Step, Stale, StaleAct;
      if k < 6 { StaleUsed(k); } else { StaleFreed(k); }
      StaleRuns(k + 1);
      assert StaleActs(k)[1..] == StaleActs(k + 1);
    }
  }

  /** So ilock does panic in a run that starts from a sound disk. */
  lemma StaleName()
    ensures Start(Stale(0)) && Run(Stale(0), StaleActs(0)) == NoType
  {
    StaleRuns(0);
  }
}
