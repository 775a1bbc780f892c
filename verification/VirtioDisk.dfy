/** The virtio disk queue: driver, device and interrupt handler as interleaved steps (kernel/virtio_disk.c;
    sections 2.6 and 5.2 of Virtual I/O Device (VIRTIO) Version 1.1). */
module VirtioDisk {

  const NUM := 8

  import opened Common

  /** What a descriptor's address refers to: a command header, a buffer's data, a status byte. */
  datatype Addr = Nowhere | Op(h: nat) | Data(b: nat) | Status(h: nat)

  datatype Desc = Desc(addr: Addr, more: bool, writable: bool, next: nat)

  const CLEARED := Desc(Nowhere, false, false, 0)

  // ---- Descriptors ----

  /** The lowest free descriptor. */
  function FirstFree(free: seq<bool>): (r: Option<nat>)
    ensures r.Some? ==> r.value < |free| && free[r.value] && forall j :: 0 <= j < r.value ==> !free[j]
    ensures r.None? ==> forall j :: 0 <= j < |free| ==> !free[j]
  {
    FirstFrom(free, 0)
  }

  function FirstFrom(free: seq<bool>, i: nat): (r: Option<nat>)
    requires i <= |free|
    ensures r.Some? ==> i <= r.value < |free| && free[r.value] && forall j :: i <= j < r.value ==> !free[j]
    ensures r.None? ==> forall j :: i <= j < |free| ==> !free[j]
    decreases |free| - i
  {
    if i == |free| then None else if free[i] then Some(i) else FirstFrom(free, i + 1)
  }

  datatype Three = Three(i0: nat, i1: nat, i2: nat)

  /** Three free descriptors, if there are three. */
  function Alloc3(free: seq<bool>): Option<Three> {
    var a := FirstFree(free);
    if a.None? then None else
    var b := FirstFree(free[a.value := false]);
    if b.None? then None else
    var c := FirstFree(free[a.value := false][b.value := false]);
    if c.None? then None else Some(Three(a.value, b.value, c.value))
  }

  function Busy(free: seq<bool>): nat {
    if free == [] then 0 else (if free[0] then 0 else 1) + Busy(free[1..])
  }

  lemma {:induction false} BusyUpdate(free: seq<bool>, i: nat, v: bool)
    requires i < |free|
    ensures Busy(free[i := v]) == Busy(free) - (if free[i] then 0 else 1) + (if v then 0 else 1)
  {
    if i == 0 {
      assert free[0 := v][1..] == free[1..];
    } else {
      assert free[i := v][1..] == free[1..][i - 1 := v];
      BusyUpdate(free[1..], i - 1, v);
    }
  }

  lemma {:induction false} BusyBound(free: seq<bool>)
    ensures Busy(free) <= |free|
  {
    if free != [] { BusyBound(free[1..]); }
  }

  /** free_chain: follows next while the descriptor says there is more; None is a free_desc panic. */
  function FreeChain(free: seq<bool>, desc: seq<Desc>, i: nat): (r: Option<(seq<bool>, seq<Desc>)>)
    requires |free| == |desc|
    ensures r.Some? ==> |r.value.0| == |r.value.1| == |free|
    decreases Busy(free)
  {
    if i >= |free| || free[i] then None else
    BusyUpdate(free, i, true);
    if desc[i].more then FreeChain(free[i := true], desc[i := CLEARED], desc[i].next)
    else Some((free[i := true], desc[i := CLEARED]))
  }

  /** A chain of three is freed and nothing else. */
  lemma FreeThree(free: seq<bool>, desc: seq<Desc>, t: Three)
    requires |free| == |desc| && t.i0 < |free| && t.i1 < |free| && t.i2 < |free|
    requires t.i0 != t.i1 && t.i0 != t.i2 && t.i1 != t.i2 && !free[t.i0] && !free[t.i1] && !free[t.i2]
    requires desc[t.i0].more && desc[t.i0].next == t.i1 && desc[t.i1].more && desc[t.i1].next == t.i2 && !desc[t.i2].more
    ensures FreeChain(free, desc, t.i0) ==
            Some((free[t.i0 := true][t.i1 := true][t.i2 := true],
                  desc[t.i0 := CLEARED][t.i1 := CLEARED][t.i2 := CLEARED]))
  {
    var f1, d1 := free[t.i0 := true], desc[t.i0 := CLEARED];
    var f2, d2 := f1[t.i1 := true], d1[t.i1 := CLEARED];
    assert FreeChain(f2, d2, t.i2) == Some((f2[t.i2 := true], d2[t.i2 := CLEARED]));
    assert FreeChain(f1, d1, t.i1) == FreeChain(f2, d2, t.i2);
  }

  /** The driver's own code over its descriptor tables. */
  class Descriptors {
    var free: seq<bool>
    var desc: seq<Desc>

    constructor ()
      ensures |free| == |desc| == NUM && forall i :: 0 <= i < NUM ==> free[i]
    {
      free, desc := seq(NUM, i => true), seq(NUM, i => CLEARED);
    }

    /** alloc_desc. */
    method AllocDesc() returns (r: Option<nat>)
      modifies `free
      ensures r == FirstFree(old(free)) && free == if r.None? then old(free) else old(free)[r.value := false]
    {
      var i := 0;
      while i < |free|
        invariant i <= |free| && free == old(free) && FirstFrom(free, i) == FirstFrom(free, 0)
      {
        if free[i] {
          free := free[i := false];
          return Some(i);
        }
        i := i + 1;
      }
      r := None;
    }

    /** free_desc; false is a panic. */
    method FreeDesc(i: nat) returns (ok: bool)
      requires |free| == |desc|
      modifies this
      ensures ok <==> i < |old(free)| && !old(free)[i]
      ensures !ok ==> free == old(free) && desc == old(desc)
      ensures ok ==> free == old(free)[i := true] && desc == old(desc)[i := CLEARED]
    {
      if i >= |free| || free[i] {
        return false;
      }
      desc := desc[i := CLEARED];
      free := free[i := true];
      ok := true;
    }

    /** alloc3_desc: three descriptors, or none are taken. */
    method Alloc3Desc() returns (r: Option<Three>)
      requires |free| == |desc|
      modifies this
      ensures r == Alloc3(old(free)) && |free| == |desc| == |old(free)|
      ensures r.None? ==> free == old(free)
      ensures r.Some? ==>
              free == old(free)[r.value.i0 := false][r.value.i1 := false][r.value.i2 := false] && desc == old(desc)
    {
      var idx: seq<nat> := [];
      while |idx| < 3
        invariant |idx| <= 3 && |free| == |desc| == |old(free)| && desc == old(desc)
        invariant Taken(old(free), idx, free)
      {
        var i := AllocDesc();
        if i.None? {
          var j := 0;
          while j < |idx|
            invariant 0 <= j <= |idx| <= 2 && |free| == |desc| == |old(free)|
            invariant |idx| == 0 ==> free == old(free)
            invariant |idx| == 1 ==> free == if j == 0 then old(free)[idx[0] := false] else old(free)
            invariant |idx| == 2 ==> free == if j == 0 then old(free)[idx[0] := false][idx[1] := false]
                                             else if j == 1 then old(free)[idx[1] := false] else old(free)
          {
            var ok := FreeDesc(idx[j]);
            j := j + 1;
          }
          return None;
        }
        idx := idx + [i.value];
      }
      r := Some(Three(idx[0], idx[1], idx[2]));
    }

    /** free_chain; false is a panic. */
    method FreeAll(i: nat) returns (ok: bool)
      requires |free| == |desc|
      modifies this
      ensures ok <==> FreeChain(old(free), old(desc), i).Some?
      ensures ok ==> (free, desc) == FreeChain(old(free), old(desc), i).value
    {
      var k: nat := i;
      ok := true;
      while true
        invariant |free| == |desc| && ok && FreeChain(free, desc, k) == FreeChain(old(free), old(desc), i)
        decreases Busy(free)
      {
        if k < |desc| && k < |free| && !free[k] { BusyUpdate(free, k, true); }
        var more, nxt := k < |desc| && desc[k].more, if k < |desc| then desc[k].next else 0;
        ok := FreeDesc(k);
        if !ok || !more {
          return;
        }
        k := nxt;
      }
    }
  }

  /** The descriptors in idx were taken one after the other. */
  ghost predicate Taken(free0: seq<bool>, idx: seq<nat>, free: seq<bool>)
    requires |idx| <= 3
  {
    && (|idx| >= 1 ==> FirstFree(free0) == Some(idx[0]) && idx[0] < |free0|)
    && (|idx| >= 2 ==> FirstFree(free0[idx[0] := false]) == Some(idx[1]) && idx[1] < |free0|)
    && (|idx| >= 3 ==> FirstFree(free0[idx[0] := false][idx[1] := false]) == Some(idx[2]) && idx[2] < |free0|)
    && free == (match |idx|
                case 0 => free0
                case 1 => free0[idx[0] := false]
                case 2 => free0[idx[0] := false][idx[1] := false]
                case _ => free0[idx[0] := false][idx[1] := false][idx[2] := false])
  }
}
