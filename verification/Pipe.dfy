/** Pipes: a ring of bytes with 32-bit counters (kernel/pipe.c).  Each method is what happens between two
    points where pi->lock is free; readers and writers interleave by calling them in any order. */
module Pipe {

  const PIPESIZE := 512
  const WRAP := 0x1_0000_0000

  /** What pipewrite does before it next lets go of the lock. */
  datatype WriteTurn =
    | Refused(i: nat)  // returns -1 with i bytes written: nobody reads, or the writer is killed
    | Full(i: nat)     // sleeps with i bytes written
    | Wrote(i: nat)    // returns i

  /** What piperead does before it next lets go of the lock. */
  datatype ReadTurn =
    | Killed           // returns -1
    | Empty            // sleeps
    | Read(i: nat)     // returns i

  class Ring {
    const data: array<char>
    var nread: nat
    var nwrite: nat
    var readopen: bool
    var writeopen: bool
    // every byte ever put in, and how many of them have been taken out
    ghost var put: seq<char>
    ghost var taken: nat

    ghost predicate Valid()
      reads this, data
    {
      && data.Length == PIPESIZE && taken <= |put| <= taken + PIPESIZE
      && nread == taken % WRAP && nwrite == |put| % WRAP
      && forall k: nat :: taken <= k < |put| ==> data[k % PIPESIZE] == put[k]
    }

    constructor ()
      ensures Valid() && fresh(data) && put == [] && taken == 0 && readopen && writeopen
    {
      data := new char[PIPESIZE];
      nread, nwrite, readopen, writeopen := 0, 0, true, true;
      put, taken := [], 0;
    }

    /** pipeclose; freed means the page is given back. */
    method Close(writable: bool) returns (freed: bool)
      requires Valid()
      modifies `readopen, `writeopen
      ensures Valid() && writeopen == (old(writeopen) && !writable) && readopen == (old(readopen) && writable)
      ensures freed <==> !readopen && !writeopen
    {
      if writable { writeopen := false; } else { readopen := false; }
      freed := !readopen && !writeopen;
    }

    /** One byte goes in. */
    method Put(ch: char)
      requires Valid() && |put| < taken + PIPESIZE
      modifies `nwrite, `put, data
      ensures Valid() && put == old(put) + [ch]
    {
      SlotOf(|put|);
      NextIndex(|put|);
      data[nwrite % PIPESIZE] := ch;
      nwrite := (nwrite + 1) % WRAP;
      forall k: nat | taken <= k < |put|
        ensures data[k % PIPESIZE] == put[k]
      {
        OtherSlot(k, |put|);
      }
      put := put + [ch];
    }

    /** pipewrite from byte i of src on.  The writer finds itself killed from byte killed on, if that is
        reached: kill does not take pi->lock, so it can come between two bytes.  copyin fails at byte
        fault, if that is reached. */
    method Write(src: seq<char>, i: nat, killed: nat, fault: nat) returns (r: WriteTurn)
      requires Valid() && i <= |src|
      modifies `nwrite, `put, data
      ensures Valid() && i <= r.i <= |src| && put == old(put) + src[i..r.i]
      ensures r.i > i ==> readopen && r.i <= killed && (i <= fault ==> r.i <= fault)
      ensures r.Refused? <==> r.i < |src| && (!readopen || r.i >= killed)
      ensures r.Full? <==> r.i < |src| && readopen && r.i < killed && |put| == taken + PIPESIZE
      ensures r.Wrote? && r.i < |src| ==> r.i == fault
    {
      var k := i;
      while k < |src|
        invariant i <= k <= |src| && Valid() && put == old(put) + src[i..k]
        invariant k > i ==> readopen && k <= killed && (i <= fault ==> k <= fault)
      {
        if !readopen || k >= killed {
          return Refused(k);
        }
        FullTest(taken, |put|);
        if nwrite == (nread + PIPESIZE) % WRAP {
          return Full(k);
        }
        if k == fault {
          break;
        }
        OneMore(old(put), src, i, k);
        Put(src[k]);
        k := k + 1;
      }
      r := Wrote(k);
    }

    /** One byte comes out. */
    method Get() returns (ch: char)
      requires Valid() && taken < |put|
      modifies `nread, `taken
      ensures Valid() && taken == old(taken) + 1 && ch == put[old(taken)]
    {
      SlotOf(taken);
      NextIndex(taken);
      ch := data[nread % PIPESIZE];
      nread := (nread + 1) % WRAP;
      taken := taken + 1;
    }

    /** piperead of n bytes; copyout fails at byte fault, if that is reached: that byte is gone. */
    method Fetch(n: nat, killed: bool, fault: nat) returns (r: ReadTurn, out: seq<char>)
      requires Valid()
      modifies `nread, `taken
      ensures Valid() && put == old(put) && old(taken) <= taken
      ensures r.Killed? ==> killed && old(taken) == |put| && writeopen && taken == old(taken) && out == []
      ensures r.Empty? ==> old(taken) == |put| && writeopen && taken == old(taken) && out == []
      ensures r.Read? ==>
              && r.i == |out| <= n && old(taken) + |out| <= |put| && out == put[old(taken)..old(taken) + |out|]
              && taken == old(taken) + |out| + (if r.i == fault && r.i < n && old(taken) + r.i < |put| then 1 else 0)
              && (r.i < n && r.i != fault ==> taken == |put|)
    {
      out := [];
      EmptyTest(taken, |put|);
      if nread == nwrite && writeopen {
        r := if killed then Killed else Empty;
        return;
      }
      var i := 0;
      while i < n
        invariant 0 <= i <= n && Valid() && put == old(put) && taken == old(taken) + i && |out| == i
        invariant out == put[old(taken)..old(taken) + i]
      {
        EmptyTest(taken, |put|);
        if nread == nwrite {
          break;
        }
        var ch := Get();
        if i == fault {
          break;
        }
        out := out + [ch];
        i := i + 1;
      }
      r := Read(i);
    }
  }

  // ---- Counters that wrap ----

  lemma SlotOf(k: nat)
    ensures k % WRAP % PIPESIZE == k % PIPESIZE
  {
  }

  lemma NextIndex(k: nat)
    ensures (k % WRAP + 1) % WRAP == (k + 1) % WRAP
  {
  }

  lemma OtherSlot(k: nat, n: nat)
    requires k < n < k + PIPESIZE
    ensures k % PIPESIZE != n % PIPESIZE
  {
  }

  lemma OneMore(put: seq<char>, src: seq<char>, i: nat, k: nat)
    requires i <= k < |src|
    ensures put + src[i..k] + [src[k]] == put + src[i..k + 1]
  {
    assert src[i..k + 1] == src[i..k] + [src[k]];
  }

  /** The 32-bit test for a full pipe is the true one. */
  lemma FullTest(taken: nat, n: nat)
    requires taken <= n <= taken + PIPESIZE
    ensures n % WRAP == (taken % WRAP + PIPESIZE) % WRAP <==> n == taken + PIPESIZE
  {
  }

  /** So is the test for an empty one. */
  lemma EmptyTest(taken: nat, n: nat)
    requires taken <= n <= taken + PIPESIZE
    ensures taken % WRAP == n % WRAP <==> n == taken
  {
  }
}
