/** The disk, and the buffer cache in front of it: a fixed set of buffers threaded on a circular
    doubly linked list in order of last release (kernel/bio.c). */
module BufferCache {
  import opened Bytes
  import opened Recovery

  const NBUF := 30

  /** The list head is a node of its own, not a buffer. */
  const HEAD := 30

  /** The disk, with the history of the writes it has completed. */
  class Drive {
    var blocks: Disk
    ghost var writes: seq<Write>

    constructor (blocks: Disk)
      ensures this.blocks == blocks && writes == []
    {
      this.blocks := blocks;
      writes := [];
    }

    method WriteBlock(bno: nat, data: Block)
      requires bno < |blocks|
      modifies this
      ensures blocks == old(blocks)[bno := data]
      ensures writes == old(writes) + [Write(bno, data)]
    {
      blocks := blocks[bno := data];
      writes := writes + [Write(bno, data)];
    }
  }

  datatype Buf = Buf(dev: nat, blockno: nat, valid: bool, refcnt: nat, data: Block)
  datatype Link = Link(prev: nat, next: nat)

  ghost predicate Distinct(order: seq<nat>) {
    && (forall k :: 0 <= k < |order| ==> order[k] < HEAD)
    && (forall j, k :: 0 <= j < k < |order| ==> order[j] != order[k])
  }

  /** Every buffer is on the list. */
  ghost predicate Full(order: seq<nat>) {
    forall i: nat :: i < NBUF ==> i in order
  }

  /** The node k places after the head; places -1 and |order| are the head itself. */
  ghost function At(order: seq<nat>, k: int): nat
    requires -1 <= k <= |order|
  {
    if k == -1 || k == |order| then HEAD else order[k]
  }

  /** next and prev run through the nodes of order, forward and backward, and through nothing else. */
  ghost predicate Ring(links: seq<Link>, order: seq<nat>) {
    && |links| == NBUF + 1
    && Distinct(order)
    && (forall k :: -1 <= k < |order| ==>
          links[At(order, k)].next == At(order, k + 1) && links[At(order, k + 1)].prev == At(order, k))
  }

  /** At most one buffer caches a block; device 0 marks buffers never used. */
  ghost predicate UniqueKeys(bufs: seq<Buf>) {
    forall i, j :: 0 <= i < j < |bufs| && bufs[i].dev != 0 && bufs[i].dev == bufs[j].dev ==>
      bufs[i].blockno != bufs[j].blockno
  }

  /** The list runs from the most to the least recently released buffer. */
  ghost predicate ByRelease(order: seq<nat>, stamp: seq<nat>, clock: nat) {
    && |stamp| == NBUF && Distinct(order)
    && (forall i :: 0 <= i < NBUF ==> stamp[i] < clock)
    && (forall j, k :: 0 <= j < k < |order| ==> stamp[order[j]] > stamp[order[k]])
  }

  predicate Caches(b: Buf, dev: nat, blockno: nat) { b.dev == dev && b.blockno == blockno }

  ghost predicate Cached(bufs: seq<Buf>, dev: nat, blockno: nat) {
    exists i :: 0 <= i < |bufs| && Caches(bufs[i], dev, blockno)
  }

  /** bget has no buffer to give: the block is not cached and every buffer is referred to. */
  ghost predicate Exhausted(bufs: seq<Buf>, dev: nat, blockno: nat) {
    !Cached(bufs, dev, blockno) && forall i :: 0 <= i < |bufs| ==> bufs[i].refcnt > 0
  }

  /** Buffer b is what bget may hand out for a block, given the buffers and release stamps before. */
  ghost predicate Chosen(bufs: seq<Buf>, stamp: seq<nat>, dev: nat, blockno: nat, b: nat) {
    && |bufs| == |stamp| == NBUF && b < NBUF
    && (Caches(bufs[b], dev, blockno) ||
        (&& !Cached(bufs, dev, blockno)
         && bufs[b].refcnt == 0
         && forall i :: 0 <= i < NBUF && bufs[i].refcnt == 0 ==> stamp[b] <= stamp[i]))
  }

  /** The buffer as bget leaves it. */
  function Taken(b: Buf, dev: nat, blockno: nat): Buf {
    if Caches(b, dev, blockno) then b.(refcnt := b.refcnt + 1)
    else Buf(dev, blockno, false, 1, b.data)
  }

  /** The buffer as bread leaves it. */
  function Filled(b: Buf, disk: Block): Buf {
    if b.valid then b else b.(valid := true, data := disk)
  }

  class Cache {
    const disk: Drive
    const buf: array<Buf>
    const link: array<Link>
    ghost var order: seq<nat>
    ghost var stamp: seq<nat>
    ghost var clock: nat

    ghost predicate Valid()
      reads this, buf, link
    {
      && buf.Length == NBUF && link.Length == NBUF + 1 && |order| == NBUF
      && Ring(link[..], order) && Full(order)
      && ByRelease(order, stamp, clock)
      && UniqueKeys(buf[..])
    }

    /** binit: every buffer on the list, the last one in front. */
    constructor (disk: Drive)
      ensures Valid() && fresh(buf) && fresh(link) && this.disk == disk
      ensures forall i :: 0 <= i < NBUF ==> buf[i] == Buf(0, 0, false, 0, ZeroBlock())
      ensures forall k :: 0 <= k < NBUF ==> order[k] == NBUF - 1 - k
    {
      this.disk := disk;
      buf := new Buf[NBUF](i => Buf(0, 0, false, 0, ZeroBlock()));
      link := new Link[NBUF + 1](i => Link(HEAD, HEAD));
      order := [];
      stamp := seq(NBUF, i requires 0 <= i < NBUF => i);
      clock := NBUF;
      new;
      var b := 0;
      while b < NBUF
        invariant 0 <= b <= NBUF == |stamp|
        invariant |order| == b && Ring(link[..], order)
        invariant forall k :: 0 <= k < b ==> order[k] == b - 1 - k
        invariant forall i: nat :: i < b ==> i in order
        invariant forall i :: 0 <= i < NBUF ==> stamp[i] == i
        invariant forall i :: 0 <= i < NBUF ==> buf[i] == Buf(0, 0, false, 0, ZeroBlock())
        modifies link, `order
      {
        ghost var was := link[..];
        assert was[At(order, -1)].next == At(order, -1 + 1);
        InsertFront(b);
        RingInsert(was, order, b);
        order := [b] + order;
        b := b + 1;
      }
    }

    /** The four assignments that put a node behind the head. */
    method InsertFront(b: nat)
      requires b < NBUF && link.Length == NBUF + 1
      requires link[HEAD].next <= HEAD
      modifies link
      ensures link[..] == Inserted(old(link[..]), b)
    {
      var first := link[HEAD].next;
      link[b] := Link(HEAD, first);
      link[first] := link[first].(prev := b);
      link[HEAD] := link[HEAD].(next := b);
    }

    method Unlink(b: nat)
      requires b < NBUF && link.Length == NBUF + 1 && link[b].next <= HEAD && link[b].prev <= HEAD
      modifies link
      ensures link[..] == Removed(old(link[..]), b)
    {
      var next, prev := link[b].next, link[b].prev;
      link[next] := link[next].(prev := prev);
      link[prev] := link[prev].(next := next);
    }

    /** bget's first scan, from the most recently released buffer. */
    method Find(dev: nat, blockno: nat) returns (b: nat)
      requires Valid()
      ensures b <= HEAD
      ensures b == HEAD <==> !Cached(buf[..], dev, blockno)
      ensures b != HEAD ==> Caches(buf[b], dev, blockno)
    {
      ghost var k := 0;
      b := link[HEAD].next;
      assert b == At(order, 0) by { assert link[..][At(order, -1)].next == At(order, -1 + 1); }
      while b != HEAD
        invariant 0 <= k <= NBUF && b == At(order, k)
        invariant forall j :: 0 <= j < k ==> !Caches(buf[order[j]], dev, blockno)
        decreases NBUF - k
      {
        if buf[b].dev == dev && buf[b].blockno == blockno {
          assert Caches(buf[..][b], dev, blockno);
          return;
        }
        assert link[..][At(order, k)].next == At(order, k + 1);
        b := link[b].next;
        k := k + 1;
      }
      NoneCaches(buf[..], order, dev, blockno);
    }

    /** bget's second scan, from the least recently released buffer. */
    method Victim() returns (b: nat)
      requires Valid()
      ensures b <= HEAD
      ensures b == HEAD <==> forall i :: 0 <= i < NBUF ==> buf[i].refcnt > 0
      ensures b != HEAD ==>
              buf[b].refcnt == 0 && forall i :: 0 <= i < NBUF && buf[i].refcnt == 0 ==> stamp[b] <= stamp[i]
    {
      ghost var k := NBUF - 1;
      b := link[HEAD].prev;
      assert b == At(order, NBUF - 1) by { assert link[..][At(order, NBUF - 1 + 1)].prev == At(order, NBUF - 1); }
      while b != HEAD
        invariant -1 <= k < NBUF && b == At(order, k)
        invariant forall j :: k < j < NBUF ==> buf[order[j]].refcnt > 0
        decreases k
      {
        if buf[b].refcnt == 0 {
          OldestUnused(buf[..], order, stamp, clock, k);
          return;
        }
        assert link[..][At(order, k - 1 + 1)].prev == At(order, k - 1);
        b := link[b].prev;
        k := k - 1;
      }
      forall i: nat | i < NBUF
        ensures buf[i].refcnt > 0
      {
        assert i in order;
      }
    }

    /** bget: the caching buffer if there is one, otherwise the least recently released unused one;
        b == HEAD stands for the panic when every buffer is in use. */
    method BGet(dev: nat, blockno: nat) returns (b: nat)
      requires Valid() && dev != 0
      modifies buf
      ensures Valid() && b <= HEAD
      ensures b == HEAD ==> buf[..] == old(buf[..])
      ensures b == HEAD <==> Exhausted(old(buf[..]), dev, blockno)
      ensures b != HEAD ==> Chosen(old(buf[..]), stamp, dev, blockno, b)
      ensures b != HEAD ==> buf[..] == old(buf[..])[b := Taken(old(buf[..])[b], dev, blockno)]
    {
      b := Find(dev, blockno);
      if b != HEAD {
        buf[b] := buf[b].(refcnt := buf[b].refcnt + 1);
        return;
      }
      b := Victim();
      if b != HEAD {
        assert Chosen(buf[..], stamp, dev, blockno, b);
        Rekeyed(buf[..], dev, blockno, b);
        buf[b] := Buf(dev, blockno, false, 1, buf[b].data);
      }
    }

    /** bread: the locked buffer holds the cached copy, or what the disk holds if there was none. */
    method BRead(dev: nat, blockno: nat) returns (b: nat)
      requires Valid() && dev != 0 && blockno < |disk.blocks|
      modifies buf
      ensures Valid() && b <= HEAD
      ensures b == HEAD ==> buf[..] == old(buf[..])
      ensures b == HEAD <==> Exhausted(old(buf[..]), dev, blockno)
      ensures b != HEAD ==> Chosen(old(buf[..]), stamp, dev, blockno, b)
      ensures b != HEAD ==>
              buf[..] == old(buf[..])[b := Filled(Taken(old(buf[..])[b], dev, blockno), disk.blocks[blockno])]
    {
      b := BGet(dev, blockno);
      if b != HEAD && !buf[b].valid {
        buf[b] := buf[b].(data := disk.blocks[blockno]);
        buf[b] := buf[b].(valid := true);
      }
    }

    /** bwrite: one synchronous block write. */
    method BWrite(b: nat)
      requires Valid() && b < NBUF && buf[b].blockno < |disk.blocks|
      modifies disk
      ensures disk.blocks == old(disk.blocks)[buf[b].blockno := buf[b].data]
      ensures disk.writes == old(disk.writes) + [Write(buf[b].blockno, buf[b].data)]
    {
      disk.WriteBlock(buf[b].blockno, buf[b].data);
    }

    /** brelse: drop a reference; a buffer nobody refers to moves to the front of the list. */
    method BRelse(b: nat)
      requires Valid() && b < NBUF && buf[b].refcnt > 0
      modifies this, buf, link
      ensures Valid()
      ensures buf[..] == old(buf[..])[b := old(buf[b]).(refcnt := old(buf[b]).refcnt - 1)]
      ensures buf[b].refcnt > 0 ==> order == old(order) && stamp == old(stamp) && clock == old(clock)
      ensures buf[b].refcnt == 0 ==>
              && order[0] == b && multiset(order) == multiset(old(order))
              && stamp == old(stamp)[b := old(clock)] && clock == old(clock) + 1
    {
      buf[b] := buf[b].(refcnt := buf[b].refcnt - 1);
      if buf[b].refcnt == 0 {
        MoveToFront(b);
      }
    }

    /** The six pointer assignments of brelse. */
    method MoveToFront(b: nat)
      requires Valid() && b < NBUF
      modifies this, link
      ensures Valid()
      ensures order[0] == b && multiset(order) == multiset(old(order))
      ensures stamp == old(stamp)[b := old(clock)] && clock == old(clock) + 1
    {
      hide Ring, ByRelease, UniqueKeys, Removed, Inserted, ToFront;
      assert b in order;
      hide Full;
      ghost var k :| 0 <= k < NBUF && order[k] == b;
      ghost var was := link[..];
      MovedRing(was, order, k);
      Unlink(b);
      InsertFront(b);
      Reordered(order, stamp, clock, k);
      SameMembers(order, k);
      order := ToFront(order, k);
      stamp := stamp[b := clock];
      clock := clock + 1;
    }

    method BPin(b: nat)
      requires Valid() && b < NBUF
      modifies buf
      ensures Valid()
      ensures buf[..] == old(buf[..])[b := old(buf[b]).(refcnt := old(buf[b]).refcnt + 1)]
    {
      buf[b] := buf[b].(refcnt := buf[b].refcnt + 1);
    }

    method BUnpin(b: nat)
      requires Valid() && b < NBUF && buf[b].refcnt > 0
      modifies buf
      ensures Valid()
      ensures buf[..] == old(buf[..])[b := old(buf[b]).(refcnt := old(buf[b]).refcnt - 1)]
    {
      buf[b] := buf[b].(refcnt := buf[b].refcnt - 1);
    }
  }

  // ---- The list ----

  /** Links after a node has been put behind the head. */
  ghost function Inserted(links: seq<Link>, b: nat): seq<Link>
    requires |links| == NBUF + 1 && b < NBUF && links[HEAD].next <= HEAD
  {
    var first := links[HEAD].next;
    var s := links[b := Link(HEAD, first)];
    var t := s[first := s[first].(prev := b)];
    t[HEAD := t[HEAD].(next := b)]
  }

  lemma RingInsert(links: seq<Link>, order: seq<nat>, b: nat)
    requires Ring(links, order) && b < NBUF && b !in order
    requires links[HEAD].next <= HEAD
    ensures Ring(Inserted(links, b), [b] + order)
  {
    var o := [b] + order;
    var r := Inserted(links, b);
    assert links[HEAD].next == At(order, 0) by { assert links[At(order, -1)].next == At(order, -1 + 1); }
    forall k | -1 <= k < |o|
      ensures r[At(o, k)].next == At(o, k + 1) && r[At(o, k + 1)].prev == At(o, k)
    {
      if k > 0 {
        assert At(o, k) == At(order, k - 1) && At(o, k + 1) == At(order, k - 1 + 1);
      } else if k == 0 {
        assert At(o, 1) == At(order, 0);
      }
    }
  }

  /** The neighbours of the k-th node. */
  lemma Adjacent(links: seq<Link>, order: seq<nat>, k: nat)
    requires Ring(links, order) && k < |order|
    ensures links[order[k]] == Link(At(order, k - 1), At(order, k + 1))
  {
    assert links[At(order, k)].next == At(order, k + 1);
    assert links[At(order, k - 1 + 1)].prev == At(order, k - 1);
  }

  /** Links after a node has been taken off the list. */
  ghost function Removed(links: seq<Link>, b: nat): seq<Link>
    requires |links| == NBUF + 1 && b < NBUF && links[b].next <= HEAD && links[b].prev <= HEAD
  {
    var Link(p, n) := links[b];
    var s := links[n := links[n].(prev := p)];
    s[p := s[p].(next := n)]
  }

  lemma RingRemove(links: seq<Link>, order: seq<nat>, k: nat)
    requires Ring(links, order) && k < |order|
    requires links[order[k]] == Link(At(order, k - 1), At(order, k + 1))
    ensures Ring(Removed(links, order[k]), order[..k] + order[k + 1..])
  {
    var Link(p, n) := links[order[k]];
    var r := Removed(links, order[k]);
    var o := order[..k] + order[k + 1..];
    forall i | -1 <= i < |o|
      ensures r[At(o, i)].next == At(o, i + 1) && r[At(o, i + 1)].prev == At(o, i)
    {
      if i < k - 1 {
        assert At(o, i) == At(order, i) && At(o, i + 1) == At(order, i + 1);
      } else if i > k - 1 {
        assert At(o, i) == At(order, i + 1) && At(o, i + 1) == At(order, i + 1 + 1);
      } else {
        assert At(o, i) == p && At(o, i + 1) == n;
      }
    }
  }

  /** The k-th node goes to the front. */
  ghost function ToFront(order: seq<nat>, k: nat): (o: seq<nat>)
    requires k < |order|
    ensures |o| == |order| && o[0] == order[k]
  {
    [order[k]] + (order[..k] + order[k + 1..])
  }

  /** Unlinking a node and putting it behind the head turns the list into its move-to-front. */
  lemma MovedRing(links: seq<Link>, order: seq<nat>, k: nat)
    requires Ring(links, order) && k < |order|
    ensures links[order[k]].next <= HEAD && links[order[k]].prev <= HEAD
    ensures Removed(links, order[k])[HEAD].next <= HEAD
    ensures Ring(Inserted(Removed(links, order[k]), order[k]), ToFront(order, k))
  {
    Adjacent(links, order, k);
    RingRemove(links, order, k);
    var rest := order[..k] + order[k + 1..];
    assert Removed(links, order[k])[At(rest, -1)].next == At(rest, -1 + 1);
    RingInsert(Removed(links, order[k]), rest, order[k]);
  }

  lemma NoneCaches(bufs: seq<Buf>, order: seq<nat>, dev: nat, blockno: nat)
    requires |bufs| == |order| == NBUF && Full(order) && Distinct(order)
    requires forall j :: 0 <= j < NBUF ==> !Caches(bufs[order[j]], dev, blockno)
    ensures !Cached(bufs, dev, blockno)
  {
    forall i: nat | i < NBUF
      ensures !Caches(bufs[i], dev, blockno)
    {
      assert i in order;
    }
  }

  /** Giving an uncached block to any buffer keeps the keys unique. */
  lemma Rekeyed(bufs: seq<Buf>, dev: nat, blockno: nat, b: nat)
    requires UniqueKeys(bufs) && b < |bufs| && !Cached(bufs, dev, blockno)
    ensures UniqueKeys(bufs[b := Buf(dev, blockno, false, 1, bufs[b].data)])
  {
    assert forall i :: 0 <= i < |bufs| ==> !Caches(bufs[i], dev, blockno);
  }

  /** The first unused buffer met from the back is the one released longest ago. */
  lemma OldestUnused(bufs: seq<Buf>, order: seq<nat>, stamp: seq<nat>, clock: nat, k: nat)
    requires |bufs| == |order| == NBUF && k < NBUF && Full(order) && ByRelease(order, stamp, clock)
    requires forall j :: k < j < NBUF ==> bufs[order[j]].refcnt > 0
    ensures forall i :: 0 <= i < NBUF && bufs[i].refcnt == 0 ==> stamp[order[k]] <= stamp[i]
  {
    forall i: nat | i < NBUF && bufs[i].refcnt == 0
      ensures stamp[order[k]] <= stamp[i]
    {
      assert i in order;
      var j :| 0 <= j < |order| && order[j] == i;
    }
  }

  lemma StillFull(order: seq<nat>, k: nat)
    requires k < |order| && Full(order)
    ensures Full(ToFront(order, k))
  {
    var rest := order[..k] + order[k + 1..];
    forall i: nat | i < NBUF
      ensures i in ToFront(order, k)
    {
      assert i in order;
      var j :| 0 <= j < |order| && order[j] == i;
      assert j < k ==> rest[j] == i;
      assert j > k ==> rest[j - 1] == i;
    }
  }

  /** Moving a node to the front with a new stamp keeps the list in order of release. */
  lemma Reordered(order: seq<nat>, stamp: seq<nat>, clock: nat, k: nat)
    requires ByRelease(order, stamp, clock) && k < |order| == NBUF && Full(order)
    ensures |stamp| == NBUF && order[k] < NBUF
    ensures Full(ToFront(order, k)) && ByRelease(ToFront(order, k), stamp[order[k] := clock], clock + 1)
  {
    StillFull(order, k);
    hide Full;
    var b, o := order[k], ToFront(order, k);
    forall i, j | 0 <= i < j < |o|
      ensures o[i] != o[j] && stamp[b := clock][o[i]] > stamp[b := clock][o[j]]
    {
      assert o[j] == order[if j <= k then j - 1 else j];
      assert i > 0 ==> o[i] == order[if i <= k then i - 1 else i];
    }
  }

  lemma SameMembers(order: seq<nat>, k: nat)
    requires k < |order|
    ensures multiset(ToFront(order, k)) == multiset(order)
  {
    assert order == order[..k] + [order[k]] + order[k + 1..];
  }
}
