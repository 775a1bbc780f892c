/** The buffer cache as a view of a plain array of block contents: what every cache operation does to
    the contents callers see, to the reference counts and to the pins the log holds. */
module CacheView {
  import opened Bytes
  import opened Recovery
  import opened BufferCache

  /** What the cache stands for: the contents callers see, how many references callers hold on each
      buffer, which blocks the log has pinned, and which buffers were changed but not yet logged. */
  datatype Store = Store(current: Disk, holds: seq<nat>, pins: set<nat>, dirty: set<nat>)

  ghost predicate Dirty(s: Store, bufs: seq<Buf>, dev: nat, bno: nat) {
    exists i :: i in s.dirty && i < |bufs| && Caches(bufs[i], dev, bno)
  }

  ghost predicate Pinned(s: Store, b: Buf, dev: nat) { b.dev == dev && b.blockno in s.pins }

  ghost predicate Held(s: Store, bufs: seq<Buf>, dev: nat, p: nat) {
    exists i :: 0 <= i < |bufs| && Caches(bufs[i], dev, p) && bufs[i].valid
  }

  /** The cache and the disk d together present s. */
  ghost predicate Agree(s: Store, bufs: seq<Buf>, d: Disk, dev: nat) {
    && |bufs| == |s.holds| == NBUF && |s.current| == |d|
    && UniqueKeys(bufs) && dev != 0
    // a buffer is referred to by its holders, and once more if the log has pinned its block
    && (forall i :: 0 <= i < NBUF ==>
          bufs[i].refcnt == s.holds[i] + if Pinned(s, bufs[i], dev) then 1 else 0)
    // valid buffers hold the contents callers see
    && (forall i :: 0 <= i < NBUF && bufs[i].dev == dev ==>
          bufs[i].blockno < |d| && (bufs[i].valid ==> bufs[i].data == s.current[bufs[i].blockno]))
    // a block the disk lags behind on is pinned, or in the hands of whoever changed it
    && (forall b: nat :: b < |d| && b !in s.pins && !Dirty(s, bufs, dev, b) ==> s.current[b] == d[b])
    && (forall p :: p in s.pins ==> Held(s, bufs, dev, p))
    && (forall i :: i in s.dirty ==> i < NBUF && s.holds[i] > 0 && bufs[i].valid && bufs[i].dev == dev)
  }

  /** bread returns what callers see, whether it hits, misses or recycles a buffer. */
  lemma ReadAgrees(s: Store, bufs: seq<Buf>, stamp: seq<nat>, d: Disk, dev: nat, bno: nat, b: nat)
    requires Agree(s, bufs, d, dev) && Chosen(bufs, stamp, dev, bno, b) && bno < |d|
    ensures var bufs' := bufs[b := Filled(Taken(bufs[b], dev, bno), d[bno])];
            && bufs'[b].data == s.current[bno]
            && Agree(s.(holds := s.holds[b := s.holds[b] + 1]), bufs', d, dev)
  {
    if Caches(bufs[b], dev, bno) {
      HitAgrees(s, bufs, d, dev, bno, b);
    } else {
      MissAgrees(s, bufs, d, dev, bno, b);
    }
  }

  lemma HitAgrees(s: Store, bufs: seq<Buf>, d: Disk, dev: nat, bno: nat, b: nat)
    requires Agree(s, bufs, d, dev) && b < NBUF && bno < |d| && Caches(bufs[b], dev, bno)
    ensures var bufs' := bufs[b := Filled(Taken(bufs[b], dev, bno), d[bno])];
            && bufs'[b].data == s.current[bno]
            && Agree(s.(holds := s.holds[b := s.holds[b] + 1]), bufs', d, dev)
  {
    if !bufs[b].valid {
      assert bno in s.pins ==> Held(s, bufs, dev, bno);
    }
    var bufs' := bufs[b := Filled(Taken(bufs[b], dev, bno), d[bno])];
    SameBlocks(s, s.(holds := s.holds[b := s.holds[b] + 1]), bufs, bufs', dev);
  }

  lemma MissAgrees(s: Store, bufs: seq<Buf>, d: Disk, dev: nat, bno: nat, b: nat)
    requires Agree(s, bufs, d, dev) && b < NBUF && bno < |d|
    requires !Cached(bufs, dev, bno) && bufs[b].refcnt == 0
    ensures var bufs' := bufs[b := Filled(Taken(bufs[b], dev, bno), d[bno])];
            && bufs'[b].data == s.current[bno]
            && Agree(s.(holds := s.holds[b := s.holds[b] + 1]), bufs', d, dev)
  {
    var bufs' := bufs[b := Filled(Taken(bufs[b], dev, bno), d[bno])];
    var s' := s.(holds := s.holds[b := s.holds[b] + 1]);
    assert !Dirty(s, bufs, dev, bno) && bno !in s.pins && b !in s.dirty;
    assert !Pinned(s, bufs[b], dev);
    forall x: nat | Dirty(s, bufs, dev, x)
      ensures Dirty(s', bufs', dev, x)
    {
      var i :| i in s.dirty && i < |bufs| && Caches(bufs[i], dev, x);
      assert Caches(bufs'[i], dev, x);
    }
    forall p | p in s.pins
      ensures Held(s', bufs', dev, p)
    {
      var i :| 0 <= i < |bufs| && Caches(bufs[i], dev, p) && bufs[i].valid;
      assert Caches(bufs'[i], dev, p) && bufs'[i].valid;
    }
    Rekeyed(bufs, dev, bno, b);
  }

  lemma ReleaseAgrees(s: Store, bufs: seq<Buf>, d: Disk, dev: nat, b: nat)
    requires Agree(s, bufs, d, dev) && b < NBUF && s.holds[b] > 0 && b !in s.dirty
    ensures var bufs' := bufs[b := bufs[b].(refcnt := bufs[b].refcnt - 1)];
            Agree(s.(holds := s.holds[b := s.holds[b] - 1]), bufs', d, dev)
  {
    var bufs' := bufs[b := bufs[b].(refcnt := bufs[b].refcnt - 1)];
    SameBlocks(s, s.(holds := s.holds[b := s.holds[b] - 1]), bufs, bufs', dev);
  }

  /** Pins and dirty blocks are seen alike through buffers that cache the same blocks. */
  lemma SameBlocks(s: Store, s': Store, bufs: seq<Buf>, bufs': seq<Buf>, dev: nat)
    requires |bufs| == |bufs'| && s.dirty <= s'.dirty
    requires forall i :: 0 <= i < |bufs| ==>
               bufs[i].dev == bufs'[i].dev && bufs[i].blockno == bufs'[i].blockno && (bufs[i].valid ==> bufs'[i].valid)
    ensures forall b: nat :: Dirty(s, bufs, dev, b) ==> Dirty(s', bufs', dev, b)
    ensures forall p: nat :: Held(s, bufs, dev, p) ==> Held(s', bufs', dev, p)
  {
    forall b: nat | Dirty(s, bufs, dev, b)
      ensures Dirty(s', bufs', dev, b)
    {
      var i :| i in s.dirty && i < |bufs| && Caches(bufs[i], dev, b);
      assert Caches(bufs'[i], dev, b);
    }
    forall p: nat | Held(s, bufs, dev, p)
      ensures Held(s', bufs', dev, p)
    {
      var i :| 0 <= i < |bufs| && Caches(bufs[i], dev, p) && bufs[i].valid;
      assert Caches(bufs'[i], dev, p);
    }
  }

  /** A holder changes a buffer: callers see the new contents at once, the disk does not. */
  lemma ModifyAgrees(s: Store, bufs: seq<Buf>, d: Disk, dev: nat, b: nat, data: Block)
    requires Agree(s, bufs, d, dev) && b < NBUF && s.holds[b] > 0 && bufs[b].valid && bufs[b].dev == dev
    ensures Agree(s.(current := s.current[bufs[b].blockno := data], dirty := s.dirty + {b}),
                  bufs[b := bufs[b].(data := data)], d, dev)
  {
    var bufs' := bufs[b := bufs[b].(data := data)];
    var s' := s.(current := s.current[bufs[b].blockno := data], dirty := s.dirty + {b});
    assert Caches(bufs'[b], dev, bufs[b].blockno);
    SameBlocks(s, s', bufs, bufs', dev);
  }

  /** A holder changes a buffer and writes it through to the disk. */
  lemma FlushAgrees(s: Store, bufs: seq<Buf>, d: Disk, dev: nat, b: nat, data: Block)
    requires Agree(s, bufs, d, dev) && b < NBUF && bufs[b].valid && bufs[b].dev == dev
    ensures Agree(s.(current := s.current[bufs[b].blockno := data]),
                  bufs[b := bufs[b].(data := data)], d[bufs[b].blockno := data], dev)
  {
    var bufs' := bufs[b := bufs[b].(data := data)];
    SameBlocks(s, s.(current := s.current[bufs[b].blockno := data]), bufs, bufs', dev);
  }

  /** log_write hands the responsibility for a changed buffer to the log, which pins its block. */
  lemma PinAgrees(s: Store, bufs: seq<Buf>, d: Disk, dev: nat, b: nat)
    requires Agree(s, bufs, d, dev) && b < NBUF && bufs[b].valid && bufs[b].dev == dev
    requires bufs[b].blockno !in s.pins
    ensures Agree(s.(pins := s.pins + {bufs[b].blockno}, dirty := s.dirty - {b}),
                  bufs[b := bufs[b].(refcnt := bufs[b].refcnt + 1)], d, dev)
  {
    var bufs' := bufs[b := bufs[b].(refcnt := bufs[b].refcnt + 1)];
    var s' := s.(pins := s.pins + {bufs[b].blockno}, dirty := s.dirty - {b});
    assert Caches(bufs'[b], dev, bufs[b].blockno);
    SameBlocks(s.(dirty := s.dirty - {b}), s', bufs, bufs', dev);
    Cleaned(s, s', bufs, dev, b);
    assert Held(s', bufs', dev, bufs[b].blockno);
    forall p | p in s.pins
      ensures Held(s', bufs', dev, p)
    {
      assert Held(s, bufs, dev, p) && Held(s.(dirty := s.dirty - {b}), bufs, dev, p);
    }
  }

  /** Only the cleaned buffer's own block stops being dirty. */
  lemma Cleaned(s: Store, s': Store, bufs: seq<Buf>, dev: nat, b: nat)
    requires s'.dirty == s.dirty - {b} && b < |bufs|
    ensures forall x: nat :: Dirty(s, bufs, dev, x) && x != bufs[b].blockno ==> Dirty(s', bufs, dev, x)
  {
    forall x: nat | Dirty(s, bufs, dev, x) && x != bufs[b].blockno
      ensures Dirty(s', bufs, dev, x)
    {
      var i :| i in s.dirty && i < |bufs| && Caches(bufs[i], dev, x);
      assert i in s'.dirty;
    }
  }

  /** log_write of a block that is already pinned: nothing but the dirty mark changes. */
  lemma AbsorbAgrees(s: Store, bufs: seq<Buf>, d: Disk, dev: nat, b: nat)
    requires Agree(s, bufs, d, dev) && b < NBUF && bufs[b].dev == dev && bufs[b].blockno in s.pins
    ensures Agree(s.(dirty := s.dirty - {b}), bufs, d, dev)
  {
    var s' := s.(dirty := s.dirty - {b});
    Cleaned(s, s', bufs, dev, b);
    forall p | p in s.pins
      ensures Held(s', bufs, dev, p)
    {
      assert Held(s, bufs, dev, p);
    }
  }

  /** Once the disk has caught up on a block, its pin may go. */
  lemma UnpinAgrees(s: Store, bufs: seq<Buf>, d: Disk, dev: nat, b: nat)
    requires Agree(s, bufs, d, dev) && b < NBUF && bufs[b].dev == dev && bufs[b].blockno in s.pins
    requires s.current[bufs[b].blockno] == d[bufs[b].blockno]
    ensures bufs[b].refcnt > 0
    ensures Agree(s.(pins := s.pins - {bufs[b].blockno}),
                  bufs[b := bufs[b].(refcnt := bufs[b].refcnt - 1)], d, dev)
  {
    var bufs' := bufs[b := bufs[b].(refcnt := bufs[b].refcnt - 1)];
    SameBlocks(s, s.(pins := s.pins - {bufs[b].blockno}), bufs, bufs', dev);
  }
}
