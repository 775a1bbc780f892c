/** The logging layer: transactions over the buffer cache, group commit and recovery (kernel/log.c).
    The home blocks on disk are what survives a crash; `s.current` is what callers see. */
module Logging {
  import opened Bytes
  import opened Recovery
  import opened BufferCache
  import opened CacheView
  import opened Common

  ghost function Sum(xs: seq<nat>): nat {
    if xs == [] then 0 else xs[0] + Sum(xs[1..])
  }

  /** The log's reservation: each outstanding operation may add no more than what is left of its
      allowance, and the log has room for all of them. */
  ghost predicate Reserved(n: nat, allow: seq<nat>, outstanding: nat) {
    && |allow| == outstanding
    && (forall k :: 0 <= k < |allow| ==> allow[k] <= MAXOPBLOCKS)
    && n + Sum(allow) <= LOGSIZE
  }

  /** The blocks a header names, as a set. */
  ghost function Blocks(hs: seq<Word>): set<nat> { set x | x in hs }

  /** What callers see in the logged blocks. */
  ghost function Contents(current: Disk, hs: seq<Word>): (r: seq<Block>)
    requires forall i :: 0 <= i < |hs| ==> hs[i] < |current|
    ensures |r| == |hs|
  {
    seq(|hs|, i requires 0 <= i < |hs| => current[hs[i]])
  }

  /** What commit writes: nothing if nothing is logged. */
  ghost function CommitOf(g: Geometry, header: Block, hs: seq<Word>, data: seq<Block>): seq<Write>
    requires |hs| == |data| <= LOGSIZE
  {
    if hs == [] then [] else CommitWrites(g, header, hs, data)
  }

  ghost predicate Unheld(s: Store) { forall i :: 0 <= i < |s.holds| ==> s.holds[i] == 0 }

  /** A buffer somebody holds keeps its block and its contents. */
  ghost predicate SameContents(b: Buf, b': Buf) {
    b'.dev == b.dev && b'.blockno == b.blockno && (b.valid ==> b'.valid && b'.data == b.data)
  }

  /** Of the writes still to do, a disk that had seen `before` has by now seen some, in order. */
  ghost predicate Progress(before: seq<Write>, after: seq<Write>, todo: seq<Write>) {
    before <= after && after[|before|..] <= todo
  }

  class Log {
    const g: Geometry
    const dev: nat
    const cache: Cache
    const block: array<Word>
    var n: nat
    var outstanding: nat
    var committing: bool
    ghost var s: Store
    ghost var allow: seq<nat>

    /** Holds at every point, also in the middle of a commit. */
    ghost predicate Inv()
      reads this, cache, cache.buf, cache.link, cache.disk, block
    {
      && cache.Valid() && g.Valid() && |cache.disk.blocks| == g.nblocks <= 0x8000_0000
      && block.Length == LOGSIZE && n <= LOGSIZE
      && dev != 0 && |s.holds| == NBUF && |s.current| == g.nblocks
      && Agree(s, cache.buf[..], cache.disk.blocks, dev)
    }

    /** Holds between the steps callers take. */
    ghost predicate Idle()
      reads this, cache, cache.buf, cache.link, cache.disk, block
    {
      && Inv() && !committing
      && Targets(g, block[..n]) && s.pins == Blocks(block[..n])
      && Quiet(g, cache.disk.blocks)
      && (forall i :: i in s.dirty ==> i < NBUF && g.Home(cache.buf[i].blockno))
      && (s.dirty != {} ==> outstanding > 0)
      // every outstanding operation can still log what is left of its allowance
      && Reserved(n, allow, outstanding)
    }

    /** initlog on a machine that has just started: recovery brings the disk to rest. */
    constructor (dev: nat, g: Geometry, cache: Cache)
      requires cache.Valid() && dev != 0 && g.nblocks <= 0x8000_0000
      requires Formatted(g, cache.disk.blocks)
      requires forall i :: 0 <= i < NBUF ==> cache.buf[i].dev == 0 && cache.buf[i].refcnt == 0
      modifies cache, cache.buf, cache.link, cache.disk
      ensures Idle() && fresh(block) && n == 0 && outstanding == 0
      ensures this.g == g && this.dev == dev && this.cache == cache
      ensures cache.disk.writes == old(cache.disk.writes) + RecoverWrites(g, old(cache.disk.blocks))
      ensures cache.disk.blocks == Recovered(g, old(cache.disk.blocks))
      ensures s == Store(cache.disk.blocks, seq(NBUF, i => 0), {}, {})
    {
      this.g, this.dev, this.cache := g, dev, cache;
      block := new Word[LOGSIZE];
      n, outstanding, committing := 0, 0, false;
      s := Store(cache.disk.blocks, seq(NBUF, i => 0), {}, {});
      allow := [];
      new;
      Recover();
    }

    /** recover_from_log. */
    method Recover()
      requires Inv() && Formatted(g, cache.disk.blocks) && !committing && outstanding == 0 && allow == []
      requires s == Store(cache.disk.blocks, seq(NBUF, i => 0), {}, {})
      modifies `n, `s, block, cache, cache.buf, cache.link, cache.disk
      ensures Idle() && n == 0
      ensures cache.disk.writes == old(cache.disk.writes) + RecoverWrites(g, old(cache.disk.blocks))
      ensures cache.disk.blocks == Recovered(g, old(cache.disk.blocks))
      ensures s == Store(cache.disk.blocks, seq(NBUF, i => 0), {}, {})
    {
      hide Ring, Full, ByRelease, UniqueKeys, Agree, GetWord, Head, Listed, Apply, InstallWrites;
      ghost var d0 := cache.disk.blocks;
      ghost var hs, data := Listed(d0[g.start]), LogBlocks(g, d0);
      var ok := ReadHead();
      RecoverSteps(g, d0);
      ok := InstallTrans(true, data);
      n := 0;
      AllUnused(s, cache.buf[..], cache.disk.blocks, dev);
      assert block[..n] == [];
      assert cache.buf[..][0].refcnt == 0;
      ok := WriteHead();
      RecoveryEnds(g, d0);
      assert s.current == cache.disk.blocks;
      assert Blocks([]) == {};
    }

    /** commit: with a nonempty log, the writes of CommitWrites in their order, and at the end nothing
        is pinned and the disk holds what callers see.  A machine that runs out of buffers stops
        somewhere along those writes. */
    method Commit() returns (ok: bool)
      requires Inv() && Targets(g, block[..n]) && s.pins == Blocks(block[..n]) && s.dirty == {}
      requires Quiet(g, cache.disk.blocks)
      modifies `n, `s, cache, cache.buf, cache.link, cache.disk
      ensures old(n) == 0 ==>
                ok && cache.disk.writes == old(cache.disk.writes) && cache.disk.blocks == old(cache.disk.blocks)
      ensures old(n) > 0 ==>
                Progress(old(cache.disk.writes), cache.disk.writes,
                         CommitWrites(g, old(cache.disk.blocks[g.start]), old(block[..n]),
                                      Contents(old(s).current, old(block[..n]))))
      ensures Unheld(old(s)) && old(n) < NBUF ==> ok
      ensures ok && old(n) > 0 ==>
                var ws := CommitWrites(g, old(cache.disk.blocks[g.start]), old(block[..n]),
                                       Contents(old(s).current, old(block[..n])));
                && cache.disk.writes == old(cache.disk.writes) + ws
                && InBounds(old(cache.disk.blocks), ws)
                && cache.disk.blocks == Apply(old(cache.disk.blocks), ws)
      ensures ok ==>
              && Inv() && n == 0 && Quiet(g, cache.disk.blocks)
              && s == old(s).(current := cache.disk.blocks, pins := {})
              && SameHome(g, cache.disk.blocks, old(s).current)
    {
      hide Ring, Full, ByRelease, UniqueKeys, Agree, GetWord, Head, CommitWrites;
      if n > 0 {
        ok := CommitLogged();
      } else {
        assert block[..n] == [];
        ok := true;
      }
      if ok {
        NothingLags(s, cache.buf[..], cache.disk.blocks, dev);
      }
    }

    method CommitLogged() returns (ok: bool)
      requires Inv() && Targets(g, block[..n]) && s.pins == Blocks(block[..n]) && s.dirty == {}
      requires Quiet(g, cache.disk.blocks)
      modifies `n, `s, cache, cache.buf, cache.link, cache.disk
      ensures Progress(old(cache.disk.writes), cache.disk.writes,
                       CommitWrites(g, old(cache.disk.blocks[g.start]), old(block[..n]),
                                    Contents(old(s).current, old(block[..n]))))
      ensures Unheld(old(s)) && old(n) < NBUF ==> ok
      ensures ok ==>
                var ws := CommitWrites(g, old(cache.disk.blocks[g.start]), old(block[..n]),
                                       Contents(old(s).current, old(block[..n])));
                && cache.disk.writes == old(cache.disk.writes) + ws
                && InBounds(old(cache.disk.blocks), ws)
                && cache.disk.blocks == Apply(old(cache.disk.blocks), ws)
                && Inv() && n == 0 && Quiet(g, cache.disk.blocks)
                && s == old(s).(current := s.current, pins := {})
                && SameHome(g, s.current, old(s).current)
    {
      hide Ring, Full, ByRelease, UniqueKeys, Agree, GetWord, Head, Listed,
           Apply, CommitWrites, InstallWrites, LogWrites, Contents, Progress;
      ghost var hs := block[..n];
      ghost var c0, d0, w0 := s.current, cache.disk.blocks, cache.disk.writes;
      ghost var data := Contents(c0, hs);
      ghost var lw, iw := LogWrites(g, data), InstallWrites(hs, data);
      ghost var h := Head(d0[g.start], hs);
      ghost var w1, w2 := [Write(g.start, h)], [Write(g.start, Head(h, []))];
      CommitShape(g, c0, d0, hs, data);
      CommitDisk(g, d0, hs, data);
      Parts(w0, lw, w1, iw, w2);
      ok := WriteLog();
      if !ok {
        ProgressThrough(w0, cache.disk.writes, [], lw, w1 + iw + w2);
        return;
      }
      if Unheld(s) && n < NBUF { SpareBuffer(s, cache.buf[..], cache.disk.blocks, dev, hs); }
      Synced(s, cache.buf[..], cache.disk.blocks, dev, g.start);
      ok := WriteHead();
      if !ok {
        ProgressThrough(w0, cache.disk.writes, lw, w1, iw + w2);
        return;
      }
      ok := InstallTrans(false, data);
      if !ok {
        ProgressThrough(w0, cache.disk.writes, lw + w1, iw, w2);
        return;
      }
      ok := ClearLog();
      ProgressEnd(w0, cache.disk.writes, lw + w1 + iw, w2, ok);
    }

    /** The end of commit: the log on disk becomes empty. */
    method ClearLog() returns (ok: bool)
      requires Inv() && s.pins == {} && s.dirty == {}
      modifies `n, `s, cache, cache.buf, cache.link, cache.disk
      ensures n == 0
      ensures Progress(old(cache.disk.writes), cache.disk.writes, [Write(g.start, Head(old(cache.disk.blocks[g.start]), []))])
      ensures Unheld(old(s)) ==> ok
      ensures ok ==>
              var h := Head(old(cache.disk.blocks[g.start]), []);
              && Inv()
              && s == old(s).(current := old(s).current[g.start := h])
              && cache.disk.blocks == old(cache.disk.blocks)[g.start := h]
              && cache.disk.writes == old(cache.disk.writes) + [Write(g.start, h)]
    {
      hide Ring, Full, ByRelease, UniqueKeys, Agree, GetWord, Head, Progress;
      if Unheld(s) {
        AllUnused(s, cache.buf[..], cache.disk.blocks, dev);
        assert cache.buf[..][0].refcnt == 0;
      }
      Synced(s, cache.buf[..], cache.disk.blocks, dev, g.start);
      n := 0;
      assert block[..n] == [];
      ok := WriteHead();
    }

    // ---- The interface callers use ----

    /** One turn of begin_op's loop: the operation starts unless a commit is running or the log might
        run out of room for it, in which case the caller sleeps and tries again. */
    method BeginOp() returns (started: bool)
      requires Inv() && Reserved(n, allow, outstanding)
      modifies `outstanding, `allow
      ensures started <==> !committing && n + (old(outstanding) + 1) * MAXOPBLOCKS <= LOGSIZE
      ensures started ==> outstanding == old(outstanding) + 1 && allow == old(allow) + [MAXOPBLOCKS]
      ensures !started ==> outstanding == old(outstanding) && allow == old(allow)
      ensures Reserved(n, allow, outstanding)
      ensures old(Idle()) ==> Idle()
    {
      started := !committing && n + (outstanding + 1) * MAXOPBLOCKS <= LOGSIZE;
      if started {
        BoundedSum(allow);
        SumAppend(allow, MAXOPBLOCKS);
        outstanding := outstanding + 1;
        allow := allow + [MAXOPBLOCKS];
      }
    }

    /** A caller that holds a buffer of a home block changes its contents. */
    method Modify(b: nat, data: Block)
      requires Idle() && b < NBUF && s.holds[b] > 0 && cache.buf[b].valid && cache.buf[b].dev == dev
      requires g.Home(cache.buf[b].blockno) && outstanding > 0
      modifies `s, cache.buf
      ensures Idle()
      ensures s == old(s).(current := old(s).current[old(cache.buf[b]).blockno := data],
                              dirty := old(s).dirty + {b})
      ensures cache.buf[..] == old(cache.buf[..])[b := old(cache.buf[b]).(data := data)]
    {
      hide Ring, Full, ByRelease, Agree, Listed, Sum;
      ModifyAgrees(s, cache.buf[..], cache.disk.blocks, dev, b, data);
      cache.buf[b] := cache.buf[b].(data := data);
      s := s.(current := s.current[cache.buf[b].blockno := data], dirty := s.dirty + {b});
    }

    /** log_write by the op-th outstanding operation: the block joins the log, once, and stays cached
        until the commit.  ok == false is the panic "too big a transaction" or "outside of trans". */
    method LogWrite(b: nat, ghost op: nat) returns (ok: bool)
      requires Idle() && b < NBUF && s.holds[b] > 0 && cache.buf[b].valid && cache.buf[b].dev == dev
      requires g.Home(cache.buf[b].blockno)
      requires outstanding > 0 ==>
                 op < |allow| && (cache.buf[b].blockno in block[..n] || allow[op] > 0)
      modifies `n, `s, `allow, block, cache.buf
      ensures Idle() && |allow| == |old(allow)|
      ensures !ok ==> s == old(s) && n == old(n) && block[..] == old(block[..]) && allow == old(allow)
      ensures ok <==> old(n) < LOGSIZE && old(n) < g.size - 1 && outstanding > 0
      ensures ok ==>
                && s == old(s).(pins := old(s).pins + {cache.buf[b].blockno}, dirty := old(s).dirty - {b})
                && Kept(old(s), old(cache.buf[..]), cache.buf[..])
                && if cache.buf[b].blockno in old(block[..n])
                   then block[..n] == old(block[..n]) && allow == old(allow)
                   else && block[..n] == old(block[..n]) + [cache.buf[b].blockno]
                        && allow == old(allow)[op := old(allow)[op] - 1]
    {
      hide Ring, Full, ByRelease, Agree, Listed;
      if n >= LOGSIZE || n >= g.size - 1 || outstanding < 1 {
        return false;
      }
      ghost var hs := block[..n];
      var i := 0;
      while i < n
        invariant 0 <= i <= n && forall j :: 0 <= j < i ==> block[j] != cache.buf[b].blockno
      {
        if block[i] == cache.buf[b].blockno {
          break;
        }
        i := i + 1;
      }
      block[i] := cache.buf[b].blockno;
      if i == n {
        assert cache.buf[b].blockno !in hs;
        PinAgrees(s, cache.buf[..], cache.disk.blocks, dev, b);
        cache.BPin(b);
        SumUpdate(allow, op, allow[op] - 1);
        n := n + 1;
        allow := allow[op := allow[op] - 1];
        assert block[..n] == hs + [cache.buf[b].blockno];
        assert Blocks(block[..n]) == Blocks(hs) + {cache.buf[b].blockno};
      } else {
        assert block[..n] == hs;
        assert hs[i] in Blocks(hs);
        assert s.pins + {cache.buf[b].blockno} == s.pins;
        AbsorbAgrees(s, cache.buf[..], cache.disk.blocks, dev, b);
      }
      s := s.(pins := s.pins + {cache.buf[b].blockno}, dirty := s.dirty - {b});
      ok := true;
    }

    /** end_op by the op-th outstanding operation: the last one out commits, so the disk then holds
        what callers see; otherwise its unused allowance is given back. */
    method EndOp(ghost op: nat) returns (ok: bool)
      requires Idle() && op < outstanding
      requires outstanding == 1 ==> s.dirty == {}
      modifies `n, `s, `outstanding, `committing, `allow, cache, cache.buf, cache.link, cache.disk
      ensures outstanding == old(outstanding) - 1
      ensures outstanding > 0 ==>
                && ok && Idle() && s == old(s) && n == old(n)
                && allow == old(allow)[..op] + old(allow)[op + 1..]
                && cache.disk.blocks == old(cache.disk.blocks) && cache.disk.writes == old(cache.disk.writes)
      ensures outstanding == 0 && old(n) == 0 ==> cache.disk.writes == old(cache.disk.writes)
      ensures outstanding == 0 && old(n) > 0 ==>
                Progress(old(cache.disk.writes), cache.disk.writes,
                         CommitWrites(g, old(cache.disk.blocks[g.start]), old(block[..n]),
                                      Contents(old(s).current, old(block[..n]))))
      ensures Unheld(old(s)) && old(n) < NBUF ==> ok
      ensures outstanding == 0 && ok ==>
                && Idle() && n == 0
                && s == old(s).(current := cache.disk.blocks, pins := {})
                && SameHome(g, cache.disk.blocks, old(s).current)
      ensures outstanding == 0 && ok ==>
                var ws := CommitOf(g, old(cache.disk.blocks[g.start]), old(block[..n]),
                                   Contents(old(s).current, old(block[..n])));
                && cache.disk.writes == old(cache.disk.writes) + ws
                && InBounds(old(cache.disk.blocks), ws)
                && cache.disk.blocks == Apply(old(cache.disk.blocks), ws)
    {
      hide Ring, Full, ByRelease, UniqueKeys, Agree, GetWord, Head, Listed, CommitWrites;
      SumRemove(allow, op);
      outstanding := outstanding - 1;
      allow := allow[..op] + allow[op + 1..];
      ok := true;
      if outstanding == 0 {
        committing := true;
        ok := Commit();
        committing := false;
        assert block[..0] == [];
      }
    }

    // ---- The parts of a commit ----

    /** bread. */
    method Read(bno: nat) returns (b: nat)
      requires Inv() && bno < g.nblocks
      modifies `s, cache.buf
      ensures Inv() && b <= HEAD
      ensures b == HEAD ==> s == old(s) && cache.buf[..] == old(cache.buf[..])
      ensures b == HEAD <==> Exhausted(old(cache.buf[..]), dev, bno)
      ensures b != HEAD ==>
              && s == old(s).(holds := old(s).holds[b := old(s).holds[b] + 1])
              && cache.buf[b].dev == dev && cache.buf[b].blockno == bno
              && cache.buf[b].valid && cache.buf[b].data == s.current[bno]
      ensures forall i :: 0 <= i < NBUF && i != b ==> cache.buf[i] == old(cache.buf[i])
      ensures Kept(old(s), old(cache.buf[..]), cache.buf[..])
      ensures old(Idle()) ==> Idle()
    {
      hide Ring, Full, ByRelease, UniqueKeys, Agree, Listed, Sum;
      ghost var was := cache.buf[..];
      b := cache.BRead(dev, bno);
      if b != HEAD {
        DirtyHeld(s, was, cache.disk.blocks, dev);
        ReadAgrees(s, was, cache.stamp, cache.disk.blocks, dev, bno, b);
        ReadKeeps(s, was, cache.stamp, cache.disk.blocks, dev, bno, b);
        s := s.(holds := s.holds[b := s.holds[b] + 1]);
      }
    }

    /** brelse. */
    method Release(b: nat)
      requires Inv() && b < NBUF && s.holds[b] > 0 && b !in s.dirty
      modifies `s, cache, cache.buf, cache.link
      ensures Inv()
      ensures s == old(s).(holds := old(s).holds[b := old(s).holds[b] - 1])
      ensures Kept(old(s), old(cache.buf[..]), cache.buf[..])
      ensures old(Idle()) ==> Idle()
    {
      hide Ring, Full, ByRelease, UniqueKeys, Agree, Listed, Sum;
      ghost var was := cache.buf[..];
      DirtyHeld(s, was, cache.disk.blocks, dev);
      assert was[b].refcnt > 0 by { HeldCounts(s, was, cache.disk.blocks, dev, b); }
      ReleaseAgrees(s, was, cache.disk.blocks, dev, b);
      cache.BRelse(b);
      s := s.(holds := s.holds[b := s.holds[b] - 1]);
    }

    /** memmove into a held buffer, then bwrite. */
    method Flush(b: nat, data: Block)
      requires Inv() && b < NBUF && cache.buf[b].valid && cache.buf[b].dev == dev
      modifies `s, cache.buf, cache.disk
      ensures Inv()
      ensures s == old(s).(current := old(s).current[old(cache.buf[b]).blockno := data])
      ensures cache.buf[..] == old(cache.buf[..])[b := old(cache.buf[b]).(data := data)]
      ensures cache.disk.blocks == old(cache.disk.blocks)[old(cache.buf[b]).blockno := data]
      ensures cache.disk.writes == old(cache.disk.writes) + [Write(old(cache.buf[b]).blockno, data)]
    {
      FlushAgrees(s, cache.buf[..], cache.disk.blocks, dev, b, data);
      cache.buf[b] := cache.buf[b].(data := data);
      cache.BWrite(b);
      s := s.(current := s.current[cache.buf[b].blockno := data]);
    }

    /** Two breads in a row, of different blocks. */
    method ReadTwo(x: nat, y: nat) returns (ok: bool, a: nat, b: nat)
      requires Inv() && x < g.nblocks && y < g.nblocks && x != y
      modifies `s, cache.buf
      ensures !ok ==> (exists i :: 0 <= i < NBUF && old(cache.buf[i]).refcnt > 0)
      ensures !ok && y in old(s).pins ==> Exhausted(old(cache.buf[..]), dev, x)
      ensures ok ==>
              && Inv() && a < NBUF && b < NBUF && a != b
              && s == old(s).(holds := old(s).holds[a := old(s).holds[a] + 1][b := old(s).holds[b] + 1])
              && cache.buf[a].dev == dev && cache.buf[a].blockno == x
              && cache.buf[a].valid && cache.buf[a].data == s.current[x]
              && cache.buf[b].dev == dev && cache.buf[b].blockno == y
              && cache.buf[b].valid && cache.buf[b].data == s.current[y]
    {
      hide Ring, Full, ByRelease, UniqueKeys, Agree;
      a := Read(x);
      b := a;
      if a == HEAD {
        assert old(cache.buf[..])[0].refcnt > 0;
        return false, a, b;
      }
      if y in s.pins { PinCached(s, cache.buf[..], cache.disk.blocks, dev, y); }
      b := Read(y);
      if b == HEAD {
        var i := if a == 0 then 1 else 0;
        assert old(cache.buf[..])[i].refcnt > 0;
        return false, a, b;
      }
      ok := true;
    }

    /** One turn of write_log's loop: a block, as callers see it, goes to its log block. */
    method LogBlock(tail: nat) returns (ok: bool)
      requires Inv() && tail < n && g.start + tail + 1 < g.nblocks && block[tail] < g.nblocks
      requires block[tail] != g.start + tail + 1 && s.dirty == {}
      modifies `s, cache, cache.buf, cache.link, cache.disk
      ensures !ok ==> cache.disk.writes == old(cache.disk.writes)
      ensures !ok ==> Exhausted(old(cache.buf[..]), dev, g.start + tail + 1) || block[tail] !in old(s).pins
      ensures ok ==>
              var data := old(s).current[block[tail]];
              && Inv()
              && s == old(s).(current := old(s).current[g.start + tail + 1 := data])
              && cache.disk.blocks == old(cache.disk.blocks)[g.start + tail + 1 := data]
              && cache.disk.writes == old(cache.disk.writes) + [Write(g.start + tail + 1, data)]
    {
      hide Ring, Full, ByRelease, UniqueKeys, Agree, Exhausted;
      var to, from;
      ok, to, from := ReadTwo(g.start + tail + 1, block[tail]);
      if !ok { return; }
      Flush(to, cache.buf[from].data);
      Release(from);
      Release(to);
      assert s.holds == old(s).holds;
    }

    /** write_log: the logged blocks, as callers see them, go to the log blocks in order. */
    method WriteLog() returns (ok: bool)
      requires Inv() && Targets(g, block[..n]) && s.pins == Blocks(block[..n]) && s.dirty == {}
      modifies `s, cache, cache.buf, cache.link, cache.disk
      ensures Progress(old(cache.disk.writes), cache.disk.writes,
                       LogWrites(g, Contents(old(s).current, block[..n])))
      ensures Unheld(old(s)) && n < NBUF ==> ok
      ensures ok ==>
              var ws := LogWrites(g, Contents(old(s).current, block[..n]));
              && Inv()
              && s == old(s).(current := Apply(old(s).current, ws))
              && cache.disk.blocks == Apply(old(cache.disk.blocks), ws)
              && cache.disk.writes == old(cache.disk.writes) + ws
    {
      hide Ring, Full, ByRelease, UniqueKeys, Agree, Apply, LogWrites, Contents;
      ghost var hs := block[..n];
      ghost var c0, d0, w0 := s.current, cache.disk.blocks, cache.disk.writes;
      ghost var ws := LogWrites(g, Contents(c0, hs));
      var tail := 0;
      LogStart(g, c0, d0, hs);
      while tail < n
        invariant 0 <= tail <= n == |ws| && Inv()
        invariant s == old(s).(current := Apply(c0, ws[..tail]))
        invariant cache.disk.blocks == Apply(d0, ws[..tail])
        invariant cache.disk.writes == w0 + ws[..tail]
      {
        if Unheld(s) && n < NBUF { SpareBuffer(s, cache.buf[..], cache.disk.blocks, dev, hs); }
        LogStep(g, c0, d0, hs, tail);
        ok := LogBlock(tail);
        if !ok { return; }
        tail := tail + 1;
      }
      assert ws[..n] == ws;
      ok := true;
    }

    /** One turn of install_trans's loop: a log block goes to its home block. */
    method InstallBlock(tail: nat, recovering: bool) returns (ok: bool)
      requires Inv() && tail < n && g.start + tail + 1 < g.nblocks && block[tail] < g.nblocks
      requires block[tail] != g.start + tail + 1 && s.dirty == {}
      requires !recovering ==> block[tail] in s.pins
      modifies `s, cache, cache.buf, cache.link, cache.disk
      ensures !ok ==> cache.disk.writes == old(cache.disk.writes)
      ensures !ok ==>
              if recovering then exists i :: 0 <= i < NBUF && old(cache.buf[i]).refcnt > 0
              else Exhausted(old(cache.buf[..]), dev, g.start + tail + 1)
      ensures ok ==>
              var data := old(s).current[g.start + tail + 1];
              && Inv()
              && s == old(s).(current := old(s).current[block[tail] := data],
                              pins := if recovering then old(s).pins else old(s).pins - {block[tail]})
              && cache.disk.blocks == old(cache.disk.blocks)[block[tail] := data]
              && cache.disk.writes == old(cache.disk.writes) + [Write(block[tail], data)]
    {
      hide Ring, Full, ByRelease, UniqueKeys, Agree, Exhausted;
      var lbuf, dbuf;
      ok, lbuf, dbuf := ReadTwo(g.start + tail + 1, block[tail]);
      if !ok { return; }
      Flush(dbuf, cache.buf[lbuf].data);
      if !recovering {
        Unpin(dbuf);
      }
      Release(lbuf);
      Release(dbuf);
      assert s.holds == old(s).holds;
    }

    /** bunpin, once the home block on disk is what callers see. */
    method Unpin(b: nat)
      requires Inv() && b < NBUF && cache.buf[b].dev == dev && cache.buf[b].blockno in s.pins
      requires cache.buf[b].blockno < g.nblocks
      requires s.current[cache.buf[b].blockno] == cache.disk.blocks[cache.buf[b].blockno]
      modifies `s, cache.buf
      ensures Inv()
      ensures s == old(s).(pins := old(s).pins - {old(cache.buf[b]).blockno})
      ensures Kept(old(s), old(cache.buf[..]), cache.buf[..])
    {
      hide Ring, Full, ByRelease, UniqueKeys, Agree;
      UnpinAgrees(s, cache.buf[..], cache.disk.blocks, dev, b);
      cache.BUnpin(b);
      s := s.(pins := s.pins - {cache.buf[b].blockno});
    }

    /** install_trans: the log blocks go to their home blocks in order; outside recovery each home
        block is unpinned once it is on disk. */
    method InstallTrans(recovering: bool, ghost data: seq<Block>) returns (ok: bool)
      requires Inv() && Targets(g, block[..n]) && s.dirty == {} && |data| == n
      requires forall i :: 0 <= i < n ==> s.current[g.start + 1 + i] == data[i]
      requires s.pins == if recovering then {} else Blocks(block[..n])
      modifies `s, cache, cache.buf, cache.link, cache.disk
      ensures Progress(old(cache.disk.writes), cache.disk.writes, InstallWrites(block[..n], data))
      ensures Unheld(old(s)) && n < NBUF ==> ok
      ensures Unheld(old(s)) && recovering ==> ok
      ensures ok ==>
              var ws := InstallWrites(block[..n], data);
              && Inv()
              && s == old(s).(current := Apply(old(s).current, ws), pins := {})
              && cache.disk.blocks == Apply(old(cache.disk.blocks), ws)
              && cache.disk.writes == old(cache.disk.writes) + ws
    {
      hide Ring, Full, ByRelease, UniqueKeys, Agree, Apply, InstallWrites, Blocks;
      ghost var hs := block[..n];
      ghost var c0, d0, w0 := s.current, cache.disk.blocks, cache.disk.writes;
      ghost var ws := InstallWrites(hs, data);
      var tail := 0;
      InstallStart(g, c0, d0, hs, data);
      while tail < n
        invariant 0 <= tail <= n == |ws| && Inv()
        invariant s == old(s).(current := Apply(c0, ws[..tail]),
                               pins := if recovering then {} else Blocks(hs[tail..]))
        invariant cache.disk.blocks == Apply(d0, ws[..tail])
        invariant cache.disk.writes == w0 + ws[..tail]
      {
        if Unheld(s) {
          if recovering {
            AllUnused(s, cache.buf[..], cache.disk.blocks, dev);
          } else if n < NBUF {
            SpareBuffer(s, cache.buf[..], cache.disk.blocks, dev, hs[tail..]);
          }
        }
        InstallStep(g, c0, d0, hs, data, tail);
        ok := InstallBlock(tail, recovering);
        if !ok { return; }
        tail := tail + 1;
      }
      assert ws[..n] == ws;
      ok := true;
    }

    /** read_head. */
    method ReadHead() returns (ok: bool)
      requires Inv() && Formatted(g, cache.disk.blocks) && s.current == cache.disk.blocks && s.dirty == {}
      modifies `n, `s, block, cache, cache.buf, cache.link
      ensures Unheld(old(s)) && old(s).pins == {} ==> ok
      ensures ok ==> Inv() && s == old(s) && block[..n] == Listed(cache.disk.blocks[g.start])
    {
      hide Ring, Full, ByRelease, UniqueKeys, Agree, GetWord;
      if Unheld(s) && s.pins == {} { AllUnused(s, cache.buf[..], cache.disk.blocks, dev); }
      var b := Read(g.start);
      if b == HEAD {
        assert cache.buf[..][0].refcnt > 0;
        return false;
      }
      var h := cache.buf[b].data;
      LoadHead(h);
      Release(b);
      assert s.holds == old(s).holds;
      ok := true;
    }

    method LoadHead(h: Block)
      requires GetWord(h, 0) <= LOGSIZE == block.Length
      modifies `n, block
      ensures n == GetWord(h, 0) && block[..n] == Listed(h)
    {
      n := GetWord(h, 0);
      var i := 0;
      while i < n
        invariant 0 <= i <= n == GetWord(h, 0)
        invariant forall j :: 0 <= j < i ==> block[j] == Listed(h)[j]
        modifies block
      {
        block[i] := GetWord(h, 1 + i);
        i := i + 1;
      }
      assert block[..n] == Listed(h);
    }

    /** write_head: one write of the header block, which now lists block[..n]. */
    method WriteHead() returns (ok: bool)
      requires Inv() && s.current[g.start] == cache.disk.blocks[g.start] && s.dirty == {}
      modifies `s, cache, cache.buf, cache.link, cache.disk
      ensures Progress(old(cache.disk.writes), cache.disk.writes,
                       [Write(g.start, Head(old(cache.disk.blocks[g.start]), block[..n]))])
      ensures !Exhausted(old(cache.buf[..]), dev, g.start) ==> ok
      ensures ok ==>
              var h := Head(old(cache.disk.blocks[g.start]), block[..n]);
              && Inv()
              && s == old(s).(current := old(s).current[g.start := h])
              && cache.disk.blocks == old(cache.disk.blocks)[g.start := h]
              && cache.disk.writes == old(cache.disk.writes) + [Write(g.start, h)]
    {
      hide Ring, Full, ByRelease, UniqueKeys, Agree, GetWord, PutTargets, Head;
      var b := Read(g.start);
      if b == HEAD { return false; }
      var h := FillHead(cache.buf[b].data);
      Flush(b, h);
      Release(b);
      assert s.holds == old(s).holds;
      ok := true;
    }

    method FillHead(h0: Block) returns (h: Block)
      requires n <= LOGSIZE == block.Length
      ensures h == Head(h0, block[..n])
    {
      hide GetWord;
      h := PutWord(h0, 0, n);
      var i := 0;
      while i < n
        invariant 0 <= i <= n
        invariant h == PutTargets(PutWord(h0, 0, n), block[..n], i)
      {
        h := PutWord(h, i + 1, block[i]);
        i := i + 1;
      }
    }
  }

  lemma {:induction false} SumAppend(xs: seq<nat>, x: nat)
    ensures Sum(xs + [x]) == Sum(xs) + x
    decreases |xs|
  {
    if xs == [] {
      assert xs + [x] == [x];
    } else {
      assert (xs + [x])[1..] == xs[1..] + [x];
      SumAppend(xs[1..], x);
    }
  }

  lemma {:induction false} BoundedSum(xs: seq<nat>)
    requires forall k :: 0 <= k < |xs| ==> xs[k] <= MAXOPBLOCKS
    ensures Sum(xs) <= |xs| * MAXOPBLOCKS
    decreases |xs|
  {
    if xs != [] {
      BoundedSum(xs[1..]);
    }
  }

  lemma {:induction false} SumUpdate(xs: seq<nat>, k: nat, x: nat)
    requires k < |xs|
    ensures Sum(xs[k := x]) == Sum(xs) - xs[k] + x
    decreases |xs|
  {
    if k == 0 {
      assert xs[k := x][1..] == xs[1..];
    } else {
      assert xs[k := x][1..] == xs[1..][k - 1 := x];
      SumUpdate(xs[1..], k - 1, x);
    }
  }

  lemma {:induction false} SumRemove(xs: seq<nat>, k: nat)
    requires k < |xs|
    ensures Sum(xs[..k] + xs[k + 1..]) == Sum(xs) - xs[k]
    decreases |xs|
  {
    if k == 0 {
      assert xs[..k] + xs[k + 1..] == xs[1..];
    } else {
      assert (xs[..k] + xs[k + 1..])[1..] == xs[1..][..k - 1] + xs[1..][k..];
      SumRemove(xs[1..], k - 1);
    }
  }

  /** With nothing pinned and nothing dirty, the disk holds what callers see. */
  lemma NothingLags(s: Store, bufs: seq<Buf>, d: Disk, dev: nat)
    requires Agree(s, bufs, d, dev) && s.pins == {} && s.dirty == {}
    ensures s.current == d
  {
  }

  lemma Synced(s: Store, bufs: seq<Buf>, d: Disk, dev: nat, b: nat)
    requires Agree(s, bufs, d, dev) && s.dirty == {} && b < |d| && b !in s.pins
    ensures s.current[b] == d[b]
  {
  }

  lemma Parts(w0: seq<Write>, a: seq<Write>, b: seq<Write>, c: seq<Write>, d: seq<Write>)
    ensures w0 + [] == w0 && [] + a + (b + c + d) == a + b + c + d && a + b + (c + d) == a + b + c + d
    ensures w0 + a + b == w0 + (a + b) && w0 + (a + b) + c == w0 + (a + b + c)
  {
  }

  /** Progress through one part of a list of writes is progress through the whole list. */
  lemma ProgressThrough(before: seq<Write>, after: seq<Write>, a: seq<Write>, b: seq<Write>, c: seq<Write>)
    requires Progress(before + a, after, b)
    ensures Progress(before, after, a + b + c)
  {
    assert after[|before|..] == a + after[|before + a|..];
  }

  lemma ProgressEnd(before: seq<Write>, after: seq<Write>, a: seq<Write>, b: seq<Write>, done: bool)
    requires Progress(before + a, after, b)
    requires done ==> after == before + a + b
    ensures Progress(before, after, a + b)
    ensures done ==> after == before + (a + b)
  {
    assert a + b + [] == a + b;
    ProgressThrough(before, after, a, b, []);
  }

  /** What callers see, and what the disk holds, between the parts of a commit. */
  lemma CommitShape(g: Geometry, c: Disk, d: Disk, hs: seq<Word>, data: seq<Block>)
    requires Quiet(g, d) && |c| == g.nblocks && Targets(g, hs) && data == Contents(c, hs)
    ensures var h := Head(d[g.start], hs);
            var lw, iw := LogWrites(g, data), InstallWrites(hs, data);
            var c2, d2 := Apply(c, lw)[g.start := h], Apply(d, lw)[g.start := h];
            && |data| == |hs| && InBounds(c, lw) && InBounds(d, lw) && InBounds(c2, iw) && InBounds(d2, iw)
            && Apply(d, lw)[g.start] == d[g.start]
            && (forall i :: 0 <= i < |hs| ==> c2[g.start + 1 + i] == data[i])
            && Apply(d2, iw)[g.start] == h
            && SameHome(g, Apply(c2, iw)[g.start := Head(h, [])], c)
  {
    hide GetWord, Head, Listed, Apply;
    var h := Head(d[g.start], hs);
    var lw, iw := LogWrites(g, data), InstallWrites(hs, data);
    var c2, d2 := Apply(c, lw)[g.start := h], Apply(d, lw)[g.start := h];
    ApplyMiss(d, lw, g.start);
    ApplyMiss(d2, iw, g.start);
    forall i | 0 <= i < |hs|
      ensures c2[g.start + 1 + i] == data[i]
    {
      assert lw[i] == Write(g.start + 1 + i, data[i]);
      ApplyHit(c, lw, i);
    }
    forall b: nat | g.Home(b)
      ensures Apply(c2, iw)[b] == c[b]
    {
      ApplyMiss(c, lw, b);
      if b in hs {
        var i :| 0 <= i < |hs| && hs[i] == b;
        UpdatedHit(c2, hs, data, i);
      } else {
        UpdatedMiss(c2, hs, data, 0, b);
      }
    }
  }

  /** The whole list of commit writes, applied. */
  lemma CommitDisk(g: Geometry, d: Disk, hs: seq<Word>, data: seq<Block>)
    requires Quiet(g, d) && Targets(g, hs) && |data| == |hs|
    ensures var h := Head(d[g.start], hs);
            var lw, iw := LogWrites(g, data), InstallWrites(hs, data);
            var ws := CommitWrites(g, d[g.start], hs, data);
            && InBounds(d, ws) && InBounds(d, lw) && InBounds(d, iw)
            && Apply(d, ws) == Apply(Apply(d, lw)[g.start := h], iw)[g.start := Head(h, [])]
            && ws == lw + [Write(g.start, h)] + iw + [Write(g.start, Head(h, []))]
            && Quiet(g, Apply(d, ws))
  {
    hide GetWord, Head, PutTargets, Listed;
    CommitBounds(g, d, hs, data);
    hide LogWrites, InstallWrites, Apply;
    var h := Head(d[g.start], hs);
    var lw, iw := LogWrites(g, data), InstallWrites(hs, data);
    var ws := CommitWrites(g, d[g.start], hs, data);
    var w1, w2 := Write(g.start, h), Write(g.start, Head(h, []));
    assert ws == ((lw + [w1]) + iw) + [w2];
    ApplyLast(d, (lw + [w1]) + iw, w2);
    ApplySplit(d, lw + [w1], iw);
    ApplyLast(d, lw, w1);
    assert Apply(d, ws) == Apply(Apply(d, lw)[g.start := h], iw)[g.start := Head(h, [])];
    assert Apply(d, ws)[g.start] == Head(h, []);
    assert Listed(Head(h, [])) == [];
  }

  lemma CommitBounds(g: Geometry, d: Disk, hs: seq<Word>, data: seq<Block>)
    requires Quiet(g, d) && Targets(g, hs) && |data| == |hs|
    ensures InBounds(d, CommitWrites(g, d[g.start], hs, data))
    ensures InBounds(d, LogWrites(g, data)) && InBounds(d, InstallWrites(hs, data))
  {
    hide GetWord, Head, PutTargets, Listed;
  }

  lemma ApplyLast(d: Disk, ws: seq<Write>, w: Write)
    requires InBounds(d, ws) && w.bno < |d|
    ensures InBounds(d, ws + [w]) && Apply(d, ws + [w]) == Apply(d, ws)[w.bno := w.data]
  {
    assert (ws + [w])[..|ws|] == ws;
  }

  /** The disk between the parts of a recovery. */
  lemma RecoverSteps(g: Geometry, d: Disk)
    requires Formatted(g, d)
    ensures var hs, data := Listed(d[g.start]), LogBlocks(g, d);
            var iw := InstallWrites(hs, data);
            && |hs| == |data| && InBounds(d, iw)
            && (forall i :: 0 <= i < |hs| ==> d[g.start + 1 + i] == data[i])
            && Apply(d, iw)[g.start] == d[g.start]
            && RecoverWrites(g, d) == iw + [Write(g.start, Head(d[g.start], []))]
            && Recovered(g, d) == Apply(d, iw)[g.start := Head(d[g.start], [])]
  {
    hide GetWord, Head, PutTargets, Listed, Apply;
    var hs, data := Listed(d[g.start]), LogBlocks(g, d);
    var iw := InstallWrites(hs, data);
    var ws := RecoverWrites(g, d);
    assert ws[..|iw|] == iw && ws[..|iw| + 1] == ws;
    ApplyMiss(d, iw, g.start);
    StepApply(d, ws, |iw|);
  }

  lemma AllUnused(s: Store, bufs: seq<Buf>, d: Disk, dev: nat)
    requires Agree(s, bufs, d, dev) && Unheld(s) && s.pins == {}
    ensures forall i :: 0 <= i < NBUF ==> bufs[i].refcnt == 0
  {
  }

  lemma InstallStart(g: Geometry, c: Disk, d: Disk, hs: seq<Word>, data: seq<Block>)
    requires g.Valid() && |c| == |d| == g.nblocks && Targets(g, hs) && |data| == |hs|
    ensures var ws := InstallWrites(hs, data);
            && |ws| == |hs| && InBounds(c, ws) && InBounds(d, ws) && hs[0..] == hs
            && ws[..0] == [] && Apply(c, ws[..0]) == c && Apply(d, ws[..0]) == d
            && Blocks(hs[|hs|..]) == {}
  {
  }

  /** Installing one more block: its log block is not disturbed by the earlier ones. */
  lemma InstallStep(g: Geometry, c: Disk, d: Disk, hs: seq<Word>, data: seq<Block>, tail: nat)
    requires g.Valid() && |c| == |d| == g.nblocks && Targets(g, hs) && |data| == |hs| && tail < |hs|
    requires c[g.start + 1 + tail] == data[tail]
    ensures var ws := InstallWrites(hs, data);
            && InBounds(c, ws) && InBounds(d, ws) && |ws| == |hs|
            && g.Home(hs[tail]) && hs[tail] in Blocks(hs[tail..])
            && Blocks(hs[tail..]) - {hs[tail]} == Blocks(hs[tail + 1..])
            && Apply(c, ws[..tail])[g.start + tail + 1] == data[tail]
            && Apply(c, ws[..tail + 1]) == Apply(c, ws[..tail])[hs[tail] := data[tail]]
            && Apply(d, ws[..tail + 1]) == Apply(d, ws[..tail])[hs[tail] := data[tail]]
            && ws[..tail + 1] == ws[..tail] + [Write(hs[tail], data[tail])]
  {
    hide Apply;
    var ws := InstallWrites(hs, data);
    ApplyMiss(c, ws[..tail], g.start + 1 + tail);
    StepApply(c, ws, tail);
    StepApply(d, ws, tail);
    NextPin(hs, tail);
  }

  lemma NextPin(hs: seq<Word>, tail: nat)
    requires tail < |hs| && forall i, j :: 0 <= i < j < |hs| ==> hs[i] != hs[j]
    ensures hs[tail] in Blocks(hs[tail..]) && Blocks(hs[tail..]) - {hs[tail]} == Blocks(hs[tail + 1..])
  {
    assert hs[tail..][0] == hs[tail] && hs[tail..][1..] == hs[tail + 1..];
    assert hs[tail] !in hs[tail + 1..];
  }

  /** References survive cache operations: a buffer somebody holds keeps its block and its contents. */
  ghost predicate Kept(s: Store, bufs: seq<Buf>, bufs': seq<Buf>)
    requires |bufs| == |bufs'| == |s.holds|
  {
    forall i :: 0 <= i < |bufs| && s.holds[i] > 0 ==> SameContents(bufs[i], bufs'[i])
  }

  lemma ReadKeeps(s: Store, bufs: seq<Buf>, stamp: seq<nat>, d: Disk, dev: nat, bno: nat, b: nat)
    requires Agree(s, bufs, d, dev) && Chosen(bufs, stamp, dev, bno, b) && bno < |d|
    ensures Kept(s, bufs, bufs[b := Filled(Taken(bufs[b], dev, bno), d[bno])])
  {
  }

  lemma DirtyHeld(s: Store, bufs: seq<Buf>, d: Disk, dev: nat)
    requires Agree(s, bufs, d, dev)
    ensures forall i :: i in s.dirty ==> i < NBUF == |s.holds| && s.holds[i] > 0
  {
  }

  lemma HeldCounts(s: Store, bufs: seq<Buf>, d: Disk, dev: nat, b: nat)
    requires Agree(s, bufs, d, dev) && b < NBUF && s.holds[b] > 0
    ensures bufs[b].refcnt > 0
  {
  }

  lemma PinCached(s: Store, bufs: seq<Buf>, d: Disk, dev: nat, p: nat)
    requires Agree(s, bufs, d, dev) && p in s.pins
    ensures Cached(bufs, dev, p)
  {
    assert Held(s, bufs, dev, p);
  }

  lemma LogStart(g: Geometry, c: Disk, d: Disk, hs: seq<Word>)
    requires g.Valid() && |c| == |d| == g.nblocks && Targets(g, hs)
    ensures var ws := LogWrites(g, Contents(c, hs));
            && |ws| == |hs| && InBounds(c, ws) && InBounds(d, ws)
            && ws[..0] == [] && Apply(c, ws[..0]) == c && Apply(d, ws[..0]) == d
  {
  }

  /** Filling one more log block: the logged block itself is not disturbed by the earlier ones. */
  lemma LogStep(g: Geometry, c: Disk, d: Disk, hs: seq<Word>, tail: nat)
    requires g.Valid() && |c| == |d| == g.nblocks && Targets(g, hs) && tail < |hs|
    ensures var ws := LogWrites(g, Contents(c, hs));
            && InBounds(c, ws) && InBounds(d, ws) && |ws| == |hs|
            && hs[tail] in Blocks(hs) && g.Home(hs[tail])
            && Apply(c, ws[..tail])[hs[tail]] == c[hs[tail]]
            && Apply(c, ws[..tail + 1]) == Apply(c, ws[..tail])[g.start + tail + 1 := c[hs[tail]]]
            && Apply(d, ws[..tail + 1]) == Apply(d, ws[..tail])[g.start + tail + 1 := c[hs[tail]]]
            && ws[..tail + 1] == ws[..tail] + [Write(g.start + tail + 1, c[hs[tail]])]
  {
    var ws := LogWrites(g, Contents(c, hs));
    ApplyMiss(c, ws[..tail], hs[tail]);
    StepApply(c, ws, tail);
    StepApply(d, ws, tail);
  }

  lemma StepApply(d: Disk, ws: seq<Write>, k: nat)
    requires InBounds(d, ws) && k < |ws|
    ensures Apply(d, ws[..k + 1]) == Apply(d, ws[..k])[ws[k].bno := ws[k].data]
  {
    assert ws[..k + 1][..k] == ws[..k];
  }

  /** With no references but pins, and fewer pins than buffers, some buffer is unused. */
  lemma SpareBuffer(s: Store, bufs: seq<Buf>, d: Disk, dev: nat, hs: seq<Word>)
    requires Agree(s, bufs, d, dev) && Unheld(s) && s.pins == Blocks(hs) && |hs| < NBUF
    ensures exists i :: 0 <= i < NBUF && bufs[i].refcnt == 0
  {
    if forall i :: 0 <= i < NBUF ==> bufs[i].refcnt != 0 {
      assert forall i :: 0 <= i < NBUF ==> Pinned(s, bufs[i], dev);
      PinsCount(bufs, dev, NBUF);
      FewBlocks(hs);
      var cached := set i | 0 <= i < NBUF :: bufs[i].blockno;
      SubsetSize(cached, s.pins);
      assert false;
    }
  }

  lemma PinsCount(bufs: seq<Buf>, dev: nat, k: nat)
    requires k <= |bufs| && UniqueKeys(bufs) && dev != 0
    requires forall i :: 0 <= i < k ==> bufs[i].dev == dev
    ensures |set i | 0 <= i < k :: bufs[i].blockno| == k
  {
    if k > 0 {
      PinsCount(bufs, dev, k - 1);
      var rest := set i | 0 <= i < k - 1 :: bufs[i].blockno;
      assert (set i | 0 <= i < k :: bufs[i].blockno) == rest + {bufs[k - 1].blockno};
    }
  }

  lemma FewBlocks(hs: seq<Word>)
    ensures |Blocks(hs)| <= |hs|
  {
    if hs == [] {
      assert Blocks(hs) == {};
    } else {
      FewBlocks(hs[1..]);
      assert Blocks(hs) == Blocks(hs[1..]) + {hs[0]};
    }
  }
}
