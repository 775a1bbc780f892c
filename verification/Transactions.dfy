/** A transaction as file system code makes it: begin_op, for each change bread, the change, log_write and
    brelse, then end_op (kernel/log.c, kernel/fs.c). */
module Transactions {
  import opened Bytes
  import opened Recovery
  import opened BufferCache
  import opened CacheView
  import opened Common
  import opened Journal
  import opened Logging

  /** One change by the op-th outstanding operation, with nobody else holding buffers. */
  method Change(log: Log, w: Write, ghost op: nat) returns (ok: bool)
    requires log.Idle() && log.outstanding > 0 && Unheld(log.s) && log.s.dirty == {} && log.g.Home(w.bno)
    requires op < |log.allow| && (w.bno in log.block[..log.n] || log.allow[op] > 0)
    modifies log, log.block, log.cache, log.cache.buf, log.cache.link
    ensures old(log.n) < LOGSIZE && old(log.n) < log.g.size - 1 ==> ok
    ensures ok ==>
            && log.Idle() && log.outstanding == old(log.outstanding) && Unheld(log.s)
            && w.bno < |old(log.s).current|
            && log.s == old(log.s).(current := old(log.s).current[w.bno := w.data], pins := old(log.s).pins + {w.bno})
            && if w.bno in old(log.block[..log.n])
               then log.block[..log.n] == old(log.block[..log.n]) && log.allow == old(log.allow)
               else && log.block[..log.n] == old(log.block[..log.n]) + [w.bno]
                    && log.allow == old(log.allow)[op := old(log.allow)[op] - 1]
  {
    hide Agree, Ring, Full, ByRelease, UniqueKeys, Listed, Sum;
    if log.n < LOGSIZE { SpareBuffer(log.s, log.cache.buf[..], log.cache.disk.blocks, log.dev, log.block[..log.n]); }
    var b := log.Read(w.bno);
    if b == HEAD {
      return false;
    }
    log.Modify(b, w.data);
    ok := log.LogWrite(b, op);
    if ok {
      log.Release(b);
      assert log.s.holds == old(log.s).holds;
    }
  }

  /** The disk has seen the writes of one commit, of the blocks hs with the contents that current has: it
      was d, and is now d'. */
  ghost predicate Committed(g: Geometry, d: Disk, d': Disk, current: Disk, hs: seq<Word>,
                            before: seq<Write>, after: seq<Write>) {
    && Targets(g, hs) && g.start < |d| && |current| == g.nblocks
    && (var ws := CommitOf(g, d[g.start], hs, Contents(current, hs));
        after == before + ws && InBounds(d, ws) && d' == Apply(d, ws))
  }

  /** The changes of one operation, from a log at rest.  When it returns, the disk has seen the writes of
      one commit, and its home blocks have all the changes; hs are the blocks they touch. */
  method Transact(log: Log, ws: seq<Write>) returns (ok: bool, ghost hs: seq<Word>)
    requires log.Idle() && log.outstanding == 0 && log.n == 0 && Unheld(log.s)
    requires forall k :: 0 <= k < |ws| ==> log.g.Home(ws[k].bno)
    requires |Numbers(ws)| <= MAXOPBLOCKS && MAXOPBLOCKS + 1 < log.g.size
    modifies log, log.block, log.cache, log.cache.buf, log.cache.link, log.cache.disk
    ensures ok && log.Idle() && log.outstanding == 0 && log.n == 0 && Unheld(log.s)
    ensures Blocks(hs) == Numbers(ws) && InBounds(old(log.s).current, ws)
    ensures log.s.current == log.cache.disk.blocks
    ensures SameHome(log.g, log.cache.disk.blocks, Apply(old(log.s).current, ws))
    ensures Committed(log.g, old(log.cache.disk.blocks), log.cache.disk.blocks, Apply(old(log.s).current, ws), hs,
                      old(log.cache.disk.writes), log.cache.disk.writes)
  {
    hide Agree, Ring, Full, ByRelease, UniqueKeys, Listed, Head, CommitOf, GetWord;
    var started := log.BeginOp();
    ok := true;
    var k := 0;
    while k < |ws|
      invariant 0 <= k <= |ws| && ok && log.Idle() && log.outstanding == 1 && Unheld(log.s) && log.s.dirty == {}
      invariant |log.allow| == 1 && log.allow[0] + log.n == MAXOPBLOCKS
      invariant InBounds(old(log.s).current, ws) && log.s.current == Apply(old(log.s).current, ws[..k])
      invariant Blocks(log.block[..log.n]) == Numbers(ws[..k])
      invariant log.cache.disk.blocks == old(log.cache.disk.blocks) && log.cache.disk.writes == old(log.cache.disk.writes)
    {
      Room(log.block[..log.n], ws, k, log.g);
      NextNumber(ws, k);
      StepApply(old(log.s).current, ws, k);
      ok := Change(log, ws[k], 0);
      k := k + 1;
    }
    assert ws[..k] == ws;
    hs := log.block[..log.n];
    ok := log.EndOp(0);
  }

  lemma {:induction false} DistinctSize(hs: seq<Word>)
    requires forall i, j :: 0 <= i < j < |hs| ==> hs[i] != hs[j]
    ensures |Blocks(hs)| == |hs|
  {
    if hs == [] {
      assert Blocks(hs) == {};
    } else {
      DistinctSize(hs[1..]);
      assert Blocks(hs) == Blocks(hs[1..]) + {hs[0]};
    }
  }

  /** There is room for the next block, if it is a new one. */
  lemma Room(hs: seq<Word>, ws: seq<Write>, k: nat, g: Geometry)
    requires Targets(g, hs) && k < |ws| && Blocks(hs) == Numbers(ws[..k])
    ensures |hs| <= |Numbers(ws)| && (ws[k].bno in hs || |hs| < |Numbers(ws)|)
  {
    DistinctSize(hs);
    assert Numbers(ws[..k]) <= Numbers(ws) by {
      assert ws[..k] + ws[k..] == ws;
      NumbersAdd(ws[..k], ws[k..]);
    }
    assert ws[k].bno in Numbers(ws);
    SubsetSize(Blocks(hs), Numbers(ws));
    if ws[k].bno !in hs { SubsetSize(Blocks(hs) + {ws[k].bno}, Numbers(ws)); }
  }

  lemma NextNumber(ws: seq<Write>, k: nat)
    requires k < |ws|
    ensures Numbers(ws[..k + 1]) == Numbers(ws[..k]) + {ws[k].bno}
  {
    var w := ws[k];
    assert ws[..k + 1] == ws[..k] + [w];
    NumbersAdd(ws[..k], [w]);
    assert Numbers([w]) == {w.bno} by { assert [w][0].bno == w.bno; }
  }
}
