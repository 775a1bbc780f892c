/** What the log's contracts add up to: a stop anywhere in a commit, and when log_write's guard can
    refuse an operation that keeps within its allowance (kernel/log.c). */
module LogRuns {
  import opened Bytes
  import opened Recovery
  import opened BufferCache
  import opened CacheView
  import opened Common
  import opened Logging

  // ---- A stop anywhere in end_op ----

  /** The machine stops with some of end_op's writes done, goes through any number of recoveries that
      are themselves cut off, and one that finishes: the home blocks are all as they were before the
      transaction, or all as callers saw them when it ended. */
  lemma StoppedCommit(g: Geometry, d: Disk, s: Store, bufs: seq<Buf>, dev: nat, hs: seq<Word>,
                      before: seq<Write>, after: seq<Write>, ks: seq<nat>)
    requires Quiet(g, d) && Targets(g, hs) && Agree(s, bufs, d, dev) && s.dirty == {} && s.pins == Blocks(hs)
    requires Progress(before, after, CommitWrites(g, d[g.start], hs, Contents(s.current, hs)))
    ensures InBounds(d, after[|before|..]) && Formatted(g, Apply(d, after[|before|..]))
    ensures var end := Recovered(g, Interrupted(g, Apply(d, after[|before|..]), ks));
            Quiet(g, end) && (SameHome(g, end, d) || SameHome(g, end, s.current))
  {
    hide CommitWrites, Apply, Recovered, Interrupted, Head, Listed;
    var data := Contents(s.current, hs);
    var ws := after[|before|..];
    assert ws == CommitWrites(g, d[g.start], hs, data)[..|ws|];
    CrashAtomicity(g, d, hs, data, |ws|, ks);
    var end := Recovered(g, Interrupted(g, Apply(d, ws), ks));
    hide Agree;
    if |ws| <= |hs| {
      assert SameHome(g, end, d);
    } else {
      forall b: nat | g.Home(b)
        ensures end[b] == s.current[b]
      {
        if b in hs {
          var i :| 0 <= i < |hs| && hs[i] == b;
          assert end[hs[i]] == data[i];
        } else {
          Synced(s, bufs, d, dev, b);
        }
      }
    }
  }

  // ---- When the guard of log_write can fire ----

  /** What begin_op, log_write and end_op do to the logged blocks and the allowances. */
  datatype Act = Begin | LogWrite(op: nat, b: nat) | End(op: nat)
  datatype Ops = Ops(blocks: seq<nat>, allow: seq<nat>)

  /** log_write's test, made before it looks for the block in the log. */
  predicate Guard(size: nat, n: nat) { n < LOGSIZE && n < size - 1 }

  /** The most blocks that the test lets in. */
  function Cap(size: nat): nat { if size == 0 then 0 else if size <= LOGSIZE then size - 1 else LOGSIZE }

  /** An operation that keeps within its allowance: only a block not yet in the log uses it up. */
  predicate Within(s: Ops, op: nat, b: nat) { op < |s.allow| && (b in s.blocks || s.allow[op] > 0) }

  function Next(size: nat, s: Ops, a: Act): Option<Ops> {
    match a
    case Begin =>
      if |s.blocks| + (|s.allow| + 1) * MAXOPBLOCKS <= LOGSIZE
      then Some(s.(allow := s.allow + [MAXOPBLOCKS])) else None
    case LogWrite(op, b) =>
      if !Within(s, op, b) || !Guard(size, |s.blocks|) then None
      else if b in s.blocks then Some(s)
      else var rest: nat := s.allow[op] - 1; Some(Ops(s.blocks + [b], s.allow[op := rest]))
    case End(op) =>
      if op < |s.allow| then
        var left := s.allow[..op] + s.allow[op + 1..];
        Some(Ops(if left == [] then [] else s.blocks, left))
      else None
  }

  function Run(size: nat, s: Ops, acts: seq<Act>): Option<Ops>
    decreases |acts|
  {
    if acts == [] then Some(s) else
    var s' := Next(size, s, acts[0]);
    if s'.None? then None else Run(size, s'.value, acts[1..])
  }

  ghost predicate Bounded(size: nat, s: Ops) {
    Reserved(|s.blocks|, s.allow, |s.allow|) && |s.blocks| <= Cap(size) && (s.allow == [] ==> s.blocks == [])
  }

  lemma BoundedStep(size: nat, s: Ops, a: Act)
    requires Bounded(size, s) && Next(size, s, a).Some?
    ensures Bounded(size, Next(size, s, a).value)
  {
    match a
    case Begin =>
      BoundedSum(s.allow);
      SumAppend(s.allow, MAXOPBLOCKS);
    case LogWrite(op, b) => if b !in s.blocks { SumUpdate(s.allow, op, s.allow[op] - 1); }
    case End(op) => SumRemove(s.allow, op);
  }

  lemma {:induction false} BoundedRun(size: nat, s: Ops, acts: seq<Act>)
    requires Bounded(size, s) && Run(size, s, acts).Some?
    ensures Bounded(size, Run(size, s, acts).value)
    decreases |acts|
  {
    if acts != [] {
      hide Bounded;
      BoundedStep(size, s, acts[0]);
      BoundedRun(size, Next(size, s, acts[0]).value, acts[1..]);
    }
  }

  /** In every run, the logged blocks and the allowances not yet used up fit in the log, and when no
      operation is under way the log is empty. */
  lemma ReservedRun(size: nat, acts: seq<Act>)
    requires Run(size, Ops([], []), acts).Some?
    ensures var t := Run(size, Ops([], []), acts).value;
            |t.blocks| + Sum(t.allow) <= LOGSIZE && (t.allow == [] ==> t.blocks == [])
  {
    BoundedRun(size, Ops([], []), acts);
  }

  /** In every run, log_write refuses exactly when the log holds as many blocks as its test lets in,
      whether or not the block is already there. */
  lemma RefusedExact(size: nat, acts: seq<Act>, op: nat, b: nat)
    requires Run(size, Ops([], []), acts).Some? && Within(Run(size, Ops([], []), acts).value, op, b)
    ensures var t := Run(size, Ops([], []), acts).value;
            Next(size, t, LogWrite(op, b)).None? <==> |t.blocks| == Cap(size)
  {
    BoundedRun(size, Ops([], []), acts);
  }

  lemma {:induction false} SumAtLeast(xs: seq<nat>, k: nat)
    requires k < |xs|
    ensures xs[k] <= Sum(xs)
  {
    if k > 0 { SumAtLeast(xs[1..], k - 1); }
  }

  /** Three operations begin, and together log k blocks: each its ten before the next. */
  function Fill(k: nat): seq<Act> {
    if k == 0 then [Begin, Begin, Begin] else Fill(k - 1) + [LogWrite((k - 1) / MAXOPBLOCKS, k - 1)]
  }

  function Left(k: nat, i: nat): nat {
    if k <= i * MAXOPBLOCKS then MAXOPBLOCKS else if k >= (i + 1) * MAXOPBLOCKS then 0 else (i + 1) * MAXOPBLOCKS - k
  }

  function Filled(k: nat): Ops { Ops(seq(k, i => i), [Left(k, 0), Left(k, 1), Left(k, 2)]) }

  lemma {:induction false} RunAppend(size: nat, s: Ops, acts: seq<Act>, a: Act)
    requires Run(size, s, acts).Some?
    ensures Run(size, s, acts + [a]) == Next(size, Run(size, s, acts).value, a)
    decreases |acts|
  {
    if acts == [] {
      assert acts + [a] == [a];
      var s' := Next(size, s, a);
      assert s'.Some? ==> Run(size, s'.value, [a][1..]) == s';
    } else {
      assert (acts + [a])[1..] == acts[1..] + [a];
      RunAppend(size, Next(size, s, acts[0]).value, acts[1..], a);
    }
  }

  lemma Opened(size: nat)
    ensures Run(size, Ops([], []), [Begin, Begin, Begin]) == Some(Filled(0))
  {
    var a, b, c := Ops([], [10]), Ops([], [10, 10]), Ops([], [10, 10, 10]);
    assert [] + [10] == [10] && [10] + [10] == [10, 10] && [10, 10] + [10] == [10, 10, 10];
    assert Next(size, Ops([], []), Begin) == Some(a);
    assert Next(size, a, Begin) == Some(b) && Next(size, b, Begin) == Some(c);
    assert [Begin, Begin, Begin][1..] == [Begin, Begin] && [Begin, Begin][1..] == [Begin];
    assert [Begin][1..] == [];
    assert Run(size, c, []) == Some(c) && Run(size, b, [Begin]) == Some(c);
    assert Run(size, a, [Begin, Begin]) == Some(c);
    assert Filled(0) == c;
  }

  lemma FillStep(size: nat, k: nat)
    requires 0 < k <= Cap(size)
    ensures Next(size, Filled(k - 1), LogWrite((k - 1) / MAXOPBLOCKS, k - 1)) == Some(Filled(k))
  {
    var was := [Left(k - 1, 0), Left(k - 1, 1), Left(k - 1, 2)];
    var op := (k - 1) / MAXOPBLOCKS;
    var rest: nat := was[op] - 1;
    assert was[op := rest] == [Left(k, 0), Left(k, 1), Left(k, 2)];
    assert Filled(k - 1).blocks + [k - 1] == Filled(k).blocks;
  }

  /** A run that fills the log as far as the test lets it. */
  lemma {:induction false} FillRuns(size: nat, k: nat)
    requires k <= Cap(size)
    ensures Run(size, Ops([], []), Fill(k)) == Some(Filled(k))
  {
    hide Next, Filled;
    if k == 0 {
      Opened(size);
    } else {
      FillRuns(size, k - 1);
      RunAppend(size, Ops([], []), Fill(k - 1), LogWrite((k - 1) / MAXOPBLOCKS, k - 1));
      FillStep(size, k);
    }
  }

  /** The state that a run leads to lets the op-th operation write block b. */
  ghost predicate Accepts(size: nat, acts: seq<Act>, op: nat, b: nat) {
    var t := Run(size, Ops([], []), acts);
    t.Some? ==> Next(size, t.value, LogWrite(op, b)).Some?
  }

  /** An operation with some of its allowance left. */
  ghost predicate HasRoom(size: nat, acts: seq<Act>, op: nat) {
    var t := Run(size, Ops([], []), acts);
    t.Some? && op < |t.value.allow| && t.value.allow[op] > 0
  }

  /** An operation that writes a block which is in the log already. */
  ghost predicate Absorbs(size: nat, acts: seq<Act>, op: nat, b: nat) {
    var t := Run(size, Ops([], []), acts);
    t.Some? && op < |t.value.allow| && b in t.value.blocks
  }

  lemma RoomAccepted(size: nat, acts: seq<Act>, op: nat, b: nat)
    requires size > LOGSIZE && HasRoom(size, acts, op)
    ensures Accepts(size, acts, op, b)
  {
    BoundedRun(size, Ops([], []), acts);
    SumAtLeast(Run(size, Ops([], []), acts).value.allow, op);
  }

  /** log_write never refuses an operation that has some of its allowance left, in any run, exactly when
      the log region has more than LOGSIZE blocks.  mkfs makes it LOGSIZE, so there it can. */
  lemma RoomExact(size: nat)
    ensures (forall acts, op: nat, b: nat :: HasRoom(size, acts, op) ==> Accepts(size, acts, op, b))
            <==> size > LOGSIZE
  {
    if size > LOGSIZE {
      forall acts, op: nat, b: nat | HasRoom(size, acts, op)
        ensures Accepts(size, acts, op, b)
      {
        RoomAccepted(size, acts, op, b);
      }
    } else {
      var k := Cap(size);
      FillRuns(size, k);
      assert HasRoom(size, Fill(k), k / MAXOPBLOCKS) && !Accepts(size, Fill(k), k / MAXOPBLOCKS, k);
    }
  }

  lemma NothingLogged(size: nat, acts: seq<Act>, op: nat, b: nat)
    requires size < 2
    ensures !Absorbs(size, acts, op, b)
  {
    if Run(size, Ops([], []), acts).Some? { BoundedRun(size, Ops([], []), acts); }
  }

  /** It never refuses a block that is already logged, in any run, exactly when the region is too small
      to log anything at all: the test comes before the search. */
  lemma AbsorbExact(size: nat)
    ensures (forall acts, op: nat, b: nat :: Absorbs(size, acts, op, b) ==> Accepts(size, acts, op, b))
            <==> size < 2
  {
    if size < 2 {
      forall acts, op: nat, b: nat
        ensures !Absorbs(size, acts, op, b)
      {
        NothingLogged(size, acts, op, b);
      }
    } else {
      var k := Cap(size);
      FillRuns(size, k);
      assert Filled(k).blocks[0] == 0;
      assert Absorbs(size, Fill(k), 0, 0) && !Accepts(size, Fill(k), 0, 0);
    }
  }
}
