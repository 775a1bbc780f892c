/** The redo log on disk: what a commit and a recovery write, block by block, and what a crash
    between any two of those writes leaves behind once recovery has run to its end. */
module Recovery {
  import opened Bytes

  const LOGSIZE := 30

  type Disk = seq<Block>

  /** One synchronous single-block disk write: the unit of atomicity. */
  datatype Write = Write(bno: nat, data: Block)

  /** Where the log lies: header block at start, then size - 1 log blocks. */
  datatype Geometry = Geometry(start: nat, size: nat, nblocks: nat)
  {
    ghost predicate Valid() { 0 < size && start + size <= nblocks }

    /** Blocks the log never uses for itself. */
    predicate Home(b: nat) { b < nblocks && !(start <= b < start + size) }
  }

  ghost predicate InBounds(d: Disk, ws: seq<Write>) {
    forall i :: 0 <= i < |ws| ==> ws[i].bno < |d|
  }

  /** The disk after a sequence of writes. */
  ghost function Apply(d: Disk, ws: seq<Write>): (r: Disk)
    requires InBounds(d, ws)
    ensures |r| == |d|
    decreases |ws|
  {
    if ws == [] then d
    else
      var w := ws[|ws| - 1];
      Apply(d, ws[..|ws| - 1])[w.bno := w.data]
  }

  // ---- The header block ----

  /** The block numbers a header block lists. */
  function Listed(h: Block): seq<Word>
    requires GetWord(h, 0) <= LOGSIZE
  {
    seq(GetWord(h, 0), i requires 0 <= i < GetWord(h, 0) => GetWord(h, 1 + i))
  }

  /** Header words 1..k overwritten with the first k block numbers. */
  function PutTargets(h: Block, hs: seq<Word>, k: nat): (r: Block)
    requires k <= |hs| <= LOGSIZE
    ensures forall i: nat :: i < k ==> GetWord(r, 1 + i) == hs[i]
    ensures forall j: nat :: j < WORDS && !(1 <= j <= k) ==> GetWord(r, j) == GetWord(h, j)
  {
    if k == 0 then h else PutWord(PutTargets(h, hs, k - 1), k, hs[k - 1])
  }

  /** write_head's image of a header block: count first, then the block numbers, the rest as it was. */
  function Head(h: Block, hs: seq<Word>): (r: Block)
    requires |hs| <= LOGSIZE
    ensures GetWord(r, 0) == |hs| && Listed(r) == hs
  {
    var r := PutTargets(PutWord(h, 0, |hs|), hs, |hs|);
    assert forall i: nat :: i < |hs| ==> Listed(r)[i] == hs[i];
    r
  }

  // ---- Well-formed logs ----

  /** The block numbers of a transaction: distinct, home blocks, and no more than the log can hold. */
  ghost predicate Targets(g: Geometry, hs: seq<Word>) {
    && |hs| <= LOGSIZE && |hs| < g.size
    && (forall i :: 0 <= i < |hs| ==> g.Home(hs[i]))
    && (forall i, j :: 0 <= i < j < |hs| ==> hs[i] != hs[j])
  }

  ghost predicate Formatted(g: Geometry, d: Disk) {
    && g.Valid() && |d| == g.nblocks
    && GetWord(d[g.start], 0) <= LOGSIZE
    && Targets(g, Listed(d[g.start]))
  }

  /** A formatted disk whose log is empty: the state between transactions. */
  ghost predicate Quiet(g: Geometry, d: Disk) {
    Formatted(g, d) && Listed(d[g.start]) == []
  }

  ghost predicate SameHome(g: Geometry, d: Disk, e: Disk) {
    |d| == |e| == g.nblocks && forall b: nat :: g.Home(b) ==> d[b] == e[b]
  }

  // ---- The writes of commit and of recovery ----

  ghost function LogWrites(g: Geometry, data: seq<Block>): (ws: seq<Write>)
    ensures |ws| == |data|
  {
    seq(|data|, i requires 0 <= i < |data| => Write(g.start + 1 + i, data[i]))
  }

  ghost function InstallWrites(hs: seq<Word>, data: seq<Block>): (ws: seq<Write>)
    requires |hs| == |data|
    ensures |ws| == |hs|
  {
    seq(|hs|, i requires 0 <= i < |hs| => Write(hs[i], data[i]))
  }

  /** The log blocks of the listed transaction. */
  ghost function LogBlocks(g: Geometry, d: Disk): seq<Block>
    requires Formatted(g, d)
  {
    var n := |Listed(d[g.start])|;
    d[g.start + 1..g.start + 1 + n]
  }

  /** Everything commit writes for the transaction (hs, data), in order; h is the header before. */
  ghost function CommitWrites(g: Geometry, h: Block, hs: seq<Word>, data: seq<Block>): seq<Write>
    requires |hs| == |data| <= LOGSIZE
  {
    LogWrites(g, data) + [Write(g.start, Head(h, hs))]
    + InstallWrites(hs, data) + [Write(g.start, Head(Head(h, hs), []))]
  }

  ghost function RecoverWrites(g: Geometry, d: Disk): (ws: seq<Write>)
    requires Formatted(g, d)
    ensures InBounds(d, ws)
  {
    InstallWrites(Listed(d[g.start]), LogBlocks(g, d)) + [Write(g.start, Head(d[g.start], []))]
  }

  /** The disk once recovery has run to its end. */
  ghost function Recovered(g: Geometry, d: Disk): (r: Disk)
    requires Formatted(g, d)
    ensures |r| == |d|
  {
    Apply(d, RecoverWrites(g, d))
  }

  /** The disk after recoveries that were each cut off: the i-th one after ks[i] of its writes. */
  ghost function Interrupted(g: Geometry, d: Disk, ks: seq<nat>): (r: Disk)
    requires Formatted(g, d)
    ensures Formatted(g, r) && SameHome(g, Recovered(g, r), Recovered(g, d))
    ensures Quiet(g, Recovered(g, r))
    decreases |ks|
  {
    RecoveryEnds(g, d);
    if ks == [] then d
    else
      var ws := RecoverWrites(g, d);
      var k := if ks[0] < |ws| then ks[0] else |ws|;
      CutRecovery(g, d, k);
      Interrupted(g, Apply(d, ws[..k]), ks[1..])
  }

  /** The home blocks with the transaction's contents in place. */
  ghost function Updated(d: Disk, hs: seq<Word>, data: seq<Block>): (r: Disk)
    requires |hs| == |data|
    requires forall i :: 0 <= i < |hs| ==> hs[i] < |d|
    ensures |r| == |d|
  {
    Apply(d, InstallWrites(hs, data))
  }

  // ---- Lemmas ----

  lemma {:induction false} ApplySplit(d: Disk, a: seq<Write>, b: seq<Write>)
    requires InBounds(d, a + b)
    ensures InBounds(d, a) && InBounds(d, b)
    ensures Apply(d, a + b) == Apply(Apply(d, a), b)
    decreases |b|
  {
    assert forall i :: 0 <= i < |a| ==> (a + b)[i] == a[i];
    assert forall i :: 0 <= i < |b| ==> (a + b)[|a| + i] == b[i];
    if b == [] {
      assert a + b == a;
    } else {
      var b' := b[..|b| - 1];
      assert (a + b)[..|a + b| - 1] == a + b';
      ApplySplit(d, a, b');
    }
  }

  /** A block no write names keeps its contents. */
  lemma {:induction false} ApplyMiss(d: Disk, ws: seq<Write>, b: nat)
    requires InBounds(d, ws) && b < |d|
    requires forall i :: 0 <= i < |ws| ==> ws[i].bno != b
    ensures Apply(d, ws)[b] == d[b]
    decreases |ws|
  {
    if ws != [] {
      ApplyMiss(d, ws[..|ws| - 1], b);
    }
  }

  /** A block written exactly once holds what was written. */
  lemma {:induction false} ApplyHit(d: Disk, ws: seq<Write>, k: nat)
    requires InBounds(d, ws) && k < |ws|
    requires forall i :: k < i < |ws| ==> ws[i].bno != ws[k].bno
    ensures Apply(d, ws)[ws[k].bno] == ws[k].data
    decreases |ws|
  {
    if k < |ws| - 1 {
      ApplyHit(d, ws[..|ws| - 1], k);
    }
  }

  /** A block of the transaction holds its logged data once the transaction is installed. */
  lemma UpdatedHit(d: Disk, hs: seq<Word>, data: seq<Block>, i: nat)
    requires |hs| == |data| && i < |hs|
    requires forall i :: 0 <= i < |hs| ==> hs[i] < |d|
    requires forall j :: i < j < |hs| ==> hs[j] != hs[i]
    ensures Updated(d, hs, data)[hs[i]] == data[i]
  {
    var ws := InstallWrites(hs, data);
    assert forall j :: i < j < |ws| ==> ws[j].bno == hs[j];
    ApplyHit(d, ws, i);
  }

  /** A block outside the transaction is as it was, however much has been installed. */
  lemma UpdatedMiss(d: Disk, hs: seq<Word>, data: seq<Block>, k: nat, b: nat)
    requires |hs| == |data| && k <= |hs| && b < |d| && b !in hs
    requires forall i :: 0 <= i < |hs| ==> hs[i] < |d|
    ensures InBounds(d, InstallWrites(hs, data)[..k])
    ensures Apply(d, InstallWrites(hs, data)[..k])[b] == d[b]
    ensures Updated(d, hs, data)[b] == d[b]
  {
    var ws := InstallWrites(hs, data);
    assert forall j :: 0 <= j < |ws| ==> ws[j].bno == hs[j];
    hide Apply, InstallWrites;
    ApplyMiss(d, ws[..k], b);
    ApplyMiss(d, ws, b);
  }

  /** Installing a transaction into disks that agree on a block makes them agree on it again. */
  lemma UpdatedAgrees(d: Disk, e: Disk, hs: seq<Word>, data: seq<Block>, b: nat)
    requires |hs| == |data| && |d| == |e| && b < |d|
    requires b in hs || d[b] == e[b]
    requires forall i :: 0 <= i < |hs| ==> hs[i] < |d|
    requires forall i, j :: 0 <= i < j < |hs| ==> hs[i] != hs[j]
    ensures Updated(e, hs, data)[b] == Updated(d, hs, data)[b]
  {
    if b in hs {
      var i :| 0 <= i < |hs| && hs[i] == b;
      UpdatedHit(d, hs, data, i);
      UpdatedHit(e, hs, data, i);
    } else {
      UpdatedMiss(d, hs, data, 0, b);
      UpdatedMiss(e, hs, data, 0, b);
    }
  }

  /** Installing any part of a transaction, and then all of it, is installing all of it. */
  lemma InstallAgain(d: Disk, hs: seq<Word>, data: seq<Block>, k: nat, b: nat)
    requires |hs| == |data| && k <= |hs| && b < |d|
    requires forall i :: 0 <= i < |hs| ==> hs[i] < |d|
    requires forall i, j :: 0 <= i < j < |hs| ==> hs[i] != hs[j]
    requires InBounds(d, InstallWrites(hs, data)[..k])
    ensures Updated(Apply(d, InstallWrites(hs, data)[..k]), hs, data)[b] == Updated(d, hs, data)[b]
  {
    if b !in hs {
      UpdatedMiss(d, hs, data, k, b);
    }
    UpdatedAgrees(d, Apply(d, InstallWrites(hs, data)[..k]), hs, data, b);
  }

  /** Installation touches neither the header nor the log blocks. */
  lemma InstallKeepsLog(g: Geometry, d: Disk, hs: seq<Word>, data: seq<Block>, k: nat, b: nat)
    requires g.Valid() && |d| == g.nblocks && Targets(g, hs) && |hs| == |data| && k <= |hs|
    requires g.start <= b < g.start + g.size
    ensures InBounds(d, InstallWrites(hs, data)[..k])
    ensures Apply(d, InstallWrites(hs, data)[..k])[b] == d[b]
  {
    ApplyMiss(d, InstallWrites(hs, data)[..k], b);
  }

  /** A finished recovery has installed the listed blocks and emptied the log. */
  lemma RecoveryEnds(g: Geometry, d: Disk)
    requires Formatted(g, d)
    ensures Quiet(g, Recovered(g, d))
    ensures SameHome(g, Recovered(g, d), Updated(d, Listed(d[g.start]), LogBlocks(g, d)))
  {
    var hs, data := Listed(d[g.start]), LogBlocks(g, d);
    var ws := InstallWrites(hs, data);
    var w := Write(g.start, Head(d[g.start], []));
    assert ws + [w] == RecoverWrites(g, d);
    ApplySplit(d, ws, [w]);
    assert [w][..0] == [];
    assert Apply(Apply(d, ws), [w]) == Apply(d, ws)[w.bno := w.data];
  }

  /** Part of an installation leaves the log as it was. */
  lemma LogKept(g: Geometry, d: Disk, k: nat)
    requires Formatted(g, d) && k <= |Listed(d[g.start])|
    ensures var e := InstallWrites(Listed(d[g.start]), LogBlocks(g, d))[..k];
            && InBounds(d, e) && Formatted(g, Apply(d, e))
            && Listed(Apply(d, e)[g.start]) == Listed(d[g.start]) && LogBlocks(g, Apply(d, e)) == LogBlocks(g, d)
  {
    hide GetWord;
    var hs, data := Listed(d[g.start]), LogBlocks(g, d);
    var e := Apply(d, InstallWrites(hs, data)[..k]);
    hide Apply;
    forall b | g.start <= b < g.start + g.size
      ensures e[b] == d[b]
    {
      InstallKeepsLog(g, d, hs, data, k, b);
    }
    assert LogBlocks(g, e) == data;
  }

  lemma CutInstall(g: Geometry, d: Disk, k: nat)
    requires Formatted(g, d) && k <= |Listed(d[g.start])|
    ensures var ws := InstallWrites(Listed(d[g.start]), LogBlocks(g, d))[..k];
            && InBounds(d, ws) && Formatted(g, Apply(d, ws))
            && SameHome(g, Recovered(g, Apply(d, ws)), Recovered(g, d))
  {
    hide GetWord, Head, Apply, Recovered, Updated, InstallWrites;
    var hs, data := Listed(d[g.start]), LogBlocks(g, d);
    LogKept(g, d, k);
    var e := Apply(d, InstallWrites(hs, data)[..k]);
    RecoveryEnds(g, d);
    RecoveryEnds(g, e);
    forall b: nat | g.Home(b)
      ensures Updated(e, hs, data)[b] == Updated(d, hs, data)[b]
    {
      InstallAgain(d, hs, data, k, b);
    }
  }

  /** Once it is finished, recovering again changes no home block. */
  lemma CutEnd(g: Geometry, d: Disk)
    requires Formatted(g, d)
    ensures Quiet(g, Recovered(g, d)) && SameHome(g, Recovered(g, Recovered(g, d)), Recovered(g, d))
  {
    hide GetWord, Head, Recovered;
    RecoveryEnds(g, d);
    var e := Recovered(g, d);
    RecoveryEnds(g, e);
    assert InstallWrites([], LogBlocks(g, e)) == [];
  }

  /** A recovery cut off after any write leaves a disk from which recovery still reaches the same end. */
  lemma CutRecovery(g: Geometry, d: Disk, k: nat)
    requires Formatted(g, d) && k <= |RecoverWrites(g, d)|
    ensures InBounds(d, RecoverWrites(g, d)[..k])
    ensures Formatted(g, Apply(d, RecoverWrites(g, d)[..k]))
    ensures SameHome(g, Recovered(g, Apply(d, RecoverWrites(g, d)[..k])), Recovered(g, d))
  {
    hide GetWord, Head, Apply;
    var ws := InstallWrites(Listed(d[g.start]), LogBlocks(g, d));
    if k <= |ws| {
      assert RecoverWrites(g, d)[..k] == ws[..k];
      CutInstall(g, d, k);
    } else {
      assert RecoverWrites(g, d)[..k] == RecoverWrites(g, d);
      CutEnd(g, d);
    }
  }

  /** What the disk looks like k writes into a commit, and what recovery then makes of it. */
  lemma CutCommit(g: Geometry, d: Disk, hs: seq<Word>, data: seq<Block>, k: nat)
    requires Quiet(g, d) && Targets(g, hs) && |hs| == |data|
    requires k <= |CommitWrites(g, d[g.start], hs, data)|
    ensures var ws := CommitWrites(g, d[g.start], hs, data)[..k];
            && InBounds(d, ws)
            && Formatted(g, Apply(d, ws))
            && SameHome(g, Recovered(g, Apply(d, ws)), if k <= |hs| then d else Updated(d, hs, data))
  {
    hide GetWord, Head, Apply, LogWrites, InstallWrites, RecoverWrites, Updated;
    var n := |hs|;
    var lw, iw := LogWrites(g, data), InstallWrites(hs, data);
    var hw, done := Write(g.start, Head(d[g.start], hs)), Write(g.start, Head(Head(d[g.start], hs), []));
    if k <= n {
      FirstPart(lw, [hw] + iw + [done], k);
      assert CommitWrites(g, d[g.start], hs, data) == lw + ([hw] + iw + [done]);
      BeforeHead(g, d, data, k);
    } else {
      AfterHead(g, d, hs, data);
      var mid := Apply(d, lw + [hw]);
      assert CommitWrites(g, d[g.start], hs, data) == (lw + [hw]) + (iw + [done]);
      SecondPart(lw + [hw], iw + [done], k);
      CutRecovery(g, mid, k - n - 1);
      InBoundsBoth(d, lw + [hw], (iw + [done])[..k - n - 1]);
      ApplySplit(d, lw + [hw], (iw + [done])[..k - n - 1]);
    }
  }

  lemma FirstPart(a: seq<Write>, b: seq<Write>, k: nat)
    requires k <= |a|
    ensures (a + b)[..k] == a[..k]
  {
  }

  lemma SecondPart(a: seq<Write>, b: seq<Write>, k: nat)
    requires |a| <= k <= |a| + |b|
    ensures (a + b)[..k] == a + b[..k - |a|]
  {
  }

  lemma InBoundsBoth(d: Disk, a: seq<Write>, b: seq<Write>)
    requires InBounds(d, a) && InBounds(d, b)
    ensures InBounds(d, a + b)
  {
  }

  /** While the log blocks are being filled, recovery still sees an empty log. */
  lemma BeforeHead(g: Geometry, d: Disk, data: seq<Block>, k: nat)
    requires Quiet(g, d) && k <= |data| < g.size
    ensures var ws := LogWrites(g, data)[..k];
            InBounds(d, ws) && Formatted(g, Apply(d, ws)) && SameHome(g, Recovered(g, Apply(d, ws)), d)
  {
    var ws := LogWrites(g, data)[..k];
    var e := Apply(d, ws);
    forall b: nat | g.Home(b) || b == g.start
      ensures e[b] == d[b]
    {
      ApplyMiss(d, ws, b);
    }
    RecoveryEnds(g, e);
    assert InstallWrites([], []) == [];
  }

  /** The disk once the log blocks and the header are written: the home blocks are still old. */
  lemma HeadWritten(g: Geometry, d: Disk, hs: seq<Word>, data: seq<Block>)
    requires Quiet(g, d) && Targets(g, hs) && |hs| == |data|
    ensures var ws := LogWrites(g, data) + [Write(g.start, Head(d[g.start], hs))];
            && InBounds(d, ws)
            && Apply(d, ws)[g.start] == Head(d[g.start], hs)
            && Apply(d, ws)[g.start + 1..g.start + 1 + |data|] == data
            && SameHome(g, Apply(d, ws), d)
  {
    hide GetWord; hide Head; hide PutTargets;
    var lw := LogWrites(g, data);
    var ws := lw + [Write(g.start, Head(d[g.start], hs))];
    var e := Apply(d, ws);
    forall b: nat | g.Home(b)
      ensures e[b] == d[b]
    {
      ApplyMiss(d, ws, b);
    }
    ApplyHit(d, ws, |lw|);
    forall i | 0 <= i < |data|
      ensures e[g.start + 1 + i] == data[i]
    {
      assert ws[i] == Write(g.start + 1 + i, data[i]);
      ApplyHit(d, ws, i);
    }
  }

  lemma HeadListed(g: Geometry, d: Disk, hs: seq<Word>, data: seq<Block>)
    requires Quiet(g, d) && Targets(g, hs) && |hs| == |data|
    ensures var ws := LogWrites(g, data) + [Write(g.start, Head(d[g.start], hs))];
            && InBounds(d, ws) && Formatted(g, Apply(d, ws)) && SameHome(g, Apply(d, ws), d)
            && Apply(d, ws)[g.start] == Head(d[g.start], hs)
            && Listed(Apply(d, ws)[g.start]) == hs && LogBlocks(g, Apply(d, ws)) == data
  {
    hide GetWord, Head, Apply, LogWrites;
    HeadWritten(g, d, hs, data);
  }

  /** Once the header is written, recovery would perform exactly the rest of the commit. */
  lemma AfterHead(g: Geometry, d: Disk, hs: seq<Word>, data: seq<Block>)
    requires Quiet(g, d) && Targets(g, hs) && |hs| == |data|
    ensures var ws := LogWrites(g, data) + [Write(g.start, Head(d[g.start], hs))];
            && InBounds(d, ws)
            && Formatted(g, Apply(d, ws))
            && RecoverWrites(g, Apply(d, ws))
               == InstallWrites(hs, data) + [Write(g.start, Head(Head(d[g.start], hs), []))]
            && SameHome(g, Recovered(g, Apply(d, ws)), Updated(d, hs, data))
  {
    HeadListed(g, d, hs, data);
    hide GetWord, Head, Apply, LogWrites, Updated, Recovered, InstallWrites, Formatted, LogBlocks;
    var e := Apply(d, LogWrites(g, data) + [Write(g.start, Head(d[g.start], hs))]);
    RecoveryEnds(g, e);
    forall b: nat | g.Home(b)
      ensures Updated(e, hs, data)[b] == Updated(d, hs, data)[b]
    {
      UpdatedAgrees(d, e, hs, data, b);
    }
  }

  /** The updated home blocks, block by block: logged blocks hold the logged data, all others are old. */
  lemma UpdatedMeans(d: Disk, hs: seq<Word>, data: seq<Block>)
    requires |hs| == |data|
    requires forall i :: 0 <= i < |hs| ==> hs[i] < |d|
    requires forall i, j :: 0 <= i < j < |hs| ==> hs[i] != hs[j]
    ensures forall i :: 0 <= i < |hs| ==> Updated(d, hs, data)[hs[i]] == data[i]
    ensures forall b: nat :: b < |d| && b !in hs ==> Updated(d, hs, data)[b] == d[b]
  {
    forall i | 0 <= i < |hs|
      ensures Updated(d, hs, data)[hs[i]] == data[i]
    {
      UpdatedHit(d, hs, data, i);
    }
    forall b: nat | b < |d| && b !in hs
      ensures Updated(d, hs, data)[b] == d[b]
    {
      UpdatedMiss(d, hs, data, 0, b);
    }
  }

  /** Crash atomicity.  Stop a commit after any number k of its disk writes, then let any number of
      recoveries be cut off at any points, then let one recovery finish: the log is empty, and the
      home blocks are all as before the transaction if the header write had not happened, and all
      updated if it had. */
  lemma CrashAtomicity(g: Geometry, d: Disk, hs: seq<Word>, data: seq<Block>, k: nat, ks: seq<nat>)
    requires Quiet(g, d) && Targets(g, hs) && |hs| == |data|
    requires k <= |CommitWrites(g, d[g.start], hs, data)|
    ensures var ws := CommitWrites(g, d[g.start], hs, data)[..k];
            && InBounds(d, ws)
            && Formatted(g, Apply(d, ws))
            && (var end := Recovered(g, Interrupted(g, Apply(d, ws), ks));
                && Quiet(g, end)
                && (k <= |hs| ==> forall b: nat :: g.Home(b) ==> end[b] == d[b])
                && (k > |hs| ==>
                      && (forall i :: 0 <= i < |hs| ==> end[hs[i]] == data[i])
                      && (forall b: nat :: g.Home(b) && b !in hs ==> end[b] == d[b])))
  {
    CutCommit(g, d, hs, data, k);
    UpdatedMeans(d, hs, data);
  }
}
