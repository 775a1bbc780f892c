/** The log_writes of a transaction, in order, and what they make of the blocks. */
module Journal {
  import opened Bytes
  import opened Recovery

  /** The blocks written. */
  ghost function Numbers(ws: seq<Write>): set<nat> { set k | 0 <= k < |ws| :: ws[k].bno }

  /** From blocks b0 and journal j0 on, all that changed is what the journal now adds. */
  ghost predicate Logs(b0: seq<Block>, j0: seq<Write>, b: seq<Block>, j: seq<Write>) {
    && j0 <= j && |b| == |b0| && InBounds(b0, j[|j0|..]) && b == Apply(b0, j[|j0|..])
  }

  lemma LogsNone(b: seq<Block>, j: seq<Write>)
    ensures Logs(b, j, b, j)
  {
    assert j[|j|..] == [];
  }

  lemma LogsOne(b: seq<Block>, j: seq<Write>, c: nat, data: Block)
    requires c < |b|
    ensures Logs(b, j, b[c := data], j + [Write(c, data)])
    ensures Numbers(j + [Write(c, data)]) == Numbers(j) + {c}
  {
    var w := Write(c, data);
    assert (j + [w])[|j|..] == [w] && [w][..0] == [];
    assert Apply(b, [w]) == Apply(b, [])[c := data];
    NumbersAdd(j, [w]);
    assert Numbers([w]) == {c} by { assert [w][0].bno == c; }
  }

  lemma NumbersAdd(a: seq<Write>, b: seq<Write>)
    ensures Numbers(a + b) == Numbers(a) + Numbers(b)
  {
    forall c | c in Numbers(a) + Numbers(b)
      ensures c in Numbers(a + b)
    {
      if c in Numbers(a) {
        var k :| 0 <= k < |a| && a[k].bno == c;
        assert (a + b)[k].bno == c;
      } else {
        var k :| 0 <= k < |b| && b[k].bno == c;
        assert (a + b)[|a| + k].bno == c;
      }
    }
  }

  lemma LogsTrans(b0: seq<Block>, j0: seq<Write>, b1: seq<Block>, j1: seq<Write>, b2: seq<Block>, j2: seq<Write>)
    requires Logs(b0, j0, b1, j1) && Logs(b1, j1, b2, j2)
    ensures Logs(b0, j0, b2, j2)
  {
    var x, y := j1[|j0|..], j2[|j1|..];
    assert j2[|j0|..] == x + y;
    assert InBounds(b0, x + y);
    ApplySplit(b0, x, y);
  }

  /** Blocks that the journal does not name are as they were. */
  lemma {:induction false} Unnamed(b0: seq<Block>, ws: seq<Write>, c: nat)
    requires InBounds(b0, ws) && c < |b0| && c !in Numbers(ws)
    ensures Apply(b0, ws)[c] == b0[c]
    decreases |ws|
  {
    if ws != [] {
      var front := ws[..|ws| - 1];
      assert front + [ws[|ws| - 1]] == ws;
      NumbersAdd(front, [ws[|ws| - 1]]);
      assert ws[|ws| - 1].bno in Numbers(ws);
      Unnamed(b0, front, c);
    }
  }
}
