/** The scheduling policies that scan for a minimum, on several CPUs at once (kernel/proc.c).  A process
    is locked while it is looked at, and the best one so far stays locked. */
module Sched {
  import opened Common

  /** p->state, as far as scheduling cares. */
  datatype Status = Runnable | Running | Other

  datatype Proc = Proc(state: Status, readyTime: int, burst: int, rutime: nat, stime: nat, priority: nat)

  datatype Policy = FCFS | SRT | CFSD

  function Up(p: Proc): nat { p.rutime * p.priority }
  function Down(p: Proc): nat { p.rutime + p.stime }

  /** The scan's comparison. */
  predicate Less(pol: Policy, p: Proc, q: Proc) {
    match pol
    case FCFS => p.readyTime < q.readyTime
    case SRT => p.burst < q.burst
    case CFSD => Up(p) * Down(q) < Up(q) * Down(p)
  }

  // ---- What it compares ----

  /** Under CFSD a process that has neither run nor slept has no ratio. */
  predicate Valued(pol: Policy, p: Proc) { pol.CFSD? ==> p.rutime + p.stime > 0 }

  /** The policy's measure of a process; for CFSD the exact ratio. */
  function Key(pol: Policy, p: Proc): real
    requires Valued(pol, p)
  {
    match pol
    case FCFS => p.readyTime as real
    case SRT => p.burst as real
    case CFSD => (p.rutime * p.priority) as real / (p.rutime + p.stime) as real
  }

  lemma CrossMultiply(a: nat, b: nat, c: nat, d: nat)
    requires b > 0 && d > 0
    ensures a * d < c * b <==> a as real / b as real < c as real / d as real
  {
    var x, y := a as real / b as real, c as real / d as real;
    var br, dr := b as real, d as real;
    assert x * br == a as real && y * dr == c as real;
    assert (a * d) as real == x * br * dr && (c * b) as real == y * dr * br;
    assert br * dr > 0.0;
    assert x * br * dr == x * (br * dr) && y * dr * br == y * (br * dr);
    if x < y { Scale(x, y, br * dr); }
    if y < x { Scale(y, x, br * dr); }
  }

  lemma Scale(x: real, y: real, z: real)
    requires x < y && z > 0.0
    ensures x * z < y * z
  {
  }

  lemma LessIsKey(pol: Policy, p: Proc, q: Proc)
    requires Valued(pol, p) && Valued(pol, q)
    ensures Less(pol, p, q) <==> Key(pol, p) < Key(pol, q)
  {
    if pol.CFSD? { CrossMultiply(Up(p), Down(p), Up(q), Down(q)); }
  }

  // ---- One scan ----

  /** The scan's choice after looking at the processes of obs in order. */
  function Pick(pol: Policy, obs: seq<Proc>): (r: Option<nat>)
    ensures r.Some? ==> r.value < |obs| && obs[r.value].state.Runnable?
    ensures r.None? ==> forall j :: 0 <= j < |obs| ==> !obs[j].state.Runnable?
  {
    if obs == [] then None else
    var n := |obs| - 1;
    var best := Pick(pol, obs[..n]);
    if obs[n].state.Runnable? && (best.None? || Less(pol, obs[n], obs[best.value])) then Some(n) else best
  }

  /** m is the first among the runnable processes with the least key. */
  ghost predicate Best(pol: Policy, obs: seq<Proc>, m: nat)
    requires forall j :: 0 <= j < |obs| && obs[j].state.Runnable? ==> Valued(pol, obs[j])
  {
    && m < |obs| && obs[m].state.Runnable?
    && (forall j :: 0 <= j < |obs| && obs[j].state.Runnable? ==> Key(pol, obs[m]) <= Key(pol, obs[j]))
    && (forall j :: 0 <= j < m && obs[j].state.Runnable? ==> Key(pol, obs[m]) < Key(pol, obs[j]))
  }

  lemma {:induction false} PickBest(pol: Policy, obs: seq<Proc>)
    requires Pick(pol, obs).Some? && forall j :: 0 <= j < |obs| && obs[j].state.Runnable? ==> Valued(pol, obs[j])
    ensures Best(pol, obs, Pick(pol, obs).value)
  {
    hide Less, Key, Valued;
    var n := |obs| - 1;
    var front := obs[..n];
    var was := Pick(pol, front);
    if was.Some? {
      PickBest(pol, front);
      if obs[n].state.Runnable? { LessIsKey(pol, obs[n], obs[was.value]); }
    }
  }

  /** A process without a ratio beats none and is beaten by none. */
  lemma NoRatio(p: Proc, q: Proc)
    requires Down(p) == 0 || Down(q) == 0
    ensures !Less(CFSD, p, q)
  {
    assert Down(p) == 0 ==> Up(p) == 0;
    assert Down(q) == 0 ==> Up(q) == 0;
  }

  lemma {:induction false} PickHidden(obs: seq<Proc>)
    ensures Pick(CFSD, obs).Some? <==> First(obs).Some?
    ensures First(obs).Some? ==> First(obs).value < |obs|
    ensures First(obs).Some? && Down(obs[First(obs).value]) == 0 ==> Pick(CFSD, obs) == First(obs)
    ensures First(obs).Some? && Down(obs[First(obs).value]) > 0 ==> Pick(CFSD, obs) == Pick(CFSD, Hidden(obs))
    ensures First(obs).None? ==> Pick(CFSD, Hidden(obs)).None?
  {
    hide Less, Down;
    if obs != [] {
      var n := |obs| - 1;
      var front := obs[..n];
      PickHidden(front);
      assert Hidden(obs)[..n] == Hidden(front);
      var was := Pick(CFSD, front);
      if was.Some? {
        if Down(obs[n]) == 0 || Down(obs[was.value]) == 0 { NoRatio(obs[n], obs[was.value]); }
        SameCompare(obs[n], obs[was.value], Runnable, Runnable);
      }
    }
  }

  /** Whether a process is runnable does not enter the comparison. */
  lemma SameCompare(p: Proc, q: Proc, x: Status, y: Status)
    ensures Less(CFSD, p.(state := x), q.(state := y)) == Less(CFSD, p, q)
  {
  }

  /** Under CFSD a process without a ratio is chosen exactly when it is the first runnable one; otherwise
      the choice is the best among those that have one. */
  lemma PickUnvalued(obs: seq<Proc>)
    requires Pick(CFSD, obs).Some?
    ensures var m := Pick(CFSD, obs).value; var first := First(obs);
            && first.Some? && first.value < |obs|
            && (Down(obs[m]) == 0 <==> Down(obs[first.value]) == 0)
            && (Down(obs[m]) == 0 ==> m == first.value)
            && (Down(obs[m]) > 0 ==> Best(CFSD, Hidden(obs), m))
  {
    PickHidden(obs);
    hide Less;
    if Down(obs[First(obs).value]) > 0 { PickBest(CFSD, Hidden(obs)); }
  }

  /** So CFSD can miss the least ratio: a process that has neither run nor slept stands first in the
      table and keeps the CPU from one whose ratio is 0. */
  lemma LeastMissed()
    ensures var newborn, slept := Proc(Runnable, 0, 0, 0, 0, 1), Proc(Runnable, 0, 0, 0, 1, 1);
            && Down(newborn) == 0 && Key(CFSD, slept) == 0.0
            && Pick(CFSD, [newborn, slept]) == Some(0) && Best(CFSD, Hidden([newborn, slept]), 1)
  {
    var newborn, slept := Proc(Runnable, 0, 0, 0, 0, 1), Proc(Runnable, 0, 0, 0, 1, 1);
    assert [newborn, slept][..1] == [newborn] && [newborn][..0] == [];
    assert Pick(CFSD, [newborn]) == Some(0);
  }

  /** The first runnable process. */
  function First(obs: seq<Proc>): Option<nat> {
    if obs == [] then None else
    var f := First(obs[..|obs| - 1]);
    if f.Some? then f else if obs[|obs| - 1].state.Runnable? then Some(|obs| - 1) else None
  }

  /** The table with the processes that have no ratio taken as not runnable. */
  function Hidden(obs: seq<Proc>): (r: seq<Proc>)
    ensures |r| == |obs|
    ensures forall j :: 0 <= j < |obs| ==> r[j] == obs[j].(state := if Down(obs[j]) > 0 then obs[j].state else Other)
  {
    seq(|obs|, j requires 0 <= j < |obs| => obs[j].(state := if Down(obs[j]) > 0 then obs[j].state else Other))
  }

  // ---- Several CPUs ----

  /** Where a CPU is.  In the scan min is the best process so far, which stays locked. */
  datatype Cpu =
    | Idle
    | Want(i: nat, min: Option<nat>)   // about to lock process i
    | Look(i: nat, min: Option<nat>)   // looking at it
    | Picked(m: nat)                   // done with a choice
    | Runs(m: nat)                     // running the process
    | Stops(m: nat)                    // the process is about to take its lock, to yield, sleep or exit
    | Leaves(m: nat)                   // the process has its lock and is about to switch back

  /** obs[c]: the processes as CPU c saw them in its current scan. */
  datatype State = State(pol: Policy, procs: seq<Proc>, lock: seq<Option<nat>>, cpus: seq<Cpu>, obs: seq<seq<Proc>>)

  /** A CPU's next step, in which a process that leaves the CPU becomes p; or other kernel code, under its
      lock, changes process i. */
  datatype Act = Cpu1(c: nat, p: Proc) | Touch(i: nat, p: Proc)

  predicate Sized(s: State) { |s.lock| == |s.procs| && |s.obs| == |s.cpus| }

  function Set(s: State, c: nat, to: Cpu): State
    requires c < |s.cpus|
  {
    s.(cpus := s.cpus[c := to])
  }

  /** A release is of a lock this CPU holds. */
  function Release(s: State, i: nat): State {
    if i < |s.lock| then s.(lock := s.lock[i := None]) else s
  }

  function CpuStep(s: State, c: nat, left: Proc): Option<State>
    requires Sized(s) && c < |s.cpus|
  {
    match s.cpus[c]
    case Idle => Some(Set(s, c, Want(0, None)).(obs := s.obs[c := []]))
    case Want(i, min) =>
      if i < |s.procs| then
        if s.lock[i].Some? then None
        else Some(Set(s, c, Look(i, min)).(lock := s.lock[i := Some(c)]))
      else Some(Set(s, c, if min.None? then Idle else Picked(min.value)))
    case Look(i, min) =>
      if i >= |s.procs| then None else
      var p := s.procs[i];
      var s1 := s.(obs := s.obs[c := s.obs[c] + [p]]);
      if p.state.Runnable? then
        if min.None? then Some(Set(s1, c, Want(i + 1, Some(i))))
        else if min.value < |s.procs| && Less(s.pol, p, s.procs[min.value])
        then Some(Set(Release(s1, min.value), c, Want(i + 1, Some(i))))
        else Some(Set(Release(s1, i), c, Want(i + 1, min)))
      else Some(Set(Release(s1, i), c, Want(i + 1, min)))
    case Picked(m) =>
      // p->state = RUNNING, and the lock goes with the process, which releases it
      if m >= |s.procs| then None
      else Some(Set(Release(s.(procs := s.procs[m := s.procs[m].(state := Running)]), m), c, Runs(m)))
    case Runs(m) => Some(Set(s, c, Stops(m)))
    case Stops(m) =>
      if m >= |s.procs| || s.lock[m].Some? then None
      else Some(Set(s, c, Leaves(m)).(lock := s.lock[m := Some(c)]))
    case Leaves(m) =>
      // the process has changed its state, or sched panics; the scheduler releases its lock
      if m >= |s.procs| || left.state.Running? then None
      else Some(Set(Release(s.(procs := s.procs[m := left]), m), c, Idle))
  }

  function Step(s: State, a: Act): Option<State>
    requires Sized(s)
  {
    match a
    case Cpu1(c, left) => if c < |s.cpus| then CpuStep(s, c, left) else None
    case Touch(i, p) =>
      // wakeup, kill and fork make sleeping and new processes runnable; the clock counts for all of them
      if i < |s.procs| && s.lock[i].None? && p.state.Running? == s.procs[i].state.Running?
      then Some(s.(procs := s.procs[i := p])) else None
  }

  /** The locks a CPU holds. */
  predicate Holds(x: Cpu, j: nat) {
    match x
    case Idle => false
    case Want(_, min) => min == Some(j)
    case Look(i, min) => i == j || min == Some(j)
    case Picked(m) => m == j
    case Runs(_) => false
    case Stops(_) => false
    case Leaves(m) => m == j
  }

  /** The CPU is running process j. */
  predicate On(x: Cpu, j: nat) { x == Runs(j) || x == Stops(j) || x == Leaves(j) }

  /** A CPU's choice so far is what one scan of what it saw would choose, and that process has not
      changed since. */
  ghost predicate CpuOk(s: State, c: nat)
    requires Sized(s) && c < |s.cpus|
  {
    var o := s.obs[c];
    match s.cpus[c]
    case Idle => true
    case Want(i, min) => |o| == i <= |s.procs| && min == Pick(s.pol, o) && (min.Some? ==> s.procs[min.value] == o[min.value])
    case Look(i, min) =>
      && |o| == i < |s.procs| && min == Pick(s.pol, o) && (min.Some? ==> s.procs[min.value] == o[min.value])
    case Picked(m) => |o| == |s.procs| && Some(m) == Pick(s.pol, o) && s.procs[m] == o[m]
    case _ => s.cpus[c].m < |s.procs|
  }

  /** A process runs on one CPU or on none, as its state says. */
  ghost predicate RunOk(s: State, j: nat)
    requires j < |s.procs|
  {
    && (s.procs[j].state.Running? ==> exists c: nat :: c < |s.cpus| && On(s.cpus[c], j))
    && (forall c: nat :: c < |s.cpus| && On(s.cpus[c], j) ==> s.procs[j].state.Running?)
    && (forall c: nat, d: nat :: c < d < |s.cpus| && On(s.cpus[c], j) ==> !On(s.cpus[d], j))
  }

  ghost predicate LockOk(s: State, j: nat)
    requires Sized(s) && j < |s.procs|
  {
    && (s.lock[j].Some? ==> s.lock[j].value < |s.cpus| && Holds(s.cpus[s.lock[j].value], j))
    && (forall c: nat :: c < |s.cpus| && Holds(s.cpus[c], j) ==> s.lock[j] == Some(c))
  }

  ghost predicate Inv(s: State) {
    && Sized(s)
    && (forall c: nat :: c < |s.cpus| ==> CpuOk(s, c))
    && (forall j: nat :: j < |s.procs| ==> LockOk(s, j) && RunOk(s, j))
  }

  ghost predicate Start(s: State) {
    && Sized(s) && (forall c :: 0 <= c < |s.cpus| ==> s.cpus[c] == Idle)
    && (forall j :: 0 <= j < |s.procs| ==> s.lock[j].None? && !s.procs[j].state.Running?)
  }

  function Initial(pol: Policy, procs: seq<Proc>, cpus: nat): (s: State)
    requires forall j :: 0 <= j < |procs| ==> !procs[j].state.Running?
    ensures Start(s)
  {
    State(pol, procs, seq(|procs|, j => None), seq(cpus, c => Idle), seq(cpus, c => []))
  }

  lemma StartInv(s: State)
    requires Start(s)
    ensures Inv(s)
  {
  }

  lemma PickNext(pol: Policy, o: seq<Proc>, p: Proc)
    ensures Pick(pol, o + [p]) ==
            if p.state.Runnable? && (Pick(pol, o).None? || Less(pol, p, o[Pick(pol, o).value])) then Some(|o|) else Pick(pol, o)
  {
    assert (o + [p])[..|o|] == o;
  }

  lemma OwnStep(s: State, c: nat, left: Proc)
    requires Inv(s) && c < |s.cpus| && CpuStep(s, c, left).Some?
    ensures Sized(CpuStep(s, c, left).value) && CpuOk(CpuStep(s, c, left).value, c)
  {
    hide Less, Pick, LockOk;
    assert CpuOk(s, c);
    if s.cpus[c].Look? && s.cpus[c].i < |s.procs| {
      PickNext(s.pol, s.obs[c], s.procs[s.cpus[c].i]);
    }
  }

  lemma LocksStep(s: State, c: nat, left: Proc, j: nat)
    requires Inv(s) && c < |s.cpus| && CpuStep(s, c, left).Some? && j < |s.procs|
    ensures LockOk(CpuStep(s, c, left).value, j)
  {
    hide Less, Pick;
    assert LockOk(s, j) && CpuOk(s, c);
    if s.cpus[c].Look? { LookLocks(s, c, left, j); }
  }

  lemma LookLocks(s: State, c: nat, left: Proc, j: nat)
    requires Inv(s) && c < |s.cpus| && s.cpus[c].Look? && CpuStep(s, c, left).Some? && j < |s.procs|
    ensures LockOk(CpuStep(s, c, left).value, j)
  {
    hide Less, Pick;
    assert LockOk(s, j) && CpuOk(s, c);
  }

  /** A locked process does not change under the CPU that holds it. */
  lemma OtherStep(s: State, c: nat, left: Proc, d: nat)
    requires Inv(s) && c < |s.cpus| && CpuStep(s, c, left).Some? && d < |s.cpus| && d != c
    ensures CpuOk(CpuStep(s, c, left).value, d)
  {
    hide Less, Pick;
    assert CpuOk(s, d) && CpuOk(s, c);
    if s.cpus[c].Picked? || s.cpus[c].Leaves? { assert LockOk(s, s.cpus[c].m); }
  }

  /** A step starts a process, ends its turn, or leaves it as it is. */
  lemma TurnStep(s: State, c: nat, left: Proc, j: nat)
    requires Sized(s) && c < |s.cpus| && CpuStep(s, c, left).Some? && j < |s.procs|
    ensures var s' := CpuStep(s, c, left).value;
            && |s'.procs| == |s.procs| && |s'.cpus| == |s.cpus|
            && (forall d: nat :: d < |s.cpus| && d != c ==> s'.cpus[d] == s.cpus[d])
            && (|| (s.cpus[c] == Picked(j) && s'.procs[j].state.Running? && s'.cpus[c] == Runs(j))
                || (s.cpus[c] == Leaves(j) && !s'.procs[j].state.Running? && s'.cpus[c] == Idle)
                || (s'.procs[j] == s.procs[j] && (On(s'.cpus[c], j) <==> On(s.cpus[c], j))))
  {
    hide Less;
  }

  lemma RunsStep(s: State, c: nat, left: Proc, j: nat)
    requires Inv(s) && c < |s.cpus| && CpuStep(s, c, left).Some? && j < |s.procs|
    ensures |CpuStep(s, c, left).value.procs| == |s.procs| && RunOk(CpuStep(s, c, left).value, j)
  {
    hide Less, Pick, CpuStep, LockOk;
    TurnStep(s, c, left, j);
    assert RunOk(s, j) && CpuOk(s, c);
    var s' := CpuStep(s, c, left).value;
    if s'.procs[j].state.Running? {
      var d: nat :| d < |s.cpus| && (s.cpus[c] == Picked(j) ==> d == c) && (s.cpus[c] != Picked(j) ==> On(s.cpus[d], j));
      assert On(s'.cpus[d], j);
    }
  }

  lemma StepInv(s: State, a: Act)
    requires Inv(s) && Step(s, a).Some?
    ensures Inv(Step(s, a).value)
  {
    var s' := Step(s, a).value;
    match a
    case Cpu1(c, left) =>
      hide CpuStep, Less, Pick, CpuOk, LockOk, RunOk;
      OwnStep(s, c, left);
      SameSizes(s, c, left);
      forall d: nat | d < |s.cpus|
        ensures CpuOk(s', d)
      {
        if d != c { OtherStep(s, c, left, d); }
      }
      forall j: nat | j < |s.procs|
        ensures LockOk(s', j) && RunOk(s', j)
      {
        LocksStep(s, c, left, j);
        RunsStep(s, c, left, j);
      }
    case Touch(i, p) =>
      hide Less, Pick;
      forall d: nat | d < |s.cpus|
        ensures CpuOk(s', d)
      {
        assert CpuOk(s, d) && LockOk(s, i);
      }
      forall j: nat | j < |s.procs|
        ensures LockOk(s', j) && RunOk(s', j)
      {
        assert LockOk(s, j) && RunOk(s, j);
      }
  }

  lemma SameSizes(s: State, c: nat, left: Proc)
    requires Sized(s) && c < |s.cpus| && CpuStep(s, c, left).Some?
    ensures var s' := CpuStep(s, c, left).value; Sized(s') && |s'.cpus| == |s.cpus| && |s'.procs| == |s.procs| && s'.pol == s.pol
  {
  }

  // ---- Whole runs ----

  function Run(s: State, acts: seq<Act>): Option<State>
    requires Sized(s)
    decreases |acts|
  {
    if acts == [] then Some(s) else
    var s' := Step(s, acts[0]);
    if s'.None? || !Sized(s'.value) then None else Run(s'.value, acts[1..])
  }

  lemma {:induction false} RunInv(s: State, acts: seq<Act>)
    requires Inv(s) && Run(s, acts).Some?
    ensures Inv(Run(s, acts).value)
    decreases |acts|
  {
    hide Step, CpuOk, LockOk;
    if acts != [] {
      StepInv(s, acts[0]);
      RunInv(Step(s, acts[0]).value, acts[1..]);
    }
  }

  /** In every run, a process that a CPU has chosen is runnable, no other CPU has chosen it, this CPU
      holds no other process lock, and among the processes as the scan saw them it is the first with the
      least key. */
  lemma ChoiceSafe(s: State, acts: seq<Act>, c: nat, d: nat)
    requires Start(s) && Run(s, acts).Some?
    requires var t := Run(s, acts).value; c < |t.cpus| && d < |t.cpus| && |t.obs| == |t.cpus| && t.cpus[c].Picked?
    ensures var t := Run(s, acts).value; var m := t.cpus[c].m;
            && m < |t.procs| && t.procs[m].state.Runnable? && (t.cpus[d] == Picked(m) ==> c == d)
            && Sized(t) && (forall j: nat :: j < |t.procs| && t.lock[j] == Some(c) ==> j == m)
            && |t.obs[c]| == |t.procs|
            && ((forall j :: 0 <= j < |t.obs[c]| && t.obs[c][j].state.Runnable? ==> Valued(t.pol, t.obs[c][j])) ==>
                  Best(t.pol, t.obs[c], m))
  {
    StartInv(s);
    hide Step, Best, Less, Start;
    RunInv(s, acts);
    hide Run;
    var t := Run(s, acts).value;
    assert CpuOk(t, c);
    var m := t.cpus[c].m;
    assert LockOk(t, m);
    forall j: nat | j < |t.procs| && t.lock[j] == Some(c)
      ensures j == m
    {
      assert LockOk(t, j);
    }
    if forall j :: 0 <= j < |t.obs[c]| && t.obs[c][j].state.Runnable? ==> Valued(t.pol, t.obs[c][j]) {
      PickBest(t.pol, t.obs[c]);
    }
  }

  /** In every run, no process runs on two CPUs; it runs on one exactly when its state says so; and a
      process that a CPU has chosen runs on none. */
  lemma RunsOnce(s: State, acts: seq<Act>, c: nat, m: nat)
    requires Start(s) && Run(s, acts).Some?
    requires var t := Run(s, acts).value; c < |t.cpus| && m < |t.procs|
    ensures var t := Run(s, acts).value;
            && (On(t.cpus[c], m) ==> forall d: nat :: d < |t.cpus| && On(t.cpus[d], m) ==> d == c)
            && (t.procs[m].state.Running? <==> exists d: nat :: d < |t.cpus| && On(t.cpus[d], m))
            && (t.cpus[c] == Picked(m) ==> forall d: nat :: d < |t.cpus| ==> !On(t.cpus[d], m))
  {
    StartInv(s);
    hide Step, Less, Start;
    RunInv(s, acts);
    hide Run, LockOk, Pick;
    var t := Run(s, acts).value;
    assert RunOk(t, m) && CpuOk(t, c);
  }

  /** The process whose lock the CPU takes next, if there is one. */
  function Wants(x: Cpu): Option<nat> {
    match x
    case Want(i, _) => Some(i)
    case Stops(m) => Some(m)
    case _ => None
  }

  /** A CPU waiting for a process lock. */
  predicate Blocked(s: State, c: nat)
    requires Sized(s) && c < |s.cpus|
  {
    Wants(s.cpus[c]).Some? && Wants(s.cpus[c]).value < |s.procs| && s.lock[Wants(s.cpus[c]).value].Some?
  }

  /** c waits for a lock that d holds. */
  predicate Waits(s: State, c: nat, d: nat)
    requires Sized(s)
  {
    c < |s.cpus| && d < |s.cpus| && Blocked(s, c) && s.lock[Wants(s.cpus[c]).value] == Some(d)
  }

  lemma PickBelow(pol: Policy, o: seq<Proc>)
    requires Pick(pol, o).Some?
    ensures Pick(pol, o).value < |o|
  {
  }

  lemma HeldBelow(s: State, c: nat, i: nat)
    requires Inv(s) && c < |s.cpus| && i < |s.procs| && s.lock[i] == Some(c)
    ensures Wants(s.cpus[c]).Some? ==> i < Wants(s.cpus[c]).value
  {
    hide Pick, Less;
    assert LockOk(s, i) && CpuOk(s, c);
    if s.cpus[c].Want? { PickBelow(s.pol, s.obs[c]); }
  }

  /** Locks are taken in table order only: a lock that a step takes is above all that the CPU holds. */
  lemma TakenInOrder(s: State, c: nat, left: Proc, j: nat, k: nat)
    requires Inv(s) && c < |s.cpus| && CpuStep(s, c, left).Some? && j < |s.procs| && k < |s.procs|
    ensures Sized(CpuStep(s, c, left).value) && |CpuStep(s, c, left).value.procs| == |s.procs|
    ensures s.lock[j] != Some(c) && CpuStep(s, c, left).value.lock[j] == Some(c) && s.lock[k] == Some(c) ==> k < j
  {
    SameSizes(s, c, left);
    if s.lock[k] == Some(c) { HeldBelow(s, c, k); }
  }

  /** So whoever holds a lock that a CPU waits for, and waits too, waits for one further on. */
  lemma WaitsAbove(s: State, c: nat, d: nat)
    requires Inv(s) && Waits(s, c, d) && Blocked(s, d)
    ensures Wants(s.cpus[c]).value < Wants(s.cpus[d]).value
  {
    HeldBelow(s, d, Wants(s.cpus[c]).value);
  }

  /** The CPU can make its next step. */
  ghost predicate CanStep(s: State, c: nat)
    requires Sized(s)
  {
    c < |s.cpus| && forall left: Proc :: !left.state.Running? ==> CpuStep(s, c, left).Some?
  }

  lemma Moves(s: State, c: nat)
    requires Inv(s) && c < |s.cpus| && !Blocked(s, c)
    ensures CanStep(s, c)
  {
    hide Pick, Less;
    assert CpuOk(s, c);
  }

  /** Each CPU of the path waits for the next, for locks further and further on. */
  predicate WaitPath(s: State, path: seq<nat>)
    requires Sized(s)
    decreases |path|
  {
    && |path| > 0
    && (|path| > 1 ==> Waits(s, path[0], path[1]) && WaitPath(s, path[1..]))
    && (|path| > 2 ==> Blocked(s, path[1]) && Wants(s.cpus[path[0]]).value < Wants(s.cpus[path[1]]).value)
  }

  lemma PathLonger(s: State, c: nat, path: seq<nat>)
    requires Inv(s) && WaitPath(s, path) && Waits(s, c, path[0])
    ensures WaitPath(s, [c] + path)
  {
    hide CpuOk, LockOk;
    assert ([c] + path)[1..] == path;
    if |path| > 1 { WaitsAbove(s, c, path[0]); }
  }

  /** From any CPU the locks waited for lead, in table order, to one that can move. */
  lemma {:induction false} WayOut(s: State, c: nat) returns (path: seq<nat>)
    requires Inv(s) && c < |s.cpus|
    ensures WaitPath(s, path) && path[0] == c
    ensures CanStep(s, path[|path| - 1])
    decreases if Blocked(s, c) then |s.procs| - Wants(s.cpus[c]).value else 0
  {
    hide CanStep;
    if Blocked(s, c) {
      var i := Wants(s.cpus[c]).value;
      assert LockOk(s, i);
      var h := s.lock[i].value;
      hide LockOk, CpuOk;
      if Blocked(s, h) { WaitsAbove(s, c, h); }
      var rest := WayOut(s, h);
      PathLonger(s, c, rest);
      path := [c] + rest;
    } else {
      Moves(s, c);
      path := [c];
    }
  }

  /** The blocked CPU of waiting that waits furthest on. */
  lemma {:induction false} Furthest(s: State, waiting: set<nat>) returns (c: nat)
    requires Sized(s) && waiting != {} && forall d :: d in waiting ==> d < |s.cpus| && Blocked(s, d)
    ensures c in waiting && c < |s.cpus| && Blocked(s, c)
    ensures forall d :: d in waiting ==>
              d < |s.cpus| && Blocked(s, d) && Wants(s.cpus[d]).value <= Wants(s.cpus[c]).value
    decreases |waiting|
  {
    c :| c in waiting;
    if waiting - {c} == {} {
      assert waiting == {c};
    } else {
      var e := Furthest(s, waiting - {c});
      assert forall d :: d in waiting ==> d == c || d in waiting - {c};
      if Wants(s.cpus[c]).value < Wants(s.cpus[e]).value { c := e; }
    }
  }

  /** In every run, CPUs never wait in a circle: among any CPUs that wait for process locks, one waits
      for a lock that none of them holds. */
  lemma NoCircle(s: State, acts: seq<Act>, waiting: set<nat>) returns (c: nat)
    requires Start(s) && Run(s, acts).Some? && Sized(Run(s, acts).value)
    requires var t := Run(s, acts).value; waiting != {} && forall d :: d in waiting ==> d < |t.cpus| && Blocked(t, d)
    ensures var t := Run(s, acts).value;
            c in waiting && forall d :: d in waiting ==> t.lock[Wants(t.cpus[c]).value] != Some(d)
  {
    StartInv(s);
    RunInv(s, acts);
    hide Start, Run, CpuStep, CpuOk, LockOk;
    var t := Run(s, acts).value;
    c := Furthest(t, waiting);
    forall d | d in waiting
      ensures t.lock[Wants(t.cpus[c]).value] != Some(d)
    {
      if t.lock[Wants(t.cpus[c]).value] == Some(d) { WaitsAbove(t, c, d); }
    }
  }

  /** In every run, and from any CPU, the locks waited for lead in table order to a CPU that can move. */
  lemma NoDeadlock(s: State, acts: seq<Act>, c: nat) returns (path: seq<nat>)
    requires Start(s) && Run(s, acts).Some? && Sized(Run(s, acts).value) && c < |Run(s, acts).value.cpus|
    ensures var t := Run(s, acts).value;
            && WaitPath(t, path) && path[0] == c
            && CanStep(t, path[|path| - 1])
  {
    StartInv(s);
    RunInv(s, acts);
    hide Start, Run, CanStep, CpuOk, LockOk;
    path := WayOut(Run(s, acts).value, c);
  }
}
