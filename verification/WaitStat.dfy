/** wait_stat's return with its locks held: when it happens, and what follows (kernel/proc.c). */
module WaitStat {
  import opened Common
  import opened SleepWakeup
  import opened WaitExit

  /** A process that is not inside wait, fork or exit. */
  predicate Returned(t: Task) { t.Idle? || t.Stuck? }

  predicate Owns(c: Core, p: nat) { WaitLock in c.owner && c.owner[WaitLock] == p }

  // ---- When ----

  /** A process that has returned so makes no move any more. */
  lemma NoMove(s: State, p: nat, m: Move)
    requires Sized(s) && p < |s.task| && s.task[p].Stuck? && TaskOk(s, p)
    ensures Next(s, p, m).None?
  {
    var pc := s.core.procs[p].pc;
    if Enabled(s, p, m) {
      if m.Start? {
        assert Step(s.core, p, Begin).None?;
      } else if m.Internal? {
        NothingInside(s.core, p, m.a);
      }
    }
  }

  lemma NothingInside(s: Core, p: nat, a: Act)
    requires |s.plock| == |s.procs| && p < |s.procs| && s.procs[p].pc.Look? && Inside(a)
    ensures Step(s, p, a).None?
  {
  }

  /** Only the failing copyout of the counters leaves a process so. */
  lemma StuckStep(s: State, p: nat, m: Move, x: nat)
    requires Good(s) && Next(s, p, m).Some? && x < |s.task|
    ensures p < |s.task| == |Next(s, p, m).value.task|
    ensures s.task[x].Stuck? ==> Next(s, p, m).value.task[x] == s.task[x]
    ensures Next(s, p, m).value.task[x].Stuck? <==> s.task[x].Stuck? || (p, m) == (x, StatFail)
  {
    hide Inv, ForkOk, Family, Step, Next, TaskOk;
    SameSize(s, p, m);
    if x != p {
      OthersKept(s, p, m, x);
    } else {
      assert TaskOk(s, x);
      if s.task[x].Stuck? { NoMove(s, x, m); }
      CoreMove(s, p, m);
    }
  }

  lemma {:induction false} StuckRun(s: State, moves: seq<(nat, Move)>, x: nat)
    requires Good(s) && x < |s.task| && Run(s, moves).Some?
    ensures Good(Run(s, moves).value) && |Run(s, moves).value.task| == |s.task|
    ensures s.task[x].Stuck? ==> Run(s, moves).value.task[x] == s.task[x]
    ensures Run(s, moves).value.task[x].Stuck? <==> s.task[x].Stuck? || (x, StatFail) in moves
    decreases |moves|
  {
    hide Next, Inv, Fits, ForkOk, Family;
    if moves != [] {
      GoodStep(s, moves[0].0, moves[0].1);
      StuckStep(s, moves[0].0, moves[0].1, x);
      StuckRun(Next(s, moves[0].0, moves[0].1).value, moves[1..], x);
      assert moves == [moves[0]] + moves[1..];
    }
  }

  lemma OwnsExact(s: State, p: nat)
    requires Good(s) && p < |s.task| && Returned(s.task[p])
    ensures Owns(s.core, p) <==> s.task[p].Stuck?
  {
    hide PlockOk, ScanOk, ForkOk, Family, LifeOk;
    assert TaskOk(s, p);
    HasCond(s.core, p, WaitLock);
  }

  /** In every run from boot, a process that has returned holds wait_lock exactly when a copyout of
      counters has failed in its wait_stat. */
  lemma LeakExact(s: State, moves: seq<(nat, Move)>, p: nat)
    requires Boot(s) && p < |s.task| && Run(s, moves).Some?
    requires p < |Run(s, moves).value.task| && Returned(Run(s, moves).value.task[p])
    ensures Owns(Run(s, moves).value.core, p) <==> (p, StatFail) in moves
  {
    BootGood(s);
    assert !s.task[p].Stuck?;
    hide Boot, Run, Good;
    StuckRun(s, moves, p);
    OwnsExact(Run(s, moves).value, p);
  }

  // ---- What follows ----

  /** From then on, in every run, it holds wait_lock and the lock of the child, nobody else enters wait or
      exit or gets wait_lock in fork, and nobody asleep in wait comes back. */
  lemma LockKept(s: State, moves: seq<(nat, Move)>, p: nat, i: nat, q: nat)
    requires Good(s) && p < |s.task| && s.task[p] == Stuck(i) && q < |s.task| && q != p
    requires Run(s, moves).Some?
    ensures var t := Run(s, moves).value;
            && Sized(t) && q < |t.task| && i < |t.core.plock|
            && Owns(t.core, p) && t.core.plock[i] == Some(p)
            && Next(t, q, StartWait).None? && Next(t, q, StartExit).None? && Next(t, q, ForkLock).None?
            && (t.task[q].Waiting? ==> Next(t, q, Internal(Reacquire)).None?)
  {
    hide Run, ForkOk, Family, LifeOk, Step, TaskOk;
    StuckRun(s, moves, p);
    var t := Run(s, moves).value;
    assert TaskOk(t, p) && TaskOk(t, q);
    HeldBoth(t, p, i);
    NoEntry(t, q);
    if t.task[q].Waiting? { NoReturn(t, q); }
  }

  lemma HeldBoth(t: State, p: nat, i: nat)
    requires Sized(t) && Inv(t.core) && p < |t.task| && t.task[p] == Stuck(i) && TaskOk(t, p)
    ensures i < |t.core.plock| && Owns(t.core, p) && t.core.plock[i] == Some(p)
  {
    hide ScanOk;
    HasCond(t.core, p, WaitLock);
    HasPlock(t.core, p, i);
  }

  lemma NoEntry(t: State, q: nat)
    requires Sized(t) && q < |t.task| && WaitLock in t.core.owner
    ensures Next(t, q, StartWait).None? && Next(t, q, StartExit).None? && Next(t, q, ForkLock).None?
  {
    assert Step(t.core, q, Acquire(WaitLock)).None?;
    hide Step;
  }

  lemma NoReturn(t: State, q: nat)
    requires Sized(t) && q < |t.task| && WaitLock in t.core.owner && t.task[q].Waiting? && TaskOk(t, q)
    ensures Next(t, q, Internal(Reacquire)).None?
  {
    assert Step(t.core, q, Reacquire).None?;
    hide Step;
  }

  // ---- It does happen ----

  function TwoCore(pc0: Pc, pc1: Pc, plock0: Option<nat>, plock1: Option<nat>, owner: map<Lock, nat>): Core {
    Core([Proc(pc0, RUNNING, None), Proc(pc1, RUNNING, None)], [plock0, plock1], owner)
  }

  /** Two slots, of which init has the first.  init forks a child, the child exits, and init's wait_stat
      fails to copy out the child's counters: the locks, */
  function LeakCore(k: nat): (c: Core)
    ensures |c.procs| == |c.plock| == 2
  {
    var none: map<Lock, nat> := map[];
    var (by0, by1, ch) := (map[WaitLock := 0], map[WaitLock := 1], OnProc(0));
    match k
    case 2 => TwoCore(In(WaitLock), Gone, None, None, by0)
    case 5 => TwoCore(Out, Out, None, None, none)
    case 6 => TwoCore(Out, In(WaitLock), None, None, by1)
    case 7 => TwoCore(Out, In(WaitLock), None, None, by1)
    case 8 => TwoCore(Out, In(WaitLock), None, None, by1)
    case 9 => TwoCore(Out, Wake(WaitLock, ch, 0), None, None, by1)
    case 10 => TwoCore(Out, WakeAt(WaitLock, ch, 0), Some(1), None, by1)
    case 11 => TwoCore(Out, Wake(WaitLock, ch, 1), None, None, by1)
    case 12 => TwoCore(Out, Wake(WaitLock, ch, 2), None, None, by1)
    case 13 => TwoCore(Out, In(WaitLock), None, None, by1)
    case 14 => TwoCore(Out, Exit1(WaitLock), None, Some(1), by1)
    case 15 => TwoCore(Out, Exit1(WaitLock), None, Some(1), by1)
    case 16 => TwoCore(Out, Exit2, None, Some(1), none)
    case 18 => TwoCore(In(WaitLock), Gone, None, None, by0)
    case 19 => TwoCore(In(WaitLock), Gone, None, None, by0)
    case 20 => TwoCore(Look(WaitLock, 1), Gone, None, Some(0), by0)
    case 21 => TwoCore(Look(WaitLock, 1), Gone, None, Some(0), by0)
    case _ => TwoCore(Out, Gone, None, None, none)
  }

  /** and the family. */
  function Leak(k: nat): State {
    var life1 := if k < 1 then Unused else if k < 4 then Embryo else if k < 5 then Ready else if k < 15 then Live else Zombie;
    var (task0, task1) :=
      match k
      case 1 => (Fork1(1), Idle)
      case 2 => (Fork2(1), Idle)
      case 3 => (Fork3(1), Idle)
      case 6 => (Idle, Reparent(0))
      case 7 => (Idle, Reparent(1))
      case 8 => (Idle, Reparent(2))
      case 14 => (Idle, Dying)
      case 18 => (Scan(0, false), Dead)
      case 19 => (Scan(1, false), Dead)
      case 20 => (Peek(1), Dead)
      case 21 => (Stuck(1), Dead)
      case _ => (Idle, if k < 9 then Idle else if k < 14 then Notify else Dead);
    State(LeakCore(k), [None, if k < 3 then None else Some(0)], [Live, life1], 0, [task0, task1])
  }

  function LeakMove(k: nat): (nat, Move) {
    match k
    case 0 => (0, ForkAlloc(1))
    case 1 => (0, ForkLock)
    case 2 => (0, ForkUnlock)
    case 3 => (0, ForkRun)
    case 4 => (1, Start)
    case 5 => (1, StartExit)
    case 6 => (1, ReparentSkip)
    case 7 => (1, ReparentSkip)
    case 8 => (1, CallNotify)
    case 9 => (1, Internal(WakeLock))
    case 10 => (1, Internal(WakeTest))
    case 11 => (1, Internal(WakeSkip))
    case 12 => (1, Internal(WakeEnd))
    case 13 => (1, LockSelf)
    case 14 => (1, MarkZombie)
    case 15 => (1, Leave)
    case 16 => (1, Internal(ExitSwitch))
    case 17 => (0, StartWait)
    case 18 => (0, Skip)
    case 19 => (0, Look1)
    case _ => (0, StatFail)
  }

  /** The step of sleep and wakeup behind it. */
  function LeakAct(k: nat): Option<Act> {
    match k
    case 1 => Some(Acquire(WaitLock))
    case 2 => Some(Release)
    case 4 => Some(Begin)
    case 5 => Some(Acquire(WaitLock))
    case 8 => Some(WakeCall(OnProc(0)))
    case 9 => Some(WakeLock)
    case 10 => Some(WakeTest)
    case 11 => Some(WakeSkip)
    case 12 => Some(WakeEnd)
    case 13 => Some(ExitLock)
    case 15 => Some(ExitUnlock)
    case 16 => Some(ExitSwitch)
    case 17 => Some(Acquire(WaitLock))
    case 19 => Some(LookAt(1))
    case _ => None
  }

  ghost predicate CoreLeads(k: nat) {
    if LeakAct(k).None? then LeakCore(k + 1) == LeakCore(k)
    else Step(LeakCore(k), LeakMove(k).0, LeakAct(k).value) == Some(LeakCore(k + 1))
  }

  ghost predicate Pair<T>(x: seq<T>, y: seq<T>) { |x| == |y| == 2 && x[0] == y[0] && x[1] == y[1] }

  lemma SameCore(c: Core, d: Core)
    requires Pair(c.procs, d.procs) && Pair(c.plock, d.plock) && c.owner == d.owner
    ensures c == d
  {
  }

  lemma CoreForks(k: nat)
    requires k < 5
    ensures CoreLeads(k)
  {
    assert map[WaitLock := 0] - {WaitLock} == map[];
    if LeakAct(k).Some? { SameCore(Step(LeakCore(k), LeakMove(k).0, LeakAct(k).value).value, LeakCore(k + 1)); }
  }

  lemma CoreExits(k: nat)
    requires 5 <= k < 9
    ensures CoreLeads(k)
  {
    if LeakAct(k).Some? { SameCore(Step(LeakCore(k), LeakMove(k).0, LeakAct(k).value).value, LeakCore(k + 1)); }
  }

  lemma CoreTests(k: nat)
    requires 9 <= k < 11
    ensures CoreLeads(k)
  {
    if LeakAct(k).Some? { SameCore(Step(LeakCore(k), LeakMove(k).0, LeakAct(k).value).value, LeakCore(k + 1)); }
  }

  lemma CoreWakes(k: nat)
    requires 11 <= k < 13
    ensures CoreLeads(k)
  {
    if LeakAct(k).Some? { SameCore(Step(LeakCore(k), LeakMove(k).0, LeakAct(k).value).value, LeakCore(k + 1)); }
  }

  lemma CoreDies(k: nat)
    requires 13 <= k < 17
    ensures CoreLeads(k)
  {
    assert map[WaitLock := 1] - {WaitLock} == map[];
    if LeakAct(k).Some? { SameCore(Step(LeakCore(k), LeakMove(k).0, LeakAct(k).value).value, LeakCore(k + 1)); }
  }

  lemma CoreWaits(k: nat)
    requires 17 <= k < 21
    ensures CoreLeads(k)
  {
    if LeakAct(k).Some? { SameCore(Step(LeakCore(k), LeakMove(k).0, LeakAct(k).value).value, LeakCore(k + 1)); }
  }

  ghost predicate Leads(k: nat) {
    Sized(Leak(k)) && Next(Leak(k), LeakMove(k).0, LeakMove(k).1) == Some(Leak(k + 1))
  }

  lemma SameState(t: State, u: State)
    requires t.core == u.core && t.init == u.init
    requires Pair(t.parent, u.parent) && Pair(t.life, u.life) && Pair(t.task, u.task)
    ensures t == u
  {
  }

  /** A move, taken apart. */
  lemma NextIs(k: nat)
    requires CoreLeads(k) && LeakMove(k).0 < 2 && Sized(Leak(k)) && Enabled(Leak(k), LeakMove(k).0, LeakMove(k).1)
    requires CoreAct(Leak(k), LeakMove(k).0, LeakMove(k).1) == LeakAct(k)
    requires var t := Effect(Leak(k), LeakCore(k + 1), LeakMove(k).0, LeakMove(k).1); var u := Leak(k + 1);
             Pair(t.parent, u.parent) && Pair(t.life, u.life) && Pair(t.task, u.task)
    ensures Leads(k)
  {
    hide Step, Enabled, CoreAct;
    var t := Effect(Leak(k), LeakCore(k + 1), LeakMove(k).0, LeakMove(k).1);
    hide Effect, LeakMove, LeakCore, LeakAct;
    SameState(t, Leak(k + 1));
  }

  lemma LeakForks(k: nat)
    requires k < 5
    ensures Leads(k)
  {
    hide Step, Next, CoreLeads;
    CoreForks(k);
    NextIs(k);
  }

  lemma LeakExits(k: nat)
    requires 5 <= k < 9
    ensures Leads(k)
  {
    hide Step, Next, CoreLeads;
    CoreExits(k);
    NextIs(k);
  }

  lemma LeakWakes(k: nat)
    requires 9 <= k < 13
    ensures Leads(k)
  {
    hide Step, Next, CoreLeads;
    if k < 11 { CoreTests(k); } else { CoreWakes(k); }
    NextIs(k);
  }

  lemma LeakDies(k: nat)
    requires 13 <= k < 17
    ensures Leads(k)
  {
    hide Step, Next, CoreLeads;
    CoreDies(k);
    NextIs(k);
  }

  lemma LeakWaits(k: nat)
    requires 17 <= k < 21
    ensures Leads(k)
  {
    hide Step, Next, CoreLeads;
    CoreWaits(k);
    NextIs(k);
  }

  function LeakMoves(k: nat): seq<(nat, Move)>
    requires k <= 21
    decreases 21 - k
  {
    if k == 21 then [] else [LeakMove(k)] + LeakMoves(k + 1)
  }

  lemma {:induction false} LeakRuns(k: nat)
    requires k <= 21
    ensures Sized(Leak(k)) && Run(Leak(k), LeakMoves(k)) == Some(Leak(21))
    decreases 21 - k
  {
    if k < 21 {
      hide Next, Leak, LeakMove;
      if k < 5 { LeakForks(k); } else if k < 9 { LeakExits(k); } else if k < 13 { LeakWakes(k); }
      else if k < 17 { LeakDies(k); } else { LeakWaits(k); }
      LeakRuns(k + 1);
      assert LeakMoves(k)[1..] == LeakMoves(k + 1);
    }
  }

  lemma LeakBoots()
    ensures Boot(Leak(0)) && Leak(21).task[0] == Stuck(1)
  {
  }

  /** So a machine that has just booted gets there. */
  lemma LeakHappens()
    ensures Boot(Leak(0)) && Run(Leak(0), LeakMoves(0)) == Some(Leak(21)) && Leak(21).task[0] == Stuck(1)
  {
    hide Run, Leak, LeakMoves, Boot;
    LeakBoots();
    LeakRuns(0);
  }
}
