/** Sleep-locks as clients of sleep and wakeup (kernel/sleeplock.c). */
module SleepLocks {
  import opened Common
  import opened SleepWakeup

  /** What a process is doing with a sleep-lock. */
  datatype Task =
    | Idle
    | Acquiring(l: nat)   // acquiresleep: before lk->locked = 1
    | Taken(l: nat)       // acquiresleep: after it
    | Releasing(l: nat)   // releasesleep: before lk->locked = 0
    | Cleared(l: nat)     // releasesleep: after it

  /** locked: lk->locked; mine[p]: the locks for which acquiresleep has returned to p, or is about to,
      and p has not yet cleared. */
  datatype State = State(core: Core, locked: set<nat>, mine: seq<set<nat>>, task: seq<Task>)

  datatype Move =
    | StartAcquire(l: nat) | MustSleep | Take | FinishAcquire
    | StartRelease(l: nat) | Clear | FinishRelease
    | Internal(a: Act)

  /** Steps inside sleep(), wakeup() and kill() do not concern the lock's own fields. */
  predicate Inside(a: Act) {
    a.SleepUnlock? || a.SleepMark? || a.Switch? || a.Resume? || a.Tidy? || a.Reacquire?
    || a.WakeSkip? || a.WakeLock? || a.WakeTest? || a.WakeEnd? || a.Kill?
  }

  /** The step of sleep and wakeup that a move makes. */
  function Core1(s: State, p: nat, m: Move): Option<Act>
    requires p < |s.task|
  {
    match (m, s.task[p])
    case (StartAcquire(l), Idle) => Some(Acquire(Inner(l)))
    case (MustSleep, Acquiring(l)) => if l in s.locked then Some(SleepCall(OnSlk(l))) else None
    case (FinishAcquire, Taken(l)) => Some(Release)
    case (StartRelease(l), Idle) => if p < |s.mine| && l in s.mine[p] then Some(Acquire(Inner(l))) else None
    case (Clear, Releasing(l)) => Some(WakeCall(OnSlk(l)))
    case (FinishRelease, Cleared(l)) => Some(Release)
    case (Internal(a), _) => if Inside(a) then Some(a) else None
    case _ => None
  }

  /** What it does to the lock and to the process. */
  function Effect(s: State, core: Core, p: nat, m: Move): State
    requires p < |s.task| == |s.mine|
  {
    var s' := s.(core := core);
    match (m, s.task[p])
    case (StartAcquire(l), _) => s'.(task := s.task[p := Acquiring(l)])
    case (FinishAcquire, _) => s'.(task := s.task[p := Idle])
    case (StartRelease(l), _) => s'.(task := s.task[p := Releasing(l)])
    case (Clear, Releasing(l)) =>
      s'.(locked := s.locked - {l}, mine := s.mine[p := s.mine[p] - {l}], task := s.task[p := Cleared(l)])
    case (FinishRelease, _) => s'.(task := s.task[p := Idle])
    case _ => s'
  }

  predicate Sized(s: State) { |s.core.plock| == |s.core.procs| == |s.task| == |s.mine| }

  function Next(s: State, p: nat, m: Move): (r: Option<State>)
    requires Sized(s)
    ensures r.Some? ==> Sized(r.value) && p < |s.task| == |r.value.task|
  {
    if p >= |s.task| then None
    else if m.Take? then
      // acquiresleep leaves its loop: the lock is not taken and p holds its spinlock
      if s.task[p].Acquiring? && s.core.procs[p].pc == In(Inner(s.task[p].l)) && s.task[p].l !in s.locked
      then
        var l := s.task[p].l;
        Some(s.(locked := s.locked + {l}, mine := s.mine[p := s.mine[p] + {l}], task := s.task[p := Taken(l)]))
      else None
    else
      var a := Core1(s, p, m);
      if a.None? then None else
      var c := Step(s.core, p, a.value);
      if c.None? then None else
      OnlyOne(s.core, p, a.value);
      Some(Effect(s, c.value, p, m))
  }

  // ---- The invariant ----

  /** The pc of a process fits what it is doing. */
  ghost predicate TaskOk(t: Task, pc: Pc) {
    match t
    case Idle => pc == Out || pc == Gone
    case Acquiring(l) =>
      || pc == In(Inner(l)) || pc == Sleep1(Inner(l), OnSlk(l)) || pc == Sleep2(Inner(l), OnSlk(l))
      || pc == Sleep3(Inner(l), OnSlk(l)) || pc == Off(Inner(l), OnSlk(l)) || pc == On(Inner(l), OnSlk(l))
      || pc == Back(Inner(l), OnSlk(l))
    case Taken(l) => pc == In(Inner(l))
    case Releasing(l) => pc == In(Inner(l))
    case Cleared(l) =>
      || pc == In(Inner(l))
      || ((pc.Wake? || pc.WakeAt?) && pc.lk == Inner(l) && pc.ch == OnSlk(l))
  }

  /** A lock somebody holds is marked locked, and nobody else holds it. */
  ghost predicate Exclusive(s: State) {
    && (forall p: nat, l :: p < |s.mine| && l in s.mine[p] ==> l in s.locked)
    && (forall p: nat, q: nat, l :: p < q < |s.mine| && l in s.mine[p] ==> l !in s.mine[q])
    && (forall p: nat :: p < |s.task| == |s.mine| && s.task[p].Releasing? ==> s.task[p].l in s.mine[p])
  }

  /** A lock that is marked locked has a holder: the process for which acquiresleep has marked it. */
  ghost predicate Held(s: State) {
    && (forall l :: l in s.locked ==> exists p: nat :: p < |s.mine| && l in s.mine[p])
    && (forall p: nat :: p < |s.task| == |s.mine| && s.task[p].Taken? ==> s.task[p].l in s.mine[p])
  }

  /** A process asleep for a lock has a reason: the lock is taken, or it is about to be woken. */
  ghost predicate Justified(s: State) {
    forall q: nat, l :: q < |s.core.procs| && Sleeper(s.core.procs[q], Inner(l), OnSlk(l)) ==>
      l in s.locked || BeingWoken(s.core, Inner(l), OnSlk(l), q)
  }

  /** One about to sleep, still holding the spinlock, has seen the lock taken. */
  ghost predicate AboutTo(s: State) {
    forall q: nat, l :: q < |s.core.procs| && s.core.procs[q].pc == Sleep1(Inner(l), OnSlk(l)) ==> l in s.locked
  }

  ghost predicate Good(s: State) {
    && Sized(s)
    && Inv(s.core)
    && (forall p: nat :: p < |s.task| ==> TaskOk(s.task[p], s.core.procs[p].pc))
    && Exclusive(s) && Held(s) && Justified(s) && AboutTo(s)
  }

  ghost predicate Start(s: State) {
    && Init(s.core) && |s.task| == |s.mine| == |s.core.procs| && s.locked == {}
    && (forall p: nat :: p < |s.task| ==> s.task[p] == Idle && s.mine[p] == {})
  }

  function Initial(n: nat): (s: State)
    ensures Start(s)
  {
    State(Core(seq(n, p => Proc(Out, RUNNING, None)), seq(n, p => None), map[]), {}, seq(n, p => {}), seq(n, p => Idle))
  }

  lemma StartGood(s: State)
    requires Start(s)
    ensures Good(s)
  {
  }

  // ---- Every step keeps it ----

  /** The step of sleep and wakeup behind a move, if it is not Take. */
  lemma CoreMove(s: State, p: nat, m: Move) returns (a: Act)
    requires Sized(s) && Next(s, p, m).Some? && !m.Take?
    ensures Core1(s, p, m) == Some(a) && Step(s.core, p, a).Some?
    ensures Next(s, p, m).value == Effect(s, Step(s.core, p, a).value, p, m)
  {
    a := Core1(s, p, m).value;
  }

  lemma TaskMoves(s: State, p: nat, m: Move)
    requires Sized(s) && Next(s, p, m).Some?
    requires TaskOk(s.task[p], s.core.procs[p].pc)
    ensures TaskOk(Next(s, p, m).value.task[p], Next(s, p, m).value.core.procs[p].pc)
  {
  }

  lemma TaskStep(s: State, p: nat, m: Move)
    requires Good(s) && Next(s, p, m).Some?
    ensures var s' := Next(s, p, m).value;
            forall q: nat :: q < |s.task| ==> q < |s'.task| == |s'.core.procs| && TaskOk(s'.task[q], s'.core.procs[q].pc)
  {
    hide TaskOk, Inv, Exclusive, Justified, AboutTo, Step;
    TaskMoves(s, p, m);
    if !m.Take? {
      var a := CoreMove(s, p, m);
      OnlyOne(s.core, p, a);
    }
  }

  lemma ExclusiveStep(s: State, p: nat, m: Move)
    requires Good(s) && Next(s, p, m).Some?
    ensures Exclusive(Next(s, p, m).value)
  {
    hide Inv, Justified, AboutTo, Step;
  }

  lemma HeldStep(s: State, p: nat, m: Move)
    requires Good(s) && Next(s, p, m).Some?
    ensures Held(Next(s, p, m).value)
  {
    hide Inv, Justified, AboutTo, Step, TaskOk;
    var s' := Next(s, p, m).value;
    forall l | l in s'.locked
      ensures exists q: nat :: q < |s'.mine| && l in s'.mine[q]
    {
      if l in s.locked {
        var q: nat :| q < |s.mine| && l in s.mine[q];
        assert l in s'.mine[q];
      } else {
        assert l in s'.mine[p];
      }
    }
  }

  /** Only Clear unlocks; then the holder of the spinlock starts to wake everybody waiting. */
  lemma Unlocking(s: State, p: nat, m: Move, l: nat, q: nat)
    requires Good(s) && Next(s, p, m).Some?
    requires l in s.locked && l !in Next(s, p, m).value.locked
    ensures BeingWoken(Next(s, p, m).value.core, Inner(l), OnSlk(l), q)
    ensures s.core.procs[p].pc == In(Inner(l)) && !m.Take? && !m.Internal?
  {
    hide Exclusive, Justified, AboutTo, PlockOk, ScanOk;
  }

  lemma JustifiedStep(s: State, p: nat, m: Move)
    requires Good(s) && Next(s, p, m).Some?
    ensures Justified(Next(s, p, m).value)
  {
    hide Step, Inv, Exclusive, TaskOk, Next, Sleeper, BeingWoken, Core1;
    var s' := Next(s, p, m).value;
    forall q: nat, l | q < |s'.core.procs| && Sleeper(s'.core.procs[q], Inner(l), OnSlk(l))
      ensures l in s'.locked || BeingWoken(s'.core, Inner(l), OnSlk(l), q)
    {
      StillJustified(s, p, m, q, l);
    }
  }

  lemma StillJustified(s: State, p: nat, m: Move, q: nat, l: nat)
    requires Good(s) && Next(s, p, m).Some?
    requires var c := Next(s, p, m).value.core; q < |c.procs| && Sleeper(c.procs[q], Inner(l), OnSlk(l))
    ensures l in Next(s, p, m).value.locked || BeingWoken(Next(s, p, m).value.core, Inner(l), OnSlk(l), q)
  {
    hide Step, CondOk, PlockOk, ScanOk, Exclusive, TaskOk, Sleeper, BeingWoken, Core1;
    var s' := Next(s, p, m).value;
    if m.Take? {
    } else if l in s.locked {
      if l !in s'.locked { Unlocking(s, p, m, l, q); }
    } else {
      var a := CoreMove(s, p, m);
      OnlyOne(s.core, p, a);
      NewSleeper(s.core, p, a, q, Inner(l), OnSlk(l));
      WakerStays(s.core, p, a, Inner(l), OnSlk(l), q);
    }
  }

  lemma AboutStep(s: State, p: nat, m: Move)
    requires Good(s) && Next(s, p, m).Some?
    ensures AboutTo(Next(s, p, m).value)
  {
    hide Step, Inv, Exclusive, TaskOk, Next, Core1;
    var s' := Next(s, p, m).value;
    forall q: nat, l | q < |s'.core.procs| && s'.core.procs[q].pc == Sleep1(Inner(l), OnSlk(l))
      ensures l in s'.locked
    {
      StillAbout(s, p, m, q, l);
    }
  }

  lemma OwnAbout(s: State, p: nat, m: Move, l: nat)
    requires Sized(s) && AboutTo(s) && Next(s, p, m).Some?
    requires Next(s, p, m).value.core.procs[p].pc == Sleep1(Inner(l), OnSlk(l))
    requires TaskOk(s.task[p], s.core.procs[p].pc)
    ensures l in Next(s, p, m).value.locked
  {
  }

  lemma OtherPc(s: State, p: nat, m: Move, q: nat)
    requires Sized(s) && Next(s, p, m).Some? && q < |s.task| && q != p
    ensures Next(s, p, m).value.core.procs[q].pc == s.core.procs[q].pc
  {
    hide Step, Core1;
    if !m.Take? {
      var a := CoreMove(s, p, m);
      OnlyOne(s.core, p, a);
    }
  }

  lemma StillAbout(s: State, p: nat, m: Move, q: nat, l: nat)
    requires Good(s) && Next(s, p, m).Some?
    requires var c := Next(s, p, m).value.core; q < |c.procs| && c.procs[q].pc == Sleep1(Inner(l), OnSlk(l))
    ensures l in Next(s, p, m).value.locked
  {
    hide CondOk, PlockOk, ScanOk, Exclusive, Justified, Next;
    if q == p {
      OwnAbout(s, p, m, l);
    } else {
      OtherPc(s, p, m, q);
      if l !in Next(s, p, m).value.locked {
        Unlocking(s, p, m, l, q);
        HasCond(s.core, q, Inner(l));
        HasCond(s.core, p, Inner(l));
      }
    }
  }

  lemma GoodStep(s: State, p: nat, m: Move)
    requires Good(s) && Next(s, p, m).Some?
    ensures Good(Next(s, p, m).value)
  {
    TaskStep(s, p, m);
    ExclusiveStep(s, p, m);
    HeldStep(s, p, m);
    JustifiedStep(s, p, m);
    AboutStep(s, p, m);
    hide Inv, Exclusive, Held, Justified, AboutTo, TaskOk, Step, Core1;
    if !m.Take? {
      var a := CoreMove(s, p, m);
      OnlyOne(s.core, p, a);
      InvStep(s.core, p, a);
    }
  }

  // ---- Whole runs ----

  /** The state after a run of moves; None if one of them could not be made. */
  function Run(s: State, moves: seq<(nat, Move)>): Option<State>
    requires Sized(s)
    decreases |moves|
  {
    if moves == [] then Some(s) else
    var s' := Next(s, moves[0].0, moves[0].1);
    if s'.None? then None else Run(s'.value, moves[1..])
  }

  lemma {:induction false} RunGood(s: State, moves: seq<(nat, Move)>)
    requires Good(s) && Run(s, moves).Some?
    ensures Good(Run(s, moves).value)
    decreases |moves|
  {
    hide Next, Inv, Exclusive, Held, Justified, AboutTo, TaskOk;
    if moves != [] {
      GoodStep(s, moves[0].0, moves[0].1);
      RunGood(Next(s, moves[0].0, moves[0].1).value, moves[1..]);
    }
  }

  /** In every run, a sleep-lock is marked locked exactly when some process holds it, and it has at most one
      holder; a process on its way out of acquiresleep is that holder; and whenever its spinlock is free
      and it is not taken nobody is left asleep waiting for it. */
  lemma SleepLockSafe(s: State, moves: seq<(nat, Move)>, p: nat, q: nat, l: nat)
    requires Start(s) && Run(s, moves).Some?
    requires var t := Run(s, moves).value; p < |t.mine| && q < |t.mine| && |t.mine| == |t.core.procs|
    ensures var t := Run(s, moves).value; l in t.mine[p] && l in t.mine[q] ==> p == q
    ensures var t := Run(s, moves).value; l in t.locked <==> exists r: nat :: r < |t.mine| && l in t.mine[r]
    ensures var t := Run(s, moves).value; |t.task| == |t.mine| && (t.task[p] == Taken(l) ==> l in t.mine[p])
    ensures var t := Run(s, moves).value;
            l !in t.locked && Inner(l) !in t.core.owner ==> !Sleeper(t.core.procs[p], Inner(l), OnSlk(l))
  {
    StartGood(s);
    hide Inv, TaskOk, AboutTo, Next;
    RunGood(s, moves);
  }

  // ---- Nobody is stuck ----

  ghost predicate Within(s: State)
    requires Sized(s)
  {
    forall p: nat :: p < |s.task| ==> PcIn(s.core.procs[p].pc, p, |s.task|)
  }

  lemma WithinStep(s: State, p: nat, m: Move)
    requires Sized(s) && Next(s, p, m).Some? && Within(s)
    ensures Within(Next(s, p, m).value)
  {
    hide Step, Next, Core1, Effect, PcIn;
    var s' := Next(s, p, m).value;
    OwnPc(s, p, m);
    forall q: nat | q < |s.task|
      ensures PcIn(s'.core.procs[q].pc, q, |s.task|)
    {
      if q != p { OtherPc(s, p, m, q); }
    }
  }

  lemma OwnPc(s: State, p: nat, m: Move)
    requires Sized(s) && Next(s, p, m).Some? && Within(s)
    ensures PcIn(Next(s, p, m).value.core.procs[p].pc, p, |s.task|)
  {
    hide Step, Core1, PcIn;
    if !m.Take? {
      var a := CoreMove(s, p, m);
      PcStays(s.core, p, a);
    }
  }

  lemma {:induction false} WithinRun(s: State, moves: seq<(nat, Move)>)
    requires Sized(s) && Run(s, moves).Some? && Within(s)
    ensures Sized(Run(s, moves).value) && Within(Run(s, moves).value)
    decreases |moves|
  {
    hide Next, Within;
    if moves != [] {
      WithinStep(s, moves[0].0, moves[0].1);
      WithinRun(Next(s, moves[0].0, moves[0].1).value, moves[1..]);
    }
  }

  /** The move that a process in the middle of acquiresleep or releasesleep makes next. */
  function NextMove(s: State, p: nat): Move
    requires Sized(s) && p < |s.task|
  {
    var pc := s.core.procs[p].pc;
    match s.task[p]
    case Acquiring(l) => if !pc.In? then Internal(SleepNext(pc)) else if l in s.locked then MustSleep else Take
    case Taken(_) => FinishAcquire
    case Releasing(_) => Clear
    case _ => if pc.In? then FinishRelease else Internal(WakeNext(pc, p, |s.task|))
  }

  /** It waits to be woken, for the spinlock, or for a process lock that is taken. */
  predicate Waits(s: State, p: nat)
    requires Sized(s) && p < |s.task|
  {
    var x := s.core.procs[p];
    match x.pc
    case Off(_, _) => x.state == SLEEPING || s.core.plock[p].Some?
    case Back(lk, _) => lk in s.core.owner
    case Wake(_, _, i) => i < |s.task| && i != p && s.core.plock[i].Some?
    case In(_) => s.task[p].Acquiring? && s.task[p].l in s.locked && s.core.plock[p].Some?
    case _ => false
  }

  lemma AcquireMoves(s: State, p: nat)
    requires Good(s) && Within(s) && p < |s.task| && (s.task[p].Acquiring? || s.task[p].Taken?)
    ensures Next(s, p, NextMove(s, p)).Some? <==> !Waits(s, p)
  {
    hide CondOk, PlockOk, ScanOk, Exclusive, Held, Justified, AboutTo;
    assert TaskOk(s.task[p], s.core.procs[p].pc) && StateOk(s.core.procs[p]);
  }

  lemma ReleaseMoves(s: State, p: nat)
    requires Good(s) && Within(s) && p < |s.task| && (s.task[p].Releasing? || s.task[p].Cleared?)
    ensures Next(s, p, NextMove(s, p)).Some? <==> !Waits(s, p)
  {
    hide Inv, Exclusive, Held, Justified, AboutTo;
    assert TaskOk(s.task[p], s.core.procs[p].pc);
  }

  /** In every run, a process in the middle of acquiresleep or releasesleep can do what its code does next,
      unless it waits to be woken or for a lock that is taken: with a free sleep-lock in front of it, it
      takes it. */
  lemma NotStuck(s: State, moves: seq<(nat, Move)>, p: nat)
    requires Start(s) && Run(s, moves).Some?
    requires var t := Run(s, moves).value; Sized(t) && p < |t.task| && t.task[p] != Idle
    ensures var t := Run(s, moves).value; Next(t, p, NextMove(t, p)).Some? <==> !Waits(t, p)
  {
    StartGood(s);
    assert Within(s);
    hide Start, Run, Good, Next, NextMove, Waits, Within;
    RunGood(s, moves);
    WithinRun(s, moves);
    var t := Run(s, moves).value;
    if t.task[p].Acquiring? || t.task[p].Taken? { AcquireMoves(t, p); } else { ReleaseMoves(t, p); }
  }
}
