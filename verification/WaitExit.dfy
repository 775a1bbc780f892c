/** wait, exit, reparent and fork as clients of sleep and wakeup (kernel/proc.c). */
module WaitExit {
  import opened Common
  import opened SleepWakeup

  /** p->state, as far as the family cares. */
  datatype Life = Unused | Embryo | Ready | Live | Zombie

  /** What a process is doing. */
  datatype Task =
    | Idle
    | Scan(i: nat, kids: bool)   // wait: about to look at slot i
    | Peek(i: nat)               // wait: holding the lock of child i
    | Waiting                    // wait: inside sleep, or just back
    | Childless | Killed         // wait: about to return -1
    | Faulted                    // wait: about to return -1 after a failing copyout
    | Stuck(i: nat)              // wait_stat: has returned -1 without releasing its locks
    | Reaped(i: nat)             // wait: about to return the pid of i
    | Fork1(q: nat)              // fork: slot q allocated
    | Fork2(q: nat)              // fork: holding wait_lock
    | Fork3(q: nat)              // fork: np->parent set
    | Reparent(j: nat)           // exit: about to look at slot j
    | Rewake(j: nat)             // exit: inside wakeup(initproc); slot j is next
    | Notify                     // exit: inside wakeup(p->parent), or just back
    | Dying                      // exit: holding p->lock
    | Dead                       // exit: p->state == ZOMBIE

  datatype State = State(core: Core, parent: seq<Option<nat>>, life: seq<Life>, init: nat, task: seq<Task>)

  datatype Move =
    | StartWait | Skip | Look1 | Reap | CopyFail | StatFail | Pass | GiveUp(killed: bool) | Doze | Rescan | FinishWait
    | ForkAlloc(q: nat) | ForkFail | ForkLock | ForkUnlock | ForkRun | Start
    | StartExit | ReparentSkip | ReparentHit | ReparentNext | CallNotify | LockSelf | MarkZombie | Leave
    | Internal(a: Act)

  /** Steps inside sleep(), wakeup(), kill() and the last switch. */
  predicate Inside(a: Act) {
    a.SleepUnlock? || a.SleepMark? || a.Switch? || a.Resume? || a.Tidy? || a.Reacquire?
    || a.WakeSkip? || a.WakeLock? || a.WakeTest? || a.WakeEnd? || a.ExitSwitch? || a.Kill?
  }

  predicate Sized(s: State) {
    |s.core.plock| == |s.core.procs| == |s.parent| == |s.life| == |s.task|
  }

  /** The channel of wakeup(p->parent); nobody sleeps on a null pointer. */
  function ParentChan(s: State, p: nat): Chan
    requires p < |s.parent|
  {
    if s.parent[p].Some? then OnProc(s.parent[p].value) else OnProc(|s.parent|)
  }

  /** The step of sleep and wakeup that a move makes, if it makes one. */
  function CoreAct(s: State, p: nat, m: Move): Option<Act>
    requires Sized(s) && p < |s.task|
  {
    match (m, s.task[p])
    case (StartWait, _) => Some(Acquire(WaitLock))
    case (Look1, Scan(i, _)) => Some(LookAt(i))
    case (Reap, _) => Some(LookDone)
    case (CopyFail, _) => Some(LookDone)
    case (Pass, _) => Some(LookDone)
    case (Doze, _) => Some(SleepCall(OnProc(p)))
    case (FinishWait, _) => Some(Release)
    case (ForkLock, _) => Some(Acquire(WaitLock))
    case (ForkUnlock, _) => Some(Release)
    case (Start, _) => Some(Begin)
    case (StartExit, _) => Some(Acquire(WaitLock))
    case (ReparentHit, _) => Some(WakeCall(OnProc(s.init)))
    case (CallNotify, _) => Some(WakeCall(ParentChan(s, p)))
    case (LockSelf, _) => Some(ExitLock)
    case (Leave, _) => Some(ExitUnlock)
    case (Internal(a), _) => Some(a)
    case _ => None
  }

  /** When the code makes a move. */
  predicate Enabled(s: State, p: nat, m: Move)
    requires Sized(s) && p < |s.task|
  {
    var n := |s.task|;
    match (m, s.task[p])
    case (StartWait, Idle) => true
    case (Skip, Scan(i, _)) => i < n && s.parent[i] != Some(p)
    case (Look1, Scan(i, _)) => i < n && s.parent[i] == Some(p)
    case (Reap, Peek(i)) => i < n && s.life[i] == Zombie
    case (CopyFail, Peek(i)) => i < n && s.life[i] == Zombie
    case (StatFail, Peek(i)) => i < n && s.life[i] == Zombie
    case (Pass, Peek(i)) => i < n && s.life[i] != Zombie
    case (GiveUp(killed), Scan(i, kids)) => i == n && (!kids || killed)
    case (Doze, Scan(i, kids)) => i == n && kids
    case (Rescan, Waiting) => s.core.procs[p].pc == In(WaitLock)
    case (FinishWait, Childless) => true
    case (FinishWait, Killed) => true
    case (FinishWait, Faulted) => true
    case (FinishWait, Reaped(_)) => true
    case (ForkAlloc(q), Idle) => s.core.procs[p].pc == Out && q < n && s.life[q] == Unused
    case (ForkFail, Fork1(q)) => q < n
    case (ForkLock, Fork1(_)) => true
    case (ForkUnlock, Fork2(q)) => q < n
    case (ForkRun, Fork3(q)) => PFree(s.core, q)
    case (Start, _) => s.life[p] == Ready
    case (StartExit, Idle) => p != s.init
    case (ReparentSkip, Reparent(j)) => j < n && s.parent[j] != Some(p)
    case (ReparentHit, Reparent(j)) => j < n && s.parent[j] == Some(p)
    case (ReparentNext, Rewake(_)) => s.core.procs[p].pc == In(WaitLock)
    case (CallNotify, Reparent(j)) => j == n
    case (LockSelf, Notify) => true
    case (MarkZombie, Dying) => true
    case (Leave, Dead) => true
    case (Internal(a), _) => Inside(a)
    case _ => false
  }

  /** What a move does to the family. */
  function Effect(s: State, core: Core, p: nat, m: Move): (r: State)
    requires Sized(s) && p < |s.task| && Enabled(s, p, m)
    ensures r.core == core && r.init == s.init && |r.parent| == |r.life| == |r.task| == |s.task|
  {
    var s' := s.(core := core);
    match (m, s.task[p])
    case (StartWait, _) => s'.(task := s.task[p := Scan(0, false)])
    case (Skip, Scan(i, kids)) => s'.(task := s.task[p := Scan(i + 1, kids)])
    case (Look1, Scan(i, _)) => s'.(task := s.task[p := Peek(i)])
    case (Reap, Peek(i)) =>
      s'.(parent := s.parent[i := None], life := s.life[i := Unused], task := s.task[p := Reaped(i)])
    case (CopyFail, Peek(_)) => s'.(task := s.task[p := Faulted])
    case (StatFail, Peek(i)) => s'.(task := s.task[p := Stuck(i)])
    case (Pass, Peek(i)) => s'.(task := s.task[p := Scan(i + 1, true)])
    case (GiveUp(_), Scan(_, kids)) => s'.(task := s.task[p := if kids then Killed else Childless])
    case (Doze, _) => s'.(task := s.task[p := Waiting])
    case (Rescan, _) => s'.(task := s.task[p := Scan(0, false)])
    case (FinishWait, _) => s'.(task := s.task[p := Idle])
    case (ForkAlloc(q), _) => s'.(life := s.life[q := Embryo], task := s.task[p := Fork1(q)])
    case (ForkFail, Fork1(q)) =>
      s'.(parent := s.parent[q := None], life := s.life[q := Unused], task := s.task[p := Idle])
    case (ForkLock, Fork1(q)) => s'.(task := s.task[p := Fork2(q)])
    case (ForkUnlock, Fork2(q)) => s'.(parent := s.parent[q := Some(p)], task := s.task[p := Fork3(q)])
    case (ForkRun, Fork3(q)) => s'.(life := s.life[q := Ready], task := s.task[p := Idle])
    case (Start, _) => s'.(life := s.life[p := Live], task := s.task[p := Idle])
    case (StartExit, _) => s'.(task := s.task[p := Reparent(0)])
    case (ReparentSkip, Reparent(j)) => s'.(task := s.task[p := Reparent(j + 1)])
    case (ReparentHit, Reparent(j)) =>
      s'.(parent := s.parent[j := Some(s.init)], task := s.task[p := Rewake(j + 1)])
    case (ReparentNext, Rewake(j)) => s'.(task := s.task[p := Reparent(j)])
    case (CallNotify, _) => s'.(task := s.task[p := Notify])
    case (LockSelf, _) => s'.(task := s.task[p := Dying])
    case (MarkZombie, _) => s'.(life := s.life[p := Zombie], task := s.task[p := Dead])
    case _ => s'
  }

  function Next(s: State, p: nat, m: Move): (r: Option<State>)
    requires Sized(s)
    ensures r.Some? ==> Sized(r.value) && p < |s.task| == |r.value.task|
  {
    if p >= |s.task| || !Enabled(s, p, m) then None else
    var a := CoreAct(s, p, m);
    if a.None? then Some(Effect(s, s.core, p, m)) else
    var c := Step(s.core, p, a.value);
    if c.None? then None else
    OnlyOne(s.core, p, a.value);
    Some(Effect(s, c.value, p, m))
  }

  // ---- The invariant ----

  ghost predicate InSleep(pc: Pc, ch: Chan) {
    || pc == Sleep1(WaitLock, ch) || pc == Sleep2(WaitLock, ch) || pc == Sleep3(WaitLock, ch)
    || pc == Off(WaitLock, ch) || pc == On(WaitLock, ch) || pc == Back(WaitLock, ch)
  }

  ghost predicate InWake(pc: Pc, ch: Chan) {
    (pc.Wake? || pc.WakeAt?) && pc.lk == WaitLock && pc.ch == ch
  }

  /** The pc of a process fits what it is doing. */
  ghost predicate TaskOk(s: State, p: nat)
    requires Sized(s) && p < |s.task|
  {
    var pc := s.core.procs[p].pc;
    match s.task[p]
    case Idle => pc == Out || (pc == Gone && s.life[p] != Live)
    case Peek(i) => pc == Look(WaitLock, i)
    case Stuck(i) => pc == Look(WaitLock, i)
    case Waiting => pc == In(WaitLock) || InSleep(pc, OnProc(p))
    case Fork1(_) => pc == Out
    case Fork3(_) => pc == Out
    case Rewake(_) => pc == In(WaitLock) || InWake(pc, OnProc(s.init))
    case Notify => pc == In(WaitLock) || InWake(pc, ParentChan(s, p))
    case Dying => pc == Exit1(WaitLock)
    case Dead => pc == Exit1(WaitLock) || pc == Exit2 || pc == Gone
    case _ => pc == In(WaitLock)
  }

  /** The life of a slot fits the pc. */
  ghost predicate LifeOk(s: State, p: nat)
    requires Sized(s) && p < |s.task|
  {
    match s.life[p]
    case Live => s.task[p] != Dead && s.core.procs[p].pc != Gone
    case Zombie => s.task[p] == Dead
    case _ => s.core.procs[p].pc == Gone
  }

  predicate Forks(t: Task) { t.Fork1? || t.Fork2? || t.Fork3? }

  /** A slot being set up by fork is set up by one process only. */
  ghost predicate ForkOk(s: State)
    requires Sized(s)
  {
    && (forall p: nat :: p < |s.task| && Forks(s.task[p]) ==>
          s.task[p].q < |s.life| && s.life[s.task[p].q] == Embryo)
    && (forall p: nat, p': nat :: p < p' < |s.task| && Forks(s.task[p]) && Forks(s.task[p']) ==>
          s.task[p].q != s.task[p'].q)
  }

  /** How many slots a waiting process has found without a zombie child of its own. */
  function Covered(n: nat, t: Task, pc: Pc): nat {
    match t
    case Scan(i, _) => i
    case Peek(i) => i
    case Waiting => if pc.Sleep1? then n else 0
    case _ => 0
  }

  ghost predicate Seen(s: State, w: nat, c: nat)
    requires Sized(s) && w < |s.task| && c < |s.task|
  {
    && (c < Covered(|s.task|, s.task[w], s.core.procs[w].pc) && s.parent[c] == Some(w) ==> s.life[c] != Zombie)
    && (s.task[w].Scan? && !s.task[w].kids && c < s.task[w].i ==> s.parent[c] != Some(w))
    && (s.task[w].Childless? ==> s.parent[c] != Some(w))
  }

  /** exit has gone through wakeup(p->parent) and still holds wait_lock. */
  ghost predicate HasTold(s: State, w: nat)
    requires Sized(s) && w < |s.task|
  {
    || (s.task[w] == Notify && s.core.procs[w].pc == In(WaitLock))
    || ((s.task[w] == Dying || s.task[w] == Dead) && s.core.procs[w].pc == Exit1(WaitLock))
  }

  ghost predicate Told(s: State, w: nat, q: nat)
    requires Sized(s) && w < |s.task| && q < |s.task|
  {
    HasTold(s, w) && s.parent[w] == Some(q) ==> !Sleeper(s.core.procs[q], WaitLock, OnProc(q))
  }

  /** A parent asleep in wait while it has a zombie child is about to be woken. */
  ghost predicate Heard(s: State, q: nat, c: nat)
    requires Sized(s) && q < |s.task| && c < |s.task|
  {
    s.parent[c] == Some(q) && s.life[c] == Zombie && Sleeper(s.core.procs[q], WaitLock, OnProc(q)) ==>
      BeingWoken(s.core, WaitLock, OnProc(q), q)
  }

  ghost predicate Fits(s: State)
    requires Sized(s)
  {
    forall p: nat :: p < |s.task| ==> TaskOk(s, p) && LifeOk(s, p)
  }

  ghost predicate Family(s: State)
    requires Sized(s)
  {
    && (forall w: nat, c: nat :: w < |s.task| && c < |s.task| ==> Seen(s, w, c))
    && (forall w: nat, q: nat :: w < |s.task| && q < |s.task| ==> Told(s, w, q))
    && (forall q: nat, c: nat :: q < |s.task| && c < |s.task| ==> Heard(s, q, c))
  }

  ghost predicate Good(s: State) {
    Sized(s) && Inv(s.core) && Fits(s) && ForkOk(s) && Family(s)
  }

  /** At boot there is one process, with no children. */
  ghost predicate Boot(s: State) {
    && Sized(s) && Init(s.core) && s.init < |s.task|
    && (forall p: nat :: p < |s.task| ==> s.task[p] == Idle && s.parent[p] == None)
    && (forall p: nat :: p < |s.task| ==> s.life[p] == (if p == s.init then Live else Unused))
    && (forall p: nat :: p < |s.task| ==> s.core.procs[p].pc == (if p == s.init then Out else Gone))
  }

  function Initial(n: nat, init: nat): (s: State)
    requires init < n
    ensures Boot(s)
  {
    State(Core(seq(n, p => Proc(if p == init then Out else Gone, RUNNING, None)), seq(n, p => None), map[]),
          seq(n, p => None), seq(n, p => if p == init then Live else Unused), init, seq(n, p => Idle))
  }

  lemma BootGood(s: State)
    requires Boot(s)
    ensures Good(s)
  {
    assert Inv(s.core) by { assert Init(s.core); }
    hide Inv, Init;
  }

  // ---- Every move keeps it ----

  /** The new state, seen from the step of sleep and wakeup behind the move. */
  lemma CoreMove(s: State, p: nat, m: Move)
    requires Sized(s) && Next(s, p, m).Some?
    ensures p < |s.task| && Enabled(s, p, m)
    ensures var a := CoreAct(s, p, m);
            if a.None? then Next(s, p, m).value == Effect(s, s.core, p, m)
            else Step(s.core, p, a.value).Some? && Others(s.core, Step(s.core, p, a.value).value, p)
                 && Next(s, p, m).value == Effect(s, Step(s.core, p, a.value).value, p, m)
  {
    hide Step, Enabled, Effect, Others;
    if CoreAct(s, p, m).Some? { OnlyOne(s.core, p, CoreAct(s, p, m).value); }
  }

  /** Nobody else changes pc or task. */
  lemma OthersKept(s: State, p: nat, m: Move, q: nat)
    requires Sized(s) && Next(s, p, m).Some? && q < |s.task| && q != p
    ensures Next(s, p, m).value.core.procs[q].pc == s.core.procs[q].pc
    ensures Next(s, p, m).value.task[q] == s.task[q]
    ensures p < |s.task| && Next(s, p, m).value.init == s.init && |Next(s, p, m).value.task| == |s.task|
  {
    hide Step, Enabled, CoreAct, Next, Effect;
    CoreMove(s, p, m);
    EffectKeeps(s, if CoreAct(s, p, m).None? then s.core else Step(s.core, p, CoreAct(s, p, m).value).value, p, m, q);
  }

  lemma EffectKeeps(s: State, core: Core, p: nat, m: Move, q: nat)
    requires Sized(s) && p < |s.task| && Enabled(s, p, m) && q < |s.task| && q != p
    ensures var s' := Effect(s, core, p, m);
            s'.core == core && s'.task[q] == s.task[q] && s'.init == s.init && |s'.task| == |s.task|
  {
  }

  /** How a slot's life changes. */
  lemma LifeChange(s: State, p: nat, m: Move, q: nat)
    requires Sized(s) && Next(s, p, m).Some? && q < |s.task|
    ensures p < |s.task|
    ensures var l' := Next(s, p, m).value.life[q];
            || l' == s.life[q]
            || (m == Reap && s.task[p] == Peek(q) && s.life[q] == Zombie && l' == Unused)
            || (m == ForkAlloc(q) && s.life[q] == Unused && l' == Embryo)
            || (m == ForkFail && s.task[p] == Fork1(q) && l' == Unused)
            || (m == ForkRun && s.task[p] == Fork3(q) && l' == Ready)
            || (q == p && m == Start && s.life[q] == Ready && l' == Live)
            || (q == p && m == MarkZombie && s.task[p] == Dying && l' == Zombie)
  {
    hide Step, CoreAct;
    CoreMove(s, p, m);
  }

  /** How a slot's parent changes. */
  lemma ParentChange(s: State, p: nat, m: Move, c: nat)
    requires Sized(s) && Next(s, p, m).Some? && c < |s.task|
    ensures p < |s.task|
    ensures var x := Next(s, p, m).value.parent[c];
            || x == s.parent[c]
            || ((m == Reap || m == ForkFail) && x == None)
            || (m == ForkUnlock && s.task[p] == Fork2(c) && x == Some(p))
            || (m == ReparentHit && s.task[p] == Reparent(c) && x == Some(s.init))
  {
    hide Step, CoreAct;
    CoreMove(s, p, m);
  }

  /** Parents change, and zombies appear or go, only under wait_lock, except that a fork that fails gives
      its slot back. */
  lemma UnderWaitLock(s: State, p: nat, m: Move)
    requires Sized(s) && Next(s, p, m).Some? && TaskOk(s, p)
    requires Cond(s.core.procs[p].pc) != Some(WaitLock)
    ensures forall c: nat :: c < |s.task| ==>
              || Next(s, p, m).value.parent[c] == s.parent[c]
              || (s.task[p] == Fork1(c) && Next(s, p, m).value.parent[c] == None)
    ensures forall c: nat :: c < |s.task| ==> (Next(s, p, m).value.life[c] == Zombie ==> s.life[c] == Zombie)
  {
    hide Step;
    CoreMove(s, p, m);
  }

  lemma OneHolder(s: State, p: nat, w: nat)
    requires Sized(s) && Inv(s.core) && p < |s.task| && w < |s.task| && p != w
    requires Cond(s.core.procs[w].pc) == Some(WaitLock)
    ensures Cond(s.core.procs[p].pc) != Some(WaitLock)
  {
  }

  /** A step inside sleep or wakeup leaves the family alone. */
  lemma InsideEffect(s: State, p: nat, a: Act)
    requires Sized(s) && Next(s, p, Internal(a)).Some?
    ensures p < |s.task| && Inside(a) && Step(s.core, p, a).Some?
    ensures Next(s, p, Internal(a)).value == s.(core := Step(s.core, p, a).value)
  {
    hide Step;
  }

  lemma InsideMoves(s: State, p: nat, a: Act)
    requires Sized(s) && Next(s, p, Internal(a)).Some? && TaskOk(s, p)
    ensures TaskOk(Next(s, p, Internal(a)).value, p)
  {
    hide Next;
    InsideEffect(s, p, a);
  }

  predicate InWait(m: Move) {
    || m.StartWait? || m.Skip? || m.Look1? || m.Reap? || m.CopyFail? || m.StatFail? || m.Pass? || m.GiveUp?
    || m.Doze? || m.Rescan? || m.FinishWait?
  }

  lemma WaitMoves(s: State, p: nat, m: Move)
    requires Sized(s) && Next(s, p, m).Some? && TaskOk(s, p) && InWait(m)
    ensures TaskOk(Next(s, p, m).value, p)
  {
  }

  predicate InFork(m: Move) {
    m.ForkAlloc? || m.ForkFail? || m.ForkLock? || m.ForkUnlock? || m.ForkRun? || m.Start?
  }

  lemma ForkMoves(s: State, p: nat, m: Move)
    requires Sized(s) && Next(s, p, m).Some? && TaskOk(s, p) && InFork(m)
    ensures TaskOk(Next(s, p, m).value, p)
  {
  }

  predicate InReparent(m: Move) { m.StartExit? || m.ReparentSkip? || m.ReparentHit? || m.ReparentNext? }

  lemma ReparentMoves(s: State, p: nat, m: Move)
    requires Sized(s) && Next(s, p, m).Some? && TaskOk(s, p) && InReparent(m)
    ensures TaskOk(Next(s, p, m).value, p)
  {
  }

  predicate InExit(m: Move) { m.CallNotify? || m.LockSelf? || m.MarkZombie? || m.Leave? }

  lemma ExitMoves(s: State, p: nat, m: Move)
    requires Sized(s) && Next(s, p, m).Some? && TaskOk(s, p) && InExit(m)
    ensures TaskOk(Next(s, p, m).value, p)
  {
    hide Next, TaskOk;
    match m
    case CallNotify => NotifyMoves(s, p);
    case LockSelf => LockMoves(s, p);
    case MarkZombie => ZombieMoves(s, p);
    case Leave => LeaveMoves(s, p);
  }

  lemma LockMoves(s: State, p: nat)
    requires Sized(s) && Next(s, p, LockSelf).Some? && TaskOk(s, p)
    ensures TaskOk(Next(s, p, LockSelf).value, p)
  {
  }

  lemma ZombieMoves(s: State, p: nat)
    requires Sized(s) && Next(s, p, MarkZombie).Some? && TaskOk(s, p)
    ensures TaskOk(Next(s, p, MarkZombie).value, p)
  {
  }

  lemma LeaveMoves(s: State, p: nat)
    requires Sized(s) && Next(s, p, Leave).Some? && TaskOk(s, p)
    ensures TaskOk(Next(s, p, Leave).value, p)
  {
  }

  lemma NotifyMoves(s: State, p: nat)
    requires Sized(s) && Next(s, p, CallNotify).Some? && TaskOk(s, p)
    ensures TaskOk(Next(s, p, CallNotify).value, p)
  {
  }

  /** wait reaps a child only when it is off the CPU for good: the child gives up its lock last. */
  lemma ReapedGone(s: State, p: nat, i: nat)
    requires Good(s) && p < |s.task| && s.task[p] == Peek(i) && i < |s.life| && s.life[i] == Zombie
    ensures s.core.procs[i].pc == Gone && i != p
  {
    hide CondOk, ForkOk, Family;
    assert TaskOk(s, p) && TaskOk(s, i) && LifeOk(s, i);
    assert Plock(p, s.core.procs[p].pc) == Some(i);
  }

  lemma OtherTask(s: State, p: nat, m: Move, q: nat)
    requires Good(s) && Next(s, p, m).Some? && q < |s.task| && q != p
    ensures TaskOk(Next(s, p, m).value, q)
  {
    hide Inv, Family, Next, InSleep;
    OthersKept(s, p, m, q);
    assert TaskOk(s, p) && TaskOk(s, q) && LifeOk(s, q);
    assert Forks(s.task[p]) ==> s.life[s.task[p].q] == Embryo;
    hide ForkOk;
    if s.task[q] == Notify {
      OneHolder(s, p, q);
      UnderWaitLock(s, p, m);
    } else {
      LifeChange(s, p, m, q);
    }
  }

  lemma OtherLife(s: State, p: nat, m: Move, q: nat)
    requires Good(s) && Next(s, p, m).Some? && q < |s.task| && q != p
    ensures LifeOk(Next(s, p, m).value, q)
  {
    hide Inv, Family, Next, TaskOk;
    OthersKept(s, p, m, q);
    assert LifeOk(s, q);
    if m.Reap? && s.task[p] == Peek(q) && s.life[q] == Zombie { ReapedGone(s, p, q); }
    LifeChange(s, p, m, q);
    assert Forks(s.task[p]) ==> s.life[s.task[p].q] == Embryo;
  }

  lemma OwnTask(s: State, p: nat, m: Move)
    requires Good(s) && Next(s, p, m).Some?
    ensures TaskOk(Next(s, p, m).value, p)
  {
    hide Inv, Family, Next, ForkOk, TaskOk, LifeOk;
    SameSize(s, p, m);
    assert TaskOk(s, p);
    if m.Internal? {
      InsideMoves(s, p, m.a);
    } else if InWait(m) {
      WaitMoves(s, p, m);
    } else if InFork(m) {
      ForkMoves(s, p, m);
    } else if InReparent(m) {
      ReparentMoves(s, p, m);
    } else {
      ExitMoves(s, p, m);
    }
  }

  lemma InsideLife(s: State, p: nat, a: Act)
    requires Sized(s) && Next(s, p, Internal(a)).Some? && TaskOk(s, p) && LifeOk(s, p)
    ensures LifeOk(Next(s, p, Internal(a)).value, p)
  {
    hide Next;
    InsideEffect(s, p, a);
  }

  lemma WaitLife(s: State, p: nat, m: Move)
    requires Sized(s) && Next(s, p, m).Some? && TaskOk(s, p) && LifeOk(s, p) && InWait(m)
    requires m.Reap? ==> s.task[p] != Peek(p)
    ensures LifeOk(Next(s, p, m).value, p)
  {
    hide Next, Others;
    CoreMove(s, p, m);
  }

  lemma ForkLife(s: State, p: nat, m: Move)
    requires Sized(s) && Next(s, p, m).Some? && TaskOk(s, p) && LifeOk(s, p) && InFork(m)
    requires Forks(s.task[p]) ==> s.task[p].q < |s.life| && s.life[s.task[p].q] == Embryo
    ensures LifeOk(Next(s, p, m).value, p)
  {
  }

  lemma ReparentLife(s: State, p: nat, m: Move)
    requires Sized(s) && Next(s, p, m).Some? && TaskOk(s, p) && LifeOk(s, p) && InReparent(m)
    ensures LifeOk(Next(s, p, m).value, p)
  {
  }

  lemma ExitLife(s: State, p: nat, m: Move)
    requires Sized(s) && Next(s, p, m).Some? && TaskOk(s, p) && LifeOk(s, p) && InExit(m)
    ensures LifeOk(Next(s, p, m).value, p)
  {
    hide Next, Others;
    CoreMove(s, p, m);
  }

  lemma OwnLife(s: State, p: nat, m: Move)
    requires Good(s) && Next(s, p, m).Some?
    ensures LifeOk(Next(s, p, m).value, p)
  {
    hide Inv, Family, Next, TaskOk, LifeOk;
    SameSize(s, p, m);
    assert TaskOk(s, p) && LifeOk(s, p);
    if m.Internal? {
      InsideLife(s, p, m.a);
    } else if InWait(m) {
      if m.Reap? && s.task[p] == Peek(p) && s.life[p] == Zombie { ReapedGone(s, p, p); }
      CoreMove(s, p, m);
      WaitLife(s, p, m);
    } else if InFork(m) {
      ForkLife(s, p, m);
    } else if InReparent(m) {
      ReparentLife(s, p, m);
    } else {
      ExitLife(s, p, m);
    }
  }

  /** Who forks what after a move: the same, except for p's own slot. */
  lemma ForksAfter(s: State, p: nat, m: Move, x: nat)
    requires Good(s) && Next(s, p, m).Some? && x < |s.task| && Forks(Next(s, p, m).value.task[x])
    ensures var q := Next(s, p, m).value.task[x].q;
            && q < |s.life| && Next(s, p, m).value.life[q] == Embryo
            && ((Forks(s.task[x]) && s.task[x].q == q) || (x == p && s.life[q] == Unused))
  {
    hide Inv, Family, Step;
    CoreMove(s, p, m);
    if x != p {
      hide Next;
      OthersKept(s, p, m, x);
      assert TaskOk(s, p) && LifeOk(s, p);
      LifeChange(s, p, m, s.task[x].q);
    }
  }

  lemma ForkStep(s: State, p: nat, m: Move)
    requires Good(s) && Next(s, p, m).Some?
    ensures ForkOk(Next(s, p, m).value)
  {
    hide Inv, Family, Step, Next, Fits;
    var s' := Next(s, p, m).value;
    SameSize(s, p, m);
    forall x: nat | x < |s'.task| && Forks(s'.task[x])
      ensures s'.task[x].q < |s'.life| && s'.life[s'.task[x].q] == Embryo
      ensures (Forks(s.task[x]) && s.task[x].q == s'.task[x].q) || (x == p && s.life[s'.task[x].q] == Unused)
    {
      ForksAfter(s, p, m, x);
    }
  }

  lemma SameSize(s: State, p: nat, m: Move)
    requires Sized(s) && Next(s, p, m).Some?
    ensures p < |s.task| && |Next(s, p, m).value.task| == |s.task|
  {
  }

  // ---- wait's scan ----

  lemma SeenHolds(s: State, w: nat)
    requires Sized(s) && w < |s.task| && TaskOk(s, w)
    requires Covered(|s.task|, s.task[w], s.core.procs[w].pc) > 0 || s.task[w].Scan? || s.task[w].Childless?
    ensures Cond(s.core.procs[w].pc) == Some(WaitLock)
  {
  }

  lemma OtherSeen(s: State, p: nat, m: Move, w: nat, c: nat)
    requires Good(s) && Next(s, p, m).Some? && w < |s.task| && c < |s.task| && w != p
    ensures Seen(Next(s, p, m).value, w, c)
  {
    hide Inv, Next, ForkOk, LifeOk, TaskOk, Told, Heard;
    OthersKept(s, p, m, w);
    assert Seen(s, w, c) && TaskOk(s, w) && TaskOk(s, p);
    if Covered(|s.task|, s.task[w], s.core.procs[w].pc) > 0 || s.task[w].Scan? || s.task[w].Childless? {
      SeenHolds(s, w);
      OneHolder(s, p, w);
      UnderWaitLock(s, p, m);
    }
  }

  lemma InsideSeen(s: State, p: nat, a: Act, c: nat)
    requires Sized(s) && Next(s, p, Internal(a)).Some? && TaskOk(s, p) && c < |s.task| && Seen(s, p, c)
    ensures Seen(Next(s, p, Internal(a)).value, p, c)
  {
    hide Next;
    InsideEffect(s, p, a);
  }

  lemma WaitSeen(s: State, p: nat, m: Move, c: nat)
    requires Sized(s) && Next(s, p, m).Some? && TaskOk(s, p) && c < |s.task| && Seen(s, p, c) && InWait(m)
    ensures Seen(Next(s, p, m).value, p, c)
  {
    hide Step;
    CoreMove(s, p, m);
  }

  lemma ElseSeen(s: State, p: nat, m: Move, c: nat)
    requires Sized(s) && Next(s, p, m).Some? && c < |s.task| && !InWait(m) && !m.Internal?
    ensures Seen(Next(s, p, m).value, p, c)
  {
    hide Step, CoreAct;
    CoreMove(s, p, m);
  }

  lemma SeenStep(s: State, p: nat, m: Move, w: nat, c: nat)
    requires Good(s) && Next(s, p, m).Some? && w < |s.task| && c < |s.task|
    ensures Seen(Next(s, p, m).value, w, c)
  {
    hide Inv, Next, ForkOk, LifeOk, TaskOk, Told, Heard, Seen;
    SameSize(s, p, m);
    assert Seen(s, w, c) && TaskOk(s, p);
    if w != p {
      OtherSeen(s, p, m, w, c);
    } else if m.Internal? {
      InsideSeen(s, p, m.a, c);
    } else if InWait(m) {
      WaitSeen(s, p, m, c);
    } else {
      ElseSeen(s, p, m, c);
    }
  }

  // ---- exit's wakeup ----

  /** Sleepers after a move: nobody new, except a process that was about to let go of wait_lock. */
  lemma SleepersAfter(s: State, p: nat, m: Move, q: nat)
    requires Good(s) && Next(s, p, m).Some? && q < |s.task|
    requires Sleeper(Next(s, p, m).value.core.procs[q], WaitLock, OnProc(q))
    ensures Sleeper(s.core.procs[q], WaitLock, OnProc(q))
      || (q == p && s.core.procs[p].pc == Sleep1(WaitLock, OnProc(q)))
  {
    hide Step, Enabled, CoreAct, Family, Fits, ForkOk, CondOk, ScanOk, Sleeper, Next, Effect;
    CoreMove(s, p, m);
    var a := CoreAct(s, p, m);
    if a.Some? { NewSleeper(s.core, p, a.value, q, WaitLock, OnProc(q)); }
  }

  lemma OtherTold(s: State, p: nat, m: Move, w: nat, q: nat)
    requires Good(s) && Next(s, p, m).Some? && w < |s.task| && q < |s.task| && w != p
    ensures Told(Next(s, p, m).value, w, q)
  {
    hide Inv, Next, ForkOk, LifeOk, TaskOk, Seen, Heard, Sleeper;
    OthersKept(s, p, m, w);
    assert Told(s, w, q) && TaskOk(s, p);
    var s' := Next(s, p, m).value;
    if HasTold(s', w) && s'.parent[w] == Some(q) && Sleeper(s'.core.procs[q], WaitLock, OnProc(q)) {
      OneHolder(s, p, w);
      UnderWaitLock(s, p, m);
      SleepersAfter(s, p, m, q);
    }
  }

  lemma TellingInside(s: State, p: nat, a: Act)
    requires Sized(s) && Next(s, p, Internal(a)).Some? && HasTold(Next(s, p, Internal(a)).value, p)
    requires TaskOk(s, p)
    ensures HasTold(s, p) || s.core.procs[p].pc == Wake(WaitLock, ParentChan(s, p), |s.task|)
    ensures Next(s, p, Internal(a)).value.parent[p] == s.parent[p]
  {
    hide Next;
    InsideEffect(s, p, a);
  }

  /** How a process comes to have told its parent: its wakeup has gone through the table. */
  lemma TellingEnds(s: State, p: nat, m: Move)
    requires Sized(s) && Next(s, p, m).Some? && HasTold(Next(s, p, m).value, p)
    requires p < |s.task| && TaskOk(s, p) && LifeOk(s, p)
    ensures HasTold(s, p) || s.core.procs[p].pc == Wake(WaitLock, ParentChan(s, p), |s.task|)
    ensures Next(s, p, m).value.parent[p] == s.parent[p]
  {
    hide Step;
    if m.Internal? {
      hide Next;
      TellingInside(s, p, m.a);
    } else {
      CoreMove(s, p, m);
      if m.LockSelf? || m.Leave? || m.CallNotify? { TellingActs(s, p, m); }
    }
  }

  lemma TellingActs(s: State, p: nat, m: Move)
    requires Sized(s) && Next(s, p, m).Some? && (m.LockSelf? || m.Leave? || m.CallNotify?)
    ensures m.LockSelf? ==> s.core.procs[p].pc.In?
    ensures m.Leave? ==> Next(s, p, m).value.core.procs[p].pc == Exit2
    ensures m.CallNotify? ==> Next(s, p, m).value.core.procs[p].pc.Wake?
  {
  }

  lemma OwnTold(s: State, p: nat, m: Move, q: nat)
    requires Good(s) && Next(s, p, m).Some? && q < |s.task|
    ensures Told(Next(s, p, m).value, p, q)
  {
    hide Inv, Next, ForkOk, TaskOk, LifeOk, Seen, Heard;
    SameSize(s, p, m);
    var s' := Next(s, p, m).value;
    if HasTold(s', p) && s'.parent[p] == Some(q) && Sleeper(s'.core.procs[q], WaitLock, OnProc(q)) {
      SleepersAfter(s, p, m, q);
      assert TaskOk(s, p) && LifeOk(s, p) by { assert Fits(s); }
      TellingEnds(s, p, m);
      assert Told(s, p, q);
      if s.core.procs[p].pc == Wake(WaitLock, OnProc(q), |s.task|) {
        NoLostWakeup(s.core, p, WaitLock, OnProc(q), q);
      }
    }
  }

  // ---- A parent never sleeps past a child's exit ----

  /** A process about to go to sleep in wait has no zombie child, and its next step leaves the family
      alone. */
  lemma NoneToHear(s: State, p: nat, m: Move, c: nat)
    requires Good(s) && Next(s, p, m).Some? && c < |s.task| && p < |s.task|
    requires s.core.procs[p].pc == Sleep1(WaitLock, OnProc(p))
    requires Next(s, p, m).value.parent[c] == Some(p)
    ensures Next(s, p, m).value.life[c] != Zombie
  {
    hide Inv, Step, ForkOk, Told, Heard;
    assert TaskOk(s, p) && LifeOk(s, p) && Seen(s, p, c);
    CoreMove(s, p, m);
  }

  /** reparent gives a zombie to init and wakes init. */
  lemma GivenToInit(s: State, p: nat, q: nat)
    requires Good(s) && Next(s, p, ReparentHit).Some?
    ensures BeingWoken(Next(s, p, ReparentHit).value.core, WaitLock, OnProc(s.init), q)
  {
    hide PlockOk, ScanOk, ForkOk, Family;
    assert TaskOk(s, p);
  }

  lemma StillBeingWoken(s: State, p: nat, m: Move, q: nat)
    requires Good(s) && Next(s, p, m).Some? && q < |s.task| && BeingWoken(s.core, WaitLock, OnProc(q), q)
    requires Sleeper(s.core.procs[q], WaitLock, OnProc(q))
    requires Sleeper(Next(s, p, m).value.core.procs[q], WaitLock, OnProc(q))
    ensures BeingWoken(Next(s, p, m).value.core, WaitLock, OnProc(q), q)
  {
    hide Inv, Step, ForkOk, Family, Fits, Enabled, CoreAct, Sleeper, BeingWoken, Next, Effect;
    CoreMove(s, p, m);
    var a := CoreAct(s, p, m);
    if a.Some? { WakerStays(s.core, p, a.value, WaitLock, OnProc(q), q); }
  }

  lemma HeardStep(s: State, p: nat, m: Move, q: nat, c: nat)
    requires Good(s) && Next(s, p, m).Some? && q < |s.task| && c < |s.task|
    ensures Heard(Next(s, p, m).value, q, c)
  {
    hide Inv, Next, LifeOk, Seen, Sleeper, BeingWoken;
    SameSize(s, p, m);
    var s' := Next(s, p, m).value;
    if s'.parent[c] == Some(q) && s'.life[c] == Zombie && Sleeper(s'.core.procs[q], WaitLock, OnProc(q)) {
      SleepersAfter(s, p, m, q);
      if q == p && s.core.procs[p].pc == Sleep1(WaitLock, OnProc(q)) {
        NoneToHear(s, p, m, c);
      } else {
        LifeChange(s, p, m, c);
        ParentChange(s, p, m, c);
        assert TaskOk(s, p) && Told(s, c, q) && Heard(s, q, c);
        if s.parent[c] == Some(q) {
          assert s.life[c] == Zombie;
          StillBeingWoken(s, p, m, q);
        } else if m == ReparentHit {
          GivenToInit(s, p, q);
        }
      }
    }
  }

  lemma FamilyStep(s: State, p: nat, m: Move)
    requires Good(s) && Next(s, p, m).Some?
    ensures Family(Next(s, p, m).value)
  {
    hide Inv, Next, Fits, ForkOk, Seen, Told, Heard;
    SameSize(s, p, m);
    forall w: nat, c: nat | w < |s.task| && c < |s.task|
      ensures Seen(Next(s, p, m).value, w, c)
    {
      SeenStep(s, p, m, w, c);
    }
    forall w: nat, q: nat | w < |s.task| && q < |s.task|
      ensures Told(Next(s, p, m).value, w, q)
    {
      if w == p { OwnTold(s, p, m, q); } else { OtherTold(s, p, m, w, q); }
    }
    forall q: nat, c: nat | q < |s.task| && c < |s.task|
      ensures Heard(Next(s, p, m).value, q, c)
    {
      HeardStep(s, p, m, q, c);
    }
  }

  lemma GoodStep(s: State, p: nat, m: Move)
    requires Good(s) && Next(s, p, m).Some?
    ensures Good(Next(s, p, m).value)
  {
    hide Step, Inv, Fits, ForkOk, Family, Enabled, CoreAct, Next, Effect;
    FamilyStep(s, p, m);
    ForkStep(s, p, m);
    FitsStep(s, p, m);
    CoreMove(s, p, m);
    var a := CoreAct(s, p, m);
    if a.Some? { InvStep(s.core, p, a.value); }
  }

  lemma FitsStep(s: State, p: nat, m: Move)
    requires Good(s) && Next(s, p, m).Some?
    ensures Fits(Next(s, p, m).value)
  {
    hide Inv, Next, ForkOk, Family, TaskOk, LifeOk;
    SameSize(s, p, m);
    forall q: nat | q < |s.task|
      ensures TaskOk(Next(s, p, m).value, q) && LifeOk(Next(s, p, m).value, q)
    {
      if q == p {
        OwnTask(s, p, m);
        OwnLife(s, p, m);
      } else {
        OtherTask(s, p, m, q);
        OtherLife(s, p, m, q);
      }
    }
  }

  // ---- Whole runs ----

  /** The state after a run of moves; None if one of them could not be made. */
  function Run(s: State, moves: seq<(nat, Move)>): Option<State>
    requires Sized(s)
    decreases |moves|
  {
    if moves == [] then Some(s) else
    var s' := Next(s, moves[0].0, moves[0].1);
    if s'.None? then None else Run(s'.value, moves[1..])
  }

  lemma {:induction false} RunGood(s: State, moves: seq<(nat, Move)>)
    requires Good(s) && Run(s, moves).Some?
    ensures Good(Run(s, moves).value)
    decreases |moves|
  {
    hide Next, Inv, Fits, ForkOk, Family;
    if moves != [] {
      GoodStep(s, moves[0].0, moves[0].1);
      RunGood(Next(s, moves[0].0, moves[0].1).value, moves[1..]);
    }
  }

  /** In every run from boot: whenever wait_lock is free, no parent is asleep in wait while it has a
      zombie child; wait gives up as childless only when it has no child; and a child is reaped only
      when it has left the CPU for good. */
  lemma WaitSafe(s: State, moves: seq<(nat, Move)>, q: nat, c: nat)
    requires Boot(s) && Run(s, moves).Some?
    requires var t := Run(s, moves).value; Sized(t) && q < |t.task| && c < |t.task|
    ensures var t := Run(s, moves).value;
            && (WaitLock !in t.core.owner && t.parent[c] == Some(q) && t.life[c] == Zombie ==>
                  !Sleeper(t.core.procs[q], WaitLock, OnProc(q)))
            && (t.task[q] == Childless ==> t.parent[c] != Some(q))
            && (Next(t, q, Reap).Some? && t.task[q] == Peek(c) ==> t.core.procs[c].pc == Gone)
  {
    hide Next, Inv, ForkOk, LifeOk, TaskOk, Boot, Run;
    BootGood(s);
    RunGood(s, moves);
    var t := Run(s, moves).value;
    assert Seen(t, q, c) && Heard(t, q, c);
    if Next(t, q, Reap).Some? && t.task[q] == Peek(c) {
      CoreMove(t, q, Reap);
      ReapedGone(t, q, c);
    }
  }
}
