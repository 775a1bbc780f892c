/** Nobody inside wait, exit or fork is stuck but for a lock that is taken or a wakeup that has not come
    (kernel/proc.c). */
module WaitProgress {
  import opened Common
  import opened SleepWakeup
  import opened WaitExit

  // ---- Scans stay inside the table ----

  predicate TaskIn(t: Task, n: nat) {
    match t
    case Scan(i, _) => i <= n
    case Peek(i) => i < n
    case Reparent(j) => j <= n
    case Rewake(j) => j <= n
    case _ => true
  }

  ghost predicate Within(s: State)
    requires Sized(s)
  {
    forall p: nat :: p < |s.task| ==> PcIn(s.core.procs[p].pc, p, |s.task|) && TaskIn(s.task[p], |s.task|)
  }

  lemma TaskStays(s: State, p: nat, m: Move)
    requires Sized(s) && Next(s, p, m).Some? && TaskIn(s.task[p], |s.task|)
    ensures TaskIn(Next(s, p, m).value.task[p], |s.task|)
  {
    hide Step, Next, CoreAct;
    CoreMove(s, p, m);
  }

  lemma WithinStep(s: State, p: nat, m: Move)
    requires Sized(s) && Next(s, p, m).Some? && Within(s)
    ensures Within(Next(s, p, m).value)
  {
    hide Step, Next, CoreAct, Effect, Enabled;
    var s' := Next(s, p, m).value;
    CoreMove(s, p, m);
    TaskStays(s, p, m);
    if CoreAct(s, p, m).Some? { PcStays(s.core, p, CoreAct(s, p, m).value); }
    forall q: nat | q < |s.task|
      ensures PcIn(s'.core.procs[q].pc, q, |s.task|) && TaskIn(s'.task[q], |s.task|)
    {
      if q != p { OthersKept(s, p, m, q); }
    }
  }

  lemma {:induction false} WithinRun(s: State, moves: seq<(nat, Move)>)
    requires Sized(s) && Run(s, moves).Some? && Within(s)
    ensures Sized(Run(s, moves).value) && Within(Run(s, moves).value)
    decreases |moves|
  {
    hide Next, Within;
    if moves != [] {
      WithinStep(s, moves[0].0, moves[0].1);
      WithinRun(Next(s, moves[0].0, moves[0].1).value, moves[1..]);
    }
  }

  // ---- What the code does next ----

  /** The move that a process makes next, when nothing fails. */
  function NextMove(s: State, p: nat): Move
    requires Sized(s) && p < |s.task|
  {
    var n, pc := |s.task|, s.core.procs[p].pc;
    match s.task[p]
    case Scan(i, kids) =>
      if i < n then (if s.parent[i] == Some(p) then Look1 else Skip) else if kids then Doze else GiveUp(false)
    case Peek(i) => if i < n && s.life[i] == Zombie then Reap else Pass
    case Waiting => if pc.In? then Rescan else Internal(SleepNext(pc))
    case Fork1(_) => ForkLock
    case Fork2(_) => ForkUnlock
    case Fork3(_) => ForkRun
    case Reparent(j) => if j >= n then CallNotify else if s.parent[j] == Some(p) then ReparentHit else ReparentSkip
    case Rewake(_) => if pc.In? then ReparentNext else Internal(WakeNext(pc, p, n))
    case Notify => if pc.In? then LockSelf else Internal(WakeNext(pc, p, n))
    case Dying => MarkZombie
    case Dead => if pc.Exit1? then Leave else Internal(ExitSwitch)
    case _ => FinishWait
  }

  /** It is about to take wait_lock. */
  predicate WantsWait(t: Task, pc: Pc) { t.Fork1? || pc.Back? }

  /** The process whose lock it is about to take. */
  function WantsProc(s: State, p: nat): Option<nat>
    requires Sized(s) && p < |s.task|
  {
    var n, pc := |s.task|, s.core.procs[p].pc;
    if pc.Off? then Some(p)
    else if pc.Wake? then (if pc.i < n && pc.i != p then Some(pc.i) else None)
    else match s.task[p]
      case Scan(i, kids) =>
        if i < n then (if s.parent[i] == Some(p) then Some(i) else None) else if kids then Some(p) else None
      case Fork3(q) => Some(q)
      case Notify => if pc.In? then Some(p) else None
      case _ => None
  }

  /** It waits for a lock that is taken, or to be woken. */
  predicate Waits(s: State, p: nat)
    requires Sized(s) && p < |s.task|
  {
    || (s.core.procs[p].pc.Off? && s.core.procs[p].state == SLEEPING)
    || (WantsWait(s.task[p], s.core.procs[p].pc) && WaitLock in s.core.owner)
    || (var i := WantsProc(s, p); i.Some? && i.value < |s.task| && s.core.plock[i.value].Some?)
  }

  /** In the middle of wait, exit or fork. */
  predicate Busy(s: State, p: nat)
    requires Sized(s) && p < |s.task|
  {
    !s.task[p].Idle? && !s.task[p].Stuck? && s.core.procs[p].pc != Gone
  }

  lemma WaitMovesOn(s: State, p: nat)
    requires Good(s) && Within(s) && p < |s.task| && Busy(s, p)
    requires s.task[p].Scan? || s.task[p].Peek? || s.task[p].Childless? || s.task[p].Killed? || s.task[p].Faulted?
             || s.task[p].Reaped?
    ensures Next(s, p, NextMove(s, p)).Some? <==> !Waits(s, p)
  {
    hide Inv, ForkOk, Family, LifeOk;
    assert TaskOk(s, p);
  }

  lemma SleepMovesOn(s: State, p: nat)
    requires Good(s) && Within(s) && p < |s.task| && Busy(s, p) && s.task[p].Waiting?
    ensures Next(s, p, NextMove(s, p)).Some? <==> !Waits(s, p)
  {
    hide CondOk, PlockOk, ScanOk, ForkOk, Family, LifeOk;
    assert TaskOk(s, p) && StateOk(s.core.procs[p]);
  }

  lemma ForkMovesOn(s: State, p: nat)
    requires Good(s) && Within(s) && p < |s.task| && Busy(s, p) && Forks(s.task[p])
    ensures Next(s, p, NextMove(s, p)).Some? <==> !Waits(s, p)
  {
    hide Inv, Family, LifeOk;
    assert TaskOk(s, p);
  }

  lemma ReparentMovesOn(s: State, p: nat)
    requires Good(s) && Within(s) && p < |s.task| && Busy(s, p) && (s.task[p].Reparent? || s.task[p].Rewake?)
    ensures Next(s, p, NextMove(s, p)).Some? <==> !Waits(s, p)
  {
    hide Inv, ForkOk, Family, LifeOk;
    assert TaskOk(s, p);
  }

  lemma NotifyMovesOn(s: State, p: nat)
    requires Good(s) && Within(s) && p < |s.task| && Busy(s, p) && s.task[p].Notify?
    ensures Next(s, p, NextMove(s, p)).Some? <==> !Waits(s, p)
  {
    hide Inv, ForkOk, Family, LifeOk;
    assert TaskOk(s, p);
  }

  lemma LeaveMovesOn(s: State, p: nat)
    requires Good(s) && Within(s) && p < |s.task| && Busy(s, p) && (s.task[p].Dying? || s.task[p].Dead?)
    ensures Next(s, p, NextMove(s, p)).Some? <==> !Waits(s, p)
  {
    hide Inv, ForkOk, Family, LifeOk;
    assert TaskOk(s, p);
  }

  /** In every run from boot, a process in the middle of wait, exit or fork can do what its code does next,
      unless it waits for a lock that is taken or to be woken. */
  lemma NotStuck(s: State, moves: seq<(nat, Move)>, p: nat)
    requires Boot(s) && Run(s, moves).Some?
    requires var t := Run(s, moves).value; Sized(t) && p < |t.task| && Busy(t, p)
    ensures var t := Run(s, moves).value; Next(t, p, NextMove(t, p)).Some? <==> !Waits(t, p)
  {
    BootGood(s);
    assert Within(s);
    hide Boot, Run, Good, Next, NextMove, Waits, Within;
    RunGood(s, moves);
    WithinRun(s, moves);
    var t := Run(s, moves).value;
    match t.task[p]
    case Waiting => SleepMovesOn(t, p);
    case Fork1(_) => ForkMovesOn(t, p);
    case Fork2(_) => ForkMovesOn(t, p);
    case Fork3(_) => ForkMovesOn(t, p);
    case Reparent(_) => ReparentMovesOn(t, p);
    case Rewake(_) => ReparentMovesOn(t, p);
    case Notify => NotifyMovesOn(t, p);
    case Dying => LeaveMovesOn(t, p);
    case Dead => LeaveMovesOn(t, p);
    case _ => WaitMovesOn(t, p);
  }
}
