/** sleep and wakeup as interleaved steps of many processes (kernel/proc.c).  A spinlock is an owner
    field; a context switch is a step that hands the process lock to the scheduler, which releases it. */
module SleepWakeup {
  import opened Common

  /** The condition locks: wait_lock, and the spinlock inside each sleep-lock. */
  datatype Lock = WaitLock | Inner(slk: nat)

  datatype Chan = OnProc(p: nat) | OnSlk(slk: nat)

  datatype RunState = RUNNING | RUNNABLE | SLEEPING

  /** Where a process is.  Comments say which locks it holds: lk the condition lock, own its own
      process lock. */
  datatype Pc =
    | Out                                  // nothing
    | In(lk: Lock)                         // lk: running under it
    | Look(lk: Lock, i: nat)               // lk, and the process lock of i
    | Sleep1(lk: Lock, ch: Chan)           // lk, own: sleep() has acquired p->lock
    | Sleep2(lk: Lock, ch: Chan)           // own: lk released
    | Sleep3(lk: Lock, ch: Chan)           // own: p->state == SLEEPING, about to switch away
    | Off(lk: Lock, ch: Chan)              // nothing: switched away
    | On(lk: Lock, ch: Chan)               // own: scheduled again, inside sleep()
    | Back(lk: Lock, ch: Chan)             // nothing: p->lock released, about to reacquire lk
    | Wake(lk: Lock, ch: Chan, i: nat)     // lk: wakeup() is about to look at process i
    | WakeAt(lk: Lock, ch: Chan, i: nat)   // lk, and the process lock of i
    | Exit1(lk: Lock)                      // lk, own
    | Exit2                                // own: lk released, about to switch away for good
    | Gone                                 // nothing: the slot has no running process

  datatype Proc = Proc(pc: Pc, state: RunState, chan: Option<Chan>)

  /** owner: who holds each condition lock; plock[i]: who holds process i's lock. */
  datatype Core = Core(procs: seq<Proc>, plock: seq<Option<nat>>, owner: map<Lock, nat>)

  datatype Act =
    | Acquire(lk: Lock) | Release
    | LookAt(i: nat) | LookDone
    | SleepCall(ch: Chan) | SleepUnlock | SleepMark | Switch | Resume | Tidy | Reacquire
    | WakeCall(ch: Chan) | WakeSkip | WakeLock | WakeTest | WakeEnd
    | ExitLock | ExitUnlock | ExitSwitch | Begin
    | Kill(q: nat)

  // ---- What a pc implies ----

  /** The condition lock held at a pc. */
  function Cond(pc: Pc): Option<Lock> {
    match pc
    case In(lk) => Some(lk)
    case Look(lk, _) => Some(lk)
    case Sleep1(lk, _) => Some(lk)
    case Wake(lk, _, _) => Some(lk)
    case WakeAt(lk, _, _) => Some(lk)
    case Exit1(lk) => Some(lk)
    case _ => None
  }

  /** The process lock held by p at a pc. */
  function Plock(p: nat, pc: Pc): Option<nat> {
    match pc
    case Look(_, i) => Some(i)
    case Sleep1(_, _) => Some(p)
    case Sleep2(_, _) => Some(p)
    case Sleep3(_, _) => Some(p)
    case On(_, _) => Some(p)
    case WakeAt(_, _, i) => Some(i)
    case Exit1(_) => Some(p)
    case Exit2 => Some(p)
    case _ => None
  }

  /** A process that called sleep(ch, lk), has let go of lk, and has not been made runnable. */
  predicate Sleeper(x: Proc, lk: Lock, ch: Chan) {
    || x.pc == Sleep2(lk, ch) || x.pc == Sleep3(lk, ch)
    || (x.pc == Off(lk, ch) && x.state == SLEEPING)
  }

  /** The scan of wakeup(ch) under lk has passed the processes below the result. */
  function Scanned(pc: Pc, lk: Lock, ch: Chan): nat {
    match pc
    case Wake(l, c, i) => if l == lk && c == ch then i else 0
    case WakeAt(l, c, i) => if l == lk && c == ch then i else 0
    case _ => 0
  }

  // ---- Steps ----

  function Goto(s: Core, p: nat, pc: Pc): Core
    requires p < |s.procs|
  {
    s.(procs := s.procs[p := s.procs[p].(pc := pc)])
  }

  /** Process i's lock changes hands. */
  function Grant(s: Core, i: nat, to: Option<nat>): Core
    requires i < |s.plock|
  {
    s.(plock := s.plock[i := to])
  }

  predicate PFree(s: Core, i: nat) { i < |s.procs| && i < |s.plock| && s.plock[i].None? }

  /** One step of process p; None when it cannot be taken. */
  function Step(s: Core, p: nat, a: Act): (r: Option<Core>)
    requires |s.plock| == |s.procs|
    ensures r.Some? ==> p < |s.procs| == |r.value.procs| == |r.value.plock|
  {
    if p >= |s.procs| then None else
    var x := s.procs[p];
    match (a, x.pc)
    case (Acquire(lk), Out) =>
      if lk in s.owner then None else Some(Goto(s, p, In(lk)).(owner := s.owner[lk := p]))
    case (Release, In(lk)) =>
      Some(Goto(s, p, Out).(owner := s.owner - {lk}))
    // wait() looks at a child under its lock
    case (LookAt(i), In(lk)) =>
      if PFree(s, i) then Some(Grant(Goto(s, p, Look(lk, i)), i, Some(p))) else None
    case (LookDone, Look(lk, i)) =>
      if i < |s.plock| then Some(Grant(Goto(s, p, In(lk)), i, None)) else None
    // sleep()
    case (SleepCall(ch), In(lk)) =>
      if PFree(s, p) then Some(Grant(Goto(s, p, Sleep1(lk, ch)), p, Some(p))) else None
    case (SleepUnlock, Sleep1(lk, ch)) =>
      Some(Goto(s, p, Sleep2(lk, ch)).(owner := s.owner - {lk}))
    case (SleepMark, Sleep2(lk, ch)) =>
      Some(s.(procs := s.procs[p := Proc(Sleep3(lk, ch), SLEEPING, Some(ch))]))
    case (Switch, Sleep3(lk, ch)) =>
      Some(Grant(Goto(s, p, Off(lk, ch)), p, None))
    case (Resume, Off(lk, ch)) =>
      if x.state == RUNNABLE && PFree(s, p)
      then Some(Grant(s.(procs := s.procs[p := Proc(On(lk, ch), RUNNING, x.chan)]), p, Some(p))) else None
    case (Tidy, On(lk, ch)) =>
      Some(Grant(s.(procs := s.procs[p := Proc(Back(lk, ch), x.state, None)]), p, None))
    case (Reacquire, Back(lk, ch)) =>
      if lk in s.owner then None else Some(Goto(s, p, In(lk)).(owner := s.owner[lk := p]))
    // wakeup()
    case (WakeCall(ch), In(lk)) =>
      Some(Goto(s, p, Wake(lk, ch, 0)))
    case (WakeSkip, Wake(lk, ch, i)) =>
      if i == p then Some(Goto(s, p, Wake(lk, ch, i + 1))) else None
    case (WakeLock, Wake(lk, ch, i)) =>
      if i != p && PFree(s, i) then Some(Grant(Goto(s, p, WakeAt(lk, ch, i)), i, Some(p))) else None
    case (WakeTest, WakeAt(lk, ch, i)) =>
      if i < |s.procs| && i != p then
        var y := s.procs[i];
        var y' := if y.state == SLEEPING && y.chan == Some(ch) then y.(state := RUNNABLE) else y;
        Some(Grant(Goto(s.(procs := s.procs[i := y']), p, Wake(lk, ch, i + 1)), i, None))
      else None
    case (WakeEnd, Wake(lk, ch, i)) =>
      if i == |s.procs| then Some(Goto(s, p, In(lk))) else None
    // exit()
    case (ExitLock, In(lk)) =>
      if PFree(s, p) then Some(Grant(Goto(s, p, Exit1(lk)), p, Some(p))) else None
    case (ExitUnlock, Exit1(lk)) =>
      Some(Goto(s, p, Exit2).(owner := s.owner - {lk}))
    case (ExitSwitch, Exit2) =>
      Some(Grant(Goto(s, p, Gone), p, None))
    // a new process in the slot is scheduled for the first time
    case (Begin, Gone) =>
      Some(Goto(s, p, Out))
    // kill(): under q's lock, a sleeping process is made runnable
    case (Kill(q), Out) =>
      if PFree(s, q) && s.procs[q].state == SLEEPING
      then Some(s.(procs := s.procs[q := s.procs[q].(state := RUNNABLE)])) else None
    case _ => None
  }

  // ---- The invariant ----

  /** Condition locks are held by exactly the processes whose pc says so. */
  ghost predicate CondOk(s: Core) {
    && (forall p: nat :: p < |s.procs| && Cond(s.procs[p].pc).Some? ==>
          Cond(s.procs[p].pc).value in s.owner && s.owner[Cond(s.procs[p].pc).value] == p)
    && (forall lk :: lk in s.owner ==>
          s.owner[lk] < |s.procs| && Cond(s.procs[s.owner[lk]].pc) == Some(lk))
  }

  /** So are process locks. */
  ghost predicate PlockOk(s: Core) {
    && |s.plock| == |s.procs|
    && (forall p: nat :: p < |s.procs| && Plock(p, s.procs[p].pc).Some? ==>
          Plock(p, s.procs[p].pc).value < |s.plock| && s.plock[Plock(p, s.procs[p].pc).value] == Some(p))
    && (forall i: nat :: i < |s.plock| && s.plock[i].Some? ==>
          s.plock[i].value < |s.procs| && Plock(s.plock[i].value, s.procs[s.plock[i].value].pc) == Some(i))
  }

  /** State and channel agree with the pc. */
  ghost predicate StateOk(x: Proc) {
    match x.pc
    case Sleep3(_, ch) => x.state == SLEEPING && x.chan == Some(ch)
    case Off(_, ch) => x.state == RUNNABLE || (x.state == SLEEPING && x.chan == Some(ch))
    case _ => x.state == RUNNING
  }

  /** Processes that p's wakeup scan has passed are not sleeping there. */
  ghost predicate ScanOk(s: Core, p: nat)
    requires p < |s.procs|
  {
    forall lk, ch, q: nat :: q < Scanned(s.procs[p].pc, lk, ch) && q < |s.procs| && q != p ==>
      !Sleeper(s.procs[q], lk, ch)
  }

  ghost predicate Inv(s: Core) {
    && CondOk(s) && PlockOk(s)
    && (forall p: nat :: p < |s.procs| ==> StateOk(s.procs[p]) && ScanOk(s, p))
  }

  ghost predicate Init(s: Core) {
    && |s.plock| == |s.procs| && s.owner == map[]
    && (forall p: nat :: p < |s.procs| ==> (s.procs[p] == Proc(Out, RUNNING, None) || s.procs[p] == Proc(Gone, RUNNING, None)) && s.plock[p].None?)
  }

  // ---- Every step keeps the invariant ----

  /** Only p's pc differs, as far as locks go. */
  ghost predicate Others(s: Core, s': Core, p: nat) {
    && |s'.procs| == |s.procs| && p < |s.procs|
    && (forall q: nat :: q < |s.procs| && q != p ==> s'.procs[q].pc == s.procs[q].pc)
  }

  lemma CondSame(s: Core, s': Core, p: nat)
    requires CondOk(s) && Others(s, s', p) && s'.owner == s.owner
    requires Cond(s'.procs[p].pc) == Cond(s.procs[p].pc)
    ensures CondOk(s')
  {
    hide Cond;
  }

  lemma CondTake(s: Core, s': Core, p: nat, lk: Lock)
    requires CondOk(s) && Others(s, s', p) && lk !in s.owner && s'.owner == s.owner[lk := p]
    requires Cond(s.procs[p].pc).None? && Cond(s'.procs[p].pc) == Some(lk)
    ensures CondOk(s')
  {
    hide Cond;
  }

  lemma CondDrop(s: Core, s': Core, p: nat, lk: Lock)
    requires CondOk(s) && Others(s, s', p) && s'.owner == s.owner - {lk}
    requires Cond(s.procs[p].pc) == Some(lk) && Cond(s'.procs[p].pc).None?
    ensures CondOk(s')
  {
    hide Cond;
  }

  lemma PlockSame(s: Core, s': Core, p: nat)
    requires PlockOk(s) && Others(s, s', p) && s'.plock == s.plock
    requires Plock(p, s'.procs[p].pc) == Plock(p, s.procs[p].pc)
    ensures PlockOk(s')
  {
    hide Plock;
  }

  lemma PlockTake(s: Core, s': Core, p: nat, i: nat)
    requires PlockOk(s) && Others(s, s', p) && PFree(s, i) && s'.plock == s.plock[i := Some(p)]
    requires Plock(p, s.procs[p].pc).None? && Plock(p, s'.procs[p].pc) == Some(i)
    ensures PlockOk(s')
  {
    hide Plock;
  }

  lemma PlockDrop(s: Core, s': Core, p: nat, i: nat)
    requires PlockOk(s) && Others(s, s', p) && i < |s.plock| && s'.plock == s.plock[i := None]
    requires Plock(p, s.procs[p].pc) == Some(i) && Plock(p, s'.procs[p].pc).None?
    ensures PlockOk(s')
  {
    hide Plock;
  }

  lemma OnlyOne(s: Core, p: nat, a: Act)
    requires |s.plock| == |s.procs| && Step(s, p, a).Some?
    ensures Others(s, Step(s, p, a).value, p) && |Step(s, p, a).value.plock| == |s.procs|
  {
  }

  lemma CondStep(s: Core, p: nat, a: Act)
    requires CondOk(s) && |s.plock| == |s.procs| && Step(s, p, a).Some?
    ensures CondOk(Step(s, p, a).value)
  {
    hide CondOk, Others;
    OnlyOne(s, p, a);
    var s' := Step(s, p, a).value;
    match a
    case Acquire(lk) => CondTake(s, s', p, lk);
    case Reacquire => CondTake(s, s', p, s.procs[p].pc.lk);
    case Release => CondDrop(s, s', p, s.procs[p].pc.lk);
    case SleepUnlock => CondDrop(s, s', p, s.procs[p].pc.lk);
    case ExitUnlock => CondDrop(s, s', p, s.procs[p].pc.lk);
    case _ => CondSame(s, s', p);
  }

  lemma PlockStep(s: Core, p: nat, a: Act)
    requires PlockOk(s) && |s.plock| == |s.procs| && Step(s, p, a).Some?
    ensures PlockOk(Step(s, p, a).value)
  {
    hide Others, PlockOk;
    OnlyOne(s, p, a);
    var s' := Step(s, p, a).value;
    match a
    case LookAt(i) => PlockTake(s, s', p, i);
    case WakeLock => PlockTake(s, s', p, s.procs[p].pc.i);
    case SleepCall(_) => PlockTake(s, s', p, p);
    case Resume => PlockTake(s, s', p, p);
    case ExitLock => PlockTake(s, s', p, p);
    case LookDone => PlockDrop(s, s', p, s.procs[p].pc.i);
    case WakeTest => PlockDrop(s, s', p, s.procs[p].pc.i);
    case Switch => PlockDrop(s, s', p, p);
    case Tidy => PlockDrop(s, s', p, p);
    case ExitSwitch => PlockDrop(s, s', p, p);
    case _ => PlockSame(s, s', p);
  }

  /** A step leaves the other processes alone, but that wakeup makes one that sleeps on its channel runnable,
      and kill its victim, under the lock of that process. */
  lemma OtherProc(s: Core, p: nat, a: Act, q: nat)
    requires |s.plock| == |s.procs| && Step(s, p, a).Some? && q < |s.procs| && q != p
    ensures var y, y' := s.procs[q], Step(s, p, a).value.procs[q];
            || y' == y
            || (&& y.state == SLEEPING && y' == y.(state := RUNNABLE)
                && (Plock(p, s.procs[p].pc) == Some(q) || s.plock[q].None?)
                && (a == Kill(q) || (s.procs[p].pc.WakeAt? && s.procs[p].pc.i == q && y.chan == Some(s.procs[p].pc.ch))))
  {
  }

  lemma OwnState(s: Core, p: nat, a: Act)
    requires |s.plock| == |s.procs| && Step(s, p, a).Some? && StateOk(s.procs[p])
    ensures StateOk(Step(s, p, a).value.procs[p])
  {
  }

  lemma StateStep(s: Core, p: nat, a: Act, q: nat)
    requires Inv(s) && Step(s, p, a).Some? && q < |s.procs|
    ensures StateOk(Step(s, p, a).value.procs[q])
  {
    hide CondOk, ScanOk, Step;
    assert StateOk(s.procs[q]);
    if q == p { OwnState(s, p, a); } else { OtherProc(s, p, a, q); }
  }

  /** Whoever scans for (lk, ch) holds lk. */
  lemma ScannerHolds(s: Core, w: nat, lk: Lock, ch: Chan)
    requires CondOk(s) && w < |s.procs| && Scanned(s.procs[w].pc, lk, ch) > 0
    ensures lk in s.owner && s.owner[lk] == w
  {
  }

  /** A process whose lock somebody else holds is not on its way to sleep: it is either not sleeping
      at all, or switched away. */
  lemma LockedSleeper(s: Core, p: nat, i: nat, lk: Lock, ch: Chan)
    requires PlockOk(s) && i < |s.procs| && i != p && s.plock[i] == Some(p) && Sleeper(s.procs[i], lk, ch)
    ensures s.procs[i].pc == Off(lk, ch) && s.procs[i].state == SLEEPING
  {
  }

  lemma OwnSleep(s: Core, p: nat, a: Act, lk: Lock, ch: Chan)
    requires |s.plock| == |s.procs| && Step(s, p, a).Some? && Sleeper(Step(s, p, a).value.procs[p], lk, ch)
    ensures Sleeper(s.procs[p], lk, ch) || s.procs[p].pc == Sleep1(lk, ch)
  {
  }

  /** Which processes can become sleepers in a step: only one that lets go of the lock. */
  lemma NewSleeper(s: Core, p: nat, a: Act, q: nat, lk: Lock, ch: Chan)
    requires |s.plock| == |s.procs| && Step(s, p, a).Some? && q < |s.procs|
    requires Sleeper(Step(s, p, a).value.procs[q], lk, ch)
    ensures Sleeper(s.procs[q], lk, ch) || (q == p && s.procs[p].pc == Sleep1(lk, ch))
  {
    hide Step;
    if q == p { OwnSleep(s, p, a, lk, ch); } else { OtherProc(s, p, a, q); }
  }

  /** A scan moves on by one, past its own process or past one that it has tested. */
  lemma Advance(s: Core, p: nat, a: Act, lk: Lock, ch: Chan)
    requires |s.plock| == |s.procs| && Step(s, p, a).Some?
    ensures var was, now := Scanned(s.procs[p].pc, lk, ch), Scanned(Step(s, p, a).value.procs[p].pc, lk, ch);
            now > was ==> now == was + 1 && (was == p || (a.WakeTest? && s.procs[p].pc == WakeAt(lk, ch, was)))
  {
  }

  lemma TestResult(s: Core, p: nat, lk: Lock, ch: Chan, q: nat)
    requires |s.plock| == |s.procs| && Step(s, p, WakeTest).Some? && s.procs[p].pc == WakeAt(lk, ch, q)
    ensures q < |s.procs| && q != p
    ensures var y := s.procs[q];
            Step(s, p, WakeTest).value.procs[q] ==
            if y.state == SLEEPING && y.chan == Some(ch) then y.(state := RUNNABLE) else y
  {
  }

  lemma HasPlock(s: Core, p: nat, i: nat)
    requires PlockOk(s) && p < |s.procs| && Plock(p, s.procs[p].pc) == Some(i)
    ensures i < |s.plock| && s.plock[i] == Some(p)
  {
  }

  lemma Tested(s: Core, p: nat, lk: Lock, ch: Chan, q: nat)
    requires PlockOk(s) && Step(s, p, WakeTest).Some? && s.procs[p].pc == WakeAt(lk, ch, q)
    requires q < |s.procs| && StateOk(s.procs[q])
    ensures !Sleeper(Step(s, p, WakeTest).value.procs[q], lk, ch)
  {
    HasPlock(s, p, q);
    hide Step, PlockOk;
    TestResult(s, p, lk, ch, q);
    if Sleeper(s.procs[q], lk, ch) { LockedSleeper(s, p, q, lk, ch); }
  }

  /** A scan moves on only past a process that is not a sleeper any more. */
  lemma ScanMoves(s: Core, p: nat, a: Act, w: nat, q: nat, lk: Lock, ch: Chan)
    requires PlockOk(s) && |s.plock| == |s.procs| && Step(s, p, a).Some? && w < |s.procs| && q < |s.procs| && q != w
    requires StateOk(s.procs[q])
    requires q < Scanned(Step(s, p, a).value.procs[w].pc, lk, ch)
    ensures q < Scanned(s.procs[w].pc, lk, ch) || !Sleeper(Step(s, p, a).value.procs[q], lk, ch)
  {
    hide Step, PlockOk, Sleeper;
    OnlyOne(s, p, a);
    if w == p && q >= Scanned(s.procs[w].pc, lk, ch) {
      Advance(s, p, a, lk, ch);
      Tested(s, p, lk, ch, q);
    }
  }

  /** Nobody starts to sleep under a lock somebody else holds, and a sleeper that holds its own
      process lock makes the scan wait for it. */
  lemma ScanStep(s: Core, p: nat, a: Act, w: nat)
    requires Inv(s) && Step(s, p, a).Some? && w < |s.procs|
    ensures ScanOk(Step(s, p, a).value, w)
  {
    hide Step, Sleeper, Scanned, CondOk;
    var s' := Step(s, p, a).value;
    OnlyOne(s, p, a);
    assert ScanOk(s, w);
    forall lk, ch, q: nat | q < Scanned(s'.procs[w].pc, lk, ch) && q < |s.procs| && q != w
      ensures !Sleeper(s'.procs[q], lk, ch)
    {
      if Sleeper(s'.procs[q], lk, ch) {
        ScanMoves(s, p, a, w, q, lk, ch);
        NewSleeper(s, p, a, q, lk, ch);
        ScannerHolds(s, w, lk, ch);
        HasCond(s, q, lk);
      }
    }
  }

  lemma HasCond(s: Core, q: nat, lk: Lock)
    requires CondOk(s) && q < |s.procs|
    ensures Cond(s.procs[q].pc) == Some(lk) ==> lk in s.owner && s.owner[lk] == q
  {
  }

  lemma InvStep(s: Core, p: nat, a: Act)
    requires Inv(s) && Step(s, p, a).Some?
    ensures Inv(Step(s, p, a).value)
  {
    hide Step, CondOk, ScanOk;
    OnlyOne(s, p, a);
    CondStep(s, p, a);
    PlockStep(s, p, a);
    forall w: nat | w < |s.procs|
      ensures StateOk(Step(s, p, a).value.procs[w]) && ScanOk(Step(s, p, a).value, w)
    {
      StateStep(s, p, a, w);
      ScanStep(s, p, a, w);
    }
  }

  /** No lost wakeup: when a wakeup(ch) issued under lk has gone through the process table, no process
      that called sleep(ch, lk) is left waiting, in whatever order their steps were interleaved. */
  lemma NoLostWakeup(s: Core, w: nat, lk: Lock, ch: Chan, q: nat)
    requires Inv(s) && w < |s.procs| && s.procs[w].pc == Wake(lk, ch, |s.procs|) && q < |s.procs|
    ensures !Sleeper(s.procs[q], lk, ch)
    ensures s.procs[q].pc == Off(lk, ch) ==> s.procs[q].state == RUNNABLE
  {
    assert ScanOk(s, w) && StateOk(s.procs[q]);
    assert Scanned(s.procs[w].pc, lk, ch) == |s.procs|;
  }

  // ---- For the users of sleep and wakeup ----

  /** The holder of lk is inside wakeup(ch) and has not yet passed process q. */
  ghost predicate BeingWoken(s: Core, lk: Lock, ch: Chan, q: nat) {
    && lk in s.owner && s.owner[lk] < |s.procs|
    && (s.procs[s.owner[lk]].pc.Wake? || s.procs[s.owner[lk]].pc.WakeAt?)
    && s.procs[s.owner[lk]].pc.ch == ch && s.procs[s.owner[lk]].pc.i <= q
  }

  lemma OwnerStays(s: Core, p: nat, a: Act, lk: Lock)
    requires CondOk(s) && |s.plock| == |s.procs| && Step(s, p, a).Some?
    requires lk in s.owner && s.owner[lk] != p
    ensures lk in Step(s, p, a).value.owner && Step(s, p, a).value.owner[lk] == s.owner[lk]
  {
  }

  /** The process inside wakeup goes on with it as long as q is ahead. */
  lemma OwnScan(s: Core, p: nat, a: Act, lk: Lock, ch: Chan, q: nat)
    requires CondOk(s) && |s.plock| == |s.procs| && Step(s, p, a).Some? && q < |s.procs| && q != p
    requires BeingWoken(s, lk, ch, q) && s.owner[lk] == p
    requires a.WakeTest? ==> s.procs[p].pc.WakeAt? && s.procs[p].pc.i != q
    ensures BeingWoken(Step(s, p, a).value, lk, ch, q)
  {
  }

  /** A process that is about to be woken is woken or stays about to be. */
  lemma WakerStays(s: Core, p: nat, a: Act, lk: Lock, ch: Chan, q: nat)
    requires Inv(s) && Step(s, p, a).Some? && q < |s.procs|
    requires BeingWoken(s, lk, ch, q) && Sleeper(s.procs[q], lk, ch) && Sleeper(Step(s, p, a).value.procs[q], lk, ch)
    ensures BeingWoken(Step(s, p, a).value, lk, ch, q)
  {
    hide Step, ScanOk;
    OnlyOne(s, p, a);
    var w := s.owner[lk];
    if p != w {
      OwnerStays(s, p, a, lk);
    } else {
      assert StateOk(s.procs[q]);
      assert Cond(s.procs[w].pc) == Some(lk);
      if a.WakeTest? && s.procs[w].pc == WakeAt(lk, ch, q) { Tested(s, p, lk, ch, q); }
      if a.WakeTest? { TestAt(s, p, a); }
      OwnScan(s, p, a, lk, ch, q);
    }
  }

  lemma TestAt(s: Core, p: nat, a: Act)
    requires |s.plock| == |s.procs| && Step(s, p, a).Some? && a.WakeTest?
    ensures s.procs[p].pc.WakeAt?
  {
  }

  // ---- What comes next ----

  /** Scans stay inside the table. */
  predicate PcIn(pc: Pc, p: nat, n: nat) {
    match pc
    case Look(_, i) => i < n
    case Wake(_, _, i) => i <= n
    case WakeAt(_, _, i) => i < n && i != p
    case _ => true
  }

  lemma PcStays(s: Core, p: nat, a: Act)
    requires |s.plock| == |s.procs| && Step(s, p, a).Some? && PcIn(s.procs[p].pc, p, |s.procs|)
    ensures PcIn(Step(s, p, a).value.procs[p].pc, p, |s.procs|)
  {
  }

  /** The next step inside sleep. */
  function SleepNext(pc: Pc): Act {
    match pc
    case Sleep1(_, _) => SleepUnlock
    case Sleep2(_, _) => SleepMark
    case Sleep3(_, _) => Switch
    case Off(_, _) => Resume
    case On(_, _) => Tidy
    case _ => Reacquire
  }

  /** The next step inside wakeup. */
  function WakeNext(pc: Pc, p: nat, n: nat): Act {
    match pc
    case Wake(_, _, i) => if i == n then WakeEnd else if i == p then WakeSkip else WakeLock
    case _ => WakeTest
  }
}
