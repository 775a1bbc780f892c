/** The family over whole runs: who is whose parent, what exit does with the children, and that every exit
    is reported once (kernel/proc.c). */
module WaitFamily {
  import opened Common
  import opened SleepWakeup
  import opened WaitExit

  predicate Exiting(t: Task) { t.Reparent? || t.Rewake? || t.Notify? || t.Dying? || t.Dead? }

  /** How many slots reparent has gone through. */
  function Given(n: nat, t: Task): nat {
    match t
    case Reparent(j) => j
    case Rewake(j) => j
    case Notify => n
    case Dying => n
    case Dead => n
    case _ => 0
  }

  /** A parent is a live process that has not given c away; every process but init has one, and a slot
      that is not in use has none. */
  ghost predicate KinOk(s: State, c: nat)
    requires Sized(s) && c < |s.task|
  {
    && (s.parent[c].Some? ==>
          var q := s.parent[c].value; q < |s.task| && s.life[q] == Live && c >= Given(|s.task|, s.task[q]))
    && (s.life[c] == Unused ==> s.parent[c] == None)
    && (c != s.init && s.life[c] in {Ready, Live, Zombie} ==> s.parent[c].Some?)
    && (c == s.init ==> s.life[c] == Live && s.parent[c] == None && !Exiting(s.task[c]))
  }

  /** fork sets the child's parent before the child can run. */
  ghost predicate ForkKin(s: State, p: nat)
    requires Sized(s) && p < |s.task|
  {
    && ((s.task[p].Fork1? || s.task[p].Fork2?) && s.task[p].q < |s.task| ==> s.parent[s.task[p].q] == None)
    && (s.task[p].Fork3? && s.task[p].q < |s.task| ==> s.parent[s.task[p].q] == Some(p))
  }

  ghost predicate Kin(s: State) {
    && Sized(s) && s.init < |s.task|
    && (forall c: nat :: c < |s.task| ==> KinOk(s, c) && ForkKin(s, c))
  }

  lemma BootKin(s: State)
    requires Boot(s)
    ensures Kin(s)
  {
    hide Init;
  }

  lemma KinReap(s: State, p: nat, m: Move, c: nat)
    requires Good(s) && Kin(s) && Next(s, p, m).Some? && c < |s.task| && m.Reap?
    ensures KinOk(Next(s, p, m).value, c)
  {
    hide Inv, Family, Step, Next, CoreAct;
    CoreMove(s, p, m);
    assert KinOk(s, c);
  }

  /** The other moves of wait concern nobody else. */
  lemma OnlyTask(s: State, p: nat, m: Move)
    requires Sized(s) && Next(s, p, m).Some? && InWait(m) && !m.Reap? && p < |s.task|
    ensures var s' := Next(s, p, m).value;
            && s'.parent == s.parent && s'.life == s.life && s'.init == s.init
            && s'.task == s.task[p := s'.task[p]] && !Exiting(s'.task[p])
  {
    hide Step, Next, CoreAct;
    CoreMove(s, p, m);
  }

  lemma KinWait(s: State, p: nat, m: Move, c: nat)
    requires Good(s) && Kin(s) && Next(s, p, m).Some? && c < |s.task| && InWait(m)
    ensures KinOk(Next(s, p, m).value, c)
  {
    hide Inv, Family, Step, Next, CoreAct, Effect, Enabled, Fits, ForkOk;
    CoreMove(s, p, m);
    if m.Reap? {
      KinReap(s, p, m, c);
    } else {
      OnlyTask(s, p, m);
      assert KinOk(s, c);
    }
  }

  lemma KinFork(s: State, p: nat, m: Move, c: nat)
    requires Good(s) && Kin(s) && Next(s, p, m).Some? && c < |s.task| && InFork(m)
    ensures KinOk(Next(s, p, m).value, c)
  {
    hide Inv, Family, Step, Next, CoreAct, Effect, Enabled, TaskOk, LifeOk, KinOk, ForkKin, ForkOk;
    if m.ForkAlloc? {
      KinAlloc(s, p, m, c);
    } else if m.ForkFail? {
      KinFail(s, p, m, c);
    } else if m.ForkLock? {
      KinLock(s, p, m, c);
    } else if m.ForkUnlock? {
      KinSet(s, p, m, c);
    } else if m.ForkRun? {
      KinRun(s, p, m, c);
    } else {
      KinStart(s, p, m, c);
    }
  }

  lemma KinAlloc(s: State, p: nat, m: Move, c: nat)
    requires Good(s) && Kin(s) && Next(s, p, m).Some? && c < |s.task| && m.ForkAlloc?
    ensures KinOk(Next(s, p, m).value, c)
  {
    hide Inv, Family, Step, Next, CoreAct;
    CoreMove(s, p, m);
    assert KinOk(s, c) && ForkKin(s, p) && TaskOk(s, p) && LifeOk(s, p);
  }

  lemma KinFail(s: State, p: nat, m: Move, c: nat)
    requires Good(s) && Kin(s) && Next(s, p, m).Some? && c < |s.task| && m.ForkFail?
    ensures KinOk(Next(s, p, m).value, c)
  {
    hide Inv, Family, Step, Next, CoreAct;
    CoreMove(s, p, m);
    assert KinOk(s, c) && ForkKin(s, p) && TaskOk(s, p) && LifeOk(s, p);
  }

  lemma KinLock(s: State, p: nat, m: Move, c: nat)
    requires Good(s) && Kin(s) && Next(s, p, m).Some? && c < |s.task| && m.ForkLock?
    ensures KinOk(Next(s, p, m).value, c)
  {
    hide Inv, Family, Step, Next, CoreAct;
    CoreMove(s, p, m);
    assert KinOk(s, c) && ForkKin(s, p) && TaskOk(s, p) && LifeOk(s, p);
  }

  lemma KinSet(s: State, p: nat, m: Move, c: nat)
    requires Good(s) && Kin(s) && Next(s, p, m).Some? && c < |s.task| && m.ForkUnlock?
    ensures KinOk(Next(s, p, m).value, c)
  {
    hide Inv, Family, Step, Next, CoreAct;
    CoreMove(s, p, m);
    assert KinOk(s, c) && ForkKin(s, p) && TaskOk(s, p) && LifeOk(s, p);
  }

  lemma KinRun(s: State, p: nat, m: Move, c: nat)
    requires Good(s) && Kin(s) && Next(s, p, m).Some? && c < |s.task| && m.ForkRun?
    ensures KinOk(Next(s, p, m).value, c)
  {
    hide Inv, Family, Step, Next, CoreAct;
    CoreMove(s, p, m);
    assert KinOk(s, c) && ForkKin(s, p) && TaskOk(s, p) && LifeOk(s, p);
  }

  lemma KinStart(s: State, p: nat, m: Move, c: nat)
    requires Good(s) && Kin(s) && Next(s, p, m).Some? && c < |s.task| && m.Start?
    ensures KinOk(Next(s, p, m).value, c)
  {
    hide Inv, Family, Step, Next, CoreAct;
    CoreMove(s, p, m);
    assert KinOk(s, c) && ForkKin(s, p) && TaskOk(s, p) && LifeOk(s, p);
  }

  lemma KinReparent(s: State, p: nat, m: Move, c: nat)
    requires Good(s) && Kin(s) && Next(s, p, m).Some? && c < |s.task| && InReparent(m)
    ensures KinOk(Next(s, p, m).value, c)
  {
    hide Inv, Family, Step, Next, CoreAct;
    CoreMove(s, p, m);
    assert KinOk(s, c) && KinOk(s, s.init);
  }

  lemma KinExit(s: State, p: nat, m: Move, c: nat)
    requires Good(s) && Kin(s) && Next(s, p, m).Some? && c < |s.task| && InExit(m)
    ensures KinOk(Next(s, p, m).value, c)
  {
    hide Inv, Family, Step, Next, CoreAct;
    CoreMove(s, p, m);
    assert KinOk(s, c) && KinOk(s, p) && TaskOk(s, p) && LifeOk(s, p);
  }

  /** Only fork's own moves lead into fork. */
  lemma OwnForks(s: State, p: nat, m: Move)
    requires Sized(s) && Next(s, p, m).Some? && !InFork(m) && p < |s.task|
    ensures Forks(Next(s, p, m).value.task[p]) ==>
            Next(s, p, m).value.task[p] == s.task[p] && Next(s, p, m).value.parent == s.parent
  {
    hide Step, Next, CoreAct;
    CoreMove(s, p, m);
  }

  lemma OwnFork(s: State, p: nat, m: Move)
    requires Good(s) && Kin(s) && Next(s, p, m).Some?
    ensures ForkKin(Next(s, p, m).value, p)
  {
    hide Inv, Family, Step, Next, CoreAct, Fits;
    CoreMove(s, p, m);
    assert ForkKin(s, p);
    if InFork(m) {
      if m.ForkAlloc? { assert KinOk(s, m.q); }
    } else {
      hide Effect, Enabled, ForkOk, KinOk;
      OwnForks(s, p, m);
    }
  }

  /** Nobody else sets the parent of a slot that fork is setting up. */
  lemma OtherFork(s: State, p: nat, m: Move, q: nat)
    requires Good(s) && Kin(s) && Next(s, p, m).Some? && q < |s.task| && q != p
    ensures ForkKin(Next(s, p, m).value, q)
  {
    hide Inv, Family, Step, Next, CoreAct, Effect, Enabled;
    OthersKept(s, p, m, q);
    assert ForkKin(s, q);
    if Forks(s.task[q]) {
      ParentKept(s, p, m, s.task[q].q, q);
    }
  }

  lemma ParentKept(s: State, p: nat, m: Move, c: nat, q: nat)
    requires Sized(s) && ForkOk(s) && Next(s, p, m).Some? && q < |s.task| && q != p
    requires Forks(s.task[q]) && s.task[q].q == c && c < |s.task| && s.parent[c] in {None, Some(q)}
    ensures Next(s, p, m).value.parent[c] == s.parent[c]
  {
    hide Step, Next, CoreAct;
    CoreMove(s, p, m);
    assert s.life[c] == Embryo;
    assert Forks(s.task[p]) ==> s.task[p].q != c;
  }

  lemma KinStep(s: State, p: nat, m: Move)
    requires Good(s) && Kin(s) && Next(s, p, m).Some?
    ensures Kin(Next(s, p, m).value)
  {
    hide Inv, Family, Step, Next, CoreAct, Effect, Enabled, Fits, ForkOk;
    var s' := Next(s, p, m).value;
    SameInit(s, p, m);
    forall c: nat | c < |s.task|
      ensures KinOk(s', c) && ForkKin(s', c)
    {
      hide KinOk, ForkKin;
      if c == p { OwnFork(s, p, m); } else { OtherFork(s, p, m, c); }
      if InWait(m) {
        KinWait(s, p, m, c);
      } else if InFork(m) {
        KinFork(s, p, m, c);
      } else if InReparent(m) {
        KinReparent(s, p, m, c);
      } else if InExit(m) {
        KinExit(s, p, m, c);
      } else {
        KinInside(s, p, m, c);
      }
    }
  }

  lemma KinInside(s: State, p: nat, m: Move, c: nat)
    requires Good(s) && Kin(s) && Next(s, p, m).Some? && c < |s.task| && m.Internal?
    ensures KinOk(Next(s, p, m).value, c)
  {
    hide Inv, Family, Step, Next, Fits, ForkOk;
    assert KinOk(s, c);
    InsideEffect(s, p, m.a);
  }

  lemma SameInit(s: State, p: nat, m: Move)
    requires Sized(s) && Next(s, p, m).Some?
    ensures Next(s, p, m).value.init == s.init
  {
    hide Step;
  }

  lemma {:induction false} RunKin(s: State, moves: seq<(nat, Move)>)
    requires Good(s) && Kin(s) && Run(s, moves).Some?
    ensures Good(Run(s, moves).value) && Kin(Run(s, moves).value)
    ensures Run(s, moves).value.init == s.init && |Run(s, moves).value.task| == |s.task|
    decreases |moves|
  {
    hide Next, Inv, Fits, ForkOk, Family, KinOk, ForkKin;
    if moves != [] {
      var (p, m) := moves[0];
      GoodStep(s, p, m);
      KinStep(s, p, m);
      SameInit(s, p, m);
      RunKin(Next(s, p, m).value, moves[1..]);
    }
  }

  lemma FromBoot(s: State, moves: seq<(nat, Move)>)
    requires Boot(s) && Run(s, moves).Some?
    ensures Sized(s) && Good(Run(s, moves).value) && Kin(Run(s, moves).value)
    ensures Run(s, moves).value.init == s.init && |Run(s, moves).value.task| == |s.task|
  {
    BootGood(s);
    BootKin(s);
    hide Boot, Run, Good, Kin;
    RunKin(s, moves);
  }

  /** In every run from boot: whoever is somebody's parent is alive, every process but init has a parent,
      also when it is a zombie, and a slot that is not in use has none. */
  lemma NoOrphans(s: State, moves: seq<(nat, Move)>, c: nat)
    requires Boot(s) && Run(s, moves).Some?
    requires var t := Run(s, moves).value; Sized(t) && c < |t.task|
    ensures var t := Run(s, moves).value;
            && (t.parent[c].Some? ==> t.parent[c].value < |t.task| && t.life[t.parent[c].value] == Live)
            && (c != t.init && t.life[c] in {Ready, Live, Zombie} ==> t.parent[c].Some?)
            && (t.life[c] == Unused ==> t.parent[c] == None)
            && (c == t.init ==> t.life[c] == Live && t.parent[c] == None)
  {
    hide Boot, Run, Good;
    FromBoot(s, moves);
    assert KinOk(Run(s, moves).value, c);
  }

  // ---- What exit does with the children ----

  /** Since it has entered exit, when parents were as in before, p has held wait_lock, and the children
      that it has come to so far are init's. */
  ghost predicate Handing(s: State, p: nat, before: seq<Option<nat>>)
    requires Sized(s)
  {
    && p < |s.task| && |before| == |s.task| && Exiting(s.task[p]) && Cond(s.core.procs[p].pc) == Some(WaitLock)
    && forall c: nat :: c < |s.task| ==>
         s.parent[c] == if before[c] == Some(p) && c < Given(|s.task|, s.task[p]) then Some(s.init) else before[c]
  }

  lemma HandsReparent(s: State, p: nat, m: Move, before: seq<Option<nat>>)
    requires Good(s) && Kin(s) && Next(s, p, m).Some? && Handing(s, p, before) && InReparent(m)
    ensures Handing(Next(s, p, m).value, p, before)
  {
    hide Inv, Family, ForkOk, LifeOk;
    CoreMove(s, p, m);
    assert TaskOk(s, p);
  }

  lemma HandsExit(s: State, p: nat, m: Move, before: seq<Option<nat>>)
    requires Good(s) && Kin(s) && Next(s, p, m).Some? && Handing(s, p, before) && InExit(m) && m != Leave
    ensures Handing(Next(s, p, m).value, p, before)
  {
    hide Inv, Family, ForkOk, LifeOk, Step, Next;
    CoreMove(s, p, m);
    assert TaskOk(s, p);
    ExitMoves(s, p, m);
  }

  lemma HandsInside(s: State, p: nat, m: Move, before: seq<Option<nat>>)
    requires Good(s) && Kin(s) && Next(s, p, m).Some? && Handing(s, p, before) && m.Internal?
    ensures Handing(Next(s, p, m).value, p, before)
  {
    hide Inv, Family, ForkOk, LifeOk, Next;
    InsideEffect(s, p, m.a);
    assert TaskOk(s, p);
  }

  lemma HandsOn(s: State, p: nat, m: Move, before: seq<Option<nat>>)
    requires Good(s) && Kin(s) && Next(s, p, m).Some? && Handing(s, p, before) && m != Leave
    ensures Handing(Next(s, p, m).value, p, before)
  {
    ExitingMoves(s, p, m);
    hide *;
    if InReparent(m) {
      HandsReparent(s, p, m, before);
    } else if InExit(m) {
      HandsExit(s, p, m, before);
    } else {
      HandsInside(s, p, m, before);
    }
  }

  /** Whoever is in exit goes on with it. */
  lemma ExitingMoves(s: State, p: nat, m: Move)
    requires Good(s) && Next(s, p, m).Some? && p < |s.task| && Exiting(s.task[p])
    requires Cond(s.core.procs[p].pc) == Some(WaitLock)
    ensures InReparent(m) || InExit(m) || m.Internal?
  {
    hide Inv, Family, ForkOk, Step, Next, CoreAct, Effect;
    CoreMove(s, p, m);
    assert LifeOk(s, p);
  }

  lemma HandsStill(s: State, q: nat, m: Move, p: nat, before: seq<Option<nat>>)
    requires Good(s) && Kin(s) && Next(s, q, m).Some? && Handing(s, p, before) && q != p
    ensures Handing(Next(s, q, m).value, p, before)
  {
    hide Inv, Family, Step, Next, CoreAct, Effect, Enabled;
    OthersKept(s, q, m, p);
    OneHolder(s, q, p) by { assert Inv(s.core); }
    assert TaskOk(s, q);
    UnderWaitLock(s, q, m);
    SameInit(s, q, m);
    assert ForkKin(s, q);
  }

  lemma {:induction false} HandsOver(s: State, moves: seq<(nat, Move)>, p: nat, before: seq<Option<nat>>)
    requires Good(s) && Kin(s) && Run(s, moves).Some? && Handing(s, p, before) && (p, Leave) !in moves
    ensures Sized(Run(s, moves).value) && Handing(Run(s, moves).value, p, before)
    decreases |moves|
  {
    hide Next, Inv, Fits, ForkOk, Family, KinOk, ForkKin, Handing;
    if moves != [] {
      var (q, m) := moves[0];
      GoodStep(s, q, m);
      KinStep(s, q, m);
      if q == p { HandsOn(s, p, m, before); } else { HandsStill(s, q, m, p, before); }
      HandsOver(Next(s, q, m).value, moves[1..], p, before);
    }
  }

  lemma StartsHanding(s: State, p: nat)
    requires Good(s) && p < |s.task| && s.task[p] == Reparent(0)
    ensures Handing(s, p, s.parent)
  {
    hide Inv, ForkOk, Family, LifeOk;
    assert TaskOk(s, p);
  }

  /** In every run from boot in which p enters exit, at its end the children it had then are init's, and
      everybody else's parent is as it was. */
  lemma GivenAway(s: State, first: seq<(nat, Move)>, after: seq<(nat, Move)>, p: nat)
    requires Boot(s) && Run(s, first).Some? && Sized(Run(s, first).value)
    requires var u := Run(s, first).value;
             && p < |u.task| && u.task[p] == Reparent(0) && Run(u, after).Some? && (p, Leave) !in after
             && p < |Run(u, after).value.task| && Run(u, after).value.task[p] in {Notify, Dying, Dead}
    ensures var u := Run(s, first).value; var t := Run(u, after).value;
            && |t.parent| == |u.parent|
            && forall c: nat :: c < |u.parent| ==>
                 t.parent[c] == if u.parent[c] == Some(p) then Some(s.init) else u.parent[c]
  {
    hide Boot, Run, Good, Kin;
    FromBoot(s, first);
    var u := Run(s, first).value;
    StartsHanding(u, p);
    RunKin(u, after);
    HandsOver(u, after, p, u.parent);
  }

  // ---- Every exit is reported once ----

  /** How often the process in slot c has become a zombie. */
  ghost function Exits(moves: seq<(nat, Move)>, c: nat): nat
    decreases |moves|
  {
    if moves == [] then 0 else (if moves[0] == (c, MarkZombie) then 1 else 0) + Exits(moves[1..], c)
  }

  /** How often wait has found slot c to be a zombie and reported it. */
  ghost function Reaps(s: State, moves: seq<(nat, Move)>, c: nat): nat
    requires Sized(s)
    decreases |moves|
  {
    if moves == [] then 0 else
    var (p, m) := moves[0];
    (if m == Reap && p < |s.task| && s.task[p] == Peek(c) then 1 else 0)
    + if Next(s, p, m).None? then 0 else Reaps(Next(s, p, m).value, moves[1..], c)
  }

  function Zombies(s: State, c: nat): nat { if c < |s.life| && s.life[c] == Zombie then 1 else 0 }

  lemma ReapStep(s: State, p: nat, m: Move, c: nat)
    requires Good(s) && Next(s, p, m).Some? && c < |s.task|
    ensures Zombies(s, c) + (if (p, m) == (c, MarkZombie) then 1 else 0)
            == Zombies(Next(s, p, m).value, c) + if m == Reap && p < |s.task| && s.task[p] == Peek(c) then 1 else 0
  {
    hide Inv, Family, Step, Next, CoreAct;
    CoreMove(s, p, m);
    assert LifeOk(s, p) && LifeOk(s, c) && TaskOk(s, p);
  }

  lemma {:induction false} ReapRun(s: State, moves: seq<(nat, Move)>, c: nat)
    requires Good(s) && Run(s, moves).Some? && c < |s.task|
    ensures Zombies(s, c) + Exits(moves, c) == Zombies(Run(s, moves).value, c) + Reaps(s, moves, c)
    decreases |moves|
  {
    hide Next, Inv, Fits, ForkOk, Family;
    if moves != [] {
      var (p, m) := moves[0];
      GoodStep(s, p, m);
      ReapStep(s, p, m, c);
      ReapRun(Next(s, p, m).value, moves[1..], c);
    }
  }

  /** In every run from boot, each exit of a process is reported by wait exactly once, or is still to be
      reported. */
  lemma ReportedOnce(s: State, moves: seq<(nat, Move)>, c: nat)
    requires Boot(s) && Run(s, moves).Some? && c < |s.task|
    ensures Exits(moves, c) == Reaps(s, moves, c) + Zombies(Run(s, moves).value, c)
  {
    BootGood(s);
    hide Run, Good;
    ReapRun(s, moves, c);
  }

  // ---- When wait gives up ----

  lemma KilledStep(s: State, p: nat, m: Move, q: nat)
    requires Sized(s) && Next(s, p, m).Some? && q < |s.task|
    ensures Next(s, p, m).value.task[q] == Killed ==> s.task[q] == Killed || (p, m) == (q, GiveUp(true))
  {
    hide Step, Next, CoreAct;
    CoreMove(s, p, m);
  }

  lemma {:induction false} KilledRun(s: State, moves: seq<(nat, Move)>, q: nat)
    requires Sized(s) && Run(s, moves).Some? && q < |s.task|
    ensures |Run(s, moves).value.task| == |s.task|
    ensures Run(s, moves).value.task[q] == Killed ==> s.task[q] == Killed || (q, GiveUp(true)) in moves
    decreases |moves|
  {
    hide Next;
    if moves != [] {
      var (p, m) := moves[0];
      KilledStep(s, p, m, q);
      KilledRun(Next(s, p, m).value, moves[1..], q);
      assert moves == [moves[0]] + moves[1..];
    }
  }

  /** In every run from boot, a wait that gives up found itself without children, or killed: it has none, or
      it has found p->killed set. */
  lemma GaveUp(s: State, moves: seq<(nat, Move)>, q: nat, c: nat)
    requires Boot(s) && Run(s, moves).Some?
    requires var t := Run(s, moves).value; Sized(t) && q < |t.task| && c < |t.task|
    ensures var t := Run(s, moves).value;
            && (t.task[q] == Childless ==> t.parent[c] != Some(q))
            && (t.task[q] == Killed ==> (q, GiveUp(true)) in moves)
  {
    FromBoot(s, moves);
    WaitSafe(s, moves, q, c);
    KilledRun(s, moves, q);
  }
}
