/**
  * Quits, manager stops and the pause protocol: when a quit always gets through to the vCPU, and
  * when a thread that requested a stop always gets back.
  */
module MonitorQuit {
  import opened Options
  import opened Monitor

  predicate RequestsStop(a: Action) { a.Stopping? && a.stop.Stop? }

  predicate RequestsQuit(a: Action) { a.QuittingBy? && a.q.Quit? }

  /** No stop is requested once the machine quits, which callers can see to. */
  predicate NoLateStop(s: System, actions: seq<Action>)
    decreases |actions|
  {
    actions == [] || !Enabled(s, actions[0]) ||
    (!(s.quit && RequestsStop(actions[0])) && NoLateStop(Step(s, actions[0]), actions[1..]))
  }

  /** At least none is while the vCPU is between its test for a quit and the lock. */
  predicate NotOvertaken(s: System, actions: seq<Action>)
    decreases |actions|
  {
    actions == [] || !Enabled(s, actions[0]) ||
    (!(s.quit && RequestsStop(actions[0]) && s.vcpu.CheckLock?) && NotOvertaken(Step(s, actions[0]), actions[1..]))
  }

  /** The manager does not stop the vCPU. */
  predicate NoManagerStop(actions: seq<Action>) { forall a | a in actions :: a != Outside(ManagerClears) }

  lemma {:induction false} OnTimeIsNotOvertaken(s: System, actions: seq<Action>)
    requires NoLateStop(s, actions)
    ensures NotOvertaken(s, actions)
    decreases |actions|
  {
    hide Step, Enabled;
    if actions != [] && Enabled(s, actions[0]) { OnTimeIsNotOvertaken(Step(s, actions[0]), actions[1..]); }
  }

  // ---- What every step keeps ----

  /** A quit still ahead of taking the lock. */
  ghost predicate QuitAhead(callers: Callers) { Someone(callers, QuitFlag) || Someone(callers, QuitLock) }

  /** Once every quit has had the lock, no pause is requested any more. */
  ghost predicate Released(s: System) { s.quit ==> QuitAhead(s.callers) || s.vm == Running }

  /** Once every quit has had the lock, the vCPU neither parks nor stays parked. */
  ghost predicate Passed(s: System) {
    s.quit ==> QuitAhead(s.callers) || ((s.vcpu.CheckLock? ==> s.vm == Running) && (s.vcpu.Parked? ==> s.vm != Paused))
  }

  /** The vCPU is gone only after a quit. */
  ghost predicate GoneByQuit(s: System) {
    (s.vcpu == Exited ==> !s.running) && (!s.running ==> s.quit) && (Someone(s.callers, QuitFlag) ==> s.quit)
  }

  lemma AheadMoved(was: Callers, now: Callers, t: nat, c: Caller)
    requires Moved(was, now, t, c) && t in was && was[t] != QuitFlag && was[t] != QuitLock
    ensures QuitAhead(was) ==> QuitAhead(now)
    ensures c != QuitFlag && Someone(now, QuitFlag) ==> Someone(was, QuitFlag)
  {
    SomeoneStays(was, now, t, c, QuitFlag);
    SomeoneStays(was, now, t, c, QuitLock);
  }

  lemma AheadNotified(callers: Callers, t: nat, c: Caller)
    requires t in callers && callers[t] != QuitFlag && callers[t] != QuitLock && c != QuitFlag && c != StopWaiting(false)
    ensures AheadSame(callers, NotifyBarrier(callers)[t := c])
  {
    hide QuitAhead, Someone, Moved, NotifyBarrier;
    MovedAll(callers, t, c);
    AheadMoved(callers, NotifyBarrier(callers)[t := c], t, c);
  }

  lemma AheadTo(callers: Callers, t: nat, c: Caller)
    requires t in callers && callers[t] != QuitFlag && callers[t] != QuitLock && c != QuitFlag
    ensures AheadSame(callers, callers[t := c])
  {
    hide QuitAhead, Someone, Moved;
    MovedAlone(callers, t, c);
    AheadMoved(callers, callers[t := c], t, c);
  }

  /** The quits ahead are kept, and no thread has newly set the flag. */
  ghost predicate AheadSame(was: Callers, now: Callers) {
    (QuitAhead(was) ==> QuitAhead(now)) && (Someone(now, QuitFlag) ==> Someone(was, QuitFlag))
  }

  /** The vCPU did not get to the lock of its pause check, park or leave. */
  predicate NotYet(v: Vcpu, w: Vcpu) {
    (w.CheckLock? ==> v.CheckLock?) && (w.Parked? ==> v.Parked?) && (w == Exited ==> v == Exited)
  }

  lemma Notified(v: Vcpu)
    ensures NotYet(v, NotifyWfi(v)) && NotYet(v, NotifyResume(v)) && NotYet(v, v)
  {
  }

  /** All three are kept by the step, as far as it is allowed. */
  ghost predicate Keeps(s: System, a: Action, r: System) {
    && (Released(s) && !(s.quit && RequestsStop(a)) ==> Released(r))
    && (Passed(s) && !(s.quit && RequestsStop(a) && s.vcpu.CheckLock?) ==> Passed(r))
    && (GoneByQuit(s) && a != Outside(ManagerClears) ==> GoneByQuit(r))
  }

  lemma Passes(s: System, a: Action, r: System)
    requires AheadSame(s.callers, r.callers) && NotYet(s.vcpu, r.vcpu) && r.quit == s.quit && (r.running == s.running || a == Outside(ManagerClears))
    requires r.vm == s.vm || r.vm == Running || (r.vm == PauseRequested && RequestsStop(a))
    ensures Keeps(s, a, r)
  {
    hide QuitAhead, Someone;
  }

  lemma SamePasses(s: System, a: Action)
    ensures Keeps(s, a, s)
  {
  }

  /** A thread moves on and nothing else changes that matters here. */
  lemma MovePasses(s: System, a: Action, r: System, t: nat, c: Caller)
    requires t in s.callers && s.callers[t] != QuitFlag && s.callers[t] != QuitLock && c != QuitFlag && r.callers == s.callers[t := c]
    requires NotYet(s.vcpu, r.vcpu) && r.quit == s.quit && r.running == s.running
    requires r.vm == s.vm || (r.vm == PauseRequested && RequestsStop(a))
    ensures Keeps(s, a, r)
  {
    hide Keeps, AheadSame, NotYet;
    AheadTo(s.callers, t, c);
    Passes(s, a, r);
  }

  lemma StopAsked(s: System, t: nat)
    requires StopEnabled(s, t, Stop)
    ensures Keeps(s, Stopping(t, Stop), StopStep(s, t, Stop))
  {
    hide Keeps, NotYet;
    Notified(s.vcpu);
    if s.vm == Paused {
      SamePasses(s, Stopping(t, Stop));
    } else {
      MovePasses(s, Stopping(t, Stop), StopStep(s, t, Stop), t, StopWake);
    }
  }

  lemma StopWoken(s: System, t: nat)
    requires StopEnabled(s, t, StopWakes)
    ensures Keeps(s, Stopping(t, StopWakes), StopStep(s, t, StopWakes))
  {
    hide Keeps, NotYet, NotifyWfi;
    Notified(s.vcpu);
    var r := if s.registered then s.(latch := true, vcpu := NotifyWfi(s.vcpu)) else s;
    MovePasses(s, Stopping(t, StopWakes), Move(r, t, StopCheck), t, StopCheck);
  }

  lemma StopWaited(s: System, t: nat)
    requires StopEnabled(s, t, StopWaits)
    ensures Keeps(s, Stopping(t, StopWaits), StopStep(s, t, StopWaits))
  {
    hide Keeps, NotYet;
    Notified(s.vcpu);
    MovePasses(s, Stopping(t, StopWaits), Move(s, t, StopWaiting(false)).(holder := None), t, StopWaiting(false));
  }

  lemma StopRechecked(s: System, t: nat)
    requires StopEnabled(s, t, StopRechecks)
    ensures Keeps(s, Stopping(t, StopRechecks), StopStep(s, t, StopRechecks))
  {
    hide Keeps, NotYet;
    Notified(s.vcpu);
    var c := if s.vm == PauseRequested then StopWaiting(false) else Idle;
    MovePasses(s, Stopping(t, StopRechecks), Move(s, t, c), t, c);
  }

  lemma StopPasses(s: System, t: nat, op: StopOp)
    requires StopEnabled(s, t, op)
    ensures Keeps(s, Stopping(t, op), StopStep(s, t, op))
  {
    hide Keeps, StopStep;
    match op
    case Stop => StopAsked(s, t);
    case StopWakes => StopWoken(s, t);
    case StopWaits => StopWaited(s, t);
    case StopRechecks => StopRechecked(s, t);
  }

  lemma ContPasses(s: System, t: nat, op: ContOp)
    requires ContEnabled(s, t, op)
    ensures Keeps(s, Continuing(t, op), ContStep(s, t, op))
  {
    hide Keeps, AheadSame, NotYet, NotifyResume, NotifyBarrier;
    var a, r := Continuing(t, op), ContStep(s, t, op);
    Notified(s.vcpu);
    match op
    case Cont =>
      AheadNotified(s.callers, t, ContClear);
      if s.vm == Running { SamePasses(s, a); } else { Passes(s, a, r); }
    case ContClears => MovePasses(s, a, r, t, Idle);
  }

  lemma RegisterPasses(s: System, t: nat, op: RegisterOp)
    requires RegisterEnabled(s, t, op)
    ensures Keeps(s, Registering(t, op), RegisterStep(s, t, op))
  {
    hide Keeps, NotYet, NotifyWfi;
    var a, r := Registering(t, op), RegisterStep(s, t, op);
    Notified(s.vcpu);
    match op
    case RegisterReads => MovePasses(s, a, r, t, if s.quit then RegisterSet(true) else RegisterPause);
    case RegisterLooks => MovePasses(s, a, r, t, RegisterSet(s.vm != Running));
    case RegisterSets => MovePasses(s, a, r, t, if s.callers[t].needsWake then RegisterWake else Idle);
    case RegisterWakes => MovePasses(s, a, r, t, Idle);
  }

  lemma SomeoneIs(callers: Callers, t: nat)
    requires t in callers
    ensures Someone(callers, callers[t])
  {
  }

  lemma QuitPasses(s: System, t: nat, op: QuitOp)
    requires QuitEnabled(s, t, op)
    ensures Keeps(s, QuittingBy(t, op), QuitStep(s, t, op))
  {
    hide Keeps, QuitStep;
    match op
    case Quit => QuitRequested(s, t);
    case QuitClears => QuitCleared(s, t);
    case QuitLocks => QuitLocked(s, t);
    case QuitStops => QuitStopped(s, t);
  }

  lemma QuitRequested(s: System, t: nat)
    requires QuitEnabled(s, t, Quit)
    ensures Keeps(s, QuittingBy(t, Quit), QuitStep(s, t, Quit))
  {
    hide Someone;
    SomeoneIs(s.callers[t := QuitFlag], t);
  }

  lemma QuitCleared(s: System, t: nat)
    requires QuitEnabled(s, t, QuitClears)
    ensures Keeps(s, QuittingBy(t, QuitClears), QuitStep(s, t, QuitClears))
  {
    hide Someone;
    SomeoneIs(s.callers, t);
    SomeoneIs(s.callers[t := QuitLock], t);
  }

  lemma QuitLocked(s: System, t: nat)
    requires QuitEnabled(s, t, QuitLocks)
    ensures Keeps(s, QuittingBy(t, QuitLocks), QuitStep(s, t, QuitLocks))
  {
    hide Someone, NotifyBarrier, NotifyResume;
    Notified(s.vcpu);
    FlagNotified(s.callers, t);
  }

  lemma QuitStopped(s: System, t: nat)
    requires QuitEnabled(s, t, QuitStops)
    ensures Keeps(s, QuittingBy(t, QuitStops), QuitStep(s, t, QuitStops))
  {
    hide Keeps, NotYet, NotifyWfi;
    Notified(s.vcpu);
    var r := if s.registered then s.(stopped := true, vcpu := NotifyWfi(s.vcpu), holder := None) else s.(holder := None);
    MovePasses(s, QuittingBy(t, QuitStops), Move(r, t, Idle), t, Idle);
  }

  lemma FlagNotified(callers: Callers, t: nat)
    requires t in callers
    ensures Someone(NotifyBarrier(callers)[t := QuitStop], QuitFlag) ==> Someone(callers, QuitFlag)
  {
  }

  /** The vCPU parks only for a pause, which no passed quit leaves requested. */
  lemma CheckPasses(s: System, op: CheckOp)
    requires CheckEnabled(s, op)
    ensures Keeps(s, Checking(op), CheckStep(s, op))
  {
    hide Keeps, CheckStep;
    match op
    case Check => TestPasses(s);
    case CheckLocks => LockPasses(s);
    case Unpark => UnparkPasses(s);
  }

  lemma TestPasses(s: System)
    requires CheckEnabled(s, Check)
    ensures Keeps(s, Checking(Check), CheckStep(s, Check))
  {
    hide Keeps;
    Unlocked(s, CheckStep(s, Check), Check);
  }

  lemma LockPasses(s: System)
    requires CheckEnabled(s, CheckLocks)
    ensures Keeps(s, Checking(CheckLocks), CheckStep(s, CheckLocks))
  {
    hide Keeps, AheadSame, NotifyBarrier;
    if s.vm == PauseRequested {
      BarrierAhead(s.callers);
      Parks(s, CheckStep(s, CheckLocks));
    } else {
      Unlocked(s, CheckStep(s, CheckLocks), CheckLocks);
    }
  }

  lemma UnparkPasses(s: System)
    requires CheckEnabled(s, Unpark)
    ensures Keeps(s, Checking(Unpark), CheckStep(s, Unpark))
  {
    hide Keeps;
    Unlocked(s, CheckStep(s, Unpark), Unpark);
  }

  lemma Unlocked(s: System, r: System, op: CheckOp)
    requires r == s.(vcpu := r.vcpu) && (r.vcpu.CheckLock? ==> !s.quit) && (r.vcpu.Parked? ==> s.vcpu.Parked?) && r.vcpu != Exited
    ensures Keeps(s, Checking(op), r)
  {
    hide QuitAhead, Someone;
  }

  lemma Parks(s: System, r: System)
    requires s.vcpu.CheckLock? && s.vm == PauseRequested && r.quit == s.quit && r.running == s.running && r.vcpu.Parked?
    requires AheadSame(s.callers, r.callers)
    ensures Keeps(s, Checking(CheckLocks), r)
  {
    hide QuitAhead, Someone;
  }

  lemma BarrierAhead(callers: Callers)
    ensures AheadSame(callers, NotifyBarrier(callers))
  {
    if QuitAhead(callers) {
      var t :| t in callers && (callers[t] == QuitFlag || callers[t] == QuitLock);
      assert NotifyBarrier(callers)[t] == callers[t];
    }
  }

  lemma GuestPasses(s: System, op: GuestOp)
    requires s.vcpu == Guest
    ensures Keeps(s, Executing(op), s.(vcpu := GuestNext(op)))
  {
    hide Keeps;
    Passes(s, Executing(op), s.(vcpu := GuestNext(op)));
  }

  lemma LoopPasses(s: System, op: LoopOp)
    requires LoopEnabled(s, op)
    ensures Keeps(s, Looping(op), s.(vcpu := LoopNext(s.running, op)))
  {
    hide QuitAhead, Someone;
  }

  lemma WfiPasses(s: System, op: WfiOp)
    requires WfiEnabled(s, op)
    ensures Keeps(s, Waiting(op), WfiStep(s, op))
  {
    hide Keeps, WfiStep;
    Passes(s, Waiting(op), WfiStep(s, op));
  }

  lemma DevicePasses(s: System, op: DeviceOp)
    ensures Keeps(s, Outside(op), DeviceStep(s, op))
  {
    hide Keeps, NotYet, NotifyWfi;
    Notified(s.vcpu);
    Passes(s, Outside(op), DeviceStep(s, op));
  }

  lemma StepPasses(s: System, a: Action)
    requires Enabled(s, a)
    ensures Keeps(s, a, Step(s, a))
  {
    hide Keeps, StopStep, ContStep, QuitStep, RegisterStep, CheckStep, WfiStep, DeviceStep, GuestNext, LoopNext;
    match a
    case Stopping(t, op) => StopPasses(s, t, op);
    case Continuing(t, op) => ContPasses(s, t, op);
    case QuittingBy(t, op) => QuitPasses(s, t, op);
    case Registering(t, op) => RegisterPasses(s, t, op);
    case Checking(op) => CheckPasses(s, op);
    case Executing(op) => GuestPasses(s, op);
    case Looping(op) => LoopPasses(s, op);
    case Waiting(op) => WfiPasses(s, op);
    case Outside(op) => DevicePasses(s, op);
  }

  lemma InitPasses(s: System)
    requires Init(s)
    ensures Released(s) && Passed(s) && GoneByQuit(s)
  {
  }

  lemma {:induction false} RunReleased(s: System, actions: seq<Action>)
    requires Released(s) && NoLateStop(s, actions)
    ensures Released(Run(s, actions))
    decreases |actions|
  {
    hide Released, Passed, Step, Enabled;
    if actions != [] && Enabled(s, actions[0]) {
      StepPasses(s, actions[0]);
      RunReleased(Step(s, actions[0]), actions[1..]);
    }
  }

  lemma {:induction false} RunPassed(s: System, actions: seq<Action>)
    requires Passed(s) && NotOvertaken(s, actions)
    ensures Passed(Run(s, actions))
    decreases |actions|
  {
    hide Released, Passed, Step, Enabled;
    if actions != [] && Enabled(s, actions[0]) {
      StepPasses(s, actions[0]);
      RunPassed(Step(s, actions[0]), actions[1..]);
    }
  }

  lemma {:induction false} RunGone(s: System, actions: seq<Action>)
    requires GoneByQuit(s) && NoManagerStop(actions)
    ensures GoneByQuit(Run(s, actions))
    decreases |actions|
  {
    hide Released, Passed, GoneByQuit, Step, Enabled;
    if actions != [] && Enabled(s, actions[0]) {
      assert actions[0] in actions && forall a | a in actions[1..] :: a in actions;
      StepPasses(s, actions[0]);
      RunGone(Step(s, actions[0]), actions[1..]);
    }
  }

  // ---- Runs with no late stop ----

  lemma {:induction false} NoStopIsLate(s: System, actions: seq<Action>)
    requires forall a | a in actions :: !RequestsStop(a)
    ensures NoLateStop(s, actions)
    decreases |actions|
  {
    hide Step, Enabled;
    if actions != [] && Enabled(s, actions[0]) { NoStopIsLate(Step(s, actions[0]), actions[1..]); }
  }

  lemma NoQuitYet(s: System, a: Action)
    requires Enabled(s, a) && !RequestsQuit(a) && !s.quit
    ensures !Step(s, a).quit
  {
    hide StopStep, ContStep, QuitStep, RegisterStep, CheckStep, WfiStep, DeviceStep, GuestNext, LoopNext;
  }

  lemma {:induction false} NoQuitNoLateStop(s: System, actions: seq<Action>)
    requires !s.quit && forall a | a in actions :: !RequestsQuit(a)
    ensures NoLateStop(s, actions)
    decreases |actions|
  {
    hide Step, Enabled;
    if actions != [] && Enabled(s, actions[0]) {
      NoQuitYet(s, actions[0]);
      NoQuitNoLateStop(Step(s, actions[0]), actions[1..]);
    }
  }

  // ---- A quit gets through ----

  /** While the machine quits and the vCPU is not gone, some thread can move on by itself. */
  ghost predicate QuitUnstuck(s: System) { s.quit && s.vcpu != Exited ==> Moves(s) }

  /**
    * With the waker registered from the start no quit gets stuck, in any run in which no stop
    * is requested after a quit while the vCPU is between its test for the quit and the lock.
    */
  lemma QuitNeverStuck(s: System, actions: seq<Action>)
    requires Init(s) && s.registered && NotOvertaken(s, actions)
    ensures QuitUnstuck(Run(s, actions))
  {
    hide Moves, Run, Someone, NotOvertaken;
    QuitMovesOrParked(s, actions);
    RunPassed(s, actions);
  }

  /**
    * For callers: no quit gets stuck, in any run in which no stop is requested after it, exactly
    * when the waker is registered from the start; and with a stop after it one can get stuck.
    */
  lemma QuitExact(s: System)
    requires Init(s) && s.callers != map[]
    ensures s.registered <==> forall actions | NoLateStop(s, actions) :: QuitUnstuck(Run(s, actions))
    ensures s.registered ==> exists actions :: !NoLateStop(s, actions) && !QuitUnstuck(Run(s, actions))
  {
    hide Run, QuitUnstuck, NoLateStop, NotOvertaken;
    var t :| t in s.callers;
    if s.registered {
      forall actions | NoLateStop(s, actions) ensures QuitUnstuck(Run(s, actions)) {
        OnTimeIsNotOvertaken(s, actions);
        QuitNeverStuck(s, actions);
      }
      QuitLost(s, t, t);
      assert !QuitUnstuck(Run(s, QuitThenStop(t, t))) by { StuckQuit(Run(s, QuitThenStop(t, t))); }
    } else {
      SleptThrough(s, t);
      NoStopIsLate(s, SleepThenQuit(t));
    }
  }

  lemma StuckQuit(s: System)
    requires s.quit && s.vcpu != Exited && !Moves(s)
    ensures !QuitUnstuck(s)
  {
  }

  // ---- A quit without the waker ----

  function SleepThenQuit(t: nat): seq<Action> {
    [Executing(GuestWfi(false)), Waiting(Try(false)),
     QuittingBy(t, Quit), QuittingBy(t, QuitClears), QuittingBy(t, QuitLocks), QuittingBy(t, QuitStops)]
  }

  /** Without the waker a quit does not wake a vCPU asleep in WFI: nothing moves any more. */
  lemma SleptThrough(s: System, t: nat)
    requires Init(s) && !s.registered && t in s.callers
    ensures !QuitUnstuck(Run(s, SleepThenQuit(t)))
  {
    hide Run, Step, Moves, Init;
    StartsIdle(s, t);
    StartsAllIdle(s);
    var actions := SleepThenQuit(t);
    assert actions[0..] == actions;
    SleepGuest(s);
    Unfold(s, actions, 0);
    var s1 := s.(vcpu := WfiTry);
    SleepTry(s1);
    Unfold(s1, actions, 1);
    var s2 := s1.(vcpu := WfiBlocked(false));
    QuitRuns(s2, actions, 2, t);
    RunNothing(s2.(quit := true, running := false), actions);
    NothingMoves(s2.(quit := true, running := false));
  }

  // ---- A stop after a quit, the vCPU past its test ----

  function QuitThenStop(t: nat, u: nat): seq<Action> {
    [Executing(GuestExits), Looping(RoundEnds), Checking(Check),
     QuittingBy(t, Quit), QuittingBy(t, QuitClears), QuittingBy(t, QuitLocks), QuittingBy(t, QuitStops),
     Stopping(u, Stop), Stopping(u, StopWakes), Stopping(u, StopWaits), Checking(CheckLocks), Stopping(u, StopRechecks)]
  }

  lemma QuitChecks(s: System, t: nat, u: nat)
    requires s.vcpu == Guest && s.running && !s.quit
    ensures Run(s, QuitThenStop(t, u)) == Run(s.(vcpu := CheckLock(Loop)), QuitThenStop(t, u)[3..])
  {
    hide Run;
    var actions := QuitThenStop(t, u);
    assert actions[0..] == actions;
    Unfold(s, actions, 0);
    Unfold(s.(vcpu := RoundEnd), actions, 1);
    Unfold(s.(vcpu := CheckStart(Loop)), actions, 2);
  }

  predicate AllIdle(callers: Callers) { forall v | v in callers :: callers[v] == Idle }

  lemma QuitSetsFlag(s: System, t: nat)
    requires t in s.callers && s.callers[t] == Idle
    ensures Enabled(s, QuittingBy(t, Quit)) && Step(s, QuittingBy(t, Quit)) == s.(callers := s.callers[t := QuitFlag], quit := true)
  {
  }

  lemma QuitClearsFlag(s: System, t: nat)
    requires t in s.callers && s.callers[t] == QuitFlag
    ensures Enabled(s, QuittingBy(t, QuitClears)) && Step(s, QuittingBy(t, QuitClears)) == s.(callers := s.callers[t := QuitLock], running := false)
  {
  }

  lemma QuitTakesLock(s: System, t: nat, callers: Callers)
    requires AllIdle(callers) && t in callers && s.callers == callers[t := QuitLock] && s.holder == None && !s.vcpu.Parked?
    ensures Enabled(s, QuittingBy(t, QuitLocks))
    ensures Step(s, QuittingBy(t, QuitLocks)) == s.(vm := Running, holder := Some(t), callers := callers[t := QuitStop])
  {
    assert NotifyBarrier(s.callers)[t := QuitStop] == callers[t := QuitStop];
  }

  lemma QuitEnds(s: System, t: nat)
    requires t in s.callers && s.callers[t] == QuitStop && (s.registered ==> !s.vcpu.WfiBlocked?)
    ensures Enabled(s, QuittingBy(t, QuitStops))
    ensures Step(s, QuittingBy(t, QuitStops)) == s.(callers := s.callers[t := Idle], stopped := s.stopped || s.registered, holder := None)
  {
  }

  /** A whole quit while the others are idle; without the waker a vCPU asleep in WFI stays asleep. */
  lemma QuitRuns(s: System, actions: seq<Action>, i: nat, t: nat)
    requires i + 4 <= |actions| && actions[i] == QuittingBy(t, Quit) && actions[i + 1] == QuittingBy(t, QuitClears)
    requires actions[i + 2] == QuittingBy(t, QuitLocks) && actions[i + 3] == QuittingBy(t, QuitStops)
    requires s.vm == Running && s.holder == None && AllIdle(s.callers) && t in s.callers
    requires !s.vcpu.Parked? && (s.registered ==> !s.vcpu.WfiBlocked?)
    ensures Run(s, actions[i..]) == Run(s.(quit := true, running := false, stopped := s.stopped || s.registered), actions[i + 4..])
  {
    hide Run, Step, Enabled;
    QuitSetsFlag(s, t);
    var s1 := s.(callers := s.callers[t := QuitFlag], quit := true);
    QuitClearsFlag(s1, t);
    var s2 := s.(callers := s.callers[t := QuitLock], quit := true, running := false);
    assert s1.callers[t := QuitLock] == s2.callers;
    QuitTakesLock(s2, t, s.callers);
    var s3 := s2.(holder := Some(t), callers := s.callers[t := QuitStop]);
    QuitEnds(s3, t);
    assert s3.callers[t := Idle] == s.callers;
    Unfold(s, actions, i);
    Unfold(s1, actions, i + 1);
    Unfold(s2, actions, i + 2);
    Unfold(s3, actions, i + 3);
  }

  lemma CheckParks(s: System, u: nat, callers: Callers)
    requires AllIdle(callers) && u in callers && s.callers == callers[u := StopWaiting(false)]
    requires s.vcpu == CheckLock(Loop) && s.holder == None && s.vm == PauseRequested
    ensures Enabled(s, Checking(CheckLocks))
    ensures Step(s, Checking(CheckLocks)) == s.(vm := Paused, callers := callers[u := StopWaiting(true)], vcpu := Parked(Loop, false))
  {
    assert NotifyBarrier(s.callers) == callers[u := StopWaiting(true)];
  }

  lemma StopReturns(s: System, u: nat)
    requires u in s.callers && s.callers[u] == StopWaiting(true) && s.holder == None && s.vm == Paused
    ensures Enabled(s, Stopping(u, StopRechecks)) && Step(s, Stopping(u, StopRechecks)) == s.(callers := s.callers[u := Idle])
  {
  }

  /** A stop that finds the waker leaves its wake-up latched. */
  lemma StopHeard(s: System, actions: seq<Action>, i: nat, t: nat)
    requires i + 3 <= |actions| && actions[i] == Stopping(t, Stop) && actions[i + 1] == Stopping(t, StopWakes) && actions[i + 2] == Stopping(t, StopWaits)
    requires s.vm == Running && s.holder == None && s.registered && t in s.callers && s.callers[t] == Idle && !s.vcpu.WfiBlocked?
    ensures Run(s, actions[i..]) == Run(s.(vm := PauseRequested, latch := true, callers := s.callers[t := StopWaiting(false)]), actions[i + 3..])
  {
    hide Run, Step, Enabled;
    StopAsks(s, t);
    StopGoesOn(Asking(s, t, StopWake), t);
    StopBlocks(Asking(s, t, StopCheck).(latch := true), t);
    assert s.callers[t := StopWake][t := StopCheck] == s.callers[t := StopCheck];
    assert s.callers[t := StopCheck][t := StopWaiting(false)] == s.callers[t := StopWaiting(false)];
    Unfold(s, actions, i);
    Unfold(Asking(s, t, StopWake), actions, i + 1);
    Unfold(Asking(s, t, StopCheck).(latch := true), actions, i + 2);
  }

  lemma StopParks(s: System, actions: seq<Action>, i: nat, u: nat, callers: Callers)
    requires i + 2 == |actions| && actions[i] == Checking(CheckLocks) && actions[i + 1] == Stopping(u, StopRechecks)
    requires AllIdle(callers) && u in callers && s.callers == callers[u := StopWaiting(false)]
    requires s.vcpu == CheckLock(Loop) && s.holder == None && s.vm == PauseRequested
    ensures Run(s, actions[i..]) == s.(vm := Paused, callers := callers, vcpu := Parked(Loop, false))
  {
    hide Run, Step, Enabled;
    CheckParks(s, u, callers);
    var s1 := s.(vm := Paused, callers := callers[u := StopWaiting(true)], vcpu := Parked(Loop, false));
    StopReturns(s1, u);
    assert s1.callers[u := Idle] == callers;
    Unfold(s, actions, i);
    Unfold(s1, actions, i + 1);
    RunNothing(s.(vm := Paused, callers := callers, vcpu := Parked(Loop, false)), actions);
  }

  /** A stop requested after a quit can park a vCPU that had passed its test for the quit: nothing moves, and the machine does not exit. */
  lemma QuitLost(s: System, t: nat, u: nat)
    requires Init(s) && s.registered && t in s.callers && u in s.callers
    ensures var r := Run(s, QuitThenStop(t, u)); r.quit && r.vm == Paused && r.vcpu == Parked(Loop, false) && !Moves(r)
  {
    hide Run, Moves;
    var actions := QuitThenStop(t, u);
    QuitChecks(s, t, u);
    var s3 := s.(vcpu := CheckLock(Loop));
    QuitRuns(s3, actions, 3, t);
    var s7 := s3.(quit := true, running := false, stopped := true);
    StopHeard(s7, actions, 7, u);
    var s10 := s7.(vm := PauseRequested, latch := true, callers := s.callers[u := StopWaiting(false)]);
    StopParks(s10, actions, 10, u, s.callers);
    NothingMoves(s10.(vm := Paused, callers := s.callers, vcpu := Parked(Loop, false)));
  }

  // ---- A stop gets back ----

  /** Some thread is in request_stop. */
  ghost predicate Stops(callers: Callers) {
    exists t :: t in callers && (callers[t] == StopWake || callers[t] == StopCheck || callers[t].StopWaiting?)
  }

  /** While some thread is in request_stop, some thread can move on by itself. */
  ghost predicate StopUnstuck(s: System) { Stops(s.callers) ==> Moves(s) }

  lemma StopperMoves(s: System, t: nat)
    requires Inv(s) && t in s.callers && (s.callers[t] == StopWake || s.callers[t] == StopCheck || s.callers[t].StopWaiting?)
    ensures Moves(s) || s.vm == PauseRequested
  {
    hide Moves;
    match s.callers[t]
    case StopWake => MovesBy(s, Stopping(t, StopWakes));
    case StopCheck => MovesBy(s, Stopping(t, StopWaits));
    case StopWaiting(notified) =>
      if notified {
        if s.holder.Some? { ThreadMoves(s); } else { MovesBy(s, Stopping(t, StopRechecks)); }
      }
  }

  /** A pause requested of a vCPU that is gone is still to be released by a quit. */
  lemma GoneMoves(s: System)
    requires Inv(s) && Released(s) && GoneByQuit(s) && s.vm == PauseRequested && s.vcpu == Exited
    ensures Moves(s)
  {
    hide Moves, Inv, Someone;
    if s.holder.Some? { ThreadMoves(s); } else { QuitMoves(s); }
  }

  /**
    * With the waker registered from the start no stop gets stuck, in any run in which the
    * manager does not stop the vCPU and no stop is requested after a quit.
    */
  lemma StopNeverStuck(s: System, actions: seq<Action>)
    requires Init(s) && s.registered && NoLateStop(s, actions) && NoManagerStop(actions)
    ensures StopUnstuck(Run(s, actions))
  {
    hide Moves, Run, Someone, NoLateStop, NoManagerStop, Inv;
    InitInv(s);
    InitPasses(s);
    RunKeeps(s, actions);
    RunReleased(s, actions);
    RunGone(s, actions);
    RegisteredStays(s, actions);
    NeverStuck(s, actions);
    var r := Run(s, actions);
    if Stops(r.callers) {
      var t :| t in r.callers && (r.callers[t] == StopWake || r.callers[t] == StopCheck || r.callers[t].StopWaiting?);
      StopperMoves(r, t);
      if r.vm == PauseRequested && r.vcpu == Exited { GoneMoves(r); }
    }
  }

  /**
    * For callers: no stop gets stuck, in any run with neither a manager stop nor a stop after a
    * quit, exactly when the waker is registered from the start; and with only one of the two a
    * stop can get stuck.
    */
  lemma StopExact(s: System)
    requires Init(s) && s.callers != map[]
    ensures s.registered <==> forall actions | NoLateStop(s, actions) && NoManagerStop(actions) :: StopUnstuck(Run(s, actions))
    ensures s.registered ==> exists actions :: NoLateStop(s, actions) && !NoManagerStop(actions) && !StopUnstuck(Run(s, actions))
    ensures s.registered ==> exists actions :: !NoLateStop(s, actions) && NoManagerStop(actions) && !StopUnstuck(Run(s, actions))
  {
    hide Run, StopUnstuck, NoLateStop;
    var t :| t in s.callers;
    if s.registered {
      forall actions | NoLateStop(s, actions) && NoManagerStop(actions) ensures StopUnstuck(Run(s, actions)) {
        StopNeverStuck(s, actions);
      }
      StopAfterManager(s, t);
      assert ManagerThenStop(t)[0] == Outside(ManagerClears);
      StopAfterExit(s, t);
    } else {
      SleepRuns(s, t);
      NoQuitNoLateStop(s, Sleep(t));
      StartsAllIdle(s);
      StuckStop(Run(s, Sleep(t)), t);
    }
  }

  lemma StuckStop(s: System, t: nat)
    requires s.vcpu == WfiBlocked(false) || s.vcpu == Exited
    requires s.holder == None && forall u | u in s.callers :: s.callers[u] == Idle || s.callers[u] == StopWaiting(false)
    requires t in s.callers && s.callers[t] == StopWaiting(false)
    ensures !StopUnstuck(s)
  {
    hide Moves;
    NothingMoves(s);
  }

  // ---- A stop with the vCPU gone ----

  function ManagerThenStop(t: nat): seq<Action> {
    [Outside(ManagerClears), Executing(GuestLeaves), Looping(LoopLeft), Stopping(t, Stop), Stopping(t, StopWakes), Stopping(t, StopWaits)]
  }

  function ExitThenStop(t: nat): seq<Action> {
    [QuittingBy(t, Quit), QuittingBy(t, QuitClears), QuittingBy(t, QuitLocks), QuittingBy(t, QuitStops),
     Executing(GuestLeaves), Looping(LoopLeft), Stopping(t, Stop), Stopping(t, StopWakes), Stopping(t, StopWaits)]
  }

  /** The vCPU leaves while not running, then a stop: its thread waits on and nothing moves. */
  lemma LeavesThenStop(s: System, actions: seq<Action>, i: nat, t: nat)
    requires i + 5 == |actions| && actions[i] == Executing(GuestLeaves) && actions[i + 1] == Looping(LoopLeft)
    requires actions[i + 2] == Stopping(t, Stop) && actions[i + 3] == Stopping(t, StopWakes) && actions[i + 4] == Stopping(t, StopWaits)
    requires s.vcpu == Guest && !s.running && s.vm == Running && s.holder == None && s.registered && AllIdle(s.callers) && t in s.callers
    ensures !StopUnstuck(Run(s, actions[i..]))
  {
    hide Run, StopUnstuck;
    Unfold(s, actions, i);
    Unfold(s.(vcpu := Leaving), actions, i + 1);
    var s2 := s.(vcpu := Exited);
    StopHeard(s2, actions, i + 2, t);
    var s5 := s2.(vm := PauseRequested, latch := true, callers := s.callers[t := StopWaiting(false)]);
    RunNothing(s5, actions);
    StuckStop(s5, t);
  }

  /** A stop after the manager stopped the vCPU. */
  lemma StopAfterManager(s: System, t: nat)
    requires Init(s) && s.registered && t in s.callers
    ensures NoLateStop(s, ManagerThenStop(t)) && !StopUnstuck(Run(s, ManagerThenStop(t)))
  {
    hide Run, StopUnstuck, NoLateStop;
    var actions := ManagerThenStop(t);
    NoQuitNoLateStop(s, actions);
    assert actions[0..] == actions;
    Unfold(s, actions, 0);
    LeavesThenStop(s.(running := false), actions, 1, t);
  }

  /** A stop after a quit, the vCPU gone. */
  lemma StopAfterExit(s: System, t: nat)
    requires Init(s) && s.registered && t in s.callers
    ensures NoManagerStop(ExitThenStop(t)) && !StopUnstuck(Run(s, ExitThenStop(t)))
  {
    hide Run, StopUnstuck;
    var actions := ExitThenStop(t);
    assert actions[0..] == actions;
    QuitRuns(s, actions, 0, t);
    LeavesThenStop(s.(quit := true, running := false, stopped := true), actions, 4, t);
  }
}
