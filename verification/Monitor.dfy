/**
  * Pausing, resuming and quitting a virtual CPU that may be asleep in WFI: any number of
  * monitor threads, one vCPU thread and the devices, interleaved at every lock and
  * condition-variable operation. Steps are sequentially consistent.
  */
module Monitor {
  import opened Options

  datatype VmState = Running | PauseRequested | Paused

  /** Where a monitor thread is. */
  datatype Caller =
    | Idle
    | StopWake | StopCheck | StopWaiting(notified: bool)
    | ContClear
    | QuitFlag | QuitLock | QuitStop
    | RegisterPause | RegisterSet(needsWake: bool) | RegisterWake

  /** The places where the state lock is held. */
  predicate Holding(c: Caller) { c == StopWake || c == StopCheck || c == ContClear || c == QuitStop }

  /** Which code asked whether to pause: the end of the execution loop's round or the WFI exit. */
  datatype From = Loop | Wfi

  /** Where the vCPU thread is: in guest code, at the end of a round, in the pause check, in WFI,
      or back in the loop around the execution loop. */
  datatype Vcpu =
    | Guest | RoundEnd
    | CheckStart(from: From) | CheckLock(from: From) | Parked(from: From, notified: bool)
    | Leaving
    | WfiTry | WfiBlocked(notified: bool)
    | Exited

  datatype System = System(
    vm: VmState, holder: Option<nat>, quit: bool, running: bool,
    callers: map<nat, Caller>, vcpu: Vcpu,
    registered: bool, irq: bool, stopped: bool, latch: bool,
    edges: nat, answered: nat, raced: bool, fromStart: bool)

  /** The state when the threads start. */
  predicate Init(s: System) {
    && s.vm == Running && s.holder == None && !s.quit && s.running
    && (forall t | t in s.callers :: s.callers[t] == Idle) && s.vcpu == Guest
    && !s.irq && !s.stopped && !s.latch && s.edges == s.answered == 0 && !s.raced && s.fromStart == s.registered
  }

  /** Steps of a monitor thread: request_stop, request_cont, request_quit, set_wfi_waker. */
  datatype StopOp = Stop | StopWakes | StopWaits | StopRechecks
  datatype ContOp = Cont | ContClears
  datatype QuitOp = Quit | QuitClears | QuitLocks | QuitStops
  datatype RegisterOp = RegisterReads | RegisterLooks | RegisterSets | RegisterWakes

  /** Steps of the vCPU: a round that ends, starts over or leaves the execution loop, the pause check, WFI. */
  datatype GuestOp = GuestExits | GuestRepeats | GuestLeaves | GuestWfi(awake: bool)
  datatype LoopOp = RoundEnds | LoopLeft
  datatype CheckOp = Check | CheckLocks | Unpark
  datatype WfiOp = Try(expired: bool) | WfiWakes | WfiExpires

  datatype DeviceOp = Interrupt | ManagerClears | ManagerStops

  datatype Action =
    | Stopping(t: nat, stop: StopOp) | Continuing(t: nat, cont: ContOp) | QuittingBy(t: nat, q: QuitOp) | Registering(t: nat, reg: RegisterOp)
    | Executing(guest: GuestOp) | Looping(loop: LoopOp) | Checking(check: CheckOp) | Waiting(wfi: WfiOp) | Outside(dev: DeviceOp)

  // ---- Pieces of steps ----

  /** Wakes every thread waiting on the pause barrier. */
  function NotifyBarrier(callers: map<nat, Caller>): map<nat, Caller> {
    map t | t in callers :: if callers[t].StopWaiting? then StopWaiting(true) else callers[t]
  }

  function NotifyResume(v: Vcpu): Vcpu { if v.Parked? then v.(notified := true) else v }

  function NotifyWfi(v: Vcpu): Vcpu { if v.WfiBlocked? then WfiBlocked(true) else v }

  predicate At(s: System, t: nat, c: Caller) { t in s.callers && s.callers[t] == c }

  function Move(s: System, t: nat, c: Caller): System { s.(callers := s.callers[t := c]) }

  /** The pause check came back: with a quit the execution loop returns, else the round ends or the next begins. */
  function Returned(s: System, from: From): Vcpu {
    if s.quit then Leaving else if from == Loop then Guest else RoundEnd
  }

  // ---- Steps ----

  predicate StopEnabled(s: System, t: nat, op: StopOp) {
    match op
    case Stop => At(s, t, Idle) && s.holder == None
    case StopWakes => At(s, t, StopWake)
    case StopWaits => At(s, t, StopCheck)
    case StopRechecks => t in s.callers && s.callers[t].StopWaiting? && s.holder == None
  }

  /** Condition variables may wake spuriously: a recheck needs no notification. */
  function StopStep(s: System, t: nat, op: StopOp): (r: System)
    requires StopEnabled(s, t, op)
    ensures r.fromStart == s.fromStart && r.irq == s.irq && r.answered == s.answered
    ensures r.quit == s.quit && r.running == s.running
    ensures !s.vcpu.Parked? && !s.vcpu.WfiBlocked? ==> r.vcpu == s.vcpu
    ensures r.vm == s.vm || r.vm == PauseRequested
  {
    match op
    case Stop =>
      if s.vm == Paused then s
      else Move(s, t, StopWake).(vm := PauseRequested, holder := Some(t),
                                 raced := s.raced || (!s.registered && exists r :: r in s.callers && s.callers[r] == RegisterSet(false)))
    case StopWakes =>
      if s.registered then Move(s, t, StopCheck).(latch := true, vcpu := NotifyWfi(s.vcpu)) else Move(s, t, StopCheck)
    case StopWaits => Move(s, t, StopWaiting(false)).(holder := None)
    case StopRechecks => if s.vm == PauseRequested then Move(s, t, StopWaiting(false)) else Move(s, t, Idle)
  }

  predicate ContEnabled(s: System, t: nat, op: ContOp) {
    match op
    case Cont => At(s, t, Idle) && s.holder == None
    case ContClears => At(s, t, ContClear)
  }

  function ContStep(s: System, t: nat, op: ContOp): (r: System)
    requires ContEnabled(s, t, op)
    ensures r.fromStart == s.fromStart && r.irq == s.irq && r.answered == s.answered
    ensures r.quit == s.quit && r.running == s.running
    ensures !s.vcpu.Parked? && !s.vcpu.WfiBlocked? ==> r.vcpu == s.vcpu
    ensures r.vm == s.vm || r.vm == Running
  {
    match op
    case Cont =>
      if s.vm == Running then s
      else s.(vm := Running, holder := Some(t), vcpu := NotifyResume(s.vcpu), callers := NotifyBarrier(s.callers)[t := ContClear])
    case ContClears => Move(s, t, Idle).(latch := if s.registered then false else s.latch, holder := None)
  }

  predicate QuitEnabled(s: System, t: nat, op: QuitOp) {
    match op
    case Quit => At(s, t, Idle)
    case QuitClears => At(s, t, QuitFlag)
    case QuitLocks => At(s, t, QuitLock) && s.holder == None
    case QuitStops => At(s, t, QuitStop)
  }

  function QuitStep(s: System, t: nat, op: QuitOp): (r: System)
    requires QuitEnabled(s, t, op)
    ensures r.fromStart == s.fromStart && r.irq == s.irq && r.answered == s.answered
    ensures op != Quit ==> r.quit == s.quit
    ensures !s.vcpu.Parked? && !s.vcpu.WfiBlocked? ==> r.vcpu == s.vcpu
    ensures r.vm == s.vm || r.vm == Running
  {
    match op
    case Quit => Move(s, t, QuitFlag).(quit := true)
    case QuitClears => Move(s, t, QuitLock).(running := false)
    case QuitLocks =>
      s.(vm := Running, holder := Some(t), vcpu := NotifyResume(s.vcpu), callers := NotifyBarrier(s.callers)[t := QuitStop])
    case QuitStops =>
      if s.registered then Move(s, t, Idle).(stopped := true, vcpu := NotifyWfi(s.vcpu), holder := None)
      else Move(s, t, Idle).(holder := None)
  }

  predicate RegisterEnabled(s: System, t: nat, op: RegisterOp) {
    match op
    case RegisterReads => At(s, t, Idle)
    case RegisterLooks => At(s, t, RegisterPause) && s.holder == None
    case RegisterSets => t in s.callers && s.callers[t].RegisterSet?
    case RegisterWakes => At(s, t, RegisterWake)
  }

  function RegisterStep(s: System, t: nat, op: RegisterOp): (r: System)
    requires RegisterEnabled(s, t, op)
    ensures r.fromStart == s.fromStart && r.irq == s.irq && r.answered == s.answered
    ensures r.quit == s.quit && r.running == s.running
    ensures !s.vcpu.Parked? && !s.vcpu.WfiBlocked? ==> r.vcpu == s.vcpu
    ensures r.vm == s.vm
  {
    match op
    case RegisterReads => Move(s, t, if s.quit then RegisterSet(true) else RegisterPause)
    case RegisterLooks => Move(s, t, RegisterSet(s.vm != Running))
    case RegisterSets => Move(s, t, if s.callers[t].needsWake then RegisterWake else Idle).(registered := true)
    case RegisterWakes => Move(s, t, Idle).(latch := true, vcpu := NotifyWfi(s.vcpu))
  }

  predicate CheckEnabled(s: System, op: CheckOp) {
    match op
    case Check => s.vcpu.CheckStart?
    case CheckLocks => s.vcpu.CheckLock? && s.holder == None
    case Unpark => s.vcpu.Parked? && s.holder == None
  }

  function CheckStep(s: System, op: CheckOp): (r: System)
    requires CheckEnabled(s, op)
    ensures r.fromStart == s.fromStart && r.irq == s.irq && r.answered == s.answered
    ensures r.quit == s.quit && r.running == s.running
  {
    match op
    case Check => s.(vcpu := if s.quit then Returned(s, s.vcpu.from) else CheckLock(s.vcpu.from))
    case CheckLocks =>
      if s.vm == PauseRequested then s.(vm := Paused, callers := NotifyBarrier(s.callers), vcpu := Parked(s.vcpu.from, false))
      else s.(vcpu := Returned(s, s.vcpu.from))
    case Unpark => s.(vcpu := if s.vm == Paused then s.vcpu.(notified := false) else Returned(s, s.vcpu.from))
  }

  predicate WfiEnabled(s: System, op: WfiOp) {
    match op
    case Try(_) => s.vcpu == WfiTry
    case WfiWakes => s.vcpu.WfiBlocked?
    case WfiExpires => s.vcpu.WfiBlocked?
  }

  function WfiStep(s: System, op: WfiOp): (r: System)
    requires WfiEnabled(s, op)
    ensures r.fromStart == s.fromStart && r.vm == s.vm && r.quit == s.quit && r.running == s.running && r.callers == s.callers
    ensures !r.vcpu.CheckLock? && !r.vcpu.Parked? && r.vcpu != Exited
    ensures s.irq && !r.irq ==> op.Try? && r.answered == s.answered + 1 && r.vcpu == CheckStart(Wfi)
  {
    match op
    case Try(expired) =>
      if s.irq then s.(irq := false, answered := s.answered + 1, vcpu := CheckStart(Wfi))
      else if s.stopped then s.(vcpu := Leaving)
      else if s.latch then s.(latch := false, vcpu := CheckStart(Wfi))
      else if expired then s.(vcpu := CheckStart(Wfi))
      else s.(vcpu := WfiBlocked(false))
    case WfiWakes => s.(vcpu := WfiTry)
    case WfiExpires => s.(vcpu := CheckStart(Wfi))
  }

  /** Where a round of guest code leads. */
  function GuestNext(op: GuestOp): Vcpu {
    match op
    case GuestExits => RoundEnd
    case GuestRepeats => Guest
    case GuestLeaves => Leaving
    case GuestWfi(awake) => if awake then RoundEnd else WfiTry
  }

  predicate LoopEnabled(s: System, op: LoopOp) {
    match op
    case RoundEnds => s.vcpu == RoundEnd
    case LoopLeft => s.vcpu == Leaving
  }

  /** A round ends with the external stop test; the loop around starts the execution loop again while running. */
  function LoopNext(running: bool, op: LoopOp): Vcpu {
    match op
    case RoundEnds => if running then CheckStart(Loop) else Leaving
    case LoopLeft => if running then Guest else Exited
  }

  function DeviceStep(s: System, op: DeviceOp): (r: System)
    ensures r.fromStart == s.fromStart && r.vm == s.vm && (s.irq ==> r.irq) && r.quit == s.quit && r.callers == s.callers
    ensures !op.ManagerClears? ==> r.running == s.running
    ensures !s.vcpu.WfiBlocked? ==> r.vcpu == s.vcpu
  {
    match op
    case Interrupt => s.(irq := true, vcpu := NotifyWfi(s.vcpu), edges := if s.irq then s.edges else s.edges + 1)
    case ManagerClears => s.(running := false)
    case ManagerStops => s.(stopped := true, vcpu := NotifyWfi(s.vcpu))
  }

  predicate Enabled(s: System, a: Action) {
    match a
    case Stopping(t, op) => StopEnabled(s, t, op)
    case Continuing(t, op) => ContEnabled(s, t, op)
    case QuittingBy(t, op) => QuitEnabled(s, t, op)
    case Registering(t, op) => RegisterEnabled(s, t, op)
    case Checking(op) => CheckEnabled(s, op)
    case Executing(_) => s.vcpu == Guest
    case Looping(op) => LoopEnabled(s, op)
    case Waiting(op) => WfiEnabled(s, op)
    case Outside(_) => true
  }

  function Step(s: System, a: Action): System
    requires Enabled(s, a)
  {
    match a
    case Stopping(t, op) => StopStep(s, t, op)
    case Continuing(t, op) => ContStep(s, t, op)
    case QuittingBy(t, op) => QuitStep(s, t, op)
    case Registering(t, op) => RegisterStep(s, t, op)
    case Checking(op) => CheckStep(s, op)
    case Executing(op) => s.(vcpu := GuestNext(op))
    case Looping(op) => s.(vcpu := LoopNext(s.running, op))
    case Waiting(op) => WfiStep(s, op)
    case Outside(op) => DeviceStep(s, op)
  }

  // ---- What every step keeps ----

  type Callers = map<nat, Caller>

  /** The thread that holds the lock is the one in a locked section, which knows the state it set. */
  ghost predicate LockOk(holder: Option<nat>, callers: Callers) {
    && (holder.Some? ==> holder.value in callers && Holding(callers[holder.value]))
    && (forall t | t in callers && Holding(callers[t]) :: holder == Some(t))
  }

  ghost predicate SectionsOk(vm: VmState, callers: Callers) {
    forall t | t in callers ::
      && (callers[t] == StopWake || callers[t] == StopCheck ==> vm == PauseRequested)
      && (callers[t] == ContClear || callers[t] == QuitStop ==> vm == Running)
  }

  /** A thread left on the pause barrier and not notified waits for a request still in force. */
  ghost predicate BarrierOk(vm: VmState, callers: Callers) {
    forall t | t in callers && callers[t] == StopWaiting(false) :: vm == PauseRequested
  }

  /** A thread about to register the waker without a wake saw no pause since. */
  ghost predicate RegisteringOk(vm: VmState, callers: Callers) {
    forall t | t in callers && callers[t] == RegisterSet(false) :: vm == Running
  }

  ghost predicate Someone(callers: Callers, c: Caller) { exists t :: t in callers && callers[t] == c }

  /** The vCPU sleeping and not notified sleeps for a reason. */
  ghost predicate SleepOk(s: System) {
    && (s.vcpu.Parked? && !s.vcpu.notified ==> s.vm == Paused)
    && (s.vcpu == WfiBlocked(false) ==> !s.irq && !s.stopped && !s.latch)
  }

  /** The machine is paused only while the vCPU is parked. */
  ghost predicate PausedIsParked(s: System) { s.vm == Paused ==> s.vcpu.Parked? }

  /** On its way from WFI to the pause check. */
  predicate Heading(v: Vcpu) { v == CheckStart(Wfi) || v == CheckLock(Wfi) }

  /** A pause request in force has its wake-up latched, on its way, or already taken by a vCPU about to park. */
  ghost predicate WakeIsDue(s: System) {
    s.vm == PauseRequested && s.registered && !s.raced ==>
      s.latch || Someone(s.callers, StopWake) || Someone(s.callers, RegisterWake) || Heading(s.vcpu) || s.quit
  }

  ghost predicate RegistrationOk(s: System) {
    (s.fromStart ==> s.registered && !s.raced) && (!s.raced && !s.registered ==> RegisteringOk(s.vm, s.callers))
  }

  /** A quit still on its way through. */
  ghost predicate Quitting(callers: Callers) { Someone(callers, QuitFlag) || Someone(callers, QuitLock) || Someone(callers, QuitStop) }

  ghost predicate QuitOk(s: System) {
    && (s.quit ==> !s.running || Someone(s.callers, QuitFlag))
    && (s.quit && s.fromStart ==> s.stopped || Quitting(s.callers))
  }

  /** Every interrupt edge was answered once or is still pending. */
  predicate IrqOk(s: System) { s.edges == s.answered + if s.irq then 1 else 0 }

  ghost predicate CallersOk(s: System) {
    LockOk(s.holder, s.callers) && SectionsOk(s.vm, s.callers) && BarrierOk(s.vm, s.callers)
  }

  ghost predicate Inv(s: System) {
    CallersOk(s) && SleepOk(s) && PausedIsParked(s) && WakeIsDue(s) && RegistrationOk(s) && QuitOk(s) && IrqOk(s)
  }

  lemma InitInv(s: System)
    requires Init(s)
    ensures Inv(s)
  {
  }

  // ---- Moving one thread ----

  /** Thread t goes to c, the others stay or are notified. */
  ghost predicate Moved(was: Callers, now: Callers, t: nat, c: Caller) {
    && now.Keys == was.Keys && t in now && now[t] == c
    && forall u | u in was && u != t :: now[u] == was[u] || (was[u].StopWaiting? && now[u] == StopWaiting(true))
  }

  lemma SomeoneStays(was: Callers, now: Callers, t: nat, c: Caller, d: Caller)
    requires Moved(was, now, t, c) && t in was && !d.StopWaiting?
    ensures Someone(was, d) && was[t] != d ==> Someone(now, d)
    ensures c == d ==> Someone(now, d)
  {
    if Someone(was, d) && was[t] != d {
      var u :| u in was && was[u] == d;
      assert now[u] == d;
    }
  }

  lemma Wake(was: Callers, now: Callers, t: nat, c: Caller)
    requires Moved(was, now, t, c) && t in was
    ensures forall d: Caller | !d.StopWaiting? :: (Someone(was, d) && was[t] != d ==> Someone(now, d)) && (c == d ==> Someone(now, d))
  {
    forall d: Caller | !d.StopWaiting? ensures (Someone(was, d) && was[t] != d ==> Someone(now, d)) && (c == d ==> Someone(now, d)) {
      SomeoneStays(was, now, t, c, d);
    }
  }

  /** A thread takes the lock, sets the state and notifies the barrier unless a pause is being requested. */
  lemma TakeLock(was: Callers, now: Callers, vm: VmState, next: VmState, t: nat, c: Caller)
    requires LockOk(None, was) && SectionsOk(vm, was) && Moved(was, now, t, c) && Holding(c) && t in was
    requires (c == StopWake ==> next == PauseRequested) && (c == ContClear || c == QuitStop ==> next == Running) && c != StopCheck
    requires next == PauseRequested || NoneWaiting(now)
    ensures LockOk(Some(t), now) && SectionsOk(next, now) && BarrierOk(next, now)
  {
    assert forall u | u in was :: !Holding(was[u]);
  }

  /** The holder moves on in its section or out of it. */
  lemma UseLock(was: Callers, now: Callers, vm: VmState, t: nat, c: Caller)
    requires LockOk(Some(t), was) && SectionsOk(vm, was) && BarrierOk(vm, was) && Moved(was, now, t, c)
    requires c == Idle || (c == StopCheck && vm == PauseRequested) || (c == StopWaiting(false) && vm == PauseRequested)
    ensures LockOk(if Holding(c) then Some(t) else None, now) && SectionsOk(vm, now) && BarrierOk(vm, now)
  {
    assert forall u | u in was && u != t :: !Holding(was[u]);
  }

  /** A thread without the lock moves on without it. */
  lemma NoLock(was: Callers, now: Callers, holder: Option<nat>, vm: VmState, t: nat, c: Caller)
    requires LockOk(holder, was) && SectionsOk(vm, was) && BarrierOk(vm, was) && Moved(was, now, t, c) && t in was
    requires !Holding(was[t]) && !Holding(c) && (c == StopWaiting(false) ==> vm == PauseRequested)
    ensures LockOk(holder, now) && SectionsOk(vm, now) && BarrierOk(vm, now)
  {
  }

  ghost predicate NoneWaiting(callers: Callers) { forall u | u in callers :: callers[u] != StopWaiting(false) }

  lemma MovedAlone(was: Callers, t: nat, c: Caller)
    requires t in was
    ensures Moved(was, was[t := c], t, c)
  {
  }

  lemma MovedAll(was: Callers, t: nat, c: Caller)
    requires t in was
    ensures Moved(was, NotifyBarrier(was)[t := c], t, c)
    ensures c != StopWaiting(false) ==> NoneWaiting(NotifyBarrier(was)[t := c])
  {
  }

  lemma HolderIs(holder: Option<nat>, callers: Callers, t: nat)
    requires LockOk(holder, callers) && t in callers && Holding(callers[t])
    ensures holder == Some(t)
  {
  }

  lemma SectionIs(vm: VmState, callers: Callers, t: nat)
    requires SectionsOk(vm, callers) && t in callers
    ensures callers[t] == StopWake || callers[t] == StopCheck ==> vm == PauseRequested
    ensures callers[t] == ContClear || callers[t] == QuitStop ==> vm == Running
  {
  }

  // ---- Every step keeps it ----

  lemma StopFirst(s: System, t: nat)
    requires Inv(s) && StopEnabled(s, t, Stop) && s.vm != Paused
    ensures Inv(StopStep(s, t, Stop))
  {
    hide LockOk, SectionsOk, BarrierOk, Someone, Moved, RegisteringOk;
    var r := StopStep(s, t, Stop);
    MovedAlone(s.callers, t, StopWake);
    Wake(s.callers, r.callers, t, StopWake);
    TakeLock(s.callers, r.callers, s.vm, r.vm, t, StopWake);
    if !r.raced && !r.registered { NoRegistration(s.callers, t, StopWake, r.vm); }
  }

  lemma NoRegistration(callers: Callers, t: nat, c: Caller, vm: VmState)
    requires !(exists u :: u in callers && callers[u] == RegisterSet(false)) && c != RegisterSet(false)
    ensures RegisteringOk(vm, callers[t := c])
  {
    assert forall u | u in callers :: callers[u] != RegisterSet(false);
  }

  lemma RegisteringStays(was: Callers, now: Callers, vm: VmState, next: VmState, t: nat, c: Caller)
    requires Moved(was, now, t, c) && (c == RegisterSet(false) ==> next == Running) && (next == vm || next == Running)
    ensures RegisteringOk(vm, was) ==> RegisteringOk(next, now)
  {
  }

  lemma StopRest(s: System, t: nat, op: StopOp)
    requires Inv(s) && StopEnabled(s, t, op) && (op.StopWakes? || op.StopWaits?)
    ensures Inv(StopStep(s, t, op))
  {
    hide LockOk, SectionsOk, BarrierOk, Someone, Moved, RegisteringOk;
    var r := StopStep(s, t, op);
    var c := r.callers[t];
    MovedAlone(s.callers, t, c);
    Wake(s.callers, r.callers, t, c);
    RegisteringStays(s.callers, r.callers, s.vm, s.vm, t, c);
    HolderIs(s.holder, s.callers, t);
    SectionIs(s.vm, s.callers, t);
    UseLock(s.callers, r.callers, s.vm, t, c);
  }

  lemma StopAgain(s: System, t: nat)
    requires Inv(s) && StopEnabled(s, t, StopRechecks)
    ensures Inv(StopStep(s, t, StopRechecks))
  {
    hide LockOk, SectionsOk, BarrierOk, Someone, Moved, RegisteringOk;
    var r := StopStep(s, t, StopRechecks);
    var c := if s.vm == PauseRequested then StopWaiting(false) else Idle;
    MovedAlone(s.callers, t, c);
    Wake(s.callers, r.callers, t, c);
    RegisteringStays(s.callers, r.callers, s.vm, s.vm, t, c);
    NoLock(s.callers, r.callers, s.holder, s.vm, t, c);
  }

  lemma StopKeeps(s: System, t: nat, op: StopOp)
    requires Inv(s) && StopEnabled(s, t, op)
    ensures Inv(StopStep(s, t, op))
  {
    hide Inv;
    if op.Stop? {
      if s.vm != Paused { StopFirst(s, t); }
    } else if op.StopRechecks? {
      StopAgain(s, t);
    } else {
      StopRest(s, t, op);
    }
  }

  lemma ContKeeps(s: System, t: nat, op: ContOp)
    requires Inv(s) && ContEnabled(s, t, op)
    ensures Inv(ContStep(s, t, op))
  {
    hide LockOk, SectionsOk, BarrierOk, Someone, Moved, RegisteringOk, NotifyBarrier;
    var r := ContStep(s, t, op);
    if op.Cont? {
      if s.vm != Running {
        MovedAll(s.callers, t, ContClear);
        Wake(s.callers, r.callers, t, ContClear);
        TakeLock(s.callers, r.callers, s.vm, Running, t, ContClear);
        RegisteringStays(s.callers, r.callers, s.vm, Running, t, ContClear);
      }
    } else {
      MovedAlone(s.callers, t, Idle);
      Wake(s.callers, r.callers, t, Idle);
      HolderIs(s.holder, s.callers, t);
      SectionIs(s.vm, s.callers, t);
      UseLock(s.callers, r.callers, s.vm, t, Idle);
      RegisteringStays(s.callers, r.callers, s.vm, s.vm, t, Idle);
    }
  }

  /** A quit sets its flags without the lock. */
  lemma QuitFlags(s: System, t: nat, op: QuitOp)
    requires Inv(s) && QuitEnabled(s, t, op) && (op.Quit? || op.QuitClears?)
    ensures Inv(QuitStep(s, t, op))
  {
    hide LockOk, SectionsOk, BarrierOk, Someone, Moved, RegisteringOk;
    var r := QuitStep(s, t, op);
    var c := if op.Quit? then QuitFlag else QuitLock;
    MovedAlone(s.callers, t, c);
    Wake(s.callers, r.callers, t, c);
    NoLock(s.callers, r.callers, s.holder, s.vm, t, c);
    RegisteringStays(s.callers, r.callers, s.vm, s.vm, t, c);
  }

  lemma QuitFrees(s: System, t: nat)
    requires Inv(s) && QuitEnabled(s, t, QuitLocks)
    ensures Inv(QuitStep(s, t, QuitLocks))
  {
    hide LockOk, SectionsOk, BarrierOk, Someone, Moved, RegisteringOk, NotifyBarrier;
    var r := QuitStep(s, t, QuitLocks);
    MovedAll(s.callers, t, QuitStop);
    Wake(s.callers, r.callers, t, QuitStop);
    TakeLock(s.callers, r.callers, s.vm, Running, t, QuitStop);
    RegisteringStays(s.callers, r.callers, s.vm, Running, t, QuitStop);
  }

  lemma QuitLetsGo(s: System, t: nat)
    requires Inv(s) && QuitEnabled(s, t, QuitStops)
    ensures Inv(QuitStep(s, t, QuitStops))
  {
    hide LockOk, SectionsOk, BarrierOk, Someone, Moved, RegisteringOk;
    var r := QuitStep(s, t, QuitStops);
    MovedAlone(s.callers, t, Idle);
    Wake(s.callers, r.callers, t, Idle);
    HolderIs(s.holder, s.callers, t);
    SectionIs(s.vm, s.callers, t);
    UseLock(s.callers, r.callers, s.vm, t, Idle);
    RegisteringStays(s.callers, r.callers, s.vm, s.vm, t, Idle);
  }

  lemma QuitKeeps(s: System, t: nat, op: QuitOp)
    requires Inv(s) && QuitEnabled(s, t, op)
    ensures Inv(QuitStep(s, t, op))
  {
    hide Inv, QuitStep;
    match op
    case QuitLocks => QuitFrees(s, t);
    case QuitStops => QuitLetsGo(s, t);
    case _ => QuitFlags(s, t, op);
  }

  /** A registering thread looks at the state and moves on. */
  lemma RegisterMoves(s: System, t: nat, c: Caller)
    requires Inv(s) && t in s.callers && (s.callers[t] == Idle || s.callers[t] == RegisterPause)
    requires c == RegisterPause || (c.RegisterSet? && (s.vm == Running || c.needsWake))
    ensures Inv(Move(s, t, c))
  {
    hide LockOk, SectionsOk, BarrierOk, Someone, Moved, RegisteringOk;
    MovedAlone(s.callers, t, c);
    Wake(s.callers, s.callers[t := c], t, c);
    NoLock(s.callers, s.callers[t := c], s.holder, s.vm, t, c);
    RegisteringStays(s.callers, s.callers[t := c], s.vm, s.vm, t, c);
  }

  lemma RegisterEnds(s: System, t: nat, op: RegisterOp)
    requires Inv(s) && RegisterEnabled(s, t, op) && (op.RegisterSets? || op.RegisterWakes?)
    ensures Inv(RegisterStep(s, t, op))
  {
    hide LockOk, SectionsOk, BarrierOk, Someone, Moved, RegisteringOk;
    var r := RegisterStep(s, t, op);
    var c := if op.RegisterSets? && s.callers[t].needsWake then RegisterWake else Idle;
    MovedAlone(s.callers, t, c);
    Wake(s.callers, r.callers, t, c);
    NoLock(s.callers, r.callers, s.holder, s.vm, t, c);
    RegisteringStays(s.callers, r.callers, s.vm, s.vm, t, c);
    if op.RegisterSets? { RegisteringIs(s.vm, s.callers, t); }
  }

  lemma RegisterKeeps(s: System, t: nat, op: RegisterOp)
    requires Inv(s) && RegisterEnabled(s, t, op)
    ensures Inv(RegisterStep(s, t, op))
  {
    hide Inv;
    match op
    case RegisterReads => RegisterMoves(s, t, if s.quit then RegisterSet(true) else RegisterPause);
    case RegisterLooks => RegisterMoves(s, t, RegisterSet(s.vm != Running));
    case _ => RegisterEnds(s, t, op);
  }

  lemma RegisteringIs(vm: VmState, callers: Callers, t: nat)
    requires t in callers && callers[t].RegisterSet?
    ensures RegisteringOk(vm, callers) && !callers[t].needsWake ==> vm == Running
  {
  }

  lemma CheckKeeps(s: System, op: CheckOp)
    requires Inv(s) && CheckEnabled(s, op)
    ensures Inv(CheckStep(s, op))
  {
    hide LockOk, SectionsOk, BarrierOk, Someone, RegisteringOk, NotifyBarrier;
    if op.CheckLocks? && s.vm == PauseRequested { BarrierPasses(s.callers, s.vm); }
  }

  /** The vCPU parks: nobody is in a locked section, everybody at the barrier is notified. */
  lemma BarrierPasses(callers: Callers, vm: VmState)
    requires LockOk(None, callers)
    ensures var now := NotifyBarrier(callers);
      && LockOk(None, now) && SectionsOk(Paused, now) && BarrierOk(Paused, now)
      && (RegisteringOk(PauseRequested, callers) ==> RegisteringOk(Paused, now))
      && forall c: Caller | !c.StopWaiting? :: Someone(callers, c) ==> Someone(now, c)
  {
    var now := NotifyBarrier(callers);
    forall c: Caller | !c.StopWaiting? && Someone(callers, c) ensures Someone(now, c) {
      var u :| u in callers && callers[u] == c;
      assert now[u] == c;
    }
    assert forall u | u in callers :: !Holding(callers[u]);
  }

  /** The vCPU moves between places where it neither sleeps nor heads for the pause check. */
  lemma VcpuMoves(s: System, v: Vcpu)
    requires Inv(s) && !s.vcpu.Parked? && !Heading(s.vcpu) && !v.Parked? && v != WfiBlocked(false)
    ensures Inv(s.(vcpu := v))
  {
    hide CallersOk, Someone, Quitting, RegistrationOk;
    SameCallers(s, s.(vcpu := v));
  }

  lemma WfiAnswers(s: System)
    requires Inv(s) && s.vcpu == WfiTry && s.irq
    ensures Inv(s.(irq := false, answered := s.answered + 1, vcpu := CheckStart(Wfi)))
  {
    hide CallersOk, Someone, Quitting, RegistrationOk;
    SameCallers(s, s.(irq := false, answered := s.answered + 1, vcpu := CheckStart(Wfi)));
  }

  lemma WfiTakes(s: System)
    requires Inv(s) && s.vcpu == WfiTry
    ensures Inv(s.(latch := false, vcpu := CheckStart(Wfi)))
  {
    hide CallersOk, Someone, Quitting, RegistrationOk;
    SameCallers(s, s.(latch := false, vcpu := CheckStart(Wfi)));
  }

  lemma WfiBlocks(s: System)
    requires Inv(s) && s.vcpu == WfiTry && !s.irq && !s.stopped && !s.latch
    ensures Inv(s.(vcpu := WfiBlocked(false)))
  {
    hide CallersOk, Someone, Quitting, RegistrationOk;
    SameCallers(s, s.(vcpu := WfiBlocked(false)));
  }

  lemma WfiKeeps(s: System, op: WfiOp)
    requires Inv(s) && WfiEnabled(s, op)
    ensures Inv(WfiStep(s, op))
  {
    hide Inv;
    match op
    case Try(expired) =>
      if s.irq { WfiAnswers(s); }
      else if s.stopped { VcpuMoves(s, Leaving); }
      else if s.latch { WfiTakes(s); }
      else if expired { VcpuMoves(s, CheckStart(Wfi)); }
      else { WfiBlocks(s); }
    case WfiWakes => VcpuMoves(s, WfiTry);
    case WfiExpires => VcpuMoves(s, CheckStart(Wfi));
  }

  /** A flag set for the vCPU, which is notified if it sleeps in WFI. */
  lemma WfiNotified(s: System, r: System)
    requires Inv(s) && r.vcpu == NotifyWfi(s.vcpu)
    requires r == s.(vcpu := r.vcpu, irq := r.irq, stopped := r.stopped, edges := r.edges) && (s.stopped ==> r.stopped) && IrqOk(r)
    ensures Inv(r)
  {
    hide CallersOk, Someone, Quitting, RegistrationOk;
    SameCallers(s, r);
  }

  lemma DeviceKeeps(s: System, op: DeviceOp)
    requires Inv(s)
    ensures Inv(DeviceStep(s, op))
  {
    match op {
      case ManagerClears => RunningCleared(s);
      case _ => WfiNotified(s, DeviceStep(s, op));
    }
  }

  lemma RunningCleared(s: System)
    requires Inv(s)
    ensures Inv(s.(running := false))
  {
    hide CallersOk, Someone, Quitting, RegistrationOk;
    SameCallers(s, s.(running := false));
  }

  lemma GuestKeeps(s: System, op: GuestOp)
    requires Inv(s) && s.vcpu == Guest
    ensures Inv(s.(vcpu := GuestNext(op)))
  {
    hide Inv;
    VcpuMoves(s, GuestNext(op));
  }

  lemma LoopKeeps(s: System, op: LoopOp)
    requires Inv(s) && LoopEnabled(s, op)
    ensures Inv(s.(vcpu := LoopNext(s.running, op)))
  {
    hide Inv;
    VcpuMoves(s, LoopNext(s.running, op));
  }

  lemma SameCallers(s: System, r: System)
    requires r.callers == s.callers && r.vm == s.vm && r.holder == s.holder && r.raced == s.raced && r.registered == s.registered && r.fromStart == s.fromStart
    ensures (CallersOk(s) ==> CallersOk(r)) && (RegistrationOk(s) ==> RegistrationOk(r))
  {
  }

  lemma StepKeeps(s: System, a: Action)
    requires Inv(s) && Enabled(s, a)
    ensures Inv(Step(s, a))
  {
    hide Inv, StopStep, ContStep, QuitStep, RegisterStep, CheckStep, WfiStep, DeviceStep, GuestNext, LoopNext;
    match a
    case Stopping(t, op) => StopKeeps(s, t, op);
    case Continuing(t, op) => ContKeeps(s, t, op);
    case QuittingBy(t, op) => QuitKeeps(s, t, op);
    case Registering(t, op) => RegisterKeeps(s, t, op);
    case Checking(op) => CheckKeeps(s, op);
    case Waiting(op) => WfiKeeps(s, op);
    case Outside(op) => DeviceKeeps(s, op);
    case Executing(op) => GuestKeeps(s, op);
    case Looping(op) => LoopKeeps(s, op);
  }

  /** The state after a run; a step that is not enabled ends it. */
  function Run(s: System, actions: seq<Action>): System
    decreases |actions|
  {
    if actions == [] || !Enabled(s, actions[0]) then s else Run(Step(s, actions[0]), actions[1..])
  }

  /** Every run of any threads keeps the invariant. */
  lemma {:induction false} RunKeeps(s: System, actions: seq<Action>)
    requires Inv(s)
    ensures Inv(Run(s, actions))
    decreases |actions|
  {
    hide Inv, Step, Enabled;
    if actions != [] && Enabled(s, actions[0]) {
      StepKeeps(s, actions[0]);
      RunKeeps(Step(s, actions[0]), actions[1..]);
    }
  }

  // ---- What the protocol is for ----

  /** In every run the machine is paused only while the vCPU is parked, and nobody left waiting was forgotten. */
  lemma NoLostWakeUp(s: System, actions: seq<Action>)
    requires Init(s)
    ensures var r := Run(s, actions);
      && (r.vm == Paused ==> r.vcpu.Parked?)
      && (forall t | t in r.callers && r.callers[t] == StopWaiting(false) :: r.vm == PauseRequested)
      && (r.vcpu.Parked? && !r.vcpu.notified ==> r.vm == Paused)
      && (r.vcpu == WfiBlocked(false) ==> !r.irq && !r.stopped && !r.latch)
      && r.edges == r.answered + if r.irq then 1 else 0
  {
    InitInv(s);
    RunKeeps(s, actions);
  }

  /** A vCPU asleep in WFI while a pause is requested has a wake-up on its way. */
  lemma AsleepIsWoken(s: System, actions: seq<Action>)
    requires Init(s)
    ensures var r := Run(s, actions);
      r.vm == PauseRequested && r.registered && !r.raced && r.vcpu == WfiBlocked(false) ==>
        || Someone(r.callers, StopWake) || Someone(r.callers, RegisterWake)
        || (r.quit && (r.fromStart ==> Quitting(r.callers)))
  {
    hide Someone;
    InitInv(s);
    RunKeeps(s, actions);
  }

  /** A vCPU asleep in WFI while the machine quits has the quitting thread still ahead of its wake-up. */
  lemma AsleepIsStopped(s: System, actions: seq<Action>)
    requires Init(s) && s.registered
    ensures var r := Run(s, actions); r.quit && r.vcpu == WfiBlocked(false) ==> Quitting(r.callers)
  {
    hide Quitting;
    InitInv(s);
    RunKeeps(s, actions);
    StartKept(s, actions);
  }

  /** The vCPU that took the wake-up parks before it runs guest code, unless the request is withdrawn or the machine quits. */
  lemma WokenParks(s: System, a: Action)
    requires Inv(s) && s.vm == PauseRequested && Heading(s.vcpu) && Enabled(s, a)
    ensures var r := Step(s, a); Heading(r.vcpu) || r.quit || r.vm == Running || (r.vm == Paused && r.vcpu.Parked?)
  {
    hide Inv, NotifyBarrier, StopStep, ContStep, QuitStep, RegisterStep, CheckStep, WfiStep, DeviceStep, GuestNext, LoopNext;
    if a.Checking? { WokenChecks(s, a.check); }
  }

  lemma WokenChecks(s: System, op: CheckOp)
    requires s.vm == PauseRequested && Heading(s.vcpu) && CheckEnabled(s, op)
    ensures var r := CheckStep(s, op); Heading(r.vcpu) || r.quit || (r.vm == Paused && r.vcpu.Parked?)
  {
    hide NotifyBarrier;
    match op
    case Check =>
    case CheckLocks =>
  }

  /** An interrupt stays pending until a WFI return answers it. */
  lemma IrqStays(s: System, a: Action)
    requires s.irq && Enabled(s, a)
    ensures var r := Step(s, a); r.irq || (a.Waiting? && a.wfi.Try? && r.answered == s.answered + 1 && r.vcpu == CheckStart(Wfi))
  {
    hide WfiStep, StopStep, ContStep, QuitStep, RegisterStep, CheckStep, DeviceStep, GuestNext, LoopNext;
    if !a.Waiting? { IrqKept(s, a); }
  }

  lemma IrqKept(s: System, a: Action)
    requires s.irq && Enabled(s, a) && !a.Waiting?
    ensures Step(s, a).irq
  {
    hide StopStep, ContStep, QuitStep, RegisterStep, CheckStep, DeviceStep, GuestNext, LoopNext;
  }

  /** A step that no spurious wake-up, device or new request is needed for; guest code is taken to return to the loop. */
  predicate Genuine(s: System, a: Action) {
    && Enabled(s, a)
    && match a
       case Stopping(t, op) => op.StopWakes? || op.StopWaits? || s.callers[t] == StopWaiting(true)
       case Continuing(_, op) => op.ContClears?
       case QuittingBy(_, op) => !op.Quit?
       case Registering(_, op) => !op.RegisterReads?
       case Checking(op) => op.Unpark? ==> s.vcpu.notified
       case Executing(op) => op.GuestExits?
       case Looping(_) => true
       case Waiting(op) => op.Try? || (op.WfiWakes? && s.vcpu == WfiBlocked(true))
       case Outside(_) => false
  }

  lemma HolderMoves(s: System) returns (a: Action)
    requires LockOk(s.holder, s.callers) && s.holder.Some?
    ensures Genuine(s, a)
  {
    var t := s.holder.value;
    match s.callers[t]
    case StopWake => a := Stopping(t, StopWakes);
    case StopCheck => a := Stopping(t, StopWaits);
    case ContClear => a := Continuing(t, ContClears);
    case QuitStop => a := QuittingBy(t, QuitStops);
  }

  /** Some thread can move on by itself. */
  ghost predicate Moves(s: System) { exists a :: Genuine(s, a) }

  lemma MovesBy(s: System, a: Action)
    requires Genuine(s, a)
    ensures Moves(s)
  {
  }

  lemma ThreadMoves(s: System)
    requires Inv(s) && (s.holder.Some? || !(s.vcpu == Exited || (s.vcpu.Parked? && !s.vcpu.notified) || s.vcpu == WfiBlocked(false)))
    ensures Moves(s)
  {
    hide Inv, Moves;
    if s.holder.Some? {
      assert LockOk(s.holder, s.callers) by { LockIn(s); }
      var a := HolderMoves(s);
      MovesBy(s, a);
    } else {
      match s.vcpu
      case Guest => MovesBy(s, Executing(GuestExits));
      case RoundEnd => MovesBy(s, Looping(RoundEnds));
      case Leaving => MovesBy(s, Looping(LoopLeft));
      case CheckStart(_) => MovesBy(s, Checking(Check));
      case CheckLock(_) => MovesBy(s, Checking(CheckLocks));
      case Parked(_, _) => MovesBy(s, Checking(Unpark));
      case WfiTry => MovesBy(s, Waiting(Try(false)));
      case WfiBlocked(_) => MovesBy(s, Waiting(WfiWakes));
    }
  }

  lemma LockIn(s: System)
    requires Inv(s)
    ensures LockOk(s.holder, s.callers)
  {
  }

  /**
    * While a pause is requested of a vCPU that still runs, some thread can always move on by
    * itself: the protocol does not get stuck once the waker is registered, unless a stop came
    * between the check and the registration, or a quit before it.
    */
  lemma NeverStuck(s: System, actions: seq<Action>)
    requires Init(s)
    ensures var r := Run(s, actions);
      r.vm == PauseRequested && r.vcpu != Exited && r.registered && !r.raced && (r.quit ==> s.registered) ==> Moves(r)
  {
    hide Moves, CallersOk;
    InitInv(s);
    RunKeeps(s, actions);
    StartKept(s, actions);
    var r := Run(s, actions);
    if r.vm == PauseRequested && r.vcpu != Exited && r.registered && !r.raced && (r.quit ==> s.registered) {
      if r.holder == None && r.vcpu == WfiBlocked(false) { AsleepMoves(r); } else { ThreadMoves(r); }
    }
  }

  /** While the machine quits, some thread can move on, or the vCPU is parked and no quit is on its way. */
  lemma QuitMovesOrParked(s: System, actions: seq<Action>)
    requires Init(s) && s.registered
    ensures var r := Run(s, actions);
      r.quit && r.vcpu != Exited && !(r.vcpu.Parked? && r.vm == Paused && !Quitting(r.callers)) ==> Moves(r)
  {
    hide Moves, CallersOk;
    InitInv(s);
    RunKeeps(s, actions);
    StartKept(s, actions);
    var r := Run(s, actions);
    if r.quit && r.vcpu != Exited && !(r.vcpu.Parked? && r.vm == Paused && !Quitting(r.callers)) {
      if r.holder == None && Quitting(r.callers) { QuitMoves(r); } else { ThreadMoves(r); }
    }
  }

  lemma QuitMoves(s: System)
    requires Inv(s) && s.holder == None && Quitting(s.callers)
    ensures Moves(s)
  {
    NobodyHolds(s.callers);
    if Someone(s.callers, QuitFlag) {
      var t :| t in s.callers && s.callers[t] == QuitFlag;
      MovesBy(s, QuittingBy(t, QuitClears));
    } else {
      var t :| t in s.callers && s.callers[t] == QuitLock;
      MovesBy(s, QuittingBy(t, QuitLocks));
    }
  }

  lemma StepStart(s: System, a: Action)
    requires Enabled(s, a)
    ensures Step(s, a).fromStart == s.fromStart
  {
    hide StopStep, ContStep, QuitStep, RegisterStep, CheckStep, WfiStep, DeviceStep, GuestNext, LoopNext;
    hide StopEnabled, ContEnabled, QuitEnabled, RegisterEnabled, CheckEnabled, WfiEnabled, LoopEnabled;
    match a
    case Stopping(t, op) => assert Step(s, a) == StopStep(s, t, op);
    case Continuing(t, op) => assert Step(s, a) == ContStep(s, t, op);
    case QuittingBy(t, op) => assert Step(s, a) == QuitStep(s, t, op);
    case Registering(t, op) => assert Step(s, a) == RegisterStep(s, t, op);
    case Checking(op) => assert Step(s, a) == CheckStep(s, op);
    case Waiting(op) => assert Step(s, a) == WfiStep(s, op);
    case _ =>
  }

  lemma {:induction false} StartKept(s: System, actions: seq<Action>)
    ensures Run(s, actions).fromStart == s.fromStart
    decreases |actions|
  {
    hide Step, Enabled;
    if actions != [] && Enabled(s, actions[0]) {
      StepStart(s, actions[0]);
      StartKept(Step(s, actions[0]), actions[1..]);
    }
  }

  lemma NobodyHolds(callers: Callers)
    requires LockOk(None, callers)
    ensures !Someone(callers, StopWake) && !Someone(callers, QuitStop)
  {
  }

  lemma AsleepMoves(s: System)
    requires Inv(s) && s.vm == PauseRequested && s.registered && !s.raced && (s.quit ==> s.fromStart) && s.holder == None && s.vcpu == WfiBlocked(false)
    ensures Moves(s)
  {
    hide Moves;
    NobodyHolds(s.callers);
    if Someone(s.callers, RegisterWake) {
      var t :| t in s.callers && s.callers[t] == RegisterWake;
      MovesBy(s, Registering(t, RegisterWakes));
    } else {
      QuitMoves(s);
    }
  }

  lemma Unfold(s: System, actions: seq<Action>, i: nat)
    requires i < |actions| && Enabled(s, actions[i])
    ensures Run(s, actions[i..]) == Run(Step(s, actions[i]), actions[i + 1..])
  {
    assert actions[i..][0] == actions[i] && actions[i..][1..] == actions[i + 1..];
  }

  /** The vCPU asleep, parked or gone, callers that only wait or idle: nothing moves. */
  lemma NothingMoves(s: System)
    requires s.vcpu == WfiBlocked(false) || (s.vcpu.Parked? && !s.vcpu.notified) || s.vcpu == Exited
    requires s.holder == None && forall u | u in s.callers :: s.callers[u] == Idle || s.callers[u] == StopWaiting(false)
    ensures !Moves(s)
  {
    forall a ensures !Genuine(s, a) { }
  }

  // ---- A stop without the waker ----

  function Sleep(t: nat): seq<Action> {
    [Executing(GuestWfi(false)), Waiting(Try(false)), Stopping(t, Stop), Stopping(t, StopWakes), Stopping(t, StopWaits)]
  }

  lemma SleepRuns(s: System, t: nat)
    requires Init(s) && !s.registered && t in s.callers
    ensures var r := Run(s, Sleep(t));
      && r.vm == PauseRequested && r.vcpu == WfiBlocked(false) && r.holder == None && r.callers == s.callers[t := StopWaiting(false)]
  {
    hide Run, Step, Init;
    StartsIdle(s, t);
    var actions := Sleep(t);
    assert actions[0..] == actions;
    assert Step(s, actions[0]) == s.(vcpu := WfiTry) by { SleepGuest(s); }
    Unfold(s, actions, 0);
    var s1 := s.(vcpu := WfiTry);
    assert Step(s1, actions[1]) == s.(vcpu := WfiBlocked(false)) by { SleepTry(s1); }
    Unfold(s1, actions, 1);
    StopUnheard(s.(vcpu := WfiBlocked(false)), actions, 2, t);
    RunNothing(Unheard(s.(vcpu := WfiBlocked(false)), t), actions);
  }

  lemma StartsIdle(s: System, t: nat)
    requires Init(s) && t in s.callers
    ensures s.callers[t] == Idle && s.vm == Running && s.holder == None && s.vcpu == Guest && !s.irq && !s.stopped && !s.latch && !s.quit && s.running
  {
  }

  lemma SleepGuest(s: System)
    requires s.vcpu == Guest
    ensures Enabled(s, Executing(GuestWfi(false))) && Step(s, Executing(GuestWfi(false))) == s.(vcpu := WfiTry)
  {
  }

  lemma SleepTry(s: System)
    requires s.vcpu == WfiTry && !s.irq && !s.stopped && !s.latch
    ensures Enabled(s, Waiting(Try(false))) && Step(s, Waiting(Try(false))) == s.(vcpu := WfiBlocked(false))
  {
  }

  /** A stop that finds no waker leaves its thread at the barrier and everything else alone. */
  lemma StopUnheard(s: System, actions: seq<Action>, i: nat, t: nat)
    requires i + 3 <= |actions| && actions[i] == Stopping(t, Stop) && actions[i + 1] == Stopping(t, StopWakes) && actions[i + 2] == Stopping(t, StopWaits)
    requires s.vm == Running && s.holder == None && !s.registered && t in s.callers && s.callers[t] == Idle
    ensures Run(s, actions[i..]) == Run(Unheard(s, t), actions[i + 3..])
  {
    hide Run, Step, Enabled;
    StopAsks(s, t);
    StopGoesOn(Asking(s, t, StopWake), t);
    StopBlocks(Asking(s, t, StopCheck), t);
    assert s.callers[t := StopWake][t := StopCheck] == s.callers[t := StopCheck];
    assert s.callers[t := StopCheck][t := StopWaiting(false)] == s.callers[t := StopWaiting(false)];
    Unfold(s, actions, i);
    Unfold(Asking(s, t, StopWake), actions, i + 1);
    Unfold(Asking(s, t, StopCheck), actions, i + 2);
  }

  /** Thread t, holding the lock, has requested a pause. */
  function Asking(s: System, t: nat, c: Caller): System { Unheard(s, t).(callers := s.callers[t := c], holder := Some(t)) }

  lemma StopAsks(s: System, t: nat)
    requires s.vm == Running && s.holder == None && t in s.callers && s.callers[t] == Idle
    ensures Enabled(s, Stopping(t, Stop)) && Step(s, Stopping(t, Stop)) == Asking(s, t, StopWake)
  {
  }

  lemma StopGoesOn(s: System, t: nat)
    requires t in s.callers && s.callers[t] == StopWake
    ensures Enabled(s, Stopping(t, StopWakes))
    ensures !s.registered ==> Step(s, Stopping(t, StopWakes)) == s.(callers := s.callers[t := StopCheck])
    ensures s.registered && !s.vcpu.WfiBlocked? ==> Step(s, Stopping(t, StopWakes)) == s.(callers := s.callers[t := StopCheck], latch := true)
  {
  }

  lemma StopBlocks(s: System, t: nat)
    requires t in s.callers && s.callers[t] == StopCheck
    ensures Enabled(s, Stopping(t, StopWaits))
    ensures Step(s, Stopping(t, StopWaits)) == s.(callers := s.callers[t := StopWaiting(false)], holder := None)
  {
  }

  function Unheard(s: System, t: nat): System {
    s.(vm := PauseRequested, callers := s.callers[t := StopWaiting(false)],
       raced := s.raced || (!s.registered && exists r :: r in s.callers && s.callers[r] == RegisterSet(false)))
  }

  /**
    * Pauses never get stuck, in any run from a start with some monitor thread, exactly when
    * the waker is registered from the start.
    */
  lemma NeverStuckExact(s: System)
    requires Init(s) && s.callers != map[]
    ensures s.registered <==> forall actions :: Unstuck(Run(s, actions))
  {
    hide Run, Moves;
    if s.registered {
      forall actions ensures Unstuck(Run(s, actions)) {
        RegisteredStays(s, actions);
        NeverStuck(s, actions);
      }
    } else {
      var t :| t in s.callers;
      SleepRuns(s, t);
      StartsAllIdle(s);
      NothingMoves(Run(s, Sleep(t)));
      assert !Unstuck(Run(s, Sleep(t)));
    }
  }

  lemma StartsAllIdle(s: System)
    requires Init(s)
    ensures forall t | t in s.callers :: s.callers[t] == Idle
  {
  }

  ghost predicate Unstuck(s: System) { s.vm == PauseRequested && s.vcpu != Exited ==> Moves(s) }

  lemma RegisteredStays(s: System, actions: seq<Action>)
    requires Init(s) && s.registered
    ensures Run(s, actions).registered && !Run(s, actions).raced
  {
    hide Run;
    InitInv(s);
    RunKeeps(s, actions);
    StartKept(s, actions);
  }

  // ---- A stop between the check and the registration ----

  function Race(t: nat, u: nat): seq<Action> {
    [Registering(u, RegisterReads), Registering(u, RegisterLooks), Stopping(t, Stop), Stopping(t, StopWakes), Stopping(t, StopWaits),
     Registering(u, RegisterSets), Executing(GuestWfi(false)), Waiting(Try(false))]
  }

  lemma RaceLooks(s: System, t: nat, u: nat)
    requires Init(s) && !s.registered && t in s.callers && u in s.callers && t != u
    ensures Run(s, Race(t, u)) == Run(s.(callers := s.callers[u := RegisterSet(false)]), Race(t, u)[2..])
  {
    hide Run;
    var actions := Race(t, u);
    assert actions[0..] == actions;
    Unfold(s, actions, 0);
    var s1 := Step(s, actions[0]);
    Unfold(s1, actions, 1);
    assert Step(s1, actions[1]).callers == s.callers[u := RegisterSet(false)];
  }

  lemma RaceSets(s: System, t: nat, u: nat)
    requires u in s.callers && s.callers[u] == RegisterSet(false)
    ensures Run(s, Race(t, u)[5..]) == Run(s.(callers := s.callers[u := Idle], registered := true), Race(t, u)[6..])
  {
    hide Run;
    Unfold(s, Race(t, u), 5);
  }

  /** Registering the waker while a stop is requested can leave the request waiting on a sleeping vCPU: nothing moves any more. */
  lemma RegistrationRace(s: System, t: nat, u: nat)
    requires Init(s) && !s.registered && t in s.callers && u in s.callers && t != u
    ensures var r := Run(s, Race(t, u));
      r.vm == PauseRequested && r.registered && r.raced && r.vcpu == WfiBlocked(false) && !Moves(r)
  {
    hide Run, Moves, Step, Init;
    StartsIdle(s, t);
    StartsIdle(s, u);
    StartsAllIdle(s);
    var actions := Race(t, u);
    RaceLooks(s, t, u);
    var s2 := s.(callers := s.callers[u := RegisterSet(false)]);
    assert s2.callers[u] == RegisterSet(false);
    StopUnheard(s2, actions, 2, t);
    var s5 := Unheard(s2, t);
    RaceSets(s5, t, u);
    var s6 := s5.(callers := s5.callers[u := Idle], registered := true);
    SleepGuest(s6);
    Unfold(s6, actions, 6);
    var s7 := s6.(vcpu := WfiTry);
    SleepTry(s7);
    Unfold(s7, actions, 7);
    RunNothing(s7.(vcpu := WfiBlocked(false)), actions);
    NothingMoves(s7.(vcpu := WfiBlocked(false)));
  }

  lemma RunNothing(s: System, actions: seq<Action>)
    ensures Run(s, actions[|actions|..]) == s
  {
  }
}
