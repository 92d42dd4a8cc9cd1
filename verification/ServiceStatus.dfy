/**
 The service life cycle of the daemon: any number of threads call
 StartOrReloadService, CloseService and SetError on one StartedService.  The
 calls share the mutex serviceAccess, which a reload drops around
 Instance.Close and Instance.Start, and which updateStatusError releases on
 behalf of its caller.

 `StartedService` is the object itself, one method per stretch of code that
 runs under the lock.  The protocol around it is a state machine whose steps
 are lock operations and those stretches, in any interleaving.
 */
module ServiceStatus {
  import opened Wrappers

  type Instance = nat
  type Thread = nat

  datatype Status = IDLE | STARTING | STARTED | STOPPING | FATAL

  /** The fields guarded by serviceAccess. */
  datatype Fields = Fields(status: Status, instance: Option<Instance>, startedAt: Option<int>)

  predicate Live(status: Status) { status == STARTING || status == STARTED }

  // ---------------------------------------------------------------- the object

  /** `locked` is serviceAccess: every stretch starts with the mutex taken, and its
      contract says on which paths the mutex has been released when it ends. */
  class StartedService {
    var locked: bool
    var serviceStatus: Status
    var instance: Option<Instance>
    var startedAt: Option<int>

    function Guarded(): Fields
      reads this
    {
      Fields(serviceStatus, instance, startedAt)
    }

    constructor ()
      ensures Guarded() == Fields(IDLE, None, None) && !locked
    {
      locked, serviceStatus, instance, startedAt := false, IDLE, None, None;
    }

    /** The attached service adopts a running instance and starts out STARTED. */
    constructor Attached(running: Instance, now: int)
      ensures Guarded() == Fields(STARTED, Some(running), Some(now)) && !locked
    {
      locked, serviceStatus, instance, startedAt := false, STARTED, Some(running), Some(now);
    }

    method UpdateStatus(newStatus: Status)
      modifies this`serviceStatus
      ensures serviceStatus == newStatus
    {
      serviceStatus := newStatus;
    }

    /** Fails the service and releases the lock its caller took. */
    method UpdateStatusError()
      requires locked
      modifies this`serviceStatus, this`locked
      ensures serviceStatus == FATAL && !locked
    {
      UpdateStatus(FATAL);
      locked := false;
    }

    /** Returns the instance to close before going on, if any.  The lock is kept
        only when there is nothing to close. */
    method CheckReload() returns (refused: bool, oldInstance: Option<Instance>)
      requires locked
      modifies this
      ensures refused <==> old(serviceStatus) == STOPPING
      ensures oldInstance == if refused then None else old(instance)
      ensures Guarded() == AfterReloadCheck(old(Guarded()))
      ensures locked <==> !refused && oldInstance.None?
    {
      refused, oldInstance := serviceStatus == STOPPING, None;
      if refused {
        locked := false;
        return;
      }
      oldInstance := instance;
      if oldInstance.Some? {
        UpdateStatus(STOPPING);
        locked := false;
      }
    }

    method Install(created: Option<Instance>)
      requires locked
      modifies this
      ensures Guarded() == AfterBuild(old(Guarded()), created)
      ensures if created.Some? then instance == created && serviceStatus == old(serviceStatus)
              else instance == old(instance) && serviceStatus == FATAL
      ensures !locked
    {
      if created.None? {
        UpdateStatusError();
        return;
      }
      instance := created;
      locked := false;
    }

    method FinishReload(startOk: bool, now: int)
      requires locked
      modifies this
      ensures Guarded() == AfterStart(old(Guarded()), startOk, now)
      ensures serviceStatus == STARTED && old(serviceStatus) != STARTED ==> startOk && startedAt == Some(now)
      ensures !locked
    {
      if serviceStatus != STARTING {
        locked := false;
        return;
      }
      if !startOk {
        UpdateStatusError();
        return;
      }
      startedAt := Some(now);
      UpdateStatus(STARTED);
      locked := false;
    }

    method CheckClose() returns (refused: bool, toClose: Option<Instance>)
      requires locked
      modifies this
      ensures refused <==> !Live(old(serviceStatus))
      ensures toClose == if refused then None else old(instance)
      ensures Guarded() == AfterCloseCheck(old(Guarded()))
      ensures locked <==> !refused
    {
      refused, toClose := !(serviceStatus == STARTING || serviceStatus == STARTED), None;
      if refused {
        locked := false;
        return;
      }
      UpdateStatus(STOPPING);
      toClose := instance;
      instance := None;
    }

    method FinishClose(closeOk: bool)
      requires locked
      modifies this
      ensures Guarded() == AfterClose(old(Guarded()), closeOk)
      ensures if closeOk then serviceStatus == IDLE && startedAt.None?
              else serviceStatus == FATAL && startedAt == old(startedAt)
      ensures !locked
    {
      if !closeOk {
        UpdateStatusError();
        return;
      }
      startedAt := None;
      UpdateStatus(IDLE);
      locked := false;
    }
  }

  function AfterReloadCheck(f: Fields): Fields {
    if f.status == STOPPING || f.instance.None? then f else f.(status := STOPPING)
  }

  function AfterBuild(f: Fields, created: Option<Instance>): Fields {
    if created.None? then f.(status := FATAL) else f.(instance := created)
  }

  function AfterStart(f: Fields, startOk: bool, now: int): Fields {
    if f.status != STARTING then f
    else if !startOk then f.(status := FATAL)
    else f.(status := STARTED, startedAt := Some(now))
  }

  function AfterCloseCheck(f: Fields): Fields {
    if Live(f.status) then f.(status := STOPPING, instance := None) else f
  }

  function AfterClose(f: Fields, closeOk: bool): Fields {
    if closeOk then f.(status := IDLE, startedAt := None) else f.(status := FATAL)
  }

  // -------------------------------------------------------------- the protocol

  datatype Operation = Reload | Close | SetError

  /** Where a call stands.  The comments give the lines of each stretch. */
  datatype PC =
    | ReloadCalled                        // before Lock at 182
    | ReloadChecking                      // locked, 183-191
    | ReloadClosing(previous: Instance)   // unlocked, 193
    | ReloadClosed                        // before Lock at 195
    | ReloadInstalling                    // locked, 197
    | ReloadBuilding                      // locked, 198-203
    | ReloadStarting(created: Instance)   // unlocked, 209
    | ReloadStarted(startOk: bool)        // before Lock at 210
    | ReloadFinishing(startOk: bool)      // locked, 211-220
    | CloseCalled                         // before Lock at 233
    | CloseChecking                       // locked, 234-242
    | CloseRunning(closing: Instance)     // locked, 244
    | CloseFinishing(closeOk: bool)       // locked, 245-251
    | ErrorCalled                         // before Lock at 257
    | ErrorSetting                        // locked, 258
    | Returned

  predicate Holding(pc: PC) {
    pc.ReloadChecking? || pc.ReloadInstalling? || pc.ReloadBuilding? || pc.ReloadFinishing? ||
    pc.CloseChecking? || pc.CloseRunning? || pc.CloseFinishing? || pc.ErrorSetting?
  }

  predicate AboutToLock(pc: PC) {
    pc.ReloadCalled? || pc.ReloadClosed? || pc.ReloadStarted? || pc.CloseCalled? || pc.ErrorCalled?
  }

  function AfterLock(pc: PC): (next: PC)
    requires AboutToLock(pc)
    ensures Holding(next)
  {
    match pc
    case ReloadCalled => ReloadChecking
    case ReloadClosed => ReloadInstalling
    case ReloadStarted(ok) => ReloadFinishing(ok)
    case CloseCalled => CloseChecking
    case ErrorCalled => ErrorSetting
  }

  /** A call with the number of times it took and released the mutex. */
  datatype Call = Call(pc: PC, locks: nat, unlocks: nat)

  /** `fault` records an Unlock of a mutex nobody held, which Go turns into a crash. */
  datatype State = State(
    holder: Option<Thread>,
    fields: Fields,
    calls: map<Thread, Call>,
    installed: set<Instance>,
    closed: set<Instance>,
    fault: bool)

  /** `ok`, `id` and `now` are what the environment answers: newInstance, Start and
      Close may fail, a new instance has an identity, and the clock is read. */
  datatype Event =
    | Begin(op: Operation)
    | Lock
    | Run(ok: bool, id: Instance, now: int)

  predicate Enabled(s: State, t: Thread, e: Event) {
    match e
    case Begin(_) => t !in s.calls
    case Lock => t in s.calls && AboutToLock(s.calls[t].pc) && s.holder.None?
    case Run(ok, id, _) =>
      && t in s.calls
      && !AboutToLock(s.calls[t].pc)
      && !s.calls[t].pc.Returned?
      && (s.calls[t].pc.ReloadBuilding? && ok ==> id !in s.installed)
  }

  function Goto(s: State, t: Thread, pc: PC): State
    requires t in s.calls
  {
    s.(calls := s.calls[t := s.calls[t].(pc := pc)])
  }

  /** Unlock and continue at `pc`.  Like Go's mutex it does not check who locked. */
  function UnlockTo(s: State, t: Thread, pc: PC): State
    requires t in s.calls
  {
    s.(holder := None,
       fault := s.fault || s.holder.None?,
       calls := s.calls[t := Call(pc, s.calls[t].locks, s.calls[t].unlocks + 1)])
  }

  function Apply(s: State, t: Thread, e: Event): State
    requires Enabled(s, t, e)
  {
    match e
    case Begin(op) =>
      var pc := match op case Reload => ReloadCalled case Close => CloseCalled case SetError => ErrorCalled;
      s.(calls := s.calls[t := Call(pc, 0, 0)])
    case Lock =>
      var c := s.calls[t];
      s.(holder := Some(t), calls := s.calls[t := Call(AfterLock(c.pc), c.locks + 1, c.unlocks)])
    case Run(ok, id, now) => RunStretch(s, t, ok, id, now)
  }

  function RunStretch(s: State, t: Thread, ok: bool, id: Instance, now: int): State
    requires Enabled(s, t, Run(ok, id, now))
  {
    var f := s.fields;
    match s.calls[t].pc
    case ReloadChecking =>
      var s' := s.(fields := AfterReloadCheck(f));
      if f.status == STOPPING then UnlockTo(s', t, Returned)
      else if f.instance.None? then Goto(s', t, ReloadInstalling)
      else UnlockTo(s', t, ReloadClosing(f.instance.value))
    case ReloadClosing(previous) =>
      Goto(s.(closed := s.closed + {previous}), t, ReloadClosed)
    case ReloadInstalling =>
      Goto(s.(fields := f.(status := STARTING)), t, ReloadBuilding)
    case ReloadBuilding =>
      if ok then
        UnlockTo(s.(fields := AfterBuild(f, Some(id)), installed := s.installed + {id}), t, ReloadStarting(id))
      else
        UnlockTo(s.(fields := AfterBuild(f, None)), t, Returned)
    case ReloadStarting(_) => Goto(s, t, ReloadStarted(ok))
    case ReloadFinishing(startOk) => UnlockTo(s.(fields := AfterStart(f, startOk, now)), t, Returned)
    case CloseChecking =>
      var s' := s.(fields := AfterCloseCheck(f));
      if !Live(f.status) then UnlockTo(s', t, Returned)
      else if f.instance.Some? then Goto(s', t, CloseRunning(f.instance.value))
      else Goto(s', t, CloseFinishing(true))
    case CloseRunning(i) => Goto(s.(closed := s.closed + {i}), t, CloseFinishing(ok))
    case CloseFinishing(closeOk) => UnlockTo(s.(fields := AfterClose(f, closeOk)), t, Returned)
    case ErrorSetting => UnlockTo(s.(fields := f.(status := FATAL)), t, Returned)
  }

  type Trace = seq<(Thread, Event)>

  function Exec(s: State, trace: Trace): Option<State>
    decreases |trace|
  {
    if trace == [] then Some(s)
    else if !Enabled(s, trace[0].0, trace[0].1) then None
    else Exec(Apply(s, trace[0].0, trace[0].1), trace[1..])
  }

  /** A fresh service, or one attached to a running instance.  An attached service is not to be reloaded
      or closed (daemon/attached_service.go:12); admitting it here only widens the results about all runs. */
  ghost predicate Init(s: State) {
    && s.holder.None? && s.calls == map[] && s.closed == {} && !s.fault
    && (|| (s.fields == Fields(IDLE, None, None) && s.installed == {})
        || (exists i: Instance, now :: s.fields == Fields(STARTED, Some(i), Some(now)) && s.installed == {i}))
  }

  // ------------------------------------------- a live status has an instance

  ghost predicate LockDiscipline(s: State) {
    && !s.fault
    && (s.holder.Some? ==> s.holder.value in s.calls)
    && (forall t <- s.calls :: Holding(s.calls[t].pc) <==> s.holder == Some(t))
    && (forall t <- s.calls ::
          s.calls[t].locks == s.calls[t].unlocks + if Holding(s.calls[t].pc) then 1 else 0)
  }

  ghost predicate LiveHasInstance(s: State) {
    Live(s.fields.status) && s.fields.instance.None? ==>
      s.holder.Some? && s.holder.value in s.calls && s.calls[s.holder.value].pc.ReloadBuilding?
  }

  ghost predicate Safe(s: State) {
    && LockDiscipline(s)
    && LiveHasInstance(s)
    && (s.holder.Some? ==>
          var pc := s.calls[s.holder.value].pc;
          && (pc.ReloadBuilding? ==> s.fields.status == STARTING)
          && (pc.CloseRunning? || pc.CloseFinishing? ==> s.fields.status == STOPPING))
  }

  lemma GotoKeepsDiscipline(s: State, t: Thread, pc: PC)
    requires LockDiscipline(s) && t in s.calls && (Holding(pc) <==> Holding(s.calls[t].pc))
    ensures LockDiscipline(Goto(s, t, pc))
  {
  }

  lemma UnlockKeepsDiscipline(s: State, t: Thread, pc: PC)
    requires LockDiscipline(s) && t in s.calls && Holding(s.calls[t].pc) && !Holding(pc)
    ensures LockDiscipline(UnlockTo(s, t, pc))
  {
  }

  /** A stretch either keeps the lock state of its call or ends in an Unlock it is entitled to. */
  lemma DisciplineStretch(s: State, t: Thread, ok: bool, id: Instance, now: int)
    requires LockDiscipline(s) && Enabled(s, t, Run(ok, id, now))
    ensures LockDiscipline(RunStretch(s, t, ok, id, now))
  {
    var r := RunStretch(s, t, ok, id, now);
    var bare := s.(fields := r.fields, closed := r.closed, installed := r.installed);
    if Holding(s.calls[t].pc) && !Holding(r.calls[t].pc) {
      UnlockKeepsDiscipline(bare, t, r.calls[t].pc);
      assert r == UnlockTo(bare, t, r.calls[t].pc);
    } else {
      GotoKeepsDiscipline(bare, t, r.calls[t].pc);
      assert r == Goto(bare, t, r.calls[t].pc);
    }
  }

  lemma SafeStep(s: State, t: Thread, e: Event)
    requires Safe(s) && Enabled(s, t, e)
    ensures Safe(Apply(s, t, e))
  {
    match e
    case Begin(_) =>
    case Lock =>
    case Run(ok, id, now) => DisciplineStretch(s, t, ok, id, now);
  }

  lemma {:induction false} SafeRun(s: State, trace: Trace)
    requires Safe(s) && Exec(s, trace).Some?
    ensures Safe(Exec(s, trace).value)
    decreases |trace|
  {
    if trace == [] {
    } else {
      SafeStep(s, trace[0].0, trace[0].1);
      SafeRun(Apply(s, trace[0].0, trace[0].1), trace[1..]);
    }
  }

  /** In every interleaving of any number of calls: a handler that finds the mutex
      free and the status STARTING or STARTED may dereference the instance, no
      Unlock ever hits a free mutex, and a call that has returned released the
      mutex exactly as often as it took it. */
  lemma HandlersMayDereference(s: State, trace: Trace)
    requires Init(s) && Exec(s, trace).Some?
    ensures var r := Exec(s, trace).value;
            && (r.holder.None? && Live(r.fields.status) ==> r.fields.instance.Some?)
            && !r.fault
            && (forall t <- r.calls :: r.calls[t].pc.Returned? ==>
                  r.calls[t].locks == r.calls[t].unlocks && r.holder != Some(t))
  {
    SafeRun(s, trace);
  }

  // ---------------------------------------------------------- no call is left behind

  lemma FreshId(taken: set<nat>) returns (id: nat)
    ensures id !in taken
  {
    id := 0;
    var left := taken;
    while left != {}
      invariant left <= taken
      invariant forall n :: n in taken && n !in left ==> n < id
    {
      var n :| n in left;
      left := left - {n};
      id := if n < id then id else n + 1;
    }
  }

  /** How far a call is from its return, at most. */
  function Left(pc: PC): (n: nat)
    ensures n <= 9 && (n == 0 <==> pc.Returned?)
  {
    match pc
    case ReloadCalled => 9
    case ReloadChecking => 8
    case ReloadClosing(_) => 7
    case ReloadClosed => 6
    case ReloadInstalling => 5
    case ReloadBuilding => 4
    case ReloadStarting(_) => 3
    case ReloadStarted(_) => 2
    case ReloadFinishing(_) => 1
    case CloseCalled => 4
    case CloseChecking => 3
    case CloseRunning(_) => 2
    case CloseFinishing(_) => 1
    case ErrorCalled => 2
    case ErrorSetting => 1
    case Returned => 0
  }

  /** Every step but the first brings its own call nearer to its return and moves no other call. */
  lemma StepsAdvance(s: State, t: Thread, e: Event)
    requires Enabled(s, t, e) && !e.Begin?
    ensures var r := Apply(s, t, e);
            && t in s.calls && r.calls.Keys == s.calls.Keys
            && Left(r.calls[t].pc) < Left(s.calls[t].pc)
            && forall u <- s.calls :: u != t ==> r.calls[u] == s.calls[u]
  {
    var r := Apply(s, t, e);
    assert r.calls == s.calls[t := r.calls[t]];
    assert r.calls.Keys == s.calls.Keys + {t};
  }

  /** In every reachable state with a call that has not returned, some call can take its next step:
      the mutex is never lost and no call blocks for good. */
  lemma NeverStuck(s: State, trace: Trace, u: Thread) returns (t: Thread, e: Event)
    requires Init(s) && Exec(s, trace).Some?
    requires u in Exec(s, trace).value.calls && !Exec(s, trace).value.calls[u].pc.Returned?
    ensures !e.Begin? && Enabled(Exec(s, trace).value, t, e)
    ensures Exec(s, trace).value.holder.None? ==> t == u
  {
    SafeRun(s, trace);
    var r := Exec(s, trace).value;
    var id := FreshId(r.installed);
    t := if r.holder.Some? then r.holder.value else u;
    e := if AboutToLock(r.calls[t].pc) then Lock else Run(true, id, 0);
  }

  // ------------------------------------------------ a live instance is not closed

  /** The instance a call is closing or about to close. */
  predicate AboutToClose(pc: PC, i: Instance) {
    pc == ReloadClosing(i) || pc == CloseRunning(i)
  }

  ghost predicate Known(s: State) {
    && s.closed <= s.installed
    && (s.fields.instance.Some? ==> s.fields.instance.value in s.installed)
    && (forall t <- s.calls, i :: AboutToClose(s.calls[t].pc, i) ==> i in s.installed)
  }

  /** Except while a reload replaces it, the instance of a live service is neither closed nor about to be. */
  ghost predicate LiveIsOpen(s: State) {
    Live(s.fields.status) && s.fields.instance.Some?
    && !(s.holder.Some? && s.holder.value in s.calls && s.calls[s.holder.value].pc.ReloadBuilding?) ==>
      && s.fields.instance.value !in s.closed
      && forall t <- s.calls :: !AboutToClose(s.calls[t].pc, s.fields.instance.value)
  }

  lemma KnownStep(s: State, t: Thread, e: Event)
    requires Known(s) && Enabled(s, t, e)
    ensures Known(Apply(s, t, e))
  {
  }

  lemma LiveIsOpenStep(s: State, t: Thread, e: Event)
    requires Safe(s) && Known(s) && LiveIsOpen(s) && Enabled(s, t, e)
    ensures LiveIsOpen(Apply(s, t, e))
  {
  }

  lemma {:induction false} LiveIsOpenRun(s: State, trace: Trace)
    requires Safe(s) && Known(s) && LiveIsOpen(s) && Exec(s, trace).Some?
    ensures Known(Exec(s, trace).value) && LiveIsOpen(Exec(s, trace).value)
    decreases |trace|
  {
    if trace == [] {
    } else {
      SafeStep(s, trace[0].0, trace[0].1);
      KnownStep(s, trace[0].0, trace[0].1);
      LiveIsOpenStep(s, trace[0].0, trace[0].1);
      LiveIsOpenRun(Apply(s, trace[0].0, trace[0].1), trace[1..]);
    }
  }

  /** In every interleaving, with any number of SetErrors: a handler that finds the mutex free and the
      status STARTING or STARTED has an instance that was not closed and that no call is about to close. */
  lemma HandlersUseOpenInstance(s: State, trace: Trace)
    requires Init(s) && Exec(s, trace).Some?
    ensures var r := Exec(s, trace).value;
            r.holder.None? && Live(r.fields.status) ==>
              && r.fields.instance.Some? && r.fields.instance.value in r.installed - r.closed
              && forall t <- r.calls :: !AboutToClose(r.calls[t].pc, r.fields.instance.value)
  {
    SafeRun(s, trace);
    LiveIsOpenRun(s, trace);
  }

  // ------------------------------------------------------ no instance is leaked

  /** Between the Unlock at 192 and the Lock at 195. */
  predicate InWindow(pc: PC) { pc.ReloadClosing? || pc.ReloadClosed? }

  ghost predicate NoWindow(s: State) {
    forall t <- s.calls :: !InWindow(s.calls[t].pc)
  }

  /** Every installed instance is the current one, or has had Close called. */
  ghost predicate NoLeak(s: State) {
    forall i <- s.installed :: s.fields.instance == Some(i) || i in s.closed
  }

  /** A SetError does not disturb a reload that is closing its old instance. */
  predicate CalmEvent(s: State, t: Thread, e: Event) {
    e.Lock? && t in s.calls && s.calls[t].pc.ErrorCalled? ==> s.fields.status != STOPPING
  }

  predicate Calm(s: State, trace: Trace)
    decreases |trace|
  {
    if trace == [] then true
    else if !Enabled(s, trace[0].0, trace[0].1) then true
    else CalmEvent(s, trace[0].0, trace[0].1) && Calm(Apply(s, trace[0].0, trace[0].1), trace[1..])
  }

  ghost predicate WindowOwnsStopping(s: State) {
    && (forall t <- s.calls :: InWindow(s.calls[t].pc) ==>
          && s.fields.status == STOPPING
          && s.fields.instance.Some?
          && (s.calls[t].pc.ReloadClosing? ==> s.fields.instance.value == s.calls[t].pc.previous)
          && (s.calls[t].pc.ReloadClosed? ==> s.fields.instance.value in s.closed))
    && (forall t <- s.calls, u <- s.calls ::
          InWindow(s.calls[t].pc) && InWindow(s.calls[u].pc) ==> t == u)
  }

  predicate EndsStopping(pc: PC) {
    pc.ReloadInstalling? || pc.CloseRunning? || pc.CloseFinishing?
  }

  ghost predicate HolderOk(s: State)
    requires s.holder.Some? ==> s.holder.value in s.calls
  {
    s.holder.Some? ==>
      var pc := s.calls[s.holder.value].pc;
      && (pc.ErrorSetting? ==> s.fields.status != STOPPING)
      && (pc.ReloadInstalling? || pc.ReloadBuilding? ==>
            NoWindow(s) && (s.fields.instance.Some? ==> s.fields.instance.value in s.closed))
      && (pc.CloseRunning? || pc.CloseFinishing? ==> s.fields.instance.None?)
  }

  ghost predicate Accounted(s: State)
    requires s.holder.Some? ==> s.holder.value in s.calls
  {
    forall i <- s.installed ::
      || s.fields.instance == Some(i)
      || i in s.closed
      || (s.holder.Some? && s.calls[s.holder.value].pc == CloseRunning(i))
  }

  /** The status is STOPPING only on behalf of a call that will move it on. */
  ghost predicate StoppingIsOwned(s: State)
    requires s.holder.Some? ==> s.holder.value in s.calls
  {
    s.fields.status == STOPPING && (s.holder.Some? ==> !EndsStopping(s.calls[s.holder.value].pc)) ==>
      exists t <- s.calls :: InWindow(s.calls[t].pc)
  }

  ghost predicate Tidy(s: State) {
    && Safe(s)
    && WindowOwnsStopping(s)
    && HolderOk(s)
    && Accounted(s)
    && StoppingIsOwned(s)
  }

  /** While one call is in its closing window, no other call changes the fields or joins it. */
  lemma WindowExcludes(s: State, t: Thread, e: Event, u: Thread)
    requires Tidy(s) && Enabled(s, t, e) && CalmEvent(s, t, e)
    requires u in s.calls && u != t && InWindow(s.calls[u].pc)
    ensures var r := Apply(s, t, e);
            r.fields == s.fields && s.closed <= r.closed && t in r.calls && !InWindow(r.calls[t].pc)
  {
    if e.Run? {
      assert !InWindow(s.calls[t].pc);
      assert Holding(s.calls[t].pc) ==> s.holder == Some(t);
    }
  }

  lemma WindowKept(s: State, t: Thread, e: Event, u: Thread)
    requires Tidy(s) && Enabled(s, t, e) && CalmEvent(s, t, e)
    requires u in s.calls && u != t && InWindow(s.calls[u].pc)
    ensures WindowOwnsStopping(Apply(s, t, e))
  {
    var r := Apply(s, t, e);
    WindowExcludes(s, t, e, u);
    assert r.calls == s.calls[t := r.calls[t]];
    forall v <- r.calls | InWindow(r.calls[v].pc) ensures v == u && r.calls[v] == s.calls[v] {
      assert v != t;
    }
  }

  /** A call enters or stays in the window only with the status STOPPING and the instance it closes. */
  lemma OwnWindow(s: State, t: Thread, ok: bool, id: Instance, now: int)
    requires WindowOwnsStopping(s) && Enabled(s, t, Run(ok, id, now))
    ensures var r := RunStretch(s, t, ok, id, now);
            InWindow(r.calls[t].pc) ==>
              && r.fields.status == STOPPING
              && r.fields.instance.Some?
              && (r.calls[t].pc.ReloadClosing? ==> r.fields.instance.value == r.calls[t].pc.previous)
              && (r.calls[t].pc.ReloadClosed? ==> r.fields.instance.value in r.closed)
  {
  }

  lemma WindowOpened(s: State, t: Thread, e: Event)
    requires WindowOwnsStopping(s) && Enabled(s, t, e)
    requires forall u <- s.calls :: u != t ==> !InWindow(s.calls[u].pc)
    ensures WindowOwnsStopping(Apply(s, t, e))
  {
    var r := Apply(s, t, e);
    assert r.calls == s.calls[t := r.calls[t]];
    if e.Run? {
      OwnWindow(s, t, e.ok, e.id, e.now);
    }
  }

  lemma WindowStep(s: State, t: Thread, e: Event)
    requires Tidy(s) && Enabled(s, t, e) && CalmEvent(s, t, e)
    ensures WindowOwnsStopping(Apply(s, t, e))
  {
    if u :| u in s.calls && u != t && InWindow(s.calls[u].pc) {
      WindowKept(s, t, e, u);
    } else {
      WindowOpened(s, t, e);
    }
  }

  /** A call that does not hold the lock leaves the guarded fields and the lock alone. */
  lemma OutsideLock(s: State, t: Thread, e: Event)
    requires LockDiscipline(s) && Enabled(s, t, e)
    requires !(t in s.calls && Holding(s.calls[t].pc))
    ensures var r := Apply(s, t, e);
            r.fields == s.fields && (r.holder == s.holder || r.holder == Some(t)) && s.closed <= r.closed
  {
  }

  lemma HolderStep(s: State, t: Thread, e: Event)
    requires Tidy(s) && Enabled(s, t, e) && CalmEvent(s, t, e)
    requires Safe(Apply(s, t, e))
    ensures HolderOk(Apply(s, t, e))
  {
    var r := Apply(s, t, e);
    if r.holder.Some? && r.holder != Some(t) {
      assert r.calls[r.holder.value] == s.calls[r.holder.value];
      OutsideLock(s, t, e);
    }
  }

  lemma AccountedStep(s: State, t: Thread, e: Event)
    requires Tidy(s) && Enabled(s, t, e) && CalmEvent(s, t, e)
    requires Safe(Apply(s, t, e))
    ensures Accounted(Apply(s, t, e))
  {
  }

  lemma StoppingStep(s: State, t: Thread, e: Event)
    requires Tidy(s) && Enabled(s, t, e) && CalmEvent(s, t, e)
    requires Safe(Apply(s, t, e))
    ensures StoppingIsOwned(Apply(s, t, e))
  {
  }

  lemma TidyStep(s: State, t: Thread, e: Event)
    requires Tidy(s) && Enabled(s, t, e) && CalmEvent(s, t, e)
    ensures Tidy(Apply(s, t, e))
  {
    SafeStep(s, t, e);
    WindowStep(s, t, e);
    HolderStep(s, t, e);
    AccountedStep(s, t, e);
    StoppingStep(s, t, e);
  }

  lemma {:induction false} TidyRun(s: State, trace: Trace)
    requires Tidy(s) && Calm(s, trace) && Exec(s, trace).Some?
    ensures Tidy(Exec(s, trace).value)
    decreases |trace|
  {
    if trace == [] {
    } else {
      TidyStep(s, trace[0].0, trace[0].1);
      TidyRun(Apply(s, trace[0].0, trace[0].1), trace[1..]);
    }
  }

  /** In every interleaving of reloads, closes and calm SetErrors, at most the current
      instance is open whenever the mutex is free. */
  lemma NoInstanceLeaked(s: State, trace: Trace)
    requires Init(s) && Calm(s, trace) && Exec(s, trace).Some?
    ensures var r := Exec(s, trace).value;
            r.holder.None? ==>
              NoLeak(r) && forall i <- r.installed - r.closed, j <- r.installed - r.closed :: i == j
  {
    TidyRun(s, trace);
  }

  // ----------------------------------- exactly when a SetError can cause a leak

  lemma Prepend(s: State, t: Thread, e: Event, rest: Trace)
    requires Enabled(s, t, e)
    ensures Exec(s, [(t, e)] + rest) == Exec(Apply(s, t, e), rest)
    ensures Calm(s, [(t, e)] + rest) <==> CalmEvent(s, t, e) && Calm(Apply(s, t, e), rest)
  {
    assert ([(t, e)] + rest)[1..] == rest;
  }

  function SetErrorCall(t: Thread): Trace {
    [(t, Begin(SetError)), (t, Lock), (t, Run(true, 0, 0))]
  }

  lemma SetErrorEffect(s: State, t: Thread)
    requires s.holder.None? && t !in s.calls
    ensures Exec(s, SetErrorCall(t)) ==
            Some(s.(fields := s.fields.(status := FATAL), calls := s.calls[t := Call(Returned, 1, 1)]))
    ensures Calm(s, SetErrorCall(t)) <==> s.fields.status != STOPPING
  {
    var s1 := Apply(s, t, Begin(SetError));
    var s2 := Apply(s1, t, Lock);
    Prepend(s2, t, Run(true, 0, 0), []);
    Prepend(s1, t, Lock, [(t, Run(true, 0, 0))]);
    Prepend(s, t, Begin(SetError), [(t, Lock), (t, Run(true, 0, 0))]);
    assert SetErrorCall(t) == [(t, Begin(SetError))] + ([(t, Lock)] + ([(t, Run(true, 0, 0))] + []));
    assert s2.calls[t := Call(Returned, 1, 1)] == s.calls[t := Call(Returned, 1, 1)];
  }

  /** From the end of the closing window, `t` replaces whatever instance is current by `id`. */
  lemma WindowOverwrites(s: State, t: Thread, id: Instance) returns (trace: Trace, r: State)
    requires s.holder.None? && t in s.calls && s.calls[t].pc.ReloadClosed? && id !in s.installed
    ensures Exec(s, trace) == Some(r) && Calm(s, trace)
    ensures r.holder.None? && r.fields == Fields(STARTING, Some(id), s.fields.startedAt)
    ensures r.installed == s.installed + {id} && r.closed == s.closed
    ensures forall u <- s.calls :: u != t ==> u in r.calls && r.calls[u] == s.calls[u]
  {
    var s1 := Apply(s, t, Lock);
    var s2 := Apply(s1, t, Run(true, id, 0));
    r := Apply(s2, t, Run(true, id, 0));
    Prepend(s2, t, Run(true, id, 0), []);
    Prepend(s1, t, Run(true, id, 0), [(t, Run(true, id, 0))] + []);
    trace := [(t, Lock)] + ([(t, Run(true, id, 0))] + ([(t, Run(true, id, 0))] + []));
    Prepend(s, t, Lock, trace[1..]);
  }

  /** A new reload gets as far as its own closing window, and out of it. */
  lemma ReloadToWindow(s: State, t: Thread) returns (trace: Trace, r: State)
    requires s.holder.None? && s.fields.status != STOPPING && s.fields.instance.Some? && t !in s.calls
    ensures Exec(s, trace) == Some(r) && Calm(s, trace)
    ensures r.holder.None? && r.fields == s.fields.(status := STOPPING)
    ensures r.installed == s.installed && r.closed == s.closed + {s.fields.instance.value}
    ensures t in r.calls && r.calls[t].pc.ReloadClosed?
    ensures forall u <- s.calls :: u in r.calls && r.calls[u] == s.calls[u]
  {
    var s1 := Apply(s, t, Begin(Reload));
    var s2 := Apply(s1, t, Lock);
    var s3 := Apply(s2, t, Run(true, 0, 0));
    r := Apply(s3, t, Run(true, 0, 0));
    Prepend(s3, t, Run(true, 0, 0), []);
    Prepend(s2, t, Run(true, 0, 0), [(t, Run(true, 0, 0))] + []);
    trace := [(t, Begin(Reload))] + ([(t, Lock)] + ([(t, Run(true, 0, 0))] + ([(t, Run(true, 0, 0))] + [])));
    Prepend(s1, t, Lock, trace[2..]);
    Prepend(s, t, Begin(Reload), trace[1..]);
  }

  lemma {:induction false} ExecAppend(s: State, a: Trace, b: Trace)
    requires Exec(s, a).Some?
    ensures Exec(s, a + b) == Exec(Exec(s, a).value, b)
    ensures Calm(s, a) ==> (Calm(s, a + b) <==> Calm(Exec(s, a).value, b))
    decreases |a|
  {
    if a == [] {
      assert a + b == b;
    } else {
      ExecAppend(Apply(s, a[0].0, a[0].1), a[1..], b);
      assert (a + b)[1..] == a[1..] + b;
    }
  }

  /** Once the status has been forced away from STOPPING, a second reload installs an
      instance that the first one overwrites without closing it. */
  lemma DisturbedReloadLeaks(s: State, a: Thread) returns (trace: Trace)
    requires s.holder.None? && s.fields.status == FATAL && s.fields.instance.Some?
    requires a in s.calls && s.calls[a].pc.ReloadClosed?
    ensures Exec(s, trace).Some? && Calm(s, trace)
    ensures Exec(s, trace).value.holder.None? && !NoLeak(Exec(s, trace).value)
  {
    var b := FreshId(s.calls.Keys);
    var x := FreshId(s.installed + s.closed + {s.fields.instance.value});
    var y := FreshId(s.installed + {x});
    var t1, s1 := ReloadToWindow(s, b);
    var t2, s2 := WindowOverwrites(s1, b, x);
    var t3, s3 := WindowOverwrites(s2, a, y);
    ExecAppend(s2, t3, []);
    ExecAppend(s1, t2, t3);
    ExecAppend(s, t1, t2 + t3);
    trace := t1 + (t2 + t3);
    assert t3 + [] == t3;
    assert x in s3.installed;
  }

  /** A SetError that strikes while STOPPING catches a reload in its closing window. */
  lemma StruckReloadLeaks(s: State, s1: State) returns (trace: Trace)
    requires Tidy(s) && s.holder.None? && s.fields.status == STOPPING
    requires s1.holder.None? && s1.fields == s.fields.(status := FATAL)
    requires forall t <- s.calls :: t in s1.calls && s1.calls[t] == s.calls[t]
    ensures Exec(s1, trace).Some? && Calm(s1, trace)
    ensures Exec(s1, trace).value.holder.None? && !NoLeak(Exec(s1, trace).value)
  {
    var a :| a in s.calls && InWindow(s.calls[a].pc);
    if s.calls[a].pc.ReloadClosed? {
      trace := DisturbedReloadLeaks(s1, a);
    } else {
      var s2 := Apply(s1, a, Run(true, 0, 0));
      var more := DisturbedReloadLeaks(s2, a);
      Prepend(s1, a, Run(true, 0, 0), more);
      trace := [(a, Run(true, 0, 0))] + more;
    }
  }

  /** After any calm run, a SetError can lead to a leaked instance if and only if it
      strikes while the status is STOPPING. */
  lemma SetErrorSafeIff(s0: State, trace: Trace, s: State, t: Thread)
    requires Init(s0) && Calm(s0, trace) && Exec(s0, trace) == Some(s)
    requires s.holder.None? && t !in s.calls
    ensures Exec(s, SetErrorCall(t)).Some?
    ensures (forall more :: var r := Exec(Exec(s, SetErrorCall(t)).value, more);
                            Calm(Exec(s, SetErrorCall(t)).value, more) && r.Some? && r.value.holder.None? ==>
                              NoLeak(r.value))
            <==> s.fields.status != STOPPING
  {
    TidyRun(s0, trace);
    SetErrorEffect(s, t);
    var s1 := Exec(s, SetErrorCall(t)).value;
    if s.fields.status != STOPPING {
      TidyRun(s, SetErrorCall(t));
      forall more | Calm(s1, more) && Exec(s1, more).Some? && Exec(s1, more).value.holder.None?
        ensures NoLeak(Exec(s1, more).value)
      {
        TidyRun(s1, more);
      }
    } else {
      var more := StruckReloadLeaks(s, s1);
      assert !NoLeak(Exec(s1, more).value);
    }
  }

  // ------------------------------------------------------------- what whole calls do

  /** The steps of one thread alone. */
  function By(t: Thread, events: seq<Event>): Trace {
    seq(|events|, i requires 0 <= i < |events| => (t, events[i]))
  }

  lemma ByFirst(s: State, t: Thread, events: seq<Event>)
    requires events != [] && Enabled(s, t, events[0])
    ensures Exec(s, By(t, events)) == Exec(Apply(s, t, events[0]), By(t, events[1..]))
  {
    assert By(t, events)[1..] == By(t, events[1..]);
  }

  /** Three steps in a row. */
  lemma ThreeSteps(s: State, t: Thread, e1: Event, e2: Event, e3: Event)
    requires Enabled(s, t, e1) && Enabled(Apply(s, t, e1), t, e2)
    requires Enabled(Apply(Apply(s, t, e1), t, e2), t, e3)
    ensures Exec(s, By(t, [e1, e2, e3])) == Some(Apply(Apply(Apply(s, t, e1), t, e2), t, e3))
  {
    ByFirst(s, t, [e1, e2, e3]);
    assert [e1, e2, e3][1..] == [e2, e3] && [e2, e3][1..] == [e3] && [e3][1..] == [];
    ByFirst(Apply(s, t, e1), t, [e2, e3]);
    ByFirst(Apply(Apply(s, t, e1), t, e2), t, [e3]);
    assert By(t, []) == [];
  }

  lemma TwoSteps(s: State, t: Thread, e1: Event, e2: Event)
    requires Enabled(s, t, e1) && Enabled(Apply(s, t, e1), t, e2)
    ensures Exec(s, By(t, [e1, e2])) == Some(Apply(Apply(s, t, e1), t, e2))
  {
    ByFirst(s, t, [e1, e2]);
    assert [e1, e2][1..] == [e2] && [e2][1..] == [];
    ByFirst(Apply(s, t, e1), t, [e2]);
    assert By(t, []) == [];
  }

  const NEXT := Run(true, 0, 0)

  /** CloseService up to the call of Close, which succeeds or not, and to its end. */
  function CloseHead(t: Thread): Trace { By(t, [Begin(Close), Lock, NEXT]) }

  function CloseTail(t: Thread, closeOk: bool): Trace { By(t, [Run(closeOk, 0, 0), NEXT]) }

  lemma CloseHeadEffect(s: State, t: Thread)
    requires s.holder.None? && t !in s.calls
    ensures Exec(s, CloseHead(t)) ==
            if !Live(s.fields.status) then Some(s.(calls := s.calls[t := Call(Returned, 1, 1)]))
            else
              var pc := if s.fields.instance.Some? then CloseRunning(s.fields.instance.value) else CloseFinishing(true);
              Some(s.(holder := Some(t), calls := s.calls[t := Call(pc, 1, 0)],
                      fields := Fields(STOPPING, None, s.fields.startedAt)))
  {
    ThreeSteps(s, t, Begin(Close), Lock, NEXT);
    var r := Exec(s, CloseHead(t)).value;
    assert r.calls == s.calls[t := r.calls[t]];
  }

  lemma CloseTailEffect(s: State, t: Thread, i: Instance, closeOk: bool)
    requires s.holder == Some(t) && t in s.calls && s.calls[t] == Call(CloseRunning(i), 1, 0)
    ensures Exec(s, CloseTail(t, closeOk)) ==
            Some(s.(holder := None, closed := s.closed + {i}, calls := s.calls[t := Call(Returned, 1, 1)],
                    fields := if closeOk then Fields(IDLE, s.fields.instance, None) else s.fields.(status := FATAL)))
  {
    TwoSteps(s, t, Run(closeOk, 0, 0), NEXT);
    var r := Exec(s, CloseTail(t, closeOk)).value;
    assert r.calls == s.calls[t := r.calls[t]];
  }

  /** CloseService on a live service closes its instance and ends IDLE, never started; if Close
      fails it ends FATAL and keeps the starting time. */
  lemma CloseEffect(s: State, t: Thread, i: Instance, closeOk: bool)
    requires s.holder.None? && t !in s.calls && Live(s.fields.status) && s.fields.instance == Some(i)
    ensures Exec(s, CloseHead(t) + CloseTail(t, closeOk)) ==
            Some(s.(closed := s.closed + {i}, calls := s.calls[t := Call(Returned, 1, 1)],
                    fields := if closeOk then Fields(IDLE, None, None) else Fields(FATAL, None, s.fields.startedAt)))
  {
    CloseHeadEffect(s, t);
    var s1 := Exec(s, CloseHead(t)).value;
    CloseTailEffect(s1, t, i, closeOk);
    ExecAppend(s, CloseHead(t), CloseTail(t, closeOk));
    assert s1.calls[t := Call(Returned, 1, 1)] == s.calls[t := Call(Returned, 1, 1)];
  }

  /** On any other service it changes nothing. */
  lemma CloseRefused(s: State, t: Thread)
    requires s.holder.None? && t !in s.calls && s.fields.status != STARTING && s.fields.status != STARTED
    ensures Exec(s, CloseHead(t)) == Some(s.(calls := s.calls[t := Call(Returned, 1, 1)]))
  {
    CloseHeadEffect(s, t);
  }

  /** A reload up to the point where it builds the new instance. */
  function ReloadHead(t: Thread, closes: bool): Trace {
    By(t, [Begin(Reload), Lock, NEXT]) + if closes then By(t, [NEXT, Lock]) else []
  }

  function BuildPart(t: Thread, built: bool, id: Instance): Trace { By(t, [NEXT, Run(built, id, 0)]) }

  function StartPart(t: Thread, startOk: bool, now: int): Trace { By(t, [Run(startOk, 0, 0), Lock, Run(true, 0, now)]) }

  lemma ReloadRefused(s: State, t: Thread)
    requires s.holder.None? && t !in s.calls && s.fields.status == STOPPING
    ensures Exec(s, ReloadHead(t, false)) == Some(s.(calls := s.calls[t := Call(Returned, 1, 1)]))
  {
    ThreeSteps(s, t, Begin(Reload), Lock, NEXT);
    var three := By(t, [Begin(Reload), Lock, NEXT]);
    assert three + [] == three;
    var r := Exec(s, three).value;
    assert r.calls == s.calls[t := r.calls[t]];
  }

  lemma ReloadCheckEffect(s: State, t: Thread)
    requires s.holder.None? && t !in s.calls && s.fields.status != STOPPING
    ensures Exec(s, By(t, [Begin(Reload), Lock, NEXT])) ==
            if s.fields.instance.None? then
              Some(s.(holder := Some(t), calls := s.calls[t := Call(ReloadInstalling, 1, 0)]))
            else
              Some(s.(calls := s.calls[t := Call(ReloadClosing(s.fields.instance.value), 1, 1)],
                      fields := s.fields.(status := STOPPING)))
  {
    ThreeSteps(s, t, Begin(Reload), Lock, NEXT);
    var r := Exec(s, By(t, [Begin(Reload), Lock, NEXT])).value;
    assert r.calls == s.calls[t := r.calls[t]];
  }

  lemma ReloadCloseEffect(s: State, t: Thread, i: Instance)
    requires s.holder.None? && t in s.calls && s.calls[t] == Call(ReloadClosing(i), 1, 1)
    ensures Exec(s, By(t, [NEXT, Lock])) ==
            Some(s.(holder := Some(t), closed := s.closed + {i}, calls := s.calls[t := Call(ReloadInstalling, 2, 1)]))
  {
    TwoSteps(s, t, NEXT, Lock);
    var r := Exec(s, By(t, [NEXT, Lock])).value;
    assert r.calls == s.calls[t := r.calls[t]];
  }

  /** What there was is closed when the new instance is built. */
  lemma ReloadHeadEffect(s: State, t: Thread)
    requires s.holder.None? && t !in s.calls && s.fields.status != STOPPING
    ensures Exec(s, ReloadHead(t, s.fields.instance.Some?)).Some?
    ensures var r := Exec(s, ReloadHead(t, s.fields.instance.Some?)).value;
            && r.holder == Some(t) && r.installed == s.installed && r.calls.Keys == s.calls.Keys + {t}
            && r.calls[t].pc.ReloadInstalling? && r.calls[t].locks == r.calls[t].unlocks + 1
            && r.fields.instance == s.fields.instance && r.fields.startedAt == s.fields.startedAt
            && r.closed == s.closed + if s.fields.instance.Some? then {s.fields.instance.value} else {}
  {
    var three := By(t, [Begin(Reload), Lock, NEXT]);
    ReloadCheckEffect(s, t);
    var s1 := Exec(s, three).value;
    if s.fields.instance.Some? {
      ReloadCloseEffect(s1, t, s.fields.instance.value);
      ExecAppend(s, three, By(t, [NEXT, Lock]));
    } else {
      assert three + [] == three;
    }
  }

  /** A failed build leaves the service FATAL with what instance and starting time it had. */
  lemma BuildEffect(s: State, t: Thread, built: bool, id: Instance)
    requires s.holder == Some(t) && t in s.calls && s.calls[t].pc.ReloadInstalling? && (built ==> id !in s.installed)
    ensures Exec(s, BuildPart(t, built, id)).Some?
    ensures var r := Exec(s, BuildPart(t, built, id)).value;
            && r.holder.None? && r.closed == s.closed && r.calls.Keys == s.calls.Keys
            && r.installed == s.installed + (if built then {id} else {})
            && r.calls[t] ==
                 Call(if built then ReloadStarting(id) else Returned, s.calls[t].locks, s.calls[t].unlocks + 1)
            && r.fields == if built then Fields(STARTING, Some(id), s.fields.startedAt)
                           else Fields(FATAL, s.fields.instance, s.fields.startedAt)
  {
    TwoSteps(s, t, NEXT, Run(built, id, 0));
    assert t in s.calls.Keys;
  }

  /** A failed start leaves it FATAL with the new instance; a start that was overtaken changes nothing. */
  lemma StartEffect(s: State, t: Thread, startOk: bool, now: int)
    requires s.holder.None? && t in s.calls && s.calls[t].pc.ReloadStarting?
    ensures Exec(s, StartPart(t, startOk, now)).Some?
    ensures var r := Exec(s, StartPart(t, startOk, now)).value;
            && r.holder.None? && r.closed == s.closed && r.installed == s.installed && r.calls.Keys == s.calls.Keys
            && r.calls[t] == Call(Returned, s.calls[t].locks + 1, s.calls[t].unlocks + 1)
            && r.fields == if s.fields.status != STARTING then s.fields
                           else if startOk then Fields(STARTED, s.fields.instance, Some(now))
                           else Fields(FATAL, s.fields.instance, s.fields.startedAt)
  {
    ThreeSteps(s, t, Run(startOk, 0, 0), Lock, Run(true, 0, now));
    assert t in s.calls.Keys;
  }

  function ReloadCall(t: Thread, closes: bool, id: Instance, built: bool, startOk: bool, now: int): Trace {
    ReloadHead(t, closes) + (BuildPart(t, built, id) + if built then StartPart(t, startOk, now) else [])
  }

  /** A whole StartOrReloadService that nobody interrupts: what was running is closed; the service ends
      STARTED with the new instance, or FATAL after a failed build or start. */
  lemma ReloadEffect(s: State, t: Thread, id: Instance, built: bool, startOk: bool, now: int)
    requires s.holder.None? && t !in s.calls && s.fields.status != STOPPING && id !in s.installed
    ensures Exec(s, ReloadCall(t, s.fields.instance.Some?, id, built, startOk, now)).Some?
    ensures var r := Exec(s, ReloadCall(t, s.fields.instance.Some?, id, built, startOk, now)).value;
            && r.holder.None? && r.calls.Keys == s.calls.Keys + {t}
            && r.calls[t].pc.Returned? && r.calls[t].locks == r.calls[t].unlocks
            && r.installed == s.installed + (if built then {id} else {})
            && r.closed == s.closed + (if s.fields.instance.Some? then {s.fields.instance.value} else {})
            && r.fields == if !built then Fields(FATAL, s.fields.instance, s.fields.startedAt)
                           else if startOk then Fields(STARTED, Some(id), Some(now))
                           else Fields(FATAL, Some(id), s.fields.startedAt)
  {
    var head, build := ReloadHead(t, s.fields.instance.Some?), BuildPart(t, built, id);
    var rest := if built then StartPart(t, startOk, now) else [];
    ReloadHeadEffect(s, t);
    var s1 := Exec(s, head).value;
    BuildEffect(s1, t, built, id);
    var s2 := Exec(s1, build).value;
    if built {
      StartEffect(s2, t, startOk, now);
    }
    ExecAppend(s1, build, rest);
    ExecAppend(s, head, build + rest);
  }

  /** A leak does happen: a fresh service is started, reloaded, and hit by a SetError while the reload
      closes the old instance. */
  lemma LeakIsReachable() returns (s: State, trace: Trace)
    ensures Init(s) && s.fields == Fields(IDLE, None, None) && Exec(s, trace).Some?
    ensures Exec(s, trace).value.holder.None? && !NoLeak(Exec(s, trace).value)
  {
    s := State(None, Fields(IDLE, None, None), map[], {}, {}, false);
    var t0 := ReloadCall(0, false, 0, true, true, 0);
    ReloadEffect(s, 0, 0, true, true, 0);
    var s0 := Exec(s, t0).value;
    var t1, s1 := ReloadToWindow(s0, 1);
    var errors := FreshId(s1.calls.Keys);
    SetErrorEffect(s1, errors);
    var s2 := Exec(s1, SetErrorCall(errors)).value;
    var t2 := DisturbedReloadLeaks(s2, 1);
    ExecAppend(s1, SetErrorCall(errors), t2);
    ExecAppend(s0, t1, SetErrorCall(errors) + t2);
    ExecAppend(s, t0, t1 + (SetErrorCall(errors) + t2));
    trace := t0 + (t1 + (SetErrorCall(errors) + t2));
  }
}
