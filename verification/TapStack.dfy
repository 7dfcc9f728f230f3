/** The locks above the event thread: `EVENT_TAP`, `HANDLER` and `DISPLAY_CACHE`, the lock target and
    the support flag (crates/lockdock-daemon/src/display_lock.rs, crates/lockdock-mouse/src/event_tap.rs),
    on top of the native protocol of `EventThread`. One client runs the daemon's calls one at a time;
    the mouse callback runs on the event thread in single reads, writes and lock operations. */
module TapStack {
  import opened Options
  import N = EventThread

  type DisplayId = nat

  /** Where the client is in set_lock_target(d), clear_lock_target() or refresh_display_cache(). */
  datatype Op =
    | Idle
    | SetEnter(d: DisplayId)         // about to lock EVENT_TAP
    | SetInstallLock(d: DisplayId)   // EventTap::start: about to lock HANDLER
    | SetInstall(d: DisplayId)
    | SetNative(d: DisplayId)        // inside the native start
    | SetFailLock                    // native start failed; clear_handler: about to lock HANDLER
    | SetFail
    | SetCacheLock(d: DisplayId)     // about to lock DISPLAY_CACHE
    | SetCacheWrite(d: DisplayId)
    | SetStore(d: DisplayId)         // about to store the lock target
    | ClearStore                     // about to store 0
    | ClearEnter                     // about to lock EVENT_TAP
    | ClearNative                    // dropping the EventTap: inside the native stop
    | ClearHandlerLock
    | ClearHandler
    | CacheLock
    | CacheWrite

  /** Where the event thread is in the mouse callback. */
  datatype Callback =
    | NoCallback
    | HandlerLock       // about to lock HANDLER
    | ReadHandler
    | ReadSupported
    | ZeroTarget        // saw the Dock unsupported; about to store 0
    | ReadTarget
    | FindLock          // about to lock DISPLAY_CACHE
    | Find
    | Ending            // all locks released

  datatype Owner = Free | ByClient | ByThread

  datatype State = State(
    native: N.State,
    op: Op,
    tapLocked: bool,      // EVENT_TAP is locked; only the client locks it
    tapHeld: bool,        // EVENT_TAP holds an EventTap
    handlerOwner: Owner, handler: bool,
    cacheOwner: Owner,
    lockTarget: DisplayId, supported: bool,
    callback: Callback,
    alreadyRunning: bool) // EventTap::start has returned AlreadyRunning

  const INITIAL := State(N.INITIAL, Idle, false, false, Free, false, Free, 0, true, NoCallback, false)

  datatype Action =
    | BeginSet(d: DisplayId) | BeginClear | BeginCache
    | StoreSupported(flag: bool)      // refresh_dock_support
    | OpStep                          // the client's next step above the native calls
    | NativeClient(ok: bool)          // the client's next native step
    | NativeThread(i: nat, ok: bool)  // a native step of thread i
    | CallbackStep                    // the callback's next step
    | MouseEvent(i: nat)              // thread i starts a callback
    | LeaveLoop(i: nat)
    | SpuriousWake

  // ----- steps

  function OpNext(s: State): Option<State> {
    match s.op
    case Idle => None
    case SetEnter(d) =>
      if s.tapLocked then None
      else Some(s.(tapLocked := true, op := if s.tapHeld then SetCacheLock(d) else SetInstallLock(d)))
    case SetInstallLock(d) => if s.handlerOwner == Free then Some(s.(handlerOwner := ByClient, op := SetInstall(d))) else None
    case SetInstall(d) =>
      if s.handler then Some(s.(handlerOwner := Free, tapLocked := false, alreadyRunning := true, op := Idle))
      else if s.native.client == N.Rest then
        Some(s.(handlerOwner := Free, handler := true, op := SetNative(d), native := s.native.(client := N.StartLock)))
      else None
    case SetNative(d) =>
      if s.native.client != N.Rest then None
      else if s.native.result then Some(s.(tapHeld := true, op := SetCacheLock(d)))
      else Some(s.(op := SetFailLock))
    case SetFailLock => if s.handlerOwner == Free then Some(s.(handlerOwner := ByClient, op := SetFail)) else None
    case SetFail => Some(s.(handlerOwner := Free, handler := false, tapLocked := false, op := Idle))
    case SetCacheLock(d) => if s.cacheOwner == Free then Some(s.(cacheOwner := ByClient, op := SetCacheWrite(d))) else None
    case SetCacheWrite(d) => Some(s.(cacheOwner := Free, op := SetStore(d)))
    case SetStore(d) => Some(s.(lockTarget := d, tapLocked := false, op := Idle))
    case ClearStore => Some(s.(lockTarget := 0, op := ClearEnter))
    case ClearEnter =>
      if s.tapLocked then None
      else if !s.tapHeld then Some(s.(op := Idle))
      else if s.native.client == N.Rest then
        Some(s.(tapLocked := true, op := ClearNative, native := s.native.(client := N.StopLock)))
      else None
    case ClearNative => if s.native.client == N.Rest then Some(s.(op := ClearHandlerLock)) else None
    case ClearHandlerLock => if s.handlerOwner == Free then Some(s.(handlerOwner := ByClient, op := ClearHandler)) else None
    case ClearHandler => Some(s.(handlerOwner := Free, handler := false, tapHeld := false, tapLocked := false, op := Idle))
    case CacheLock => if s.cacheOwner == Free then Some(s.(cacheOwner := ByClient, op := CacheWrite)) else None
    case CacheWrite => Some(s.(cacheOwner := Free, op := Idle))
  }

  function CallbackNext(s: State): Option<State> {
    match s.callback
    case NoCallback => None
    case HandlerLock => if s.handlerOwner == Free then Some(s.(handlerOwner := ByThread, callback := ReadHandler)) else None
    case ReadHandler =>
      if s.handler then Some(s.(callback := ReadSupported)) else Some(s.(handlerOwner := Free, callback := Ending))
    case ReadSupported => Some(s.(callback := if s.supported then ReadTarget else ZeroTarget))
    case ZeroTarget => Some(s.(lockTarget := 0, handlerOwner := Free, callback := Ending))
    case ReadTarget =>
      if s.lockTarget == 0 then Some(s.(handlerOwner := Free, callback := Ending)) else Some(s.(callback := FindLock))
    case FindLock => if s.cacheOwner == Free then Some(s.(cacheOwner := ByThread, callback := Find)) else None
    case Find => Some(s.(cacheOwner := Free, handlerOwner := Free, callback := Ending))
    case Ending =>
      if s.native.newest.Some? && s.native.newest.value.pc == N.InCallback then
        Some(s.(callback := NoCallback, native := N.Goto(s.native, |s.native.older|, N.Looping)))
      else None
  }

  function Lift(s: State, next: Option<N.State>): Option<State> {
    if next.Some? then Some(s.(native := next.value)) else None
  }

  function Next(s: State, a: Action): Option<State> {
    match a
    case BeginSet(d) => if s.op == Idle then Some(s.(op := SetEnter(d))) else None
    case BeginClear => if s.op == Idle then Some(s.(op := ClearStore)) else None
    case BeginCache => if s.op == Idle then Some(s.(op := CacheLock)) else None
    case StoreSupported(flag) => if s.op == Idle then Some(s.(supported := flag)) else None
    case OpStep => OpNext(s)
    case NativeClient(ok) => Lift(s, N.ClientNext(s.native, ok))
    case NativeThread(i, ok) =>
      if i < N.Created(s.native) && N.Get(s.native, i).pc != N.InCallback then Lift(s, N.ThreadNext(s.native, i, ok)) else None
    case CallbackStep => CallbackNext(s)
    case MouseEvent(i) =>
      var next := N.Next(s.native, N.BeginCallback(i));
      if next.Some? then Some(s.(native := next.value, callback := HandlerLock)) else None
    case LeaveLoop(i) => Lift(s, N.Next(s.native, N.LeaveLoop(i)))
    case SpuriousWake => Lift(s, N.Next(s.native, N.SpuriousWake))
  }

  // ----- the invariant

  predicate InStart(pc: N.ClientPc) {
    pc.StartLock? || pc.StartCheck? || pc.StartSleep? || pc.JoinStale? || pc.Create? || pc.CreateFailLock? || pc.CreateFailHold?
    || pc.AwaitLock? || pc.AwaitCheck? || pc.AwaitSleep? || pc.JoinFailed?
  }

  predicate InStop(pc: N.ClientPc) { pc.StopLock? || pc.StopCheck? || pc.StopSleep? || pc.JoinStopped? }

  /** The native client runs exactly inside the two native calls. */
  ghost predicate NativeOk(s: State) {
    && (s.op.SetNative? ==> s.native.client == N.Rest || InStart(s.native.client))
    && (s.op.ClearNative? ==> (s.native.client == N.Rest && !s.native.result) || InStop(s.native.client))
    && (!s.op.SetNative? && !s.op.ClearNative? ==> s.native.client == N.Rest)
  }

  /** The client holds EVENT_TAP. */
  predicate HoldsTap(op: Op) {
    op.SetInstallLock? || op.SetInstall? || op.SetNative? || op.SetFailLock? || op.SetFail?
    || op.SetCacheLock? || op.SetCacheWrite? || op.SetStore? || op.ClearNative? || op.ClearHandlerLock? || op.ClearHandler?
  }

  ghost predicate LocksOk(s: State) {
    && (s.tapLocked <==> HoldsTap(s.op))
    && (s.handlerOwner == ByClient <==> s.op.SetInstall? || s.op.SetFail? || s.op.ClearHandler?)
    && (s.handlerOwner == ByThread <==> s.callback.ReadHandler? || s.callback.ReadSupported? || s.callback.ZeroTarget?
                                        || s.callback.ReadTarget? || s.callback.FindLock? || s.callback.Find?)
    && (s.cacheOwner == ByClient <==> s.op.SetCacheWrite? || s.op.CacheWrite?)
    && (s.cacheOwner == ByThread <==> s.callback.Find?)
    && (s.callback != NoCallback <==> N.Pc(s.native) == N.InCallback)
  }

  /** How handler, EventTap and native thread go together at each point of a call. */
  ghost predicate TapOk(s: State) {
    && !s.alreadyRunning
    && (s.lockTarget != 0 ==> s.tapHeld)
    && (if s.op.SetInstallLock? || s.op.SetInstall? then !s.tapHeld && !s.handler && !s.native.joinable
        else if s.op.SetNative? then !s.tapHeld && s.handler
        else if s.op.SetFailLock? || s.op.SetFail? then !s.tapHeld && s.handler && !s.native.joinable
        else if s.op.ClearNative? then s.tapHeld && s.handler
        else if s.op.ClearHandlerLock? || s.op.ClearHandler? then s.tapHeld && s.handler && !s.native.joinable
        else s.handler == s.tapHeld && s.native.joinable == s.tapHeld)
    && (s.op.SetCacheLock? || s.op.SetCacheWrite? || s.op.SetStore? ==> s.tapHeld)
    && (s.op.ClearEnter? || s.op.ClearNative? || s.op.ClearHandlerLock? || s.op.ClearHandler? ==> s.lockTarget == 0)
  }

  ghost predicate Inv(s: State) {
    N.Inv(s.native) && NativeOk(s) && LocksOk(s) && TapOk(s)
  }

  lemma InitialInv()
    ensures Inv(INITIAL)
  {
    N.InitialInv();
  }

  predicate BeforeCreation(pc: N.ClientPc) { pc.StartLock? || pc.StartCheck? || pc.StartSleep? || pc.JoinStale? || pc.Create? }

  lemma StartBegins(n: N.State, ok: bool)
    requires N.ClientNext(n, ok).Some? && BeforeCreation(n.client)
    ensures var pc := N.ClientNext(n, ok).value.client;
            BeforeCreation(pc) || pc.CreateFailLock? || pc.AwaitLock? || pc.Rest?
  {
    hide N.Add, N.Join;
    JoinIsNoStep(n, N.Create);
  }

  lemma StartFinishes(n: N.State, ok: bool)
    requires N.ClientNext(n, ok).Some? && InStart(n.client) && !BeforeCreation(n.client)
    ensures var pc := N.ClientNext(n, ok).value.client;
            pc.CreateFailHold? || pc.AwaitCheck? || pc.AwaitSleep? || pc.JoinFailed? || pc.Rest?
  {
    hide N.Add, N.Join;
    JoinIsNoStep(n, N.Rest);
  }

  lemma NativeStartReturns(n: N.State, ok: bool)
    requires N.ClientNext(n, ok).Some? && InStart(n.client)
    ensures var n' := N.ClientNext(n, ok).value; InStart(n'.client) || n'.client == N.Rest
  {
    hide N.ClientNext;
    if BeforeCreation(n.client) {
      StartBegins(n, ok);
    } else {
      StartFinishes(n, ok);
    }
  }

  lemma NativeStopReturns(n: N.State, ok: bool)
    requires N.ClientNext(n, ok).Some? && InStop(n.client)
    ensures var n' := N.ClientNext(n, ok).value; InStop(n'.client) || (n'.client == N.Rest && !n'.result)
  {
    hide N.RequestStop, N.Join;
    JoinIsNoStep(n, N.Rest);
  }

  /** What the stack needs to know about a native client step. */
  lemma NativeClientReturns(n: N.State, ok: bool)
    requires N.ClientNext(n, ok).Some?
    ensures var n' := N.ClientNext(n, ok).value;
            && (InStart(n.client) ==> InStart(n'.client) || n'.client == N.Rest)
            && (InStop(n.client) ==> InStop(n'.client) || (n'.client == N.Rest && !n'.result))
            && n.client != N.Rest
  {
    if InStart(n.client) {
      hide N.ClientNext;
      NativeStartReturns(n, ok);
    } else if InStop(n.client) {
      hide N.ClientNext;
      NativeStopReturns(n, ok);
    }
  }

  predicate IsJoin(pc: N.ClientPc) { pc.JoinStale? || pc.JoinFailed? || pc.JoinStopped? }

  /** Only creating, stopping and joining touch the newest thread. */
  lemma ClientLeavesNewest(n: N.State, ok: bool)
    requires N.ClientNext(n, ok).Some? && !n.client.Create? && !n.client.StopCheck? && !IsJoin(n.client)
    ensures N.ClientNext(n, ok).value.newest == n.newest
  {
    if n.client.StartLock? || n.client.StartCheck? || n.client.StartSleep? || n.client.CreateFailLock? || n.client.CreateFailHold? {
      hide N.Put, N.Get, N.Add, N.Join, N.RequestStop;
    } else {
      hide N.ClientNext;
      ClientLeavesNewestAwaiting(n, ok);
    }
  }

  lemma ClientLeavesNewestAwaiting(n: N.State, ok: bool)
    requires N.ClientNext(n, ok).Some?
    requires n.client.Rest? || n.client.AwaitLock? || n.client.AwaitCheck? || n.client.AwaitSleep? || n.client.StopLock? || n.client.StopSleep?
    ensures N.ClientNext(n, ok).value.newest == n.newest
  {
    hide N.Put, N.Get, N.Add, N.Join, N.RequestStop;
  }

  lemma JoinIsNoStep(n: N.State, pc: N.ClientPc)
    ensures var n' := N.Join(n, pc);
            n'.Some? ==> N.Pc(n'.value) == N.Pc(n) && n'.value.client == pc
  {
  }

  lemma JoinLeavesPc(n: N.State, ok: bool)
    requires N.ClientNext(n, ok).Some? && IsJoin(n.client)
    ensures N.Pc(N.ClientNext(n, ok).value) == N.Pc(n)
  {
    hide N.Add, N.RequestStop, N.Join;
    JoinIsNoStep(n, N.Create);
    JoinIsNoStep(n, N.Rest);
  }

  lemma NativeClientLeavesCallback(n: N.State, ok: bool)
    requires N.Inv(n) && N.ClientNext(n, ok).Some?
    ensures N.Pc(N.ClientNext(n, ok).value) == N.InCallback <==> N.Pc(n) == N.InCallback
  {
    if n.client.Create? || n.client.StopCheck? {
      hide N.ObjectsOk, N.StopsOk;
    } else if IsJoin(n.client) {
      hide N.Inv, N.ClientNext, N.Pc;
      JoinLeavesPc(n, ok);
    } else {
      hide N.Inv, N.ClientNext;
      ClientLeavesNewest(n, ok);
    }
  }

  /** And about a native thread step. */
  lemma NativeThreadEffects(n: N.State, i: nat, ok: bool)
    requires N.Inv(n) && i < N.Created(n) && N.ThreadNext(n, i, ok).Some? && N.Get(n, i).pc != N.InCallback
    ensures var n' := N.ThreadNext(n, i, ok).value;
            && n'.client == n.client && n'.result == n.result && n'.joinable == n.joinable
            && N.Pc(n) != N.InCallback && N.Pc(n') != N.InCallback
  {
    hide N.Inv, N.ThreadNext;
    N.ThreadIsNewest(n, i, ok);
    N.ThreadMovesAlone(n, i, ok);
  }

  lemma SetStepKeeps(s: State)
    requires Inv(s) && OpNext(s).Some?
    requires s.op.SetEnter? || s.op.SetInstallLock? || s.op.SetInstall? || s.op.SetNative? || s.op.SetFailLock? || s.op.SetFail?
    ensures Inv(OpNext(s).value)
  {
    hide N.Inv;
    AtRest(s.native);
    CallsBegin(s.native);
  }

  lemma CacheStepKeeps(s: State)
    requires Inv(s) && OpNext(s).Some?
    requires s.op.SetCacheLock? || s.op.SetCacheWrite? || s.op.SetStore? || s.op.CacheLock? || s.op.CacheWrite?
    ensures Inv(OpNext(s).value)
  {
    hide N.Inv;
  }

  lemma ClearStepKeeps(s: State)
    requires Inv(s) && OpNext(s).Some?
    requires s.op.ClearStore? || s.op.ClearEnter? || s.op.ClearNative? || s.op.ClearHandlerLock? || s.op.ClearHandler?
    ensures Inv(OpNext(s).value)
  {
    hide N.Inv;
    AtRest(s.native);
    CallsBegin(s.native);
  }

  lemma OpStepKeeps(s: State)
    requires Inv(s) && OpNext(s).Some?
    ensures Inv(OpNext(s).value)
  {
    hide Inv, OpNext;
    match s.op
    case SetEnter(_) | SetInstallLock(_) | SetInstall(_) | SetNative(_) | SetFailLock | SetFail => SetStepKeeps(s);
    case SetCacheLock(_) | SetCacheWrite(_) | SetStore(_) | CacheLock | CacheWrite => CacheStepKeeps(s);
    case ClearStore | ClearEnter | ClearNative | ClearHandlerLock | ClearHandler => ClearStepKeeps(s);
    case Idle => IdleHasNoStep(s);
  }

  lemma IdleHasNoStep(s: State)
    requires s.op == Idle
    ensures OpNext(s) == None
  {
  }

  /** At native rest the flag `joinable` says what the last call returned. */
  lemma AtRest(n: N.State)
    requires N.Inv(n) && n.client == N.Rest
    ensures n.result == n.joinable
  {
  }

  lemma CallsBegin(n: N.State)
    requires N.Inv(n) && n.client == N.Rest
    ensures N.Inv(n.(client := N.StartLock)) && N.Inv(n.(client := N.StopLock))
  {
  }

  lemma CallbackStepKeeps(s: State)
    requires Inv(s) && CallbackNext(s).Some?
    ensures Inv(CallbackNext(s).value)
  {
    hide N.Inv;
    if s.callback == Ending {
      CallbackEnds(s.native);
    }
  }

  lemma CallbackEnds(n: N.State)
    requires N.Inv(n) && N.Pc(n) == N.InCallback
    ensures n.newest.Some? && N.Inv(N.Goto(n, |n.older|, N.Looping)) && N.Pc(N.Goto(n, |n.older|, N.Looping)) == N.Looping
    ensures N.ThreadNext(n, |n.older|, true) == Some(N.Goto(n, |n.older|, N.Looping))
  {
    assert N.Get(n, |n.older|) == n.newest.value;
    N.ThreadStepKeeps(n, |n.older|, true);
  }

  lemma NativeClientKeeps(s: State, ok: bool)
    requires Inv(s) && N.ClientNext(s.native, ok).Some?
    ensures Inv(s.(native := N.ClientNext(s.native, ok).value))
  {
    hide N.Inv, N.ClientNext;
    N.ClientStepKeeps(s.native, ok);
    NativeClientReturns(s.native, ok);
    NativeClientLeavesCallback(s.native, ok);
  }

  lemma NativeThreadKeeps(s: State, i: nat, ok: bool)
    requires Inv(s) && i < N.Created(s.native) && N.Get(s.native, i).pc != N.InCallback && N.ThreadNext(s.native, i, ok).Some?
    ensures Inv(s.(native := N.ThreadNext(s.native, i, ok).value))
  {
    hide N.Inv, N.ThreadNext;
    N.ThreadStepKeeps(s.native, i, ok);
    NativeThreadEffects(s.native, i, ok);
  }

  lemma EnvironmentEffects(n: N.State, a: N.Action)
    requires N.Inv(n) && (a.BeginCallback? || a.LeaveLoop? || a.SpuriousWake?) && N.Next(n, a).Some?
    ensures var n' := N.Next(n, a).value;
            && N.Inv(n') && n'.client == n.client && n'.result == n.result && n'.joinable == n.joinable
            && (a.BeginCallback? ==> N.Pc(n) != N.InCallback && N.Pc(n') == N.InCallback)
            && (!a.BeginCallback? ==> (N.Pc(n') == N.InCallback <==> N.Pc(n) == N.InCallback))
  {
    hide N.ClientNext, N.ThreadNext, N.ObjectsOk;
    N.EnvironmentKeeps(n, a);
    if a.BeginCallback? || a.LeaveLoop? {
      assert a.i == |n.older|;
    }
  }

  /** Every step keeps the invariant. */
  lemma StepKeeps(s: State, a: Action)
    requires Inv(s) && Next(s, a).Some?
    ensures Inv(Next(s, a).value)
  {
    hide N.Inv, N.Next, N.ClientNext, N.ThreadNext, OpNext, CallbackNext;
    match a
    case OpStep => OpStepKeeps(s);
    case NativeClient(ok) => NativeClientKeeps(s, ok);
    case NativeThread(i, ok) => NativeThreadKeeps(s, i, ok);
    case CallbackStep => CallbackStepKeeps(s);
    case MouseEvent(i) => EnvironmentEffects(s.native, N.BeginCallback(i));
    case LeaveLoop(i) => EnvironmentEffects(s.native, N.LeaveLoop(i));
    case SpuriousWake => EnvironmentEffects(s.native, N.SpuriousWake);
    case _ =>
  }

  // ----- theorems over executions

  ghost predicate IsPath(states: seq<State>, actions: seq<Action>) {
    && |states| == |actions| + 1
    && forall k :: 0 <= k < |actions| ==> Next(states[k], actions[k]) == Some(states[k + 1])
  }

  ghost predicate IsExecution(states: seq<State>, actions: seq<Action>) {
    IsPath(states, actions) && states[0] == INITIAL
  }

  lemma {:induction false} PathKeeps(states: seq<State>, actions: seq<Action>, k: nat)
    requires IsPath(states, actions) && Inv(states[0]) && k < |states|
    ensures Inv(states[k])
  {
    hide Inv, Next;
    if k > 0 {
      PathKeeps(states, actions, k - 1);
      assert Next(states[k - 1], actions[k - 1]) == Some(states[k]);
      StepKeeps(states[k - 1], actions[k - 1]);
    }
  }

  /** In every interleaving: whenever EVENT_TAP is free, a handler is installed exactly when an
      EventTap is held, exactly when an event thread is there to be joined; a nonzero lock target always
      implies a held EventTap; EventTap::start never returns AlreadyRunning; and the event thread never
      runs its callback without a handler. */
  lemma TapHandlerAndTargetAgree(states: seq<State>, actions: seq<Action>, k: nat)
    requires IsExecution(states, actions) && k < |states|
    ensures var s := states[k];
            && (!s.tapLocked ==> (s.handler <==> s.tapHeld) && (s.native.joinable <==> s.tapHeld))
            && (s.lockTarget != 0 ==> s.tapHeld && s.handler)
            && !s.alreadyRunning
            && (s.callback != NoCallback ==> s.handler)
            && (!s.tapHeld && s.op == Idle ==> N.Pc(s.native) == N.Exited)
  {
    hide Next, N.Inv;
    InitialInv();
    PathKeeps(states, actions, k);
    var s := states[k];
    ThreadNeedsClient(s.native);
  }

  /** Without a joinable thread and a native call under way there is no live thread. */
  lemma ThreadNeedsClient(n: N.State)
    requires N.Inv(n)
    ensures n.client == N.Rest && !n.joinable ==> N.Pc(n) == N.Exited
  {
  }

  // ----- progress

  predicate IsProgress(a: Action) { a.OpStep? || a.NativeClient? || a.NativeThread? || a.CallbackStep? }

  /** A progress step that is enabled whenever the client is in a call. */
  function Helpful(s: State): Action {
    if OpNext(s).Some? then OpStep
    else if N.ClientNext(s.native, true).Some? then NativeClient(true)
    else if s.callback != NoCallback then CallbackStep
    else NativeThread(|s.native.older|, true)
  }

  /** No deadlock among EVENT_TAP, HANDLER, DISPLAY_CACHE, g_event_mutex and the joins: whenever the
      client is inside a call, some step of the client, of a native call, of the callback or of the
      event thread is enabled. */
  lemma NoDeadlock(s: State)
    requires Inv(s) && s.op != Idle
    ensures IsProgress(Helpful(s)) && Next(s, Helpful(s)).Some?
  {
    hide N.Inv, N.ClientNext, N.ThreadNext;
    if OpNext(s).None? {
      OpBlockers(s);
      if s.native.client != N.Rest && N.ClientNext(s.native, true).None? {
        N.BlockedClient(s.native);
        if s.callback == NoCallback {
          NewestIsGet(s.native);
        }
      }
    }
  }

  lemma NewestIsGet(n: N.State)
    requires n.newest.Some?
    ensures |n.older| < N.Created(n) && N.Get(n, |n.older|).pc == N.Pc(n)
  {
  }

  /** What a blocked client waits for: the end of a native call, or the cache lock that the callback
      holds; the callback itself is never blocked then. */
  lemma OpBlockers(s: State)
    requires Inv(s) && s.op != Idle && OpNext(s).None?
    ensures s.native.client != N.Rest || s.callback == Find
    ensures s.native.client == N.Rest ==> N.ClientNext(s.native, true).None?
    ensures s.callback != NoCallback ==> CallbackNext(s).Some?
  {
    hide N.Inv;
    ThreadNeedsClient(s.native);
    CallbackThread(s.native);
    if s.native.client == N.Rest {
      N.ClientAtRest(s.native, true);
    }
  }

  lemma CallbackThread(n: N.State)
    ensures N.Pc(n) == N.InCallback ==> n.newest.Some? && n.newest.value.pc == N.InCallback
  {
  }

  function OpRank(op: Op): nat {
    match op
    case Idle => 0
    case SetEnter(_) => 60 case SetInstallLock(_) => 59 case SetInstall(_) => 58 case SetNative(_) => 20
    case SetFailLock => 10 case SetFail => 9
    case SetCacheLock(_) => 10 case SetCacheWrite(_) => 9 case SetStore(_) => 8
    case ClearStore => 20 case ClearEnter => 19 case ClearNative => 10 case ClearHandlerLock => 9 case ClearHandler => 8
    case CacheLock => 2 case CacheWrite => 1
  }

  function CallbackRank(c: Callback): nat {
    match c
    case NoCallback => 0
    case HandlerLock => 7 case ReadHandler => 6 case ReadSupported => 5 case ReadTarget => 4
    case FindLock => 3 case Find => 2 case ZeroTarget => 2 case Ending => 1
  }

  /** A bound on the progress steps left until the client's call returns. */
  function Rank(s: State): nat { OpRank(s.op) + CallbackRank(s.callback) + N.Rank(s.native) }

  lemma NativeCallRank(n: N.State)
    requires n.client == N.Rest
    ensures N.Rank(n.(client := N.StartLock)) == N.Rank(n) + 26 && N.Rank(n.(client := N.StopLock)) == N.Rank(n) + 3
  {
  }

  lemma SetLowersRank(s: State)
    requires OpNext(s).Some?
    requires s.op.SetEnter? || s.op.SetInstallLock? || s.op.SetInstall? || s.op.SetNative? || s.op.SetFailLock? || s.op.SetFail?
    ensures Rank(OpNext(s).value) < Rank(s)
  {
    hide N.Rank, CallbackRank;
    if s.native.client == N.Rest {
      NativeCallRank(s.native);
    }
  }

  lemma CacheLowersRank(s: State)
    requires OpNext(s).Some?
    requires s.op.SetCacheLock? || s.op.SetCacheWrite? || s.op.SetStore? || s.op.CacheLock? || s.op.CacheWrite?
    ensures Rank(OpNext(s).value) < Rank(s)
  {
    hide N.Rank, CallbackRank;
  }

  lemma ClearLowersRank(s: State)
    requires OpNext(s).Some?
    requires s.op.ClearStore? || s.op.ClearEnter? || s.op.ClearNative? || s.op.ClearHandlerLock? || s.op.ClearHandler?
    ensures Rank(OpNext(s).value) < Rank(s)
  {
    hide N.Rank, CallbackRank;
    if s.native.client == N.Rest {
      NativeCallRank(s.native);
    }
  }

  lemma OpLowersRank(s: State)
    requires OpNext(s).Some?
    ensures Rank(OpNext(s).value) < Rank(s)
  {
    hide OpNext, Rank;
    match s.op
    case SetEnter(_) | SetInstallLock(_) | SetInstall(_) | SetNative(_) | SetFailLock | SetFail => SetLowersRank(s);
    case SetCacheLock(_) | SetCacheWrite(_) | SetStore(_) | CacheLock | CacheWrite => CacheLowersRank(s);
    case ClearStore | ClearEnter | ClearNative | ClearHandlerLock | ClearHandler => ClearLowersRank(s);
    case Idle => IdleHasNoStep(s);
  }

  lemma CallbackLowersRank(s: State)
    requires Inv(s) && CallbackNext(s).Some?
    ensures Rank(CallbackNext(s).value) < Rank(s)
  {
    hide N.Inv, OpRank;
    if s.callback == Ending {
      CallbackEnds(s.native);
      N.ThreadRankFalls(s.native, |s.native.older|, true);
    }
  }

  lemma ProgressLowersRank(s: State, a: Action)
    requires Inv(s) && IsProgress(a) && Next(s, a).Some?
    ensures Rank(Next(s, a).value) < Rank(s)
  {
    hide N.Inv, N.Rank, N.ClientNext, N.ThreadNext, OpNext, CallbackNext, OpRank, CallbackRank;
    match a
    case OpStep => OpLowersRank(s);
    case NativeClient(ok) => N.ClientRankFalls(s.native, ok);
    case NativeThread(i, ok) => N.ThreadRankFalls(s.native, i, ok);
    case CallbackStep => CallbackLowersRank(s);
    case _ =>
  }

  /** From any reachable state inside a call of the daemon, a path of progress steps has at most 107
      steps; with `NoDeadlock`, the call returns after at most that many. */
  lemma {:induction false} CallsEnd(states: seq<State>, actions: seq<Action>)
    requires IsPath(states, actions) && Inv(states[0])
    requires forall k :: 0 <= k < |actions| ==> IsProgress(actions[k])
    ensures |actions| <= Rank(states[0]) <= 107
  {
    hide Inv, Next, N.Rank;
    N.RankBound(states[0].native);
    if actions != [] {
      assert Next(states[0], actions[0]) == Some(states[0 + 1]);
      StepKeeps(states[0], actions[0]);
      ProgressLowersRank(states[0], actions[0]);
      CallsEnd(states[1..], actions[1..]);
    }
  }

  /** Every call of the daemon returns: in every execution, from any point on at most 107 progress steps
      can follow one another, and when no progress step is enabled the client is outside all calls. */
  lemma EveryCallEnds(states: seq<State>, actions: seq<Action>, j: nat)
    requires IsExecution(states, actions) && j < |states|
    requires forall k :: j <= k < |actions| ==> IsProgress(actions[k])
    ensures |actions| - j <= 107
    ensures (forall a :: IsProgress(a) ==> Next(states[|actions|], a) == None) ==> states[|actions|].op == Idle
  {
    hide Inv, Next, Rank;
    InitialInv();
    PathKeeps(states, actions, j);
    PathKeeps(states, actions, |actions|);
    var tail := states[j..];
    forall k | 0 <= k < |actions| - j
      ensures Next(tail[k], actions[j..][k]) == Some(tail[k + 1])
    {
      assert Next(states[j + k], actions[j + k]) == Some(states[j + k + 1]);
    }
    CallsEnd(tail, actions[j..]);
    if states[|actions|].op != Idle {
      NoDeadlock(states[|actions|]);
    }
  }

  // ----- what a callback does to the lock target

  /** What the callback in progress, or the last one, has read: the support flag and the target; and
      whether it has looked its display up. */
  datatype Reading = Reading(supported: Option<bool>, target: Option<DisplayId>, lookedUp: bool)

  const UNREAD := Reading(None, None, false)

  /** The reading after action `a` in state `s`. */
  function Read(r: Reading, s: State, a: Action): Reading {
    if a.MouseEvent? then UNREAD
    else if a == CallbackStep && s.callback == ReadSupported then r.(supported := Some(s.supported))
    else if a == CallbackStep && s.callback == ReadTarget then r.(target := Some(s.lockTarget))
    else if a == CallbackStep && s.callback == Find then r.(lookedUp := true)
    else r
  }

  /** The reading at state `k` of a path. */
  function ReadAt(states: seq<State>, actions: seq<Action>, k: nat): Reading
    requires k < |states| == |actions| + 1
  {
    if k == 0 then UNREAD else Read(ReadAt(states, actions, k - 1), states[k - 1], actions[k - 1])
  }

  /** How the callback's position goes with what it has read. */
  ghost predicate ReadOk(s: State, r: Reading) {
    match s.callback
    case NoCallback => true
    case HandlerLock | ReadHandler | ReadSupported => r == UNREAD
    case ZeroTarget => r == UNREAD.(supported := Some(false))
    case ReadTarget => r == UNREAD.(supported := Some(true))
    case FindLock | Find => r.supported == Some(true) && r.target.Some? && r.target.value != 0 && !r.lookedUp
    case Ending => Decided(r)
  }

  /** A callback is through when it saw an unsupported Dock, or no target, or looked its display up. */
  predicate Decided(r: Reading) {
    || r == Reading(Some(false), None, false)
    || r == Reading(Some(true), Some(0), false)
    || (r.supported == Some(true) && r.target.Some? && r.target.value != 0 && r.lookedUp)
  }

  /** No other action touches the callback. */
  lemma OthersLeaveCallback(s: State, a: Action)
    requires Next(s, a).Some? && a != CallbackStep && !a.MouseEvent?
    ensures Next(s, a).value.callback == s.callback
  {
    hide N.Next, N.ClientNext, N.ThreadNext;
  }

  lemma ReadKeeps(s: State, r: Reading, a: Action)
    requires Inv(s) && ReadOk(s, r) && Next(s, a).Some?
    ensures ReadOk(Next(s, a).value, Read(r, s, a))
  {
    hide N.Inv, N.Next, N.ClientNext, N.ThreadNext;
    if a == CallbackStep {
      CallbackHasHandler(s);
    } else if !a.MouseEvent? {
      OthersLeaveCallback(s, a);
    }
  }

  /** A callback in progress finds the handler. */
  lemma CallbackHasHandler(s: State)
    requires Inv(s) && s.callback != NoCallback
    ensures s.handler
  {
    hide N.Inv;
    ThreadNeedsClient(s.native);
  }

  lemma {:induction false} ReadOverPath(states: seq<State>, actions: seq<Action>, k: nat)
    requires IsExecution(states, actions) && k < |states|
    ensures ReadOk(states[k], ReadAt(states, actions, k))
  {
    hide Next, Inv, Read;
    if k > 0 {
      ReadOverPath(states, actions, k - 1);
      InitialInv();
      PathKeeps(states, actions, k - 1);
      assert Next(states[k - 1], actions[k - 1]) == Some(states[k]);
      ReadKeeps(states[k - 1], ReadAt(states, actions, k - 1), actions[k - 1]);
    }
  }

  /** The only steps that write the lock target: the client's two stores, and the callback's. */
  lemma TargetWriters(s: State, a: Action)
    requires Next(s, a).Some?
    ensures var target := Next(s, a).value.lockTarget;
            if a == OpStep && s.op.SetStore? then target == s.op.d
            else if a == OpStep && s.op.ClearStore? then target == 0
            else if a == CallbackStep && s.callback == ZeroTarget then target == 0
            else target == s.lockTarget
  {
    hide N.Next, N.ClientNext, N.ThreadNext;
  }

  /** In every interleaving a callback zeroes the target if and only if it has itself read that the Dock
      is unsupported; one that read it supported never changes the target; and every callback that ends
      has seen an unsupported Dock, or no target, or looked its display up. */
  lemma CallbackObeysSupport(states: seq<State>, actions: seq<Action>, k: nat)
    requires IsExecution(states, actions) && k < |actions| && actions[k] == CallbackStep
    ensures var r := ReadAt(states, actions, k);
            && (r.supported == Some(false) && states[k].callback != Ending ==> states[k + 1].lockTarget == 0)
            && (r.supported != Some(false) ==> states[k + 1].lockTarget == states[k].lockTarget)
            && (states[k].callback == Ending ==> Decided(r) && states[k + 1].callback == NoCallback)
  {
    hide Next, N.ClientNext, N.ThreadNext;
    ReadOverPath(states, actions, k);
    assert Next(states[k], actions[k]) == Some(states[k + 1]);
    TargetWriters(states[k], actions[k]);
    CallbackReturns(states[k]);
  }

  lemma CallbackReturns(s: State)
    ensures Next(s, CallbackStep).Some? ==> s.callback != NoCallback
    ensures s.callback == Ending && Next(s, CallbackStep).Some? ==> Next(s, CallbackStep).value.callback == NoCallback
  {
  }

  /** Action `m` neither stores the target for the client nor is a callback's step after it has read that
      the Dock is unsupported. */
  ghost predicate LeavesTarget(states: seq<State>, actions: seq<Action>, m: nat)
    requires m < |actions| && |states| == |actions| + 1
  {
    && !(actions[m] == OpStep && (states[m].op.SetStore? || states[m].op.ClearStore?))
    && !(actions[m] == CallbackStep && ReadAt(states, actions, m).supported == Some(false))
  }

  /** A stored lock stays: after the client's store of `d` the target is `d` until the client stores
      again or a callback acts on an unsupported Dock. */
  lemma {:induction false} StoredTargetStays(states: seq<State>, actions: seq<Action>, j: nat, k: nat)
    requires IsExecution(states, actions) && j < k < |states| && actions[j] == OpStep && states[j].op.SetStore?
    requires forall m :: j < m < k ==> LeavesTarget(states, actions, m)
    ensures states[k].lockTarget == states[j].op.d
  {
    hide Next, ReadAt;
    assert Next(states[k - 1], actions[k - 1]) == Some(states[k]);
    TargetWriters(states[k - 1], actions[k - 1]);
    if k > j + 1 {
      StoredTargetStays(states, actions, j, k - 1);
      assert LeavesTarget(states, actions, k - 1);
      if actions[k - 1] == CallbackStep {
        CallbackObeysSupport(states, actions, k - 1);
      }
    }
  }

  // ----- what set_lock_target comes to

  /** The set under way, on display `d`, can still succeed. */
  predicate Setting(op: Op, d: DisplayId) {
    op == SetEnter(d) || op == SetInstallLock(d) || op == SetInstall(d) || op == SetNative(d)
    || op == SetCacheLock(d) || op == SetCacheWrite(d) || op == SetStore(d)
  }

  predicate Failing(op: Op) { op.SetFailLock? || op.SetFail? }

  /** The native start of this set has returned false. */
  predicate NativeRefuses(s: State, a: Action) {
    a == OpStep && s.op.SetNative? && s.native.client == N.Rest && !s.native.result
  }

  /** A step of a set: it gives up exactly when the native start has returned false; otherwise it goes on
      for the same display until it stores it. */
  lemma SetGoesOn(s: State, a: Action, d: DisplayId)
    requires Inv(s) && Next(s, a).Some? && Setting(s.op, d)
    ensures var s' := Next(s, a).value;
            if a == OpStep && s.op == SetStore(d) then s'.op == Idle && s'.lockTarget == d && s'.tapHeld
            else if NativeRefuses(s, a) then s'.op == SetFailLock
            else Setting(s'.op, d)
  {
    hide N.Inv, N.Next, N.ClientNext, N.ThreadNext;
  }

  lemma FailureGoesOn(s: State, a: Action)
    requires Next(s, a).Some? && Failing(s.op)
    ensures var s' := Next(s, a).value; Failing(s'.op) || (a == OpStep && s'.op == Idle && !s'.tapLocked && !s'.handler)
  {
    hide N.Next, N.ClientNext, N.ThreadNext;
  }

  ghost predicate Refused(states: seq<State>, actions: seq<Action>, i: nat, k: nat)
    requires k <= |actions| < |states|
  {
    exists m :: i < m < k && NativeRefuses(states[m], actions[m])
  }

  /** Where a set that began with action `i` is at state `k`, before it has returned. */
  ghost predicate SetProgress(states: seq<State>, actions: seq<Action>, i: nat, k: nat, d: DisplayId)
    requires k <= |actions| < |states|
  {
    if Refused(states, actions, i, k) then Failing(states[k].op) else Setting(states[k].op, d)
  }

  lemma {:induction false} SetOverPath(states: seq<State>, actions: seq<Action>, i: nat, k: nat, d: DisplayId)
    requires IsExecution(states, actions) && i < k < |states| && actions[i] == BeginSet(d)
    requires forall m :: i < m <= k ==> states[m].op != Idle
    ensures SetProgress(states, actions, i, k, d)
  {
    hide Next, Inv;
    assert Next(states[k - 1], actions[k - 1]) == Some(states[k]);
    if k == i + 1 {
      SetBegins(states[i], d);
    } else {
      SetOverPath(states, actions, i, k - 1, d);
      InitialInv();
      PathKeeps(states, actions, k - 1);
      if Refused(states, actions, i, k - 1) {
        FailureGoesOn(states[k - 1], actions[k - 1]);
      } else {
        SetGoesOn(states[k - 1], actions[k - 1], d);
        if Refused(states, actions, i, k) {
          var m :| i < m < k && NativeRefuses(states[m], actions[m]);
          assert m == k - 1;
        }
      }
    }
  }

  lemma SetBegins(s: State, d: DisplayId)
    requires Next(s, BeginSet(d)).Some?
    ensures Next(s, BeginSet(d)).value.op == SetEnter(d)
  {
  }

  /** In every interleaving, a set_lock_target(d) that returns has just stored `d` as the target, or its
      native start has returned false; in that case it has left no handler. */
  lemma SetReturns(states: seq<State>, actions: seq<Action>, i: nat, k: nat, d: DisplayId)
    requires IsExecution(states, actions) && i + 1 < k < |states| && actions[i] == BeginSet(d)
    requires states[k].op == Idle && forall m :: i < m < k ==> states[m].op != Idle
    ensures if Refused(states, actions, i, k - 1) then !states[k].handler && !states[k].tapHeld && states[k].lockTarget == 0
            else actions[k - 1] == OpStep && states[k - 1].op == SetStore(d) && states[k].lockTarget == d && states[k].tapHeld
  {
    hide Next, N.Inv;
    SetOverPath(states, actions, i, k - 1, d);
    InitialInv();
    PathKeeps(states, actions, k - 1);
    PathKeeps(states, actions, k);
    assert Next(states[k - 1], actions[k - 1]) == Some(states[k]);
    if Refused(states, actions, i, k - 1) {
      FailureGoesOn(states[k - 1], actions[k - 1]);
    } else {
      SetGoesOn(states[k - 1], actions[k - 1], d);
    }
  }

  // ----- what clear_lock_target comes to

  predicate Clearing(op: Op) { op.ClearStore? || op.ClearEnter? || op.ClearNative? || op.ClearHandlerLock? || op.ClearHandler? }

  ghost predicate Cleared(s: State) { !s.tapHeld && !s.handler && s.lockTarget == 0 && N.Pc(s.native) == N.Exited }

  lemma ClearGoesOn(s: State, a: Action)
    requires Inv(s) && Clearing(s.op) && Next(s, a).Some? && Inv(Next(s, a).value)
    ensures var s' := Next(s, a).value; Clearing(s'.op) || (s'.op == Idle && Cleared(s'))
  {
    hide N.Inv, N.Next, N.ClientNext, N.ThreadNext;
    ThreadNeedsClient(Next(s, a).value.native);
  }

  lemma {:induction false} ClearOverPath(states: seq<State>, actions: seq<Action>, i: nat, k: nat)
    requires IsExecution(states, actions) && i < k < |states| && actions[i] == BeginClear
    requires forall m :: i < m < k ==> states[m].op != Idle
    ensures Clearing(states[k].op) || (states[k].op == Idle && Cleared(states[k]))
  {
    hide Next, Inv;
    assert Next(states[k - 1], actions[k - 1]) == Some(states[k]);
    if k == i + 1 {
      ClearBegins(states[i]);
    } else {
      ClearOverPath(states, actions, i, k - 1);
      InitialInv();
      PathKeeps(states, actions, k - 1);
      PathKeeps(states, actions, k);
      ClearGoesOn(states[k - 1], actions[k - 1]);
    }
  }

  lemma ClearBegins(s: State)
    requires Next(s, BeginClear).Some?
    ensures Clearing(Next(s, BeginClear).value.op)
  {
  }

  /** In every interleaving, a clear_lock_target that returns leaves no target, no EventTap, no handler and
      no live event thread. */
  lemma ClearReturns(states: seq<State>, actions: seq<Action>, i: nat, k: nat)
    requires IsExecution(states, actions) && i < k < |states| && actions[i] == BeginClear
    requires states[k].op == Idle && forall m :: i < m < k ==> states[m].op != Idle
    ensures Cleared(states[k])
  {
    hide Next, Inv;
    ClearOverPath(states, actions, i, k);
  }
}
