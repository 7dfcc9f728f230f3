/** The native event-tap thread protocol (crates/lockdock-mouse/native/mouse.c) as a step system: one
    client that starts and stops the tap, serialised as its callers serialise it, interleaved with the
    event threads it creates. A critical section of `g_event_mutex` is one step after the lock step. */
module EventThread {
  import opened Options

  datatype ThreadPc =
    | Spawned          // about to create the tap
    | TapMade          // about to create the run loop source
    | FailWait         // creation failed; about to lock in publish_failed
    | FailHold
    | SourceMade       // about to add the source and enable the tap
    | StartWait        // about to lock in publish_started
    | StartHold
    | Looping          // inside CFRunLoopRun
    | InCallback       // the run loop is delivering a mouse event
    | Unsourcing       // left the loop; about to release the source
    | Untapping        // about to release the tap
    | StopWait         // about to lock in publish_stopped
    | StopHold
    | Returning        // published; about to end
    | Exited

  /** One created thread. `stop` is the sticky CFRunLoopStop request; `joins` counts pthread_join calls. */
  datatype Thread = Thread(pc: ThreadPc, stop: bool, joins: nat)

  datatype ClientPc =
    | Rest
    | StartLock | StartCheck | StartSleep | JoinStale | Create | CreateFailLock | CreateFailHold
    | AwaitLock | AwaitCheck | AwaitSleep | JoinFailed
    | StopLock | StopCheck | StopSleep | JoinStopped

  datatype Owner = Nobody | Client | Event(thread: nat)

  datatype State = State(
    mutex: Owner,                          // g_event_mutex
    starting: bool, running: bool, joinable: bool,
    runLoop: Option<nat>,                  // g_event_run_loop, named by its thread
    eventThread: nat,                      // g_event_thread
    tapPtr: Option<nat>, sourcePtr: Option<nat>,   // g_event_tap, g_event_source
    older: seq<Thread>, newest: Option<Thread>,    // every thread ever created, in order of creation
    taps: set<nat>, sources: set<nat>,     // objects created and not yet released, by thread
    client: ClientPc,
    target: nat,                           // stale_thread / thread
    signaled: bool,                        // a broadcast reached the sleeping client
    result: bool)                          // the last start call's return value; false after a stop

  const INITIAL := State(Nobody, false, false, false, None, 0, None, None, [], None, {}, {}, Rest, 0, false, false)

  /** The number of threads created so far; thread i is the i-th of them. */
  function Created(s: State): nat { |s.older| + if s.newest.Some? then 1 else 0 }

  function Get(s: State, i: nat): Thread
    requires i < Created(s)
  {
    if i < |s.older| then s.older[i] else s.newest.value
  }

  function Put(s: State, i: nat, t: Thread): State
    requires i < Created(s)
  {
    if i < |s.older| then s.(older := s.older[i := t]) else s.(newest := Some(t))
  }

  function Add(s: State, t: Thread): State {
    s.(older := if s.newest.Some? then s.older + [s.newest.value] else s.older, newest := Some(t), eventThread := Created(s))
  }

  datatype Action =
    | CallStart | CallStop                 // the client begins a call
    | ClientStep(ok: bool)                 // its next step; `ok` is the outcome of pthread_create
    | ThreadStep(i: nat, ok: bool)         // thread i's next step; `ok` is the outcome of a creation
    | BeginCallback(i: nat)                // a mouse event arrives
    | LeaveLoop(i: nat)                    // the run loop ends by itself
    | SpuriousWake

  // ----- client steps

  function Release(s: State, pc: ClientPc): State { s.(mutex := Nobody, client := pc) }

  /** Entering a critical section, if the mutex is free. */
  function Acquire(s: State, pc: ClientPc): Option<State> {
    if s.mutex == Nobody then Some(s.(mutex := Client, client := pc)) else None
  }

  /** pthread_cond_wait: the mutex is released until a broadcast. */
  function Sleep(s: State, pc: ClientPc): State { Release(s, pc).(signaled := false) }

  function Wake(s: State, pc: ClientPc): Option<State> {
    if s.signaled then Acquire(s, pc) else None
  }

  /** pthread_join returns once the target has ended. */
  function Join(s: State, pc: ClientPc): Option<State> {
    if s.target < Created(s) && Get(s, s.target).pc == Exited then
      var t := Get(s, s.target);
      Some(Put(s, s.target, t.(joins := t.joins + 1)).(client := pc))
    else None
  }

  /** CFRunLoopStop on g_event_run_loop, when there is one. */
  function RequestStop(s: State): State {
    if s.runLoop.Some? && s.runLoop.value < Created(s)
    then Put(s, s.runLoop.value, Get(s, s.runLoop.value).(stop := true)) else s
  }

  function ClientNext(s: State, ok: bool): Option<State> {
    match s.client
    case Rest => None
    // lockdock_mouse_start_event_tap
    case StartLock => Acquire(s, StartCheck)
    case StartCheck =>
      if s.starting then Some(Sleep(s, StartSleep))
      else if s.running then Some(Release(s, Rest).(result := true))
      else if s.joinable then
        Some(Release(s, JoinStale).(target := s.eventThread, joinable := false, starting := true))
      else Some(Release(s, Create).(starting := true))
    case StartSleep => Wake(s, StartCheck)
    case JoinStale => Join(s, Create)
    case Create =>
      if ok then
        Some(Add(s, Thread(Spawned, false, 0)).(client := AwaitLock))
      else Some(s.(client := CreateFailLock))
    case CreateFailLock => Acquire(s, CreateFailHold)
    case CreateFailHold => Some(Release(s, Rest).(starting := false, result := false))
    case AwaitLock =>
      var locked := Acquire(s, AwaitCheck);
      if locked.Some? then Some(locked.value.(joinable := true)) else None
    case AwaitCheck =>
      if s.starting then Some(Sleep(s, AwaitSleep))
      else if s.running then Some(Release(s, Rest).(result := true))
      else Some(Release(s, JoinFailed).(target := s.eventThread, joinable := false))
    case AwaitSleep => Wake(s, AwaitCheck)
    case JoinFailed =>
      var joined := Join(s, Rest);
      if joined.Some? then Some(joined.value.(result := false)) else None
    // lockdock_mouse_stop_event_tap
    case StopLock => Acquire(s, StopCheck)
    case StopCheck =>
      if s.starting then Some(Sleep(s, StopSleep))
      else if s.joinable then
        Some(Release(RequestStop(s), JoinStopped).(target := s.eventThread, joinable := false))
      else Some(Release(s, Rest).(result := false))
    case StopSleep => Wake(s, StopCheck)
    case JoinStopped =>
      var joined := Join(s, Rest);
      if joined.Some? then Some(joined.value.(result := false)) else None
  }

  // ----- thread steps

  function Goto(s: State, i: nat, pc: ThreadPc): State
    requires i < Created(s)
  {
    Put(s, i, Get(s, i).(pc := pc))
  }

  function ThreadLock(s: State, i: nat, pc: ThreadPc): Option<State>
    requires i < Created(s)
  {
    if s.mutex == Nobody then Some(Goto(s, i, pc).(mutex := Event(i))) else None
  }

  /** Broadcast and unlock at the end of a publish function. */
  function Publish(s: State, i: nat, pc: ThreadPc): State
    requires i < Created(s)
  {
    Goto(s, i, pc).(mutex := Nobody, signaled := true)
  }

  function ThreadNext(s: State, i: nat, ok: bool): Option<State>
    requires i < Created(s)
  {
    match Get(s, i).pc
    case Spawned =>
      if ok then Some(Goto(s, i, TapMade).(taps := s.taps + {i}, tapPtr := Some(i)))
      else Some(Goto(s, i, FailWait).(tapPtr := None))
    case TapMade =>
      if ok then Some(Goto(s, i, SourceMade).(sources := s.sources + {i}, sourcePtr := Some(i)))
      else
        Some(Goto(s, i, FailWait).(sourcePtr := None, tapPtr := None,
                                   taps := if s.tapPtr.Some? then s.taps - {s.tapPtr.value} else s.taps))
    case FailWait => ThreadLock(s, i, FailHold)
    case FailHold => Some(Publish(s, i, Returning).(running := false, starting := false))
    case SourceMade => Some(Goto(s, i, StartWait))
    case StartWait => ThreadLock(s, i, StartHold)
    case StartHold => Some(Publish(s, i, Looping).(runLoop := Some(i), running := true, starting := false))
    case Looping => if Get(s, i).stop then Some(Goto(s, i, Unsourcing)) else None
    case InCallback => Some(Goto(s, i, Looping))
    case Unsourcing =>
      Some(Goto(s, i, Untapping).(sources := if s.sourcePtr.Some? then s.sources - {s.sourcePtr.value} else s.sources))
    case Untapping =>
      Some(Goto(s, i, StopWait).(taps := if s.tapPtr.Some? then s.taps - {s.tapPtr.value} else s.taps))
    case StopWait => ThreadLock(s, i, StopHold)
    case StopHold =>
      Some(Publish(s, i, Returning).(tapPtr := None, sourcePtr := None, runLoop := None, running := false))
    case Returning => Some(Goto(s, i, Exited))
    case Exited => None
  }

  /** The step system: the state after an enabled action. A stop request is honoured before the next
      mouse event is delivered. */
  function Next(s: State, a: Action): Option<State> {
    match a
    case CallStart => if s.client == Rest then Some(s.(client := StartLock)) else None
    case CallStop => if s.client == Rest then Some(s.(client := StopLock)) else None
    case ClientStep(ok) => ClientNext(s, ok)
    case ThreadStep(i, ok) => if i < Created(s) then ThreadNext(s, i, ok) else None
    case BeginCallback(i) =>
      if i < Created(s) && Get(s, i).pc == Looping && !Get(s, i).stop then Some(Goto(s, i, InCallback)) else None
    case LeaveLoop(i) =>
      if i < Created(s) && Get(s, i).pc == Looping then Some(Goto(s, i, Unsourcing)) else None
    case SpuriousWake =>
      if (s.client.StartSleep? || s.client.AwaitSleep? || s.client.StopSleep?) && !s.signaled then Some(s.(signaled := true)) else None
  }

  // ----- the invariant

  /** The thread has not yet published whether it started. */
  predicate BeforePublish(pc: ThreadPc) {
    (pc.Spawned? || pc.TapMade? || pc.FailWait? || pc.FailHold? || pc.SourceMade? || pc.StartWait? || pc.StartHold?)
  }

  /** The thread has published that it runs and not yet that it stopped. */
  predicate Published(pc: ThreadPc) {
    (pc.Looping? || pc.InCallback? || pc.Unsourcing? || pc.Untapping? || pc.StopWait? || pc.StopHold?)
  }

  predicate HasTap(pc: ThreadPc) {
    (pc.TapMade? || pc.SourceMade? || pc.StartWait? || pc.StartHold? || pc.Looping? || pc.InCallback? || pc.Unsourcing? || pc.Untapping?)
  }

  predicate HasSource(pc: ThreadPc) {
    (pc.SourceMade? || pc.StartWait? || pc.StartHold? || pc.Looping? || pc.InCallback? || pc.Unsourcing?)
  }

  /** The client is between deciding to start and the creation of the thread. */
  predicate PreparesStart(pc: ClientPc) { pc.JoinStale? || pc.Create? || pc.CreateFailLock? || pc.CreateFailHold? }

  predicate Joining(pc: ClientPc) { pc.JoinStale? || pc.JoinFailed? || pc.JoinStopped? }

  /** The newest thread has been created and not yet joined. */
  predicate Unjoined(s: State) { s.newest.Some? && s.newest.value.joins == 0 }

  /** All threads but the newest have ended and were joined once; the newest is joined at most once,
      after it ended. */
  ghost predicate ThreadsOk(s: State) {
    && (s.newest.None? ==> s.older == [])
    && (forall i :: 0 <= i < |s.older| ==> s.older[i].pc == Exited && s.older[i].joins == 1)
    && (s.newest.Some? ==>
          && s.eventThread == |s.older| && s.newest.value.joins <= 1
          && (s.newest.value.joins == 1 ==> s.newest.value.pc == Exited))
  }

  ghost predicate ClientOk(s: State) {
    && !(s.client.StartSleep? || s.client.StopSleep?)
    && (s.joinable ==> Unjoined(s))
    && (Unjoined(s) ==> s.joinable || Joining(s.client) || s.client == AwaitLock)
    && (Joining(s.client) || s.client == AwaitLock ==> Unjoined(s) && !s.joinable)
    && (Joining(s.client) ==> s.target == |s.older|)
    && ((s.client.Create? || s.client.CreateFailLock? || s.client.CreateFailHold?) ==> !s.joinable)
    && ((s.client.AwaitCheck? || s.client.AwaitSleep?) ==> s.joinable)
    && (s.client == Rest ==> s.result == s.joinable)
  }

  /** The pc of the newest thread; `Exited` when there is none. */
  function Pc(s: State): ThreadPc { if s.newest.Some? then s.newest.value.pc else Exited }

  ghost predicate FlagsOk(s: State) {
    && (s.mutex == Client <==> (s.client.StartCheck? || s.client.CreateFailHold? || s.client.AwaitCheck? || s.client.StopCheck?))
    && (s.mutex.Event? <==> (Pc(s).FailHold? || Pc(s).StartHold? || Pc(s).StopHold?))
    && (s.mutex.Event? ==> s.mutex.thread == |s.older|)
    && (s.starting <==> PreparesStart(s.client) || BeforePublish(Pc(s)))
    && (s.running <==> Published(Pc(s)))
    && s.runLoop == (if s.running then Some(|s.older|) else None)
    && (BeforePublish(Pc(s)) ==> (s.client.AwaitLock? || s.client.AwaitCheck? || s.client.AwaitSleep?))
    && (s.client == AwaitSleep && !s.signaled ==> s.starting)
    && (PreparesStart(s.client) ==> !s.running)
  }

  ghost predicate StopsOk(s: State) {
    s.newest.Some? ==>
      var t := s.newest.value;
      && (s.client == JoinStopped && Published(t.pc) ==> t.stop)
      && (t.stop && Published(t.pc) ==> s.client == JoinStopped)
      && (BeforePublish(t.pc) ==> !t.stop)
      && ((s.client.JoinStale? || s.client.JoinFailed?) ==> (t.pc.Returning? || t.pc.Exited?))
  }

  ghost predicate ObjectsOk(s: State) {
    && s.taps == (if HasTap(Pc(s)) then {|s.older|} else {})
    && s.sources == (if HasSource(Pc(s)) then {|s.older|} else {})
    && (HasTap(Pc(s)) ==> s.tapPtr == Some(|s.older|))
    && (HasSource(Pc(s)) ==> s.sourcePtr == Some(|s.older|))
  }

  ghost predicate Inv(s: State) {
    ThreadsOk(s) && ClientOk(s) && FlagsOk(s) && StopsOk(s) && ObjectsOk(s)
  }

  lemma InitialInv()
    ensures Inv(INITIAL)
  {
  }

  lemma ClientLocks(s: State, ok: bool)
    requires Inv(s) && ClientNext(s, ok).Some?
    requires s.client.StartLock? || s.client.CreateFailLock? || s.client.AwaitLock? || s.client.StopLock?
    ensures Inv(ClientNext(s, ok).value)
  {
  }

  lemma ClientWakes(s: State, ok: bool)
    requires Inv(s) && ClientNext(s, ok).Some?
    requires s.client.StartSleep? || s.client.AwaitSleep? || s.client.StopSleep?
    ensures Inv(ClientNext(s, ok).value)
  {
  }

  lemma ClientJoins(s: State, ok: bool)
    requires Inv(s) && ClientNext(s, ok).Some?
    requires s.client.JoinStale? || s.client.JoinFailed? || s.client.JoinStopped?
    ensures Inv(ClientNext(s, ok).value)
  {
  }

  lemma ClientCreates(s: State, ok: bool)
    requires Inv(s) && ClientNext(s, ok).Some?
    requires s.client.Create? || s.client.CreateFailHold?
    ensures Inv(ClientNext(s, ok).value)
  {
  }

  lemma ClientFindsRunning(s: State, ok: bool)
    requires Inv(s) && ClientNext(s, ok).Some?
    requires s.client.StartCheck? && s.running
    ensures Inv(ClientNext(s, ok).value)
  {
  }

  lemma ClientBeginsStart(s: State, ok: bool)
    requires Inv(s) && ClientNext(s, ok).Some?
    requires s.client.StartCheck? && !s.running
    ensures Inv(ClientNext(s, ok).value)
  {
  }

  lemma ClientAwaits(s: State, ok: bool)
    requires Inv(s) && ClientNext(s, ok).Some?
    requires s.client.AwaitCheck? && s.starting
    ensures Inv(ClientNext(s, ok).value)
  {
  }

  lemma ClientEndsStart(s: State, ok: bool)
    requires Inv(s) && ClientNext(s, ok).Some?
    requires s.client.AwaitCheck? && !s.starting
    ensures Inv(ClientNext(s, ok).value)
  {
  }

  lemma ClientStops(s: State, ok: bool)
    requires Inv(s) && ClientNext(s, ok).Some?
    requires s.client.StopCheck?
    ensures Inv(ClientNext(s, ok).value)
  {
  }

  lemma ThreadCreates(s: State, i: nat, ok: bool)
    requires Inv(s) && i < Created(s) && ThreadNext(s, i, ok).Some?
    requires Get(s, i).pc.Spawned? || Get(s, i).pc.TapMade?
    ensures Inv(ThreadNext(s, i, ok).value)
  {
    assert i == |s.older|;
  }

  lemma ThreadLocks(s: State, i: nat, ok: bool)
    requires Inv(s) && i < Created(s) && ThreadNext(s, i, ok).Some?
    requires Get(s, i).pc.FailWait? || Get(s, i).pc.StartWait? || Get(s, i).pc.StopWait?
    ensures Inv(ThreadNext(s, i, ok).value)
  {
    assert i == |s.older|;
  }

  lemma ThreadPublishes(s: State, i: nat, ok: bool)
    requires Inv(s) && i < Created(s) && ThreadNext(s, i, ok).Some?
    requires Get(s, i).pc.FailHold? || Get(s, i).pc.StartHold? || Get(s, i).pc.StopHold?
    ensures Inv(ThreadNext(s, i, ok).value)
  {
    assert i == |s.older|;
  }

  lemma ThreadReleases(s: State, i: nat, ok: bool)
    requires Inv(s) && i < Created(s) && ThreadNext(s, i, ok).Some?
    requires Get(s, i).pc.Unsourcing? || Get(s, i).pc.Untapping?
    ensures Inv(ThreadNext(s, i, ok).value)
  {
    assert i == |s.older|;
  }

  lemma ThreadMoves(s: State, i: nat, ok: bool)
    requires Inv(s) && i < Created(s) && ThreadNext(s, i, ok).Some?
    requires Get(s, i).pc.SourceMade? || Get(s, i).pc.Looping? || Get(s, i).pc.InCallback? || Get(s, i).pc.Returning?
    ensures Inv(ThreadNext(s, i, ok).value)
  {
    assert i == |s.older|;
  }

  lemma ClientStepKeeps(s: State, ok: bool)
    requires Inv(s) && ClientNext(s, ok).Some?
    ensures Inv(ClientNext(s, ok).value)
  {
    hide Inv, ClientNext;
    match s.client
    case Rest =>
      ClientAtRest(s, ok);
    case StartLock | CreateFailLock | AwaitLock | StopLock => ClientLocks(s, ok);
    case StartSleep | AwaitSleep | StopSleep => ClientWakes(s, ok);
    case JoinStale | JoinFailed | JoinStopped => ClientJoins(s, ok);
    case Create | CreateFailHold => ClientCreates(s, ok);
    case StartCheck => if s.running { ClientFindsRunning(s, ok); } else { ClientBeginsStart(s, ok); }
    case AwaitCheck => if s.starting { ClientAwaits(s, ok); } else { ClientEndsStart(s, ok); }
    case StopCheck => ClientStops(s, ok);
  }

  /** At rest the client has no step of its own. */
  lemma ClientAtRest(s: State, ok: bool)
    requires s.client == Rest
    ensures ClientNext(s, ok) == None
  {
  }

  lemma ThreadStepKeeps(s: State, i: nat, ok: bool)
    requires Inv(s) && i < Created(s) && ThreadNext(s, i, ok).Some?
    ensures Inv(ThreadNext(s, i, ok).value)
  {
    hide Inv, ThreadNext;
    match Get(s, i).pc
    case Spawned | TapMade => ThreadCreates(s, i, ok);
    case FailWait | StartWait | StopWait => ThreadLocks(s, i, ok);
    case FailHold | StartHold | StopHold => ThreadPublishes(s, i, ok);
    case Unsourcing | Untapping => ThreadReleases(s, i, ok);
    case SourceMade | Looping | InCallback | Returning => ThreadMoves(s, i, ok);
    case Exited => ThreadHasEnded(s, i, ok);
  }

  lemma ThreadHasEnded(s: State, i: nat, ok: bool)
    requires i < Created(s) && Get(s, i).pc == Exited
    ensures ThreadNext(s, i, ok) == None
  {
  }

  lemma EnvironmentKeeps(s: State, a: Action)
    requires Inv(s) && Next(s, a).Some? && !a.ClientStep? && !a.ThreadStep?
    ensures Inv(Next(s, a).value)
  {
    hide ClientNext, ThreadNext;
    if a.BeginCallback? || a.LeaveLoop? {
      assert a.i == |s.older|;
    }
  }

  /** Every step keeps the invariant. */
  lemma StepKeeps(s: State, a: Action)
    requires Inv(s) && Next(s, a).Some?
    ensures Inv(Next(s, a).value)
  {
    hide Inv, ClientNext, ThreadNext;
    match a
    case ClientStep(ok) => ClientStepKeeps(s, ok);
    case ThreadStep(i, ok) => ThreadStepKeeps(s, i, ok);
    case _ => EnvironmentKeeps(s, a);
  }

  // ----- theorems over executions

  /** A path of the step system. */
  ghost predicate IsPath(states: seq<State>, actions: seq<Action>) {
    && |states| == |actions| + 1
    && forall k :: 0 <= k < |actions| ==> Next(states[k], actions[k]) == Some(states[k + 1])
  }

  ghost predicate IsExecution(states: seq<State>, actions: seq<Action>) {
    IsPath(states, actions) && states[0] == INITIAL
  }

  lemma {:induction false} PathKeeps(states: seq<State>, actions: seq<Action>, k: nat)
    requires IsPath(states, actions) && Inv(states[0]) && k < |states|
    ensures Inv(states[k])
  {
    hide Inv, Next;
    if k > 0 {
      PathKeeps(states, actions, k - 1);
      assert Next(states[k - 1], actions[k - 1]) == Some(states[k]);
      StepKeeps(states[k - 1], actions[k - 1]);
    }
  }

  /** Thread lifecycle, in every interleaving: every thread is joined at most once and only after it
      ended; at most one thread is unjoined; while the client is at rest there is an unjoined thread
      exactly when `joinable` is set, exactly when the last call was a successful start; and a thread
      that has ended left no tap and no source behind. */
  lemma ThreadLifecycle(states: seq<State>, actions: seq<Action>, k: nat)
    requires IsExecution(states, actions) && k < |states|
    ensures var s := states[k];
            && (forall i :: 0 <= i < Created(s) ==> Get(s, i).joins <= 1 && (Get(s, i).joins == 1 ==> Get(s, i).pc == Exited))
            && (forall i, j :: 0 <= i < Created(s) && 0 <= j < Created(s) && Get(s, i).joins == 0 && Get(s, j).joins == 0 ==> i == j)
            && (s.client == Rest ==>
                  (s.joinable <==> exists i :: 0 <= i < Created(s) && Get(s, i).joins == 0) && s.result == s.joinable)
            && (forall i :: 0 <= i < Created(s) && Get(s, i).pc == Exited ==> i !in s.taps && i !in s.sources)
            && (forall i :: i in s.taps || i in s.sources ==> 0 <= i < Created(s))
  {
    hide Next;
    InitialInv();
    PathKeeps(states, actions, k);
    var s := states[k];
    if s.joinable {
      assert Get(s, |s.older|).joins == 0;
    }
  }

  /** CFRunLoopStop only ever targets the run loop of a live thread: whenever the client is about to
      call it, under the mutex, the loop belongs to the thread it will join, which has published that it
      runs and has not yet published that it stopped. */
  lemma StopTargetsLiveLoop(states: seq<State>, actions: seq<Action>, k: nat)
    requires IsExecution(states, actions) && k < |states|
    requires states[k].client == StopCheck && !states[k].starting && states[k].joinable && states[k].runLoop.Some?
    ensures var s := states[k];
            var r := s.runLoop.value;
            && s.mutex == Client && r < Created(s) && r == s.eventThread && Published(Get(s, r).pc) && !Get(s, r).stop
            && ClientNext(s, true).Some? && Get(ClientNext(s, true).value, r).stop && ClientNext(s, true).value.target == r
  {
    hide Next;
    InitialInv();
    PathKeeps(states, actions, k);
  }

  // ----- progress

  /** A step of the client's call or of an event thread, as opposed to one of the environment. */
  predicate IsProgress(a: Action) { a.ClientStep? || a.ThreadStep? }

  function ThreadRank(pc: ThreadPc): nat {
    match pc
    case Spawned => 14 case TapMade => 13 case SourceMade => 12 case StartWait => 11 case StartHold => 10
    case InCallback => 9 case Looping => 8 case Unsourcing => 7 case Untapping => 6 case StopWait => 5 case StopHold => 4
    case FailWait => 3 case FailHold => 2 case Returning => 1 case Exited => 0
  }

  function ClientRank(s: State): nat {
    match s.client
    case StartLock => 26 case StartCheck => 25 case JoinStale => 24 case Create => 23
    case CreateFailLock => 2 case CreateFailHold => 1
    case AwaitLock => 8 case AwaitCheck => if s.starting then 6 else 4
    case AwaitSleep => if s.starting && s.signaled then 7 else 5
    case JoinFailed => 1
    case StopLock => 3 case StopCheck => 2 case JoinStopped => 1
    case _ => 0
  }

  /** A bound on the progress steps left until the client's call returns. */
  function Rank(s: State): nat { ClientRank(s) + ThreadRank(Pc(s)) }

  /** A progress step that is enabled whenever the client is in a call. */
  function Helpful(s: State): Action {
    if ClientNext(s, true).Some? then ClientStep(true) else ThreadStep(|s.older|, true)
  }

  lemma ClientRankA(s: State, ok: bool)
    requires Inv(s) && ClientNext(s, ok).Some?
    requires s.client.StartLock? || s.client.StartCheck? || s.client.StartSleep? || s.client.JoinStale? || s.client.Create?
    ensures Rank(ClientNext(s, ok).value) < Rank(s)
  {
    hide ObjectsOk, StopsOk;
  }

  lemma ClientRankB(s: State, ok: bool)
    requires Inv(s) && ClientNext(s, ok).Some?
    requires s.client.CreateFailLock? || s.client.CreateFailHold? || s.client.AwaitLock? || s.client.AwaitCheck? || s.client.AwaitSleep? || s.client.JoinFailed?
    ensures Rank(ClientNext(s, ok).value) < Rank(s)
  {
    hide ObjectsOk, StopsOk;
  }

  lemma ClientRankC(s: State, ok: bool)
    requires Inv(s) && ClientNext(s, ok).Some?
    requires s.client.StopLock? || s.client.StopCheck? || s.client.StopSleep? || s.client.JoinStopped?
    ensures Rank(ClientNext(s, ok).value) < Rank(s)
  {
    hide ObjectsOk, StopsOk;
  }

  lemma ThreadRankA(s: State, i: nat, ok: bool)
    requires Inv(s) && i < Created(s) && ThreadNext(s, i, ok).Some?
    requires Get(s, i).pc.Spawned? || Get(s, i).pc.TapMade? || Get(s, i).pc.SourceMade? || Get(s, i).pc.InCallback? || Get(s, i).pc.Looping?
    ensures Rank(ThreadNext(s, i, ok).value) < Rank(s)
  {
    hide ObjectsOk, StopsOk, ClientOk;
    assert i == |s.older|;
  }

  lemma ThreadRankB(s: State, i: nat, ok: bool)
    requires Inv(s) && i < Created(s) && ThreadNext(s, i, ok).Some?
    requires Get(s, i).pc.FailWait? || Get(s, i).pc.StartWait? || Get(s, i).pc.StopWait? || Get(s, i).pc.Unsourcing? || Get(s, i).pc.Untapping?
    ensures Rank(ThreadNext(s, i, ok).value) < Rank(s)
  {
    hide ObjectsOk, StopsOk, ClientOk;
    assert i == |s.older|;
  }

  lemma ThreadRankC(s: State, i: nat, ok: bool)
    requires Inv(s) && i < Created(s) && ThreadNext(s, i, ok).Some?
    requires Get(s, i).pc.FailHold? || Get(s, i).pc.StartHold? || Get(s, i).pc.StopHold? || Get(s, i).pc.Returning?
    ensures Rank(ThreadNext(s, i, ok).value) < Rank(s)
  {
    hide ObjectsOk, StopsOk, ClientOk;
    assert i == |s.older|;
  }

  lemma ClientRankFalls(s: State, ok: bool)
    requires Inv(s) && ClientNext(s, ok).Some?
    ensures Rank(ClientNext(s, ok).value) < Rank(s)
  {
    hide Inv, ClientNext, Rank;
    match s.client
    case Rest => ClientAtRest(s, ok);
    case StartLock | StartCheck | StartSleep | JoinStale | Create => ClientRankA(s, ok);
    case CreateFailLock | CreateFailHold | AwaitLock | AwaitCheck | AwaitSleep | JoinFailed => ClientRankB(s, ok);
    case StopLock | StopCheck | StopSleep | JoinStopped => ClientRankC(s, ok);
  }

  lemma ThreadRankFalls(s: State, i: nat, ok: bool)
    requires Inv(s) && i < Created(s) && ThreadNext(s, i, ok).Some?
    ensures Rank(ThreadNext(s, i, ok).value) < Rank(s)
  {
    hide Inv, ThreadNext, Rank;
    match Get(s, i).pc
    case Spawned | TapMade | SourceMade | InCallback | Looping => ThreadRankA(s, i, ok);
    case FailWait | StartWait | StopWait | Unsourcing | Untapping => ThreadRankB(s, i, ok);
    case FailHold | StartHold | StopHold | Returning => ThreadRankC(s, i, ok);
    case Exited => ThreadHasEnded(s, i, ok);
  }

  /** No deadlock and no lost wakeup: whenever the client is inside a call, some progress step is
      enabled, without spurious wakeups; and every progress step brings the call nearer to its end. */
  lemma CallsProgress(s: State)
    requires Inv(s) && s.client != Rest
    ensures IsProgress(Helpful(s)) && Next(s, Helpful(s)).Some?
  {
    hide ObjectsOk;
    if ClientNext(s, true).None? {
      BlockedClient(s);
    }
  }

  lemma BlockedClient(s: State)
    requires Inv(s) && s.client != Rest && ClientNext(s, true).None?
    ensures s.newest.Some? && ThreadNext(s, |s.older|, true).Some?
  {
    hide ObjectsOk;
    assert s.newest.Some?;
    assert Get(s, |s.older|) == s.newest.value;
  }

  lemma ProgressLowersRank(s: State, a: Action)
    requires Inv(s) && IsProgress(a) && Next(s, a).Some?
    ensures Rank(Next(s, a).value) < Rank(s)
  {
    hide Inv, Rank, ClientNext, ThreadNext;
    match a
    case ClientStep(ok) => ClientRankFalls(s, ok);
    case ThreadStep(i, ok) => ThreadRankFalls(s, i, ok);
    case _ =>
  }

  /** A call ends: from any reachable state inside a call, a path of progress steps during which the
      client does not come to rest has at most 40 steps. */
  lemma {:induction false} CallsEnd(states: seq<State>, actions: seq<Action>)
    requires IsPath(states, actions) && Inv(states[0])
    requires forall k :: 0 <= k < |actions| ==> IsProgress(actions[k])
    ensures |actions| <= Rank(states[0]) <= 40
  {
    hide Inv, Next;
    RankBound(states[0]);
    if actions != [] {
      assert Next(states[0], actions[0]) == Some(states[0 + 1]);
      StepKeeps(states[0], actions[0]);
      ProgressLowersRank(states[0], actions[0]);
      CallsEnd(states[1..], actions[1..]);
    }
  }

  /** Every call returns: in every execution, from any point on at most 40 progress steps can follow one
      another, and when no progress step is enabled the client has returned. */
  lemma EveryCallEnds(states: seq<State>, actions: seq<Action>, j: nat)
    requires IsExecution(states, actions) && j < |states|
    requires forall k :: j <= k < |actions| ==> IsProgress(actions[k])
    ensures |actions| - j <= 40
    ensures (forall a :: IsProgress(a) ==> Next(states[|actions|], a) == None) ==> states[|actions|].client == Rest
  {
    hide Inv, Next, Rank;
    InitialInv();
    PathKeeps(states, actions, j);
    PathKeeps(states, actions, |actions|);
    var tail := states[j..];
    forall k | 0 <= k < |actions| - j
      ensures Next(tail[k], actions[j..][k]) == Some(tail[k + 1])
    {
      assert Next(states[j + k], actions[j + k]) == Some(states[j + k + 1]);
    }
    CallsEnd(tail, actions[j..]);
    if states[|actions|].client != Rest {
      CallsProgress(states[|actions|]);
    }
  }

  lemma RankBound(s: State)
    ensures Rank(s) <= 40
  {
  }

  /** Once a stop request is out, every step whatever, also of the environment, brings the join nearer:
      the run loop delivers no further event. */
  lemma StoppedLoopsEnd(s: State, a: Action)
    requires Inv(s) && s.client == JoinStopped && Next(s, a).Some?
    ensures Rank(Next(s, a).value) < Rank(s)
  {
    hide ObjectsOk, ClientNext, ThreadNext;
    match a
    case ClientStep(ok) => ClientRankFalls(s, ok);
    case ThreadStep(i, ok) => ThreadRankFalls(s, i, ok);
    case LeaveLoop(i) => assert i == |s.older|;
    case _ =>
  }

  // ----- what a start returns

  /** What has happened so far in the start under way: whether it found the thread running, whether it
      created one, and how the new thread fared: its tap, its source, whether it has published its end. */
  datatype Story = Story(found: bool, created: bool, tap: bool, source: bool, ended: bool)

  const NOTHING := Story(false, false, false, false, false)

  /** The story after action `a` in state `s`. */
  function Told(story: Story, s: State, a: Action): Story {
    match a
    case CallStart => NOTHING
    case ClientStep(ok) =>
      if s.client == StartCheck && !s.starting && s.running then story.(found := true)
      else if s.client == Create && ok then NOTHING.(created := true)
      else story
    case ThreadStep(i, ok) =>
      if !(i < Created(s)) then story
      else if Get(s, i).pc == Spawned then story.(tap := ok)
      else if Get(s, i).pc == TapMade then story.(source := ok)
      else if Get(s, i).pc == StopHold then story.(ended := true)
      else story
    case _ => story
  }

  /** The story at state `k` of a path. */
  function StoryAt(states: seq<State>, actions: seq<Action>, k: nat): Story
    requires k < |states| == |actions| + 1
  {
    if k == 0 then NOTHING else Told(StoryAt(states, actions, k - 1), states[k - 1], actions[k - 1])
  }

  predicate InStart(pc: ClientPc) {
    pc.StartLock? || pc.StartCheck? || pc.StartSleep? || pc.JoinStale? || pc.Create? || pc.CreateFailLock? || pc.CreateFailHold?
    || pc.AwaitLock? || pc.AwaitCheck? || pc.AwaitSleep? || pc.JoinFailed?
  }

  predicate Awaiting(pc: ClientPc) { pc.AwaitLock? || pc.AwaitCheck? || pc.AwaitSleep? || pc.JoinFailed? }

  /** What the story says about the new thread while the client awaits it. */
  predicate Tells(story: Story, pc: ThreadPc) {
    && (story.ended ==> story.tap && story.source && !Published(pc))
    && (pc.Spawned? ==> !story.tap && !story.source)
    && (pc.TapMade? ==> story.tap && !story.source)
    && (pc.SourceMade? || pc.StartWait? || pc.StartHold? || Published(pc) ==> story.tap && story.source && !story.ended)
    && (pc.FailWait? || pc.FailHold? ==> !(story.tap && story.source))
    && (pc.Returning? || pc.Exited? ==> story.tap && story.source ==> story.ended)
  }

  ghost predicate StoryOk(s: State, story: Story) {
    && (InStart(s.client) ==> !story.found && (story.created <==> Awaiting(s.client)))
    && (Awaiting(s.client) ==> Tells(story, Pc(s)))
    && (s.client == JoinFailed ==> story.ended || !(story.tap && story.source))
  }

  /** A step within a start: it goes on, or it returns what the story says. */
  ghost predicate GoesOn(s: State, story: Story) {
    if s.client == Rest then
      s.result <==> story.found || (story.created && story.tap && story.source && !story.ended)
    else InStart(s.client) && StoryOk(s, story)
  }

  lemma StoryBeforeCreation(s: State, story: Story, ok: bool)
    requires Inv(s) && InStart(s.client) && !Awaiting(s.client) && StoryOk(s, story) && ClientNext(s, ok).Some?
    ensures GoesOn(ClientNext(s, ok).value, Told(story, s, ClientStep(ok)))
  {
    hide ThreadsOk, StopsOk, ObjectsOk, Get, Put;
  }

  lemma StoryAwaiting(s: State, story: Story, ok: bool)
    requires Inv(s) && Awaiting(s.client) && StoryOk(s, story) && ClientNext(s, ok).Some?
    ensures GoesOn(ClientNext(s, ok).value, Told(story, s, ClientStep(ok)))
  {
    hide ObjectsOk;
  }

  /** What a thread's step does to its own pc. */
  function NextPc(pc: ThreadPc, ok: bool): ThreadPc {
    match pc
    case Spawned => if ok then TapMade else FailWait
    case TapMade => if ok then SourceMade else FailWait
    case FailWait => FailHold case FailHold => Returning
    case SourceMade => StartWait case StartWait => StartHold case StartHold => Looping
    case Looping => Unsourcing case InCallback => Looping case Unsourcing => Untapping case Untapping => StopWait
    case StopWait => StopHold case StopHold => Returning case Returning => Exited case Exited => Exited
  }

  /** A thread's step leaves the client alone and creates no thread. */
  ghost predicate ThreadOnly(s: State, s': State, i: nat, pc: ThreadPc)
    requires i < Created(s)
  {
    && s'.client == s.client && s'.result == s.result && s'.joinable == s.joinable && |s'.older| == |s.older| && s'.newest.Some? == s.newest.Some?
    && Get(s', i) == Get(s, i).(pc := pc)
  }

  lemma GotoOnly(s: State, i: nat, pc: ThreadPc)
    requires i < Created(s)
    ensures ThreadOnly(s, Goto(s, i, pc), i, pc)
  {
    PutOnly(s, i, Get(s, i).(pc := pc));
  }

  lemma PutOnly(s: State, i: nat, t: Thread)
    requires i < Created(s)
    ensures var s' := Put(s, i, t);
            && s'.client == s.client && s'.result == s.result && s'.joinable == s.joinable && |s'.older| == |s.older| && s'.newest.Some? == s.newest.Some?
            && Get(s', i) == t
  {
    if i < |s.older| {
      assert Put(s, i, t).older == s.older[i := t];
    } else {
      assert Put(s, i, t).newest == Some(t);
    }
  }

  lemma StartingThread(s: State, i: nat, ok: bool)
    requires i < Created(s) && ThreadNext(s, i, ok).Some? && BeforePublish(Get(s, i).pc)
    ensures ThreadOnly(s, ThreadNext(s, i, ok).value, i, NextPc(Get(s, i).pc, ok))
  {
    hide Goto;
    GotoOnly(s, i, NextPc(Get(s, i).pc, ok));
  }

  lemma RunningThread(s: State, i: nat, ok: bool)
    requires i < Created(s) && ThreadNext(s, i, ok).Some? && Published(Get(s, i).pc)
    ensures ThreadOnly(s, ThreadNext(s, i, ok).value, i, NextPc(Get(s, i).pc, ok))
  {
    hide Goto;
    GotoOnly(s, i, NextPc(Get(s, i).pc, ok));
  }

  lemma EndingThread(s: State, i: nat, ok: bool)
    requires i < Created(s) && ThreadNext(s, i, ok).Some? && (Get(s, i).pc.Returning? || Get(s, i).pc.Exited?)
    ensures ThreadOnly(s, ThreadNext(s, i, ok).value, i, NextPc(Get(s, i).pc, ok))
  {
    hide Goto;
    GotoOnly(s, i, NextPc(Get(s, i).pc, ok));
  }

  lemma ThreadMovesAlone(s: State, i: nat, ok: bool)
    requires i < Created(s) && ThreadNext(s, i, ok).Some?
    ensures ThreadOnly(s, ThreadNext(s, i, ok).value, i, NextPc(Get(s, i).pc, ok))
  {
    hide ThreadNext, ThreadOnly;
    if BeforePublish(Get(s, i).pc) {
      StartingThread(s, i, ok);
    } else if Published(Get(s, i).pc) {
      RunningThread(s, i, ok);
    } else {
      EndingThread(s, i, ok);
    }
  }

  lemma StoryThread(s: State, story: Story, i: nat, ok: bool)
    requires Inv(s) && InStart(s.client) && StoryOk(s, story) && i < Created(s) && ThreadNext(s, i, ok).Some?
    ensures GoesOn(ThreadNext(s, i, ok).value, Told(story, s, ThreadStep(i, ok)))
  {
    hide ThreadNext, ThreadsOk, ClientOk, FlagsOk, ObjectsOk, StopsOk;
    ThreadIsNewest(s, i, ok);
    ThreadMovesAlone(s, i, ok);
    if s.client == JoinFailed {
      ThreadStaysBeforeJoin(s, i, ok);
    }
  }

  /** A client about to join a thread that failed to start finds it past its last publication. */
  lemma ThreadStaysBeforeJoin(s: State, i: nat, ok: bool)
    requires Inv(s) && i < Created(s) && ThreadNext(s, i, ok).Some? && s.client == JoinFailed
    ensures Get(s, i).pc.Returning?
  {
    hide ObjectsOk, FlagsOk;
    ThreadIsNewest(s, i, ok);
  }

  /** Only the newest thread can still move. */
  lemma ThreadIsNewest(s: State, i: nat, ok: bool)
    requires Inv(s) && i < Created(s) && ThreadNext(s, i, ok).Some?
    ensures i == |s.older| && s.newest.Some? && Get(s, i) == s.newest.value && Pc(s) == Get(s, i).pc
  {
    hide ObjectsOk, StopsOk, ClientOk, FlagsOk;
  }

  lemma StoryGoesOn(s: State, story: Story, a: Action)
    requires Inv(s) && InStart(s.client) && StoryOk(s, story) && Next(s, a).Some?
    ensures GoesOn(Next(s, a).value, Told(story, s, a))
  {
    hide Inv, ClientNext, ThreadNext, GoesOn, StoryOk;
    match a
    case ClientStep(ok) =>
      if Awaiting(s.client) {
        StoryAwaiting(s, story, ok);
      } else {
        StoryBeforeCreation(s, story, ok);
      }
    case ThreadStep(i, ok) => StoryThread(s, story, i, ok);
    case _ => StoryOutside(s, story, a);
  }

  lemma StoryOutside(s: State, story: Story, a: Action)
    requires Inv(s) && InStart(s.client) && StoryOk(s, story) && !a.ClientStep? && !a.ThreadStep? && Next(s, a).Some?
    ensures GoesOn(Next(s, a).value, Told(story, s, a))
  {
    hide ClientNext, ThreadNext, ObjectsOk, StopsOk;
    if a.BeginCallback? || a.LeaveLoop? {
      assert a.i == |s.older|;
    }
  }

  lemma {:induction false} StoryOverPath(states: seq<State>, actions: seq<Action>, i: nat, k: nat)
    requires IsExecution(states, actions) && i < k < |states| && actions[i] == CallStart
    requires forall m :: i < m < k ==> states[m].client != Rest
    ensures GoesOn(states[k], StoryAt(states, actions, k))
  {
    hide Next, Inv, Told;
    InitialInv();
    PathKeeps(states, actions, k - 1);
    assert Next(states[k - 1], actions[k - 1]) == Some(states[k]);
    if k == i + 1 {
      StartBegins(states[i], StoryAt(states, actions, i));
    } else {
      StoryOverPath(states, actions, i, k - 1);
      StoryGoesOn(states[k - 1], StoryAt(states, actions, k - 1), actions[k - 1]);
    }
  }

  lemma StartBegins(s: State, story: Story)
    requires Next(s, CallStart).Some?
    ensures GoesOn(Next(s, CallStart).value, Told(story, s, CallStart))
  {
  }

  /** What a start returns, in every interleaving: true if and only if it found the thread running, or it
      created a thread, that thread created its tap and its source, and had not published its end when
      the client looked. */
  lemma StartReturns(states: seq<State>, actions: seq<Action>, i: nat, k: nat)
    requires IsExecution(states, actions) && i < k < |states| && actions[i] == CallStart
    requires states[k].client == Rest && forall m :: i < m < k ==> states[m].client != Rest
    ensures var story := StoryAt(states, actions, k);
            states[k].result <==> story.found || (story.created && story.tap && story.source && !story.ended)
  {
    hide Next, Inv, Told;
    StoryOverPath(states, actions, i, k);
  }

  /** Threads come only from the client's creation step, one for each creation that succeeds. */
  lemma CreationCounts(s: State, a: Action)
    requires Inv(s) && Next(s, a).Some?
    ensures Created(Next(s, a).value) == Created(s) + if s.client == Create && a == ClientStep(true) then 1 else 0
  {
    hide ObjectsOk, StopsOk, FlagsOk;
    match a
    case ThreadStep(i, ok) =>
      hide ThreadNext;
      ThreadMovesAlone(s, i, ok);
    case ClientStep(ok) =>
      hide ThreadNext;
      ClientCreation(s, ok);
    case _ =>
      hide ThreadNext, ClientNext;
  }

  lemma ClientCreation(s: State, ok: bool)
    requires ClientNext(s, ok).Some?
    ensures Created(ClientNext(s, ok).value) == Created(s) + if s.client == Create && ok then 1 else 0
  {
    hide Join, RequestStop, Add;
    JoinCreatesNothing(s, Create);
    JoinCreatesNothing(s, Rest);
    StopCreatesNothing(s);
    AddCreatesOne(s);
  }

  lemma JoinCreatesNothing(s: State, pc: ClientPc)
    ensures Join(s, pc).Some? ==> Created(Join(s, pc).value) == Created(s)
  {
  }

  lemma StopCreatesNothing(s: State)
    ensures Created(RequestStop(s)) == Created(s)
  {
  }

  lemma AddCreatesOne(s: State)
    ensures forall t :: Created(Add(s, t)) == Created(s) + 1
  {
  }

  predicate InStop(pc: ClientPc) { pc.StopLock? || pc.StopCheck? || pc.StopSleep? || pc.JoinStopped? }

  lemma StopGoesOn(s: State, a: Action)
    requires InStop(s.client) && Next(s, a).Some?
    ensures var s' := Next(s, a).value; InStop(s'.client) || (s'.client == Rest && !s'.result)
  {
    hide ThreadNext;
    match a
    case ThreadStep(i, ok) => ThreadMovesAlone(s, i, ok);
    case _ =>
  }

  lemma {:induction false} StopOverPath(states: seq<State>, actions: seq<Action>, i: nat, k: nat)
    requires IsExecution(states, actions) && i < k < |states| && actions[i] == CallStop
    requires forall m :: i < m < k ==> states[m].client != Rest
    ensures InStop(states[k].client) || (states[k].client == Rest && !states[k].result)
  {
    hide Next;
    assert Next(states[k - 1], actions[k - 1]) == Some(states[k]);
    if k == i + 1 {
      StopBegins(states[i]);
    } else {
      StopOverPath(states, actions, i, k - 1);
      StopGoesOn(states[k - 1], actions[k - 1]);
    }
  }

  lemma StopBegins(s: State)
    requires Next(s, CallStop).Some?
    ensures Next(s, CallStop).value.client == StopLock
  {
  }

  /** When a stop returns, every thread ever created has ended and been joined, and no tap or source is
      left. */
  lemma StopLeavesNothing(states: seq<State>, actions: seq<Action>, i: nat, k: nat)
    requires IsExecution(states, actions) && i < k < |states| && actions[i] == CallStop
    requires states[k].client == Rest && forall m :: i < m < k ==> states[m].client != Rest
    ensures var s := states[k];
            && (forall j :: 0 <= j < Created(s) ==> Get(s, j).pc == Exited && Get(s, j).joins == 1)
            && s.taps == {} && s.sources == {} && !s.joinable && !s.running
  {
    hide Next;
    StopOverPath(states, actions, i, k);
    InitialInv();
    PathKeeps(states, actions, k);
  }
}
