/** How much any single call of the daemon may sleep, nudge and retry. */
module BoundTheorems {
  import opened Options
  import opened Displays
  import opened DisplayLock
  import opened Environment
  import opened Preferences
  import opened Controller
  import opened LockTheorems
  import opened PollTheorems

  /** Both logs sleep, nudge and attempt equally much. */
  ghost predicate SameCost(log: seq<Event>, log': seq<Event>) {
    && Total(SleepMs, log') == Total(SleepMs, log)
    && Total(Nudges, log') == Total(Nudges, log)
    && Total(Attempts, log') == Total(Attempts, log)
  }

  /** Nothing has been spent yet. */
  ghost predicate Unspent(log: seq<Event>) {
    Total(SleepMs, log) == Total(Nudges, log) == Total(Attempts, log) == 0
  }

  ghost predicate Bounded(log: seq<Event>) {
    Total(SleepMs, log) <= 4210 && Total(Nudges, log) <= 120 && Total(Attempts, log) <= 3
  }

  predicate IsFree(e: Event) { !e.Slept? && !e.Nudged? && !e.Attempted? }

  lemma {:induction false} FreeEvents(events: seq<Event>)
    requires forall e :: e in events ==> IsFree(e)
    ensures Unspent(events)
  {
    if events != [] {
      assert events[0] in events;
      FreeEvents(events[1..]);
    }
  }

  lemma Free(log: seq<Event>, events: seq<Event>)
    requires forall e :: e in events ==> IsFree(e)
    ensures SameCost(log, log + events)
  {
    FreeEvents(events);
    MeasuresConcat(log, events);
  }

  lemma MoveDockSpends(w: World, s: Daemon, d: DisplayId)
    requires Unspent(s.log)
    ensures Bounded(MoveDock(w, s, d).0.log)
  {
    hide RelocateUntilCurrent, Total;
    RelocationLoopCost(w, s.tick, s.lock, s.cache, d, 0);
    MeasuresConcat(s.log, RelocateUntilCurrent(w, s.tick, s.lock, s.cache, d, 0).log);
  }

  lemma SupportIsFree(w: World, s: Daemon)
    ensures SameCost(s.log, RefreshSupport(w, s).log)
  {
    Free(s.log, [SupportChecked(RefreshSupport(w, s).supported)]);
  }

  lemma SetLockIsFree(w: World, s: Daemon, d: DisplayId)
    ensures SameCost(s.log, SetLock(w, s, d).0.log)
  {
    hide Total, FreshCache;
    Free(s.log, [CacheRefreshed]);
    Free(s.log + [CacheRefreshed], [LockSet(d)]);
  }

  lemma StatusIsFree(w: World, s: Daemon)
    ensures SameCost(s.log, RefreshStatus(w, s).0.log) && SameCost(s.log, s.log + QueryStatus(w, s.tick).log)
  {
    hide Total, IndexOf;
    Free(s.log, QueryStatus(w, s.tick).log);
  }

  lemma ApplyUnlockIsFree(w: World, s: Daemon)
    ensures SameCost(s.log, ApplyUnlock(w, s).0.log)
  {
    hide Total, Write;
    Free(s.log, [LockCleared]);
  }

  lemma KeepLockSpends(w: World, s: Daemon)
    requires Unspent(s.log)
    ensures Bounded(KeepLock(w, s).0.log)
  {
    hide Total, MoveDock, IndexOf;
    Free(s.log, [LockCleared]);
    StatusIsFree(w, s);
    var q := QueryStatus(w, s.tick);
    MoveDockSpends(w, s.(tick := q.tick, log := s.log + q.log), s.lock);
  }

  lemma RestoreLockSpends(w: World, s: Daemon)
    requires Unspent(s.log)
    ensures Bounded(RestoreLock(w, s).0.log)
  {
    hide Total, MoveDock, QueryStatus, Load, FindByIdentity, SetLock;
    var s1 := s.(tick := Load(w, s.tick, s.store).tick);
    StatusIsFree(w, s1);
    var q := QueryStatus(w, s1.tick);
    var s2 := s1.(tick := q.tick, log := s1.log + q.log);
    forall d: DisplayId
      ensures Bounded(MoveDock(w, s2, d).0.log) && Bounded(SetLock(w, s2, d).0.log)
      ensures Bounded(SetLock(w, MoveDock(w, s2, d).0, d).0.log)
    {
      MoveDockSpends(w, s2, d);
      SetLockIsFree(w, s2, d);
      SetLockIsFree(w, MoveDock(w, s2, d).0, d);
    }
  }

  lemma ReconcileSpends(w: World, s: Daemon)
    requires Unspent(s.log)
    ensures Bounded(Reconcile(w, s).0.log)
  {
    hide Total, RefreshSupport, ApplyUnlock, KeepLock, RestoreLock;
    var s1 := RefreshSupport(w, s);
    SupportIsFree(w, s);
    ApplyUnlockIsFree(w, s1);
    KeepLockSpends(w, s1);
    RestoreLockSpends(w, s1);
  }

  lemma MarkedSpends(w: World, s: Daemon)
    requires Unspent(s.log)
    ensures Bounded(MarkedReconcile(w, s).0.log)
  {
    hide Total, Reconcile;
    ReconcileSpends(w, s);
    Free(Reconcile(w, s).0.log, [Reconciled(Reconcile(w, s).1)]);
  }

  lemma CoolSpends(w: World, s: Daemon)
    requires Unspent(s.log)
    ensures Bounded(ReconcileAndCool(w, s).log)
  {
    hide Total, MarkedReconcile, RefreshStatus;
    MarkedSpends(w, s);
    StatusIsFree(w, MarkedReconcile(w, s).0.(cooldownUntil := None));
  }

  lemma HealSpends(w: World, s: Daemon)
    requires Unspent(s.log)
    ensures Bounded(Heal(w, s).log)
  {
    hide Total, ReconcileAndCool, Load, FindByIdentity;
    Free(s.log, [Probed(w.probe(s.tick + 1))]);
    CoolSpends(w, NeedsHealing(w, s.(tick := s.tick + 1)).0);
  }

  lemma ObserveIsFree(w: World, s: Daemon)
    ensures SameCost(s.log, Observe(w, s).log)
  {
    hide Total, Observe;
    ObserveFrame(w, s);
    Free(s.log, ObserveLog(w, s));
  }

  lemma PollSpends(w: World, s: Daemon)
    requires s.log == []
    ensures Bounded(Poll(w, s).log)
  {
    hide Total, Observe, MarkedReconcile, Heal, PollChanged;
    var ids := w.layout(s.tick).Active();
    var s1 := s.(tick := s.tick + 1, log := s.log + [Polled(ids)]);
    FreeEvents([]);
    Free(s.log, [Polled(ids)]);
    Free(s1.log, [ChangeAccepted(ids)]);
    ObserveIsFree(w, s1);
    MarkedSpends(w, Observe(w, s1));
    HealSpends(w, Observe(w, s1));
    PollChangedSpends(w, s1.(pending := None, log := s1.log + [ChangeAccepted(ids)]));
  }

  lemma PollChangedSpends(w: World, s: Daemon)
    requires Unspent(s.log)
    ensures Bounded(PollChanged(w, s).log)
  {
    hide Total, ReconcileAndCool, RefreshStatus, FreshCache;
    Free(s.log, [CacheRefreshed]);
    var s1 := RefreshInfo(w, RefreshCache(w, s));
    StatusIsFree(w, s1);
    CoolSpends(w, RefreshStatus(w, s1).0);
  }

  lemma LockAndSaveIsFree(w: World, s: Daemon, d: DisplayId, id: Identity)
    ensures SameCost(s.log, LockAndSave(w, s, d, id).0.log)
  {
    hide Total, SetLock, Write, RefreshStatus;
    SetLockIsFree(w, s, d);
    var s1 := SetLock(w, s, d).0;
    var written := Write(w, s1.tick, s1.store, SaveEdits(id));
    StatusIsFree(w, s1.(tick := written.tick, store := written.store));
  }

  lemma RequestSpends(w: World, s: Daemon, request: Request)
    requires s.log == []
    ensures Bounded(HandleRequest(w, s, request).0.log)
  {
    hide Total, ApplySetState, ApplyUnlock, IndexOf;
    FreeEvents([]);
    match request
    case GetState => Free(s.log, [DockQueried(w.dock(s.tick))]);
    case SetState(target) => ApplySetSpends(w, s, target);
    case Unlock => ApplyUnlockIsFree(w, s);
  }

  lemma ApplySetSpends(w: World, s: Daemon, target: nat)
    requires Unspent(s.log)
    ensures Bounded(ApplySetState(w, s, target).0.log)
  {
    hide Total, RefreshSupport, MoveDock, LockAndSave, IdentityOf;
    if target < |s.status.displays| {
      var d := s.status.displays[target];
      var s1 := RefreshSupport(w, s);
      SupportIsFree(w, s);
      var s2 := s1.(tick := s1.tick + 1, log := s1.log + [DockQueried(w.dock(s1.tick))]);
      Free(s1.log, [DockQueried(w.dock(s1.tick))]);
      Free(s2.log, [LockCleared]);
      MoveDockSpends(w, ClearLock(s2), d);
      var id := IdentityOf(d, s1.info);
      if id.Some? {
        LockAndSaveIsFree(w, s2, d, id.value);
        LockAndSaveIsFree(w, MoveDock(w, ClearLock(s2), d).0, d, id.value);
      }
    }
  }

  lemma BootSpends(w: World, store: Store)
    requires Boot(w, store).Some?
    ensures Bounded(Boot(w, store).value.log)
  {
    hide Total, MarkedReconcile, RefreshStatus;
    FreeEvents([]);
    var q := QueryStatus(w, 0);
    var s := Initial(q.tick + 1, store, q.value.value, w.info(q.tick).value);
    MarkedSpends(w, s);
    StatusIsFree(w, MarkedReconcile(w, s).0);
  }

  /** In every run, no call and no start-up makes more than 3 relocation attempts or 120 nudges, or
      sleeps longer than 4210 ms in all. */
  lemma EveryCallIsBounded(w: World, store: Store, states: seq<Daemon>, inputs: seq<Input>, i: nat)
    requires IsRun(w, store, states, inputs) && i < |states|
    ensures Bounded(states[i].log)
  {
    hide Step, Boot, Bounded;
    if i == 0 {
      StartOf(w, store, states, inputs);
      BootSpends(w, store);
    } else {
      TurnOf(w, store, states, inputs, i - 1);
      StepSpends(w, states[i - 1], inputs[i - 1]);
    }
  }

  lemma StepSpends(w: World, s: Daemon, input: Input)
    ensures Bounded(Step(w, s, input).log)
  {
    hide Poll, HandleRequest, Bounded;
    match input
    case PollTick => PollSpends(w, s.(log := []));
    case Asked(request) => RequestSpends(w, s.(log := []), request);
  }
}
