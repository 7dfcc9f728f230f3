/** The discipline of the poll loop over runs: changed lists are acted upon only when seen twice in a
    row. */
module PollTheorems {
  import opened Options
  import opened Displays
  import opened DisplayLock
  import opened Environment
  import opened Preferences
  import opened Controller
  import opened LockTheorems

  // ----- what the parts of a call leave alone

  /** From `s` to `s'` a call has only gone on: later tick, longer log, same snapshot list and poll state. */
  ghost predicate SamePollState(s: Daemon, s': Daemon) {
    && s.tick <= s'.tick && s.log <= s'.log && AttemptsSince(s, s')
    && s'.pending == s.pending && s'.infoRetryAfter == s.infoRetryAfter && s'.cooldownUntil == s.cooldownUntil
    && NoNewMarks(s.log, s'.log)
  }

  /** The attempts in the log of `s'` that `s` did not have began at the tick of `s` or later. */
  ghost predicate AttemptsSince(s: Daemon, s': Daemon) {
    forall e :: e in s'.log && e.Attempted? ==> e in s.log || s.tick <= e.tick
  }

  /** Events by which the poll loop marks its decisions. */
  predicate IsMark(e: Event) { e.Polled? || e.ChangeAccepted? || e.Reconciled? }

  ghost predicate NoNewMarks(log: seq<Event>, log': seq<Event>) {
    forall e :: e in log' && IsMark(e) ==> e in log
  }

  lemma MoveDockFrame(w: World, s: Daemon, d: DisplayId)
    ensures SamePollState(s, MoveDock(w, s, d).0)
    ensures var s' := MoveDock(w, s, d).0; s' == s.(tick := s'.tick, log := s'.log)
  {
    hide RelocateUntilCurrent, LastDock, Placed;
    RelocationLoopShape(w, s.tick, s.lock, s.cache, d, 0);
  }

  lemma WriteFrame(w: World, tick: nat, store: Store, edits: seq<Edit>)
    ensures tick <= Write(w, tick, store, edits).tick
  {
    var done := WriteIsPrefix(w, tick, store, edits);
  }

  /** A call that also leaves the snapshot alone. */
  ghost predicate SameSnapshot(s: Daemon, s': Daemon) {
    SamePollState(s, s') && s'.status == s.status && s'.info == s.info
  }

  lemma RefreshSupportFrame(w: World, s: Daemon)
    ensures SameSnapshot(s, RefreshSupport(w, s))
  {
  }

  lemma ApplyUnlockFrame(w: World, s: Daemon)
    ensures SameSnapshot(s, ApplyUnlock(w, s).0)
  {
    hide Write;
    WriteFrame(w, s.tick, s.store, CLEAR_EDITS);
  }

  lemma SetLockFrame(w: World, s: Daemon, d: DisplayId)
    ensures SameSnapshot(s, SetLock(w, s, d).0)
  {
    hide FreshCache;
  }

  lemma KeepLockFrame(w: World, s: Daemon)
    ensures SameSnapshot(s, KeepLock(w, s).0)
  {
    hide MoveDock, IndexOf;
    var q := QueryStatus(w, s.tick);
    MoveDockFrame(w, s.(tick := q.tick, log := s.log + q.log), s.lock);
  }

  lemma RestoreLockFrame(w: World, s: Daemon)
    ensures SameSnapshot(s, RestoreLock(w, s).0)
  {
    hide MoveDock, IndexOf, SetLock, Load, FindByIdentity, QueryStatus;
    var s1 := s.(tick := Load(w, s.tick, s.store).tick);
    var q := QueryStatus(w, s1.tick);
    var s2 := s1.(tick := q.tick, log := s1.log + q.log);
    forall d: DisplayId
      ensures SameSnapshot(s2, MoveDock(w, s2, d).0)
      ensures SameSnapshot(s2, SetLock(w, s2, d).0)
      ensures SameSnapshot(MoveDock(w, s2, d).0, SetLock(w, MoveDock(w, s2, d).0, d).0)
    {
      MoveDockFrame(w, s2, d);
      SetLockFrame(w, s2, d);
      SetLockFrame(w, MoveDock(w, s2, d).0, d);
    }
  }

  lemma ReconcileFrame(w: World, s: Daemon)
    ensures SameSnapshot(s, Reconcile(w, s).0)
  {
    hide RefreshSupport, ApplyUnlock, KeepLock, RestoreLock;
    RefreshSupportFrame(w, s);
    var s1 := RefreshSupport(w, s);
    ApplyUnlockFrame(w, s1);
    KeepLockFrame(w, s1);
    RestoreLockFrame(w, s1);
  }

  lemma LockAndSaveFrame(w: World, s: Daemon, d: DisplayId, id: Identity)
    ensures SamePollState(s, LockAndSave(w, s, d, id).0)
  {
    hide SetLock, Write, IndexOf;
    SetLockFrame(w, s, d);
    var s1 := SetLock(w, s, d).0;
    WriteFrame(w, s1.tick, s1.store, SaveEdits(id));
  }

  lemma ApplySetStateFrame(w: World, s: Daemon, target: nat)
    ensures SamePollState(s, ApplySetState(w, s, target).0)
  {
    hide RefreshSupport, MoveDock, LockAndSave, IdentityOf;
    RefreshSupportFrame(w, s);
    if target < |s.status.displays| {
      var d := s.status.displays[target];
      var s1 := RefreshSupport(w, s);
      var dock := w.dock(s1.tick);
      var s2 := s1.(tick := s1.tick + 1, log := s1.log + [DockQueried(dock)]);
      MoveDockFrame(w, ClearLock(s2), d);
      var id := IdentityOf(d, s1.info);
      if id.Some? {
        LockAndSaveFrame(w, s2, d, id.value);
        LockAndSaveFrame(w, MoveDock(w, ClearLock(s2), d).0, d, id.value);
      }
    }
  }

  lemma HandleRequestFrame(w: World, s: Daemon, request: Request)
    ensures SamePollState(s, HandleRequest(w, s, request).0)
  {
    hide ApplySetState, ApplyUnlock, IndexOf;
    match request
    case GetState =>
    case SetState(target) => ApplySetStateFrame(w, s, target);
    case Unlock => ApplyUnlockFrame(w, s);
  }

  // ----- a list is accepted only when seen twice

  /** The poll-state effects of one poll, by the list it saw. */
  lemma PollCases(w: World, s: Daemon)
    ensures var s' := Poll(w, s);
            var ids := w.layout(s.tick).Active();
            && s.tick < s'.tick && s.log + [Polled(ids)] <= s'.log
            && (s'.pending.Some? ==> s' == s.(tick := s.tick + 1, log := s.log + [Polled(ids)], pending := Some(ids)))
            && (ids != s.status.displays && s.pending == Some(ids) ==> s.log + [Polled(ids), ChangeAccepted(ids)] <= s'.log)
            && (ids != s.status.displays && s.pending != Some(ids) ==> s'.pending.Some?)
  {
    hide PollUnchanged, PollChanged;
    var ids := w.layout(s.tick).Active();
    var s1 := s.(tick := s.tick + 1, log := s.log + [Polled(ids)]);
    PollUnchangedFrame(w, s1);
    PollChangedFrame(w, s1.(pending := None, log := s1.log + [ChangeAccepted(ids)]));
    assert s1.log + [ChangeAccepted(ids)] == s.log + [Polled(ids), ChangeAccepted(ids)];
  }

  /** What observing does: the log gets three events, the lock can only be zeroed, the pending list and
      the cooldown are as described. */
  lemma ObserveFrame(w: World, s: Daemon)
    ensures var s' := Observe(w, s);
            && s.tick < s'.tick && s'.pending == None && s'.cooldownUntil == s.cooldownUntil
            && s'.log == s.log + ObserveLog(w, s) && NoNewMarks(s.log, s'.log)
  {
    hide RefreshInfo, FreshCache, IndexOf;
    RefreshInfoFrame(w, s.(pending := None, tick := s.tick + 1));
    assert Observe(w, s).log == s.log + [CacheRefreshed] + [ObserveLog(w, s)[1]] + [ObserveLog(w, s)[2]];
  }

  function ObserveLog(w: World, s: Daemon): (log: seq<Event>)
    ensures |log| == 3
  {
    var retried := s.infoRetryAfter.Some? && w.clock(s.tick) >= s.infoRetryAfter.value;
    [CacheRefreshed, DockQueried(w.dock(if retried then s.tick + 4 else s.tick + 2)), SupportChecked(Observe(w, s).supported)]
  }

  lemma PollUnchangedFrame(w: World, s: Daemon)
    ensures var s' := PollUnchanged(w, s); s'.pending == None && s.tick <= s'.tick && s.log <= s'.log
  {
    hide Observe, Reconcile, Heal;
    ObserveFrame(w, s);
    ReconcileFrame(w, Observe(w, s));
    HealFrame(w, Observe(w, s));
  }

  lemma PollChangedFrame(w: World, s: Daemon)
    requires s.pending == None
    ensures var s' := PollChanged(w, s); s'.pending == None && s.tick <= s'.tick && s.log <= s'.log
  {
    hide ReconcileAndCool, RefreshInfo, FreshCache, IndexOf;
    RefreshInfoFrame(w, RefreshCache(w, s));
    var s1 := RefreshStatus(w, RefreshInfo(w, RefreshCache(w, s))).0;
    assert s.log <= s1.log;
    ReconcileAndCoolFrame(w, s1);
  }

  lemma RefreshInfoFrame(w: World, s: Daemon)
    ensures var s' := RefreshInfo(w, s);
            s' == s.(tick := s.tick + 2, info := s'.info, infoRetryAfter := s'.infoRetryAfter)
  {
  }

  lemma ReconcileAndCoolFrame(w: World, s: Daemon)
    ensures var s' := ReconcileAndCool(w, s); s'.pending == s.pending && s.tick <= s'.tick && s.log <= s'.log && AttemptsSince(s, s')
  {
    hide Reconcile, IndexOf;
    ReconcileFrame(w, s);
  }

  lemma HealFrame(w: World, s: Daemon)
    ensures var s' := Heal(w, s); s'.pending == s.pending && s.tick <= s'.tick && s.log <= s'.log && AttemptsSince(s, s')
  {
    hide ReconcileAndCool, Load, FindByIdentity;
    ReconcileAndCoolFrame(w, NeedsHealing(w, s.(tick := s.tick + 1)).0);
  }

  lemma StepFrame(w: World, s: Daemon, input: Input)
    ensures s.tick <= Step(w, s, input).tick
    ensures input.Asked? ==> SamePollState(s.(log := []), Step(w, s, input))
  {
    hide Poll, HandleRequest;
    match input
    case PollTick => PollCases(w, s.(log := []));
    case Asked(request) => HandleRequestFrame(w, s.(log := []), request);
  }

  /** Turn `j` is a poll that saw `ids`. */
  ghost predicate PollSaw(states: seq<Daemon>, inputs: seq<Input>, j: nat, ids: seq<DisplayId>)
    requires |states| == |inputs| + 1
  {
    j < |inputs| && inputs[j] == PollTick && Polled(ids) in states[j + 1].log
  }

  /** In every run, a pending list is the list that the latest poll saw. */
  lemma {:induction false} PendingIsLatestPoll(w: World, store: Store, states: seq<Daemon>, inputs: seq<Input>, i: nat)
    returns (j: nat)
    requires IsRun(w, store, states, inputs) && i < |states| && states[i].pending.Some?
    ensures j < i && PollSaw(states, inputs, j, states[i].pending.value)
    ensures forall m :: j < m < i ==> inputs[m] != PollTick
  {
    hide Step, Boot;
    if i == 0 {
      StartOf(w, store, states, inputs);
      BootPending(w, store);
      return;
    }
    TurnOf(w, store, states, inputs, i - 1);
    if inputs[i - 1] == PollTick {
      j := i - 1;
      PollPending(w, states[j]);
    } else {
      StepFrame(w, states[i - 1], inputs[i - 1]);
      j := PendingIsLatestPoll(w, store, states, inputs, i - 1);
    }
  }

  lemma BootPending(w: World, store: Store)
    requires Boot(w, store).Some?
    ensures Boot(w, store).value.pending == None
  {
    hide Reconcile, IndexOf;
    var q := QueryStatus(w, 0);
    ReconcileFrame(w, Initial(q.tick + 1, store, q.value.value, w.info(q.tick).value));
  }

  lemma PollPending(w: World, s: Daemon)
    requires Step(w, s, PollTick).pending.Some?
    ensures Polled(Step(w, s, PollTick).pending.value) in Step(w, s, PollTick).log
  {
    hide Poll;
    PollCases(w, s.(log := []));
  }

  /** A poll that sees a list other than the snapshot's does nothing but remember it, unless the list
      is the pending one; and only a list that two consecutive polls saw is ever accepted. */
  lemma ChangesAreSeenTwice(w: World, store: Store, states: seq<Daemon>, inputs: seq<Input>, i: nat)
    returns (j: nat)
    requires IsRun(w, store, states, inputs) && i < |inputs| && inputs[i] == PollTick
    ensures var ids := w.layout(states[i].tick).Active();
            && PollSaw(states, inputs, i, ids)
            && (ids != states[i].status.displays && states[i].pending != Some(ids) ==>
                  states[i + 1] == states[i].(tick := states[i].tick + 1, log := [Polled(ids)], pending := Some(ids)))
            && (ids != states[i].status.displays && states[i].pending == Some(ids) ==>
                  && j < i && PollSaw(states, inputs, j, ids) && (forall m :: j < m < i ==> inputs[m] != PollTick))
  {
    hide Poll, Boot;
    TurnOf(w, store, states, inputs, i);
    var s0 := states[i].(log := []);
    var ids := w.layout(states[i].tick).Active();
    PollCases(w, s0);
    assert [] + [Polled(ids)] == [Polled(ids)];
    assert states[i + 1].log[0] == Polled(ids);
    j := 0;
    if states[i].pending == Some(ids) {
      j := PendingIsLatestPoll(w, store, states, inputs, i);
    }
  }

  ghost predicate HasAttempt(log: seq<Event>) {
    exists e :: e in log && e.Attempted?
  }
}
