/** Locking, unlocking, losing and regaining the locked display, over runs. */
module RecoveryTheorems {
  import opened Options
  import opened Displays
  import opened DisplayLock
  import opened Environment
  import opened Preferences
  import opened Controller
  import opened CallTheorems
  import opened PollTheorems

  // ----- unlocking

  /** No lock is in force and no preference is stored. */
  ghost predicate Unlocked(s: Daemon) {
    s.lock == 0 && Stored(s.store) == None
  }

  ghost predicate NoAction(log: seq<Event>) {
    forall e :: e in log ==> !e.Attempted? && !e.LockSet?
  }

  /** An unlock request that reports success has unlocked. */
  lemma UnlockUnlocks(w: World, s: Daemon)
    requires HandleRequest(w, s, Unlock).1 == Succeeded
    ensures Unlocked(HandleRequest(w, s, Unlock).0) && !HandleRequest(w, s, Unlock).0.tapHeld
  {
    ClearForgets(w, s.tick, s.store);
  }

  lemma ClearingKeepsEmpty(store: Store, k: nat)
    requires Stored(store) == None && k < 5
    ensures Stored(Apply(store, CLEAR_EDITS[k])) == None
  {
  }

  lemma {:induction false} ClearingStaysEmpty(w: World, tick: nat, store: Store, k: nat)
    requires Stored(store) == None && k <= 5
    ensures Stored(Write(w, tick, store, CLEAR_EDITS[k..]).store) == None
    decreases 5 - k
  {
    hide Stored, Apply;
    if k < 5 {
      assert CLEAR_EDITS[k..][1..] == CLEAR_EDITS[k + 1..];
      ClearingKeepsEmpty(store, k);
      ClearingStaysEmpty(w, tick + 1, Apply(store, CLEAR_EDITS[k]), k + 1);
    }
  }

  lemma ApplyUnlockStays(w: World, s: Daemon)
    requires Unlocked(s) && NoAction(s.log)
    ensures Unlocked(ApplyUnlock(w, s).0) && NoAction(ApplyUnlock(w, s).0.log)
  {
    hide Stored, Write;
    assert CLEAR_EDITS[0..] == CLEAR_EDITS;
    ClearingStaysEmpty(w, s.tick, s.store, 0);
  }

  lemma ReconcileStaysUnlocked(w: World, s: Daemon)
    requires Unlocked(s) && NoAction(s.log)
    ensures Unlocked(Reconcile(w, s).0) && NoAction(Reconcile(w, s).0.log)
  {
    hide Stored, ApplyUnlock;
    ApplyUnlockStays(w, RefreshSupport(w, s));
  }

  lemma PollUnchangedStaysUnlocked(w: World, s: Daemon)
    requires Unlocked(s) && NoAction(s.log)
    ensures Unlocked(PollUnchanged(w, s)) && NoAction(PollUnchanged(w, s).log)
  {
    hide Observe, Reconcile, Stored;
    var s1 := Observe(w, s);
    ObserveKeepsLock(w, s);
    ObserveFrame(w, s);
    ReconcileStaysUnlocked(w, s1);
  }

  lemma ObserveKeepsLock(w: World, s: Daemon)
    ensures Observe(w, s).store == s.store && Observe(w, s).status.displays == s.status.displays
    ensures Observe(w, s).lock == s.lock || (!s.supported && Observe(w, s).lock == 0)
    ensures Observe(w, s).tapHeld == s.tapHeld
  {
    hide FreshCache, IndexOf;
  }

  lemma PollChangedStaysUnlocked(w: World, s: Daemon)
    requires Unlocked(s) && NoAction(s.log)
    ensures Unlocked(PollChanged(w, s)) && NoAction(PollChanged(w, s).log)
  {
    hide Reconcile, Stored, FreshCache, IndexOf;
    var s1 := RefreshStatus(w, RefreshInfo(w, RefreshCache(w, s))).0;
    assert s1.log == s.log + [CacheRefreshed] + QueryStatus(w, RefreshInfo(w, RefreshCache(w, s)).tick).log;
    ReconcileStaysUnlocked(w, s1);
  }

  /** Once unlocked, any turn other than a lock request stays unlocked, relocates nothing and locks nothing. */
  lemma StepStaysUnlocked(w: World, s: Daemon, input: Input)
    requires Unlocked(s) && !(input.Asked? && input.request.SetState?)
    ensures Unlocked(Step(w, s, input)) && NoAction(Step(w, s, input).log)
  {
    hide PollUnchanged, PollChanged, ApplyUnlock, Stored, IndexOf;
    var s0 := s.(log := []);
    if input == PollTick {
      var ids := w.layout(s.tick).Active();
      var s1 := s0.(tick := s.tick + 1, log := [] + [Polled(ids)]);
      PollUnchangedStaysUnlocked(w, s1);
      PollChangedStaysUnlocked(w, s1.(pending := None, log := s1.log + [ChangeAccepted(ids)]));
    } else {
      ApplyUnlockStays(w, s0);
    }
  }

  /** Unlocking is stable: in every run, after an unlock in turn `i` that cleared the lock, no sequence
      of polls, state reads and unlocks relocates the Dock or sets a lock. */
  lemma {:induction false} UnlockIsStable(w: World, store: Store, states: seq<Daemon>, inputs: seq<Input>, i: nat, j: nat)
    requires IsRun(w, store, states, inputs) && i < j < |states|
    requires inputs[i] == Asked(Unlock) && LockCleared in states[i + 1].log
    requires forall m :: i < m < j ==> !(inputs[m].Asked? && inputs[m].request.SetState?)
    ensures Unlocked(states[j]) && NoAction(states[j].log)
  {
    hide Unlocked, Boot, Step;
    TurnOf(w, store, states, inputs, j - 1);
    if j == i + 1 {
      UnlockLog(w, states[i]);
    } else {
      UnlockIsStable(w, store, states, inputs, i, j - 1);
      StepStaysUnlocked(w, states[j - 1], inputs[j - 1]);
    }
  }

  lemma UnlockLog(w: World, s: Daemon)
    ensures var s' := Step(w, s, Asked(Unlock)); NoAction(s'.log) && (LockCleared in s'.log ==> Unlocked(s'))
  {
    hide Write, Stored;
    var s0 := s.(log := []);
    if ApplyUnlock(w, s0).1 {
      UnlockUnlocks(w, s0);
    }
  }

  // ----- lock requests

  /** A save of `id` over `before` that failed part of the way has left `after`: the keys of the first
      accesses are those of `id`, the others still those of `before`. */
  ghost predicate PartlySaved(before: Store, id: Identity, after: Store) {
    exists done: nat :: done < 5 && Stored(after) == Validated(Mixture(Keys(before), id, done))
  }

  /** What a lock request leaves behind, by its outcome. Success: the lock is on the requested display,
      whose identity is stored. Failure to move the Dock: the lock is off and the stored identity
      untouched. Only a failing save can leave the stored keys mixed, and then the lock is on. */
  lemma SetStateOutcomes(w: World, s: Daemon, target: nat)
    requires s.lock != 0 ==> s.tapHeld
    ensures var (s', outcome) := ApplySetState(w, s, target);
            && (outcome == OutOfRange <==> target >= |s.status.displays|)
            && (outcome !in {Locked, NotSaved, NotRefreshed} ==> s'.store == s.store)
            && (outcome in {NotMoved, TapFailed} ==> s'.lock == 0)
            && (outcome in {OutOfRange, Unsupported, NoIdentity, DockUnknown} ==>
                  s'.lock == s.lock || (s'.lock == 0 && !s.supported))
            && (outcome in {Locked, NotSaved, NotRefreshed} ==>
                  && s'.lock == s.status.displays[target] && s'.tapHeld && s'.supported
                  && IdentityOf(s.status.displays[target], s.info).Some?)
            && (outcome in {Locked, NotRefreshed} ==> Stored(s'.store) == IdentityOf(s.status.displays[target], s.info))
            && (outcome == NotSaved ==> PartlySaved(s.store, IdentityOf(s.status.displays[target], s.info).value, s'.store))
  {
    hide MoveDock, LockAndSave, Stored, IdentityOf, PartlySaved;
    if target < |s.status.displays| {
      var d := s.status.displays[target];
      var s1 := RefreshSupport(w, s);
      var dock := w.dock(s1.tick);
      var s2 := s1.(tick := s1.tick + 1, log := s1.log + [DockQueried(dock)]);
      MoveDockFrame(w, ClearLock(s2), d);
      var id := IdentityOf(d, s1.info);
      if id.Some? {
        LockAndSaveOutcomes(w, s2, d, id.value);
        LockAndSaveOutcomes(w, MoveDock(w, ClearLock(s2), d).0, d, id.value);
      }
    }
  }

  lemma LockAndSaveOutcomes(w: World, s: Daemon, d: DisplayId, id: Identity)
    requires (s.lock != 0 ==> s.tapHeld) && id.Valid()
    ensures var (s', outcome) := LockAndSave(w, s, d, id);
            && outcome in {Locked, TapFailed, NotSaved, NotRefreshed} && s'.supported == s.supported
            && (outcome == TapFailed ==> s'.store == s.store && s'.lock == 0)
            && (outcome != TapFailed ==> s'.lock == d && s'.tapHeld)
            && (outcome in {Locked, NotRefreshed} ==> Stored(s'.store) == Some(id))
            && (outcome == NotSaved ==> PartlySaved(s.store, id, s'.store))
  {
    hide Write, Stored, FreshCache, IndexOf, Mixture, Keys, Validated;
    var (s1, locked) := SetLock(w, s, d);
    if locked {
      if Write(w, s1.tick, s1.store, SaveEdits(id)).ok {
        SaveLoadRoundTrip(w, s1.tick, s1.store, id);
      } else {
        var done := SaveLeavesMixture(w, s1.tick, s1.store, id);
      }
    }
  }

  // ----- restoring the preference

  /** Reconciling without a lock: the preference is kept, a lock can only land on the first listed
      display with the stored identity, and a success puts it there if there is one. */
  lemma RestoreOutcomes(w: World, s: Daemon, id: Identity)
    requires s.lock == 0 && Stored(s.store) == Some(id)
    ensures var (s', ok) := RestoreLock(w, s);
            var found := FindByIdentity(id, s.status.displays, s.info);
            && s'.store == s.store && s'.status == s.status && s'.info == s.info
            && s'.lock == if ok && found.Some? then found.value else 0
  {
    hide MoveDock, QueryStatus, FreshCache, Stored, FindByIdentity;
    RestoreLockFrame(w, s);
    var found := FindByIdentity(id, s.status.displays, s.info);
    if found.Some? {
      var s1 := s.(tick := Load(w, s.tick, s.store).tick);
      var q := QueryStatus(w, s1.tick);
      MoveDockFrame(w, s1.(tick := q.tick, log := s1.log + q.log), found.value);
    }
  }

  /** The Dock orientation is Bottom at every tick of the interval. */
  ghost predicate BottomDuring(w: World, from: nat, to: nat) {
    forall t :: from <= t < to ==> w.bottom(t)
  }

  lemma ReconcileRestores(w: World, s: Daemon, id: Identity)
    requires s.lock == 0 && Stored(s.store) == Some(id) && w.bottom(s.tick + 1)
    ensures var (s', ok) := Reconcile(w, s);
            var found := FindByIdentity(id, s.status.displays, s.info);
            && s'.store == s.store && s'.status == s.status && s'.info == s.info && s'.supported
            && s'.lock == if ok && found.Some? then found.value else 0
  {
    hide RestoreLock, Stored, FindByIdentity;
    var s1 := RefreshSupport(w, s);
    RestoreOutcomes(w, s1, id);
    RestoreSupport(w, s1);
  }

  lemma RestoreSupport(w: World, s: Daemon)
    ensures RestoreLock(w, s).0.supported == s.supported
  {
    hide QueryStatus, FreshCache, FindByIdentity, Load, RelocateUntilCurrent;
  }

  /** A poll that sees an unchanged list and a bottom Dock while no lock is in force: the preference is
      kept, and if it reconciles successfully the lock is on the preferred display. */
  lemma PollHeals(w: World, s: Daemon, id: Identity)
    requires s.lock == 0 && Stored(s.store) == Some(id) && BottomDuring(w, s.tick, Step(w, s, PollTick).tick)
    requires w.layout(s.tick).Active() == s.status.displays
    ensures var s' := Step(w, s, PollTick);
            var found := FindByIdentity(id, s.status.displays, s'.info);
            && s'.store == s.store
            && (s'.lock == 0 || (Some(s'.lock) == found && Reconciled(true) in s'.log))
            && (Reconciled(true) in s'.log ==> found.Some? && s'.lock == found.value)
  {
    hide Observe, Heal, Reconcile, Stored, FindByIdentity;
    var s1 := s.(tick := s.tick + 1, log := [] + [Polled(w.layout(s.tick).Active())]);
    var s2 := Observe(w, s1);
    ObserveKeepsLock(w, s1);
    ObserveFrame(w, s1);
    ObserveSupport(w, s1);
    ReconcileFrame(w, s2);
    HealFrame(w, s2);
    assert w.bottom(s2.tick - 1);
    HealOutcome(w, s2, id);
  }

  lemma ObserveSupport(w: World, s: Daemon)
    ensures Observe(w, s).supported == w.bottom(Observe(w, s).tick - 1) && s.tick < Observe(w, s).tick - 1
  {
    hide FreshCache, IndexOf;
  }

  lemma HealOutcome(w: World, s: Daemon, id: Identity)
    requires s.lock == 0 && Stored(s.store) == Some(id) && BottomDuring(w, s.tick, Heal(w, s).tick) && Reconciled(true) !in s.log
    ensures var s' := Heal(w, s);
            var found := FindByIdentity(id, s.status.displays, s.info);
            && s'.store == s.store && s'.info == s.info
            && (s'.lock == 0 || (Some(s'.lock) == found && Reconciled(true) in s'.log))
            && (Reconciled(true) in s'.log ==> found.Some? && s'.lock == found.value)
  {
    hide Reconcile, Stored, FindByIdentity, IndexOf;
    var s1 := s.(tick := s.tick + 1);
    if !InCooldown(w, s) {
      var (s2, needed) := NeedsHealing(w, s1);
      if needed {
        ReconcileTicks(w, s2);
        ReconcileFrame(w, s2);
        assert w.bottom(s2.tick + 1);
        ReconcileRestores(w, s2, id);
      }
    }
  }

  lemma ReconcileTicks(w: World, s: Daemon)
    ensures s.tick + 2 <= Reconcile(w, s).0.tick
  {
    hide KeepLock, RestoreLock, ApplyUnlock;
    var s1 := RefreshSupport(w, s);
    KeepLockFrame(w, s1);
    RestoreLockFrame(w, s1);
    ApplyUnlockFrame(w, s1);
  }

  // ----- a failed lock request

  /** Still unlocked, with preference `id` stored. */
  ghost predicate Preferring(s: Daemon, id: Identity) {
    s.lock == 0 && Stored(s.store) == Some(id)
  }

  ghost predicate HasLockSet(log: seq<Event>) {
    exists e :: e in log && e.LockSet?
  }

  /** What the log of a lock request tells about its outcome. */
  lemma SetStateLog(w: World, s: Daemon, target: nat)
    requires NoAction(s.log)
    ensures var (s', outcome) := ApplySetState(w, s, target);
            && (outcome in {Locked, NotSaved, NotRefreshed} ==> HasLockSet(s'.log))
            && (outcome in {OutOfRange, Unsupported, NoIdentity, DockUnknown} ==> !HasAttempt(s'.log))
  {
    hide MoveDock, LockAndSave, IdentityOf;
    if target < |s.status.displays| {
      var d := s.status.displays[target];
      var s1 := RefreshSupport(w, s);
      var s2 := s1.(tick := s1.tick + 1, log := s1.log + [DockQueried(w.dock(s1.tick))]);
      var id := IdentityOf(d, s1.info);
      if id.Some? {
        LockAndSaveLog(w, s2, d, id.value);
        LockAndSaveLog(w, MoveDock(w, ClearLock(s2), d).0, d, id.value);
      }
    }
  }

  lemma LockAndSaveLog(w: World, s: Daemon, d: DisplayId, id: Identity)
    ensures var (s', outcome) := LockAndSave(w, s, d, id);
            outcome in {Locked, TapFailed, NotSaved, NotRefreshed} && (outcome != TapFailed ==> HasLockSet(s'.log))
  {
    hide Write, FreshCache, IndexOf;
    var (s1, locked) := SetLock(w, s, d);
    if locked {
      assert s1.log[|s1.log| - 1] == LockSet(d);
      assert LockSet(d) in LockAndSave(w, s, d, id).0.log;
    }
  }

  /** A lock request that started to relocate and did not lock has left no lock and the old preference. */
  lemma FailedRequestRollsBack(w: World, s: Daemon, target: nat)
    requires s.lock != 0 ==> s.tapHeld
    requires HasAttempt(Step(w, s, Asked(SetState(target))).log) && !HasLockSet(Step(w, s, Asked(SetState(target))).log)
    ensures Step(w, s, Asked(SetState(target))).lock == 0 && Step(w, s, Asked(SetState(target))).store == s.store
  {
    hide ApplySetState, Stored, IdentityOf, HasAttempt, HasLockSet;
    SetStateOutcomes(w, s.(log := []), target);
    SetStateLog(w, s.(log := []), target);
  }

  lemma ReadsKeepPreference(w: World, s: Daemon, id: Identity)
    requires Preferring(s, id)
    ensures Preferring(Step(w, s, Asked(GetState)), id)
  {
    hide IndexOf, Stored;
  }

  /** Turn `m` is a state read, or a poll of an unchanged list under a bottom Dock. */
  ghost predicate HealingTurn(w: World, states: seq<Daemon>, inputs: seq<Input>, m: nat)
    requires m < |inputs| < |states|
  {
    inputs[m] == Asked(GetState)
    || (inputs[m] == PollTick && BottomDuring(w, states[m].tick, states[m + 1].tick)
        && w.layout(states[m].tick).Active() == states[m].status.displays)
  }

  /** A healing turn keeps the preference and locks only by a successful reconcile, and then a listed
      display with the stored identity. */
  lemma HealingTurnHeals(w: World, states: seq<Daemon>, inputs: seq<Input>, m: nat, id: Identity)
    requires m < |inputs| < |states| && HealingTurn(w, states, inputs, m)
    requires states[m + 1] == Step(w, states[m], inputs[m]) && Preferring(states[m], id)
    ensures Stored(states[m + 1].store) == Some(id)
    ensures inputs[m] == Asked(GetState) || Reconciled(true) !in states[m + 1].log ==> states[m + 1].lock == 0
    ensures inputs[m] == PollTick && Reconciled(true) in states[m + 1].log ==>
              states[m + 1].lock in states[m].status.displays && IdentityOf(states[m + 1].lock, states[m + 1].info) == Some(id)
  {
    hide Step, Stored, IdentityOf;
    if inputs[m] == PollTick {
      PollHeals(w, states[m], id);
    } else {
      ReadsKeepPreference(w, states[m], id);
    }
  }

  /** A lock request that fails while relocating rolls back, and the next successful heal restores the
      earlier preference: in every run, if the lock request of turn `i` relocated but did not lock, and
      after it only state reads and polls of an unchanged list under a bottom Dock happen, then no lock
      is in force and the earlier identity stays stored until the first poll that reconciles
      successfully, which locks a listed display with that identity. */
  lemma FailedLockIsHealed(w: World, store: Store, states: seq<Daemon>, inputs: seq<Input>, i: nat, j: nat, target: nat, id: Identity)
    requires IsRun(w, store, states, inputs) && i < j < |inputs|
    requires inputs[i] == Asked(SetState(target)) && Stored(states[i].store) == Some(id)
    requires HasAttempt(states[i + 1].log) && !HasLockSet(states[i + 1].log)
    requires forall m :: i < m <= j ==> HealingTurn(w, states, inputs, m)
    requires forall m :: i + 1 < m <= j ==> Reconciled(true) !in states[m].log
    requires inputs[j] == PollTick && Reconciled(true) in states[j + 1].log
    ensures forall m :: i < m <= j ==> Preferring(states[m], id)
    ensures Stored(states[j + 1].store) == Some(id)
    ensures states[j + 1].lock in states[j].status.displays && IdentityOf(states[j + 1].lock, states[j + 1].info) == Some(id)
  {
    hide Step, Boot, Stored, IdentityOf, HealingTurn, HasAttempt, HasLockSet;
    forall m | i < m <= j
      ensures Preferring(states[m], id)
    {
      PreferenceSurvives(w, store, states, inputs, i, m, target, id);
    }
    TurnOf(w, store, states, inputs, j);
    HealingTurnHeals(w, states, inputs, j, id);
  }

  lemma {:induction false} PreferenceSurvives(w: World, store: Store, states: seq<Daemon>, inputs: seq<Input>, i: nat, j: nat, target: nat, id: Identity)
    requires IsRun(w, store, states, inputs) && i < j <= |inputs|
    requires inputs[i] == Asked(SetState(target)) && Stored(states[i].store) == Some(id)
    requires HasAttempt(states[i + 1].log) && !HasLockSet(states[i + 1].log)
    requires forall m :: i < m < j ==> HealingTurn(w, states, inputs, m)
    requires forall m :: i + 1 < m <= j ==> Reconciled(true) !in states[m].log
    ensures Preferring(states[j], id)
  {
    hide Boot, Stored, HealingTurn, Step, HasAttempt, HasLockSet;
    TurnOf(w, store, states, inputs, j - 1);
    if j == i + 1 {
      EveryCall(w, store, states, inputs, i);
      FailedRequestRollsBack(w, states[i], target);
    } else {
      PreferenceSurvives(w, store, states, inputs, i, j - 1, target, id);
      HealingTurnHeals(w, states, inputs, j - 1, id);
    }
  }
}
