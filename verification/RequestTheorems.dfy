/** What requests come to, exactly: when a lock request relocates, locks and succeeds, when an unlock
    succeeds and when a state is reported. */
module RequestTheorems {
  import opened Options
  import opened Displays
  import opened DisplayLock
  import opened Environment
  import opened Preferences
  import opened Controller
  import opened LockTheorems
  import opened DeliveryTheorems
  import opened PollTheorems
  import opened CooldownTheorems
  import opened RecoveryTheorems

  // ----- installing a lock

  /** Locking works exactly when the tap is held or starts; then the cache is the one just read. */
  lemma SetLockExactly(w: World, s: Daemon, d: DisplayId)
    ensures var (s', ok) := SetLock(w, s, d);
            && (ok <==> s.tapHeld || w.tap(s.tick))
            && (ok ==> s'.lock == d && s'.tapHeld && s'.cache == FreshCache(w.layout(s.tick + 1)) && s'.tick == s.tick + 2
                       && LockSet(d) in s'.log && s.log <= s'.log)
            && (!ok ==> s' == s.(tick := s.tick + 1))
            && (HasAttempt(s'.log) <==> HasAttempt(s.log)) && s'.store == s.store && s'.status == s.status && s'.info == s.info
            && (HasLockSet(s'.log) <==> HasLockSet(s.log) || ok)
  {
    hide FreshCache;
    assert s.log <= SetLock(w, s, d).0.log;
    if SetLock(w, s, d).1 {
      assert SetLock(w, s, d).0.log[|s.log| + 1] == LockSet(d);
    }
  }

  // ----- a lock request

  /** The request is let in: index in range, bottom Dock, valid identity, and the Dock query answers. */
  predicate Admitted(w: World, s: Daemon, target: nat) {
    && target < |s.status.displays| && w.bottom(s.tick + 1)
    && IdentityOf(s.status.displays[target], s.info).Some? && w.dock(s.tick + 2).Some?
  }

  /** The Dock is on the requested display or comes there, and the tap is still held from before or starts. */
  predicate Locks(w: World, s: Daemon, target: nat) {
    && Admitted(w, s, target)
    && var d := s.status.displays[target];
       && Arrives(w, s.tick + 2, d)
       && ((w.dock(s.tick + 2) == Some(d) && s.tapHeld) || w.tap(ArrivalTick(w, s.tick + 2, d)))
  }

  /** The lock is set, its identity is saved and the status is refreshed. */
  predicate Granted(w: World, s: Daemon, target: nat) {
    && Locks(w, s, target)
    && var t := ArrivalTick(w, s.tick + 2, s.status.displays[target]);
       Accesses(w, t + 2, 5) && ListsDock(w, t + 7)
  }

  /** The state of an admitted request once the Dock is, or is not, where it should be. */
  function Moved(w: World, s: Daemon, target: nat): (Daemon, bool)
    requires Admitted(w, s, target)
  {
    var d := s.status.displays[target];
    var s1 := RefreshSupport(w, s);
    var s2 := s1.(tick := s1.tick + 1, log := s1.log + [DockQueried(w.dock(s1.tick))]);
    if w.dock(s1.tick) == Some(d) then (s2, true) else MoveDock(w, ClearLock(s2), d)
  }

  lemma AdmittedRequest(w: World, s: Daemon, target: nat)
    requires Admitted(w, s, target)
    ensures ApplySetState(w, s, target) ==
            var d := s.status.displays[target];
            var (s1, there) := Moved(w, s, target);
            if there then LockAndSave(w, s1, d, IdentityOf(d, s.info).value) else (s1, NotMoved)
  {
    hide MoveDock, LockAndSave, IdentityOf;
  }

  lemma MovedFacts(w: World, s: Daemon, target: nat)
    requires Admitted(w, s, target) && NoAction(s.log)
    ensures var d, (s', there) := s.status.displays[target], Moved(w, s, target);
            && (there <==> Arrives(w, s.tick + 2, d)) && s'.tick == ArrivalTick(w, s.tick + 2, d)
            && s'.tapHeld == (w.dock(s.tick + 2) == Some(d) && s.tapHeld)
            && s'.store == s.store && s'.status == s.status && s'.info == s.info
            && (HasAttempt(s'.log) <==> w.dock(s.tick + 2) != Some(d)) && !HasLockSet(s'.log)
            && (!there ==> s'.lock == 0)
  {
    hide RelocateUntilCurrent, IdentityOf;
    var d := s.status.displays[target];
    var s1 := RefreshSupport(w, s);
    var s2 := ClearLock(s1.(tick := s1.tick + 1, log := s1.log + [DockQueried(w.dock(s1.tick))]));
    if w.dock(s.tick + 2) != Some(d) {
      LoopIgnoresLock(w, s2.tick, s2.lock, s2.cache, d, 0);
      AttemptIsLogged(w, s2, d);
      MoveDockSetsNothing(w, s2, d);
    }
  }

  lemma MoveDockSetsNothing(w: World, s: Daemon, d: DisplayId)
    ensures HasLockSet(MoveDock(w, s, d).0.log) ==> HasLockSet(s.log)
  {
    hide RelocateUntilCurrent, LastDock, Placed;
    RelocationLoopShape(w, s.tick, s.lock, s.cache, d, 0);
  }

  /** The snapshot of `s` is what a status query at tick `t` answered. */
  ghost predicate Shows(w: World, s: Daemon, t: nat) {
    && s.status.displays == w.layout(t).Active() && s.status.location < |s.status.displays|
    && w.dock(t + 1) == Some(s.status.displays[s.status.location])
  }

  lemma LockAndSaveExactly(w: World, s: Daemon, d: DisplayId, id: Identity)
    requires id.Valid()
    ensures var (s', outcome) := LockAndSave(w, s, d, id);
            var locks := s.tapHeld || w.tap(s.tick);
            && outcome == (if !locks then TapFailed
                           else if !Accesses(w, s.tick + 2, 5) then NotSaved
                           else if !ListsDock(w, s.tick + 7) then NotRefreshed else Locked)
            && (HasLockSet(s'.log) <==> HasLockSet(s.log) || locks) && (HasAttempt(s'.log) <==> HasAttempt(s.log))
            && (locks ==> s'.lock == d && s'.tapHeld && s'.cache == FreshCache(w.layout(s.tick + 1)))
            && (!locks ==> s'.lock == s.lock && s'.store == s.store)
            && (outcome == Locked ==> Stored(s'.store) == Some(id) && Shows(w, s', s.tick + 7))
  {
    hide SetLock, Write, Stored, FreshCache, IndexOf, Accesses;
    SetLockExactly(w, s, d);
    var (s1, locked) := SetLock(w, s, d);
    if locked {
      WriteSucceedsIff(w, s1.tick, s1.store, SaveEdits(id));
      var written := Write(w, s1.tick, s1.store, SaveEdits(id));
      if written.ok {
        SaveLoadRoundTrip(w, s1.tick, s1.store, id);
        QuerySucceedsIff(w, written.tick);
        QueryAnswers(w, written.tick);
      }
    }
  }

  lemma QueryAnswers(w: World, t: nat)
    ensures var q := QueryStatus(w, t).value;
            q.Some? ==> q.value.location < |q.value.displays| && w.dock(t + 1) == Some(q.value.displays[q.value.location])
  {
  }

  /** Every outcome of a lock request with its exact condition on state and environment, at the ticks of
      its queries. */
  lemma RequestOutcomesExactly(w: World, s: Daemon, target: nat)
    requires NoAction(s.log)
    ensures var outcome := ApplySetState(w, s, target).1;
            var listed := target < |s.status.displays|;
            && (outcome == OutOfRange <==> !listed)
            && (outcome == Unsupported <==> listed && !w.bottom(s.tick + 1))
            && (outcome == NoIdentity <==> listed && w.bottom(s.tick + 1) && IdentityOf(s.status.displays[target], s.info) == None)
            && (outcome == DockUnknown <==> listed && w.bottom(s.tick + 1) && IdentityOf(s.status.displays[target], s.info).Some?
                                            && w.dock(s.tick + 2) == None)
            && (outcome == NotMoved <==> Admitted(w, s, target) && !Arrives(w, s.tick + 2, s.status.displays[target]))
            && (outcome == TapFailed <==> Admitted(w, s, target) && Arrives(w, s.tick + 2, s.status.displays[target])
                                          && !Locks(w, s, target))
            && (outcome in {Locked, NotSaved, NotRefreshed} <==> Locks(w, s, target))
            && (outcome == NotSaved <==> Locks(w, s, target)
                                         && !Accesses(w, ArrivalTick(w, s.tick + 2, s.status.displays[target]) + 2, 5))
            && (outcome == Locked <==> Granted(w, s, target))
  {
    hide MoveDock, LockAndSave, IdentityOf, Arrives, ArrivalTick, Accesses, ListsDock, Moved;
    if Admitted(w, s, target) {
      var d := s.status.displays[target];
      AdmittedRequest(w, s, target);
      MovedFacts(w, s, target);
      LockAndSaveExactly(w, Moved(w, s, target).0, d, IdentityOf(d, s.info).value);
    }
  }

  /** And what it leaves: it attempts to relocate exactly when it is admitted and the Dock is elsewhere, and
      it sets the lock, on the requested display with a freshly read cache, exactly when it locks. */
  lemma RequestEffectsExactly(w: World, s: Daemon, target: nat)
    requires NoAction(s.log)
    ensures var s' := ApplySetState(w, s, target).0;
            && (HasAttempt(s'.log) <==> Admitted(w, s, target) && w.dock(s.tick + 2) != Some(s.status.displays[target]))
            && (HasLockSet(s'.log) <==> Locks(w, s, target))
            && (Locks(w, s, target) ==>
                  var d := s.status.displays[target];
                  s'.lock == d && s'.tapHeld && s'.cache == FreshCache(w.layout(ArrivalTick(w, s.tick + 2, d) + 1)))
            && (Granted(w, s, target) ==>
                  var d := s.status.displays[target];
                  Stored(s'.store) == IdentityOf(d, s.info) && Shows(w, s', ArrivalTick(w, s.tick + 2, d) + 7))
  {
    hide MoveDock, LockAndSave, IdentityOf, Arrives, ArrivalTick, Accesses, ListsDock, Moved, Stored, FreshCache, Shows;
    if Admitted(w, s, target) {
      var d := s.status.displays[target];
      AdmittedRequest(w, s, target);
      MovedFacts(w, s, target);
      LockAndSaveExactly(w, Moved(w, s, target).0, d, IdentityOf(d, s.info).value);
    } else {
      RefusalIsQuiet(w, s, target);
    }
  }

  lemma RefusalIsQuiet(w: World, s: Daemon, target: nat)
    requires NoAction(s.log) && !Admitted(w, s, target)
    ensures NoAction(ApplySetState(w, s, target).0.log)
  {
    hide IdentityOf, MoveDock, LockAndSave;
  }

  /** In every run: a lock request relocates if and only if it is admitted and the Dock is elsewhere; it
      sets the lock if and only if, in addition, the Dock is or comes there and the tap is held or starts;
      it answers success if and only if, in addition, the five accesses of the save and the final status
      query succeed, and refuses otherwise. Then the lock is on the display, under a cache read after the
      relocation, its identity is stored, and the snapshot is what that query answered. */
  lemma LockRequestExactly(w: World, store: Store, states: seq<Daemon>, inputs: seq<Input>, i: nat, target: nat)
    requires IsRun(w, store, states, inputs) && i < |inputs| && inputs[i] == Asked(SetState(target))
    ensures var s, s' := states[i], states[i + 1];
            && (HasAttempt(s'.log) <==> Admitted(w, s, target) && w.dock(s.tick + 2) != Some(s.status.displays[target]))
            && (HasLockSet(s'.log) <==> Locks(w, s, target))
            && (Locks(w, s, target) ==>
                  var d := s.status.displays[target];
                  s'.lock == d && s'.tapHeld && s'.cache == FreshCache(w.layout(ArrivalTick(w, s.tick + 2, d) + 1)))
            && (Granted(w, s, target) ==>
                  var d := s.status.displays[target];
                  Stored(s'.store) == IdentityOf(d, s.info) && Shows(w, s', ArrivalTick(w, s.tick + 2, d) + 7))
    ensures HandleRequest(w, states[i].(log := []), SetState(target)).1 == if Granted(w, states[i], target) then Succeeded else Refused
  {
    hide Boot, ApplySetState, Stored, IdentityOf, FreshCache, Shows, Arrives, ArrivalTick, Accesses, ListsDock, HasAttempt, HasLockSet;
    TurnOf(w, store, states, inputs, i);
    var s := states[i].(log := []);
    RequestOutcomesExactly(w, s, target);
    RequestEffectsExactly(w, s, target);
    SameConditions(w, states[i], target);
  }

  /** The conditions do not look at the log. */
  lemma SameConditions(w: World, s: Daemon, target: nat)
    ensures var s0 := s.(log := []);
            && Admitted(w, s0, target) == Admitted(w, s, target) && Locks(w, s0, target) == Locks(w, s, target)
            && Granted(w, s0, target) == Granted(w, s, target)
  {
    hide IdentityOf, Arrives, ArrivalTick, Accesses, ListsDock;
  }

  /** From what happens outside alone: an admitted request is granted when the Dock is on the display, or
      the first relocation brings it there, and the tap, the save and the final status query then succeed
      at the ticks at which they come. */
  lemma BroughtDockGrants(w: World, s: Daemon, target: nat, k: nat)
    requires Admitted(w, s, target)
    requires var d := s.status.displays[target];
             var t := if w.dock(s.tick + 2) == Some(d) then s.tick + 3 else ProbeTick(s.tick + 20, k) + 4;
             && (w.dock(s.tick + 2) == Some(d) || BringsDock(w, s.tick + 3, d, k))
             && w.tap(t) && Accesses(w, t + 2, 5) && ListsDock(w, t + 7)
    ensures Granted(w, s, target)
  {
    hide BringsDock, Arrives, ArrivalTick, Accesses, ListsDock, IdentityOf;
    BroughtDockArrives(w, s.tick + 2, s.status.displays[target], k);
  }

  // ----- the other requests

  /** In every run an unlock succeeds, and clears lock and tap, if and only if its five accesses succeed;
      otherwise it leaves lock and tap as they were. */
  lemma UnlockExactly(w: World, store: Store, states: seq<Daemon>, inputs: seq<Input>, i: nat)
    requires IsRun(w, store, states, inputs) && i < |inputs| && inputs[i] == Asked(Unlock)
    ensures var s, s' := states[i], states[i + 1];
            if Accesses(w, s.tick, 5) then Unlocked(s') && !s'.tapHeld && LockCleared in s'.log
            else s'.lock == s.lock && s'.tapHeld == s.tapHeld && LockCleared !in s'.log
    ensures HandleRequest(w, states[i].(log := []), Unlock).1 == if Accesses(w, states[i].tick, 5) then Succeeded else Refused
  {
    hide Boot, Write, Stored, Accesses;
    TurnOf(w, store, states, inputs, i);
    WriteSucceedsIff(w, states[i].tick, states[i].store, CLEAR_EDITS);
    if Accesses(w, states[i].tick, 5) {
      UnlockUnlocks(w, states[i].(log := []));
    }
  }

  /** In every run a state is reported if and only if the Dock query answers a display of the snapshot. */
  lemma StateIsReportedIff(w: World, store: Store, states: seq<Daemon>, inputs: seq<Input>, i: nat)
    requires IsRun(w, store, states, inputs) && i < |states|
    ensures var s := states[i];
            HandleRequest(w, s.(log := []), GetState).1.State? <==>
            w.dock(s.tick).Some? && w.dock(s.tick).value in s.status.displays
  {
    hide IsRun;
    if w.dock(states[i].tick).Some? {
      var index := IndexOf(states[i].status.displays, w.dock(states[i].tick).value);
    }
  }
}
