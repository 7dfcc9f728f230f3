/** What polls do about a Dock that strayed from the locked display, and about a Dock that is not at
    the bottom of the screen. */
module HealingTheorems {
  import opened Options
  import opened Displays
  import opened DisplayLock
  import opened Environment
  import opened Preferences
  import opened Controller
  import opened LockTheorems
  import opened CallTheorems
  import opened PollTheorems
  import opened CooldownTheorems
  import opened DeliveryTheorems
  import opened RestoreTheorems
  import opened RecoveryTheorems
  import opened ReconnectTheorems

  // ----- a Dock that strayed

  /** Keeping a lock on a listed display never changes it, and succeeds only when the last Dock query
      answered that display. */
  lemma KeepLockOutcomes(w: World, s: Daemon)
    requires s.lock != 0 && s.lock in s.status.displays
    ensures var (s', ok) := KeepLock(w, s);
            && s'.lock == s.lock && s'.tapHeld == s.tapHeld && s'.store == s.store && s'.supported == s.supported
            && (ok ==> LastDock(s'.log) == Some(Some(s.lock)))
  {
    hide RelocateUntilCurrent, LastDock, QueryStatus, Placed, LoopEvents;
    var q := QueryStatus(w, s.tick);
    var s1 := s.(tick := q.tick, log := s.log + q.log);
    LastDockAfterQuery(s.log, w.dock(s.tick + 1));
    RelocationLoopShape(w, s1.tick, s1.lock, s1.cache, s1.lock, 0);
    LastDockConcat(s1.log, RelocateUntilCurrent(w, s1.tick, s1.lock, s1.cache, s1.lock, 0).log);
  }

  /** Event `k` marks a successful reconcile, and the last Dock query before it answered `d`. */
  ghost predicate ConfirmedAt(log: seq<Event>, d: DisplayId, k: nat) {
    k < |log| && log[k] == Reconciled(true) && LastDock(log[..k]) == Some(Some(d))
  }

  ghost predicate ReconcileConfirmed(log: seq<Event>, d: DisplayId) {
    exists k: nat :: ConfirmedAt(log, d, k)
  }

  lemma ReconcileKeepsLock(w: World, s: Daemon)
    requires s.supported && s.lock != 0 && s.lock in s.status.displays && w.bottom(s.tick + 1)
    ensures var (s', ok) := Reconcile(w, s);
            && s'.lock == s.lock && s'.tapHeld == s.tapHeld && s'.store == s.store
            && (ok ==> LastDock(s'.log) == Some(Some(s.lock)))
  {
    hide KeepLock, LastDock;
    KeepLockOutcomes(w, RefreshSupport(w, s));
  }

  lemma CoolKeepsLock(w: World, s: Daemon)
    requires s.supported && s.lock != 0 && s.lock in s.status.displays && w.bottom(s.tick + 1)
    requires forall e :: e in s.log ==> !e.Reconciled?
    ensures var s' := ReconcileAndCool(w, s);
            && s'.lock == s.lock && s'.tapHeld == s.tapHeld && s'.store == s.store
            && (exists e :: e in s'.log && e.Reconciled?)
            && (Reconciled(true) in s'.log ==> ReconcileConfirmed(s'.log, s.lock))
  {
    hide Reconcile, LastDock, IndexOf;
    ReconcileKeepsLock(w, s);
    ReconcileFrame(w, s);
    var (s1, ok) := Reconcile(w, s);
    var s' := ReconcileAndCool(w, s);
    assert s'.log[|s1.log|] == Reconciled(ok);
    assert s'.log[..|s1.log|] == s1.log;
    if ok {
      assert ConfirmedAt(s'.log, s.lock, |s1.log|);
    }
  }

  /** At tick `t` a probe finds the Dock on another display than `d`. */
  predicate Strayed(w: World, t: nat, d: DisplayId) {
    w.probe(t).Some? && w.probe(t) != Some(d)
  }

  /** The healing from `s` to `s'` read the clock at tick `t` and was to probe at the next: it reconciled
      exactly when the cooldown was over and the probe found the Dock elsewhere, and attempted to
      relocate exactly when, in addition, the status query of that reconcile did; the reconcile succeeded
      exactly when that query did and the Dock was or came to the locked display; otherwise nothing was
      moved or locked. */
  ghost predicate HealsAt(w: World, s: Daemon, s': Daemon, t: nat) {
    var due := !(s.cooldownUntil.Some? && w.clock(t) < s.cooldownUntil.value) && Strayed(w, t + 1, s.lock);
    && ((exists e :: e in s'.log && e.Reconciled?) <==> due)
    && (HasAttempt(s'.log) <==> due && Elsewhere(w, t + 4, s.lock))
    && (Reconciled(true) in s'.log <==> due && ListsDock(w, t + 4) && Arrives(w, t + 5, s.lock))
    && (!due ==> NoAction(s'.log))
  }

  lemma CoolAttemptsIff(w: World, s: Daemon)
    requires s.supported && s.lock != 0 && s.lock in s.status.displays && w.bottom(s.tick + 1) && !HasAttempt(s.log)
    ensures HasAttempt(ReconcileAndCool(w, s).log) <==> Elsewhere(w, s.tick + 2, s.lock)
  {
    hide Reconcile, IndexOf;
    ReconcileAttemptsIff(w, s);
    MarkedAttemptsIff(w, s);
    var s1 := MarkedReconcile(w, s).0;
    var s' := ReconcileAndCool(w, s);
    assert s'.log == s1.log || s'.log == s1.log + QueryStatus(w, s1.tick).log;
  }

  lemma ReconcileUnderLock(w: World, s: Daemon)
    requires s.supported && s.lock != 0 && s.lock in s.status.displays && w.bottom(s.tick + 1)
    ensures Reconcile(w, s).1 <==> ListsDock(w, s.tick + 2) && Arrives(w, s.tick + 3, s.lock)
  {
    hide KeepLock, ListsDock, Arrives;
    KeepLockExactly(w, RefreshSupport(w, s));
  }

  lemma CoolSucceedsIff(w: World, s: Daemon)
    requires s.supported && s.lock != 0 && s.lock in s.status.displays && w.bottom(s.tick + 1)
    requires forall e :: e in s.log ==> !e.Reconciled?
    ensures Reconciled(true) in ReconcileAndCool(w, s).log <==> ListsDock(w, s.tick + 2) && Arrives(w, s.tick + 3, s.lock)
  {
    hide Reconcile, IndexOf, ListsDock, Arrives;
    ReconcileUnderLock(w, s);
    ReconcileFrame(w, s);
    var log := Reconcile(w, s).0.log;
    assert MarkedReconcile(w, s).0.log[|log|] == Reconciled(Reconcile(w, s).1);
    assert MarkedReconcile(w, s).0.log[|log|] in ReconcileAndCool(w, s).log;
  }

  lemma HealIdles(w: World, s: Daemon)
    requires s.lock != 0 && (InCooldown(w, s) || !Strayed(w, s.tick + 1, s.lock))
    requires NoAction(s.log) && forall e :: e in s.log ==> !e.Reconciled?
    ensures var s' := Heal(w, s);
            && s'.lock == s.lock && s'.tapHeld == s.tapHeld && s'.store == s.store
            && NoAction(s'.log) && forall e :: e in s'.log ==> !e.Reconciled?
  {
    hide ReconcileAndCool;
  }

  lemma HealActs(w: World, s: Daemon)
    requires s.supported && s.lock != 0 && s.lock in s.status.displays && BottomDuring(w, s.tick, Heal(w, s).tick)
    requires NoAction(s.log) && (forall e :: e in s.log ==> !e.Reconciled?)
    requires !InCooldown(w, s) && Strayed(w, s.tick + 1, s.lock)
    ensures var s' := Heal(w, s);
            && s'.lock == s.lock && s'.tapHeld == s.tapHeld && s'.store == s.store
            && (exists e :: e in s'.log && e.Reconciled?) && (HasAttempt(s'.log) <==> Elsewhere(w, s.tick + 4, s.lock))
            && (Reconciled(true) in s'.log <==> ListsDock(w, s.tick + 4) && Arrives(w, s.tick + 5, s.lock))
            && (Reconciled(true) in s'.log ==> ReconcileConfirmed(s'.log, s.lock))
  {
    hide ReconcileAndCool, LastDock, Elsewhere, ReconcileConfirmed, ListsDock, Arrives;
    var s2 := s.(tick := s.tick + 2, log := s.log + [Probed(w.probe(s.tick + 1))]);
    CoolTicks(w, s2);
    CoolKeepsLock(w, s2);
    CoolAttemptsIff(w, s2);
    CoolSucceedsIff(w, s2);
  }

  lemma HealKeepsLock(w: World, s: Daemon)
    requires s.supported && s.lock != 0 && s.lock in s.status.displays && BottomDuring(w, s.tick, Heal(w, s).tick)
    requires NoAction(s.log) && forall e :: e in s.log ==> !e.Reconciled?
    ensures var s' := Heal(w, s);
            && s'.lock == s.lock && s'.tapHeld == s.tapHeld && s'.store == s.store && HealsAt(w, s, s', s.tick)
            && (Reconciled(true) in s'.log ==> ReconcileConfirmed(s'.log, s.lock))
  {
    hide Heal, LastDock, Elsewhere, ReconcileConfirmed, ListsDock, Arrives;
    if InCooldown(w, s) || !Strayed(w, s.tick + 1, s.lock) {
      HealIdles(w, s);
    } else {
      HealActs(w, s);
    }
  }

  /** In every run, a poll that sees an unchanged list and a bottom Dock while the lock is on a listed
      display keeps the lock. It reconciles exactly when its probe, at the tick after its clock reading,
      finds the Dock elsewhere outside the cooldown; it relocates exactly when the status query of that
      reconcile agrees; the reconcile succeeds exactly when that query does and the Dock is or comes to the
      locked display, and then ends with a Dock query that answered it. */
  lemma StrayDockIsHealed(w: World, store: Store, states: seq<Daemon>, inputs: seq<Input>, i: nat)
    requires IsRun(w, store, states, inputs) && i < |inputs| && inputs[i] == PollTick && Unchanged(w, states[i])
    requires states[i].supported && states[i].lock != 0 && states[i].lock in states[i].status.displays
    requires BottomDuring(w, states[i].tick, states[i + 1].tick)
    ensures states[i + 1].lock == states[i].lock && states[i + 1].store == states[i].store
    ensures HealsAt(w, states[i], states[i + 1], SupportTick(w, states[i]) + 1)
    ensures Reconciled(true) in states[i + 1].log ==> ReconcileConfirmed(states[i + 1].log, states[i].lock)
  {
    hide Step, Boot, Deciding, Heal, MarkedReconcile, LastDock, NoAction, ReconcileConfirmed, HasAttempt, SupportTick, ListsDock, Arrives;
    var s := states[i];
    var s1 := Deciding(w, s);
    TurnOf(w, store, states, inputs, i);
    UnchangedStep(w, s);
    DecidingFacts(w, s);
    SupportSoon(w, s);
    DecidingQuiet(w, s);
    StepPassesDeciding(w, s);
    HealKeepsLock(w, s1);
  }

  lemma DecidingQuiet(w: World, s: Daemon)
    ensures NoAction(Deciding(w, s).log) && forall e :: e in Deciding(w, s).log ==> !e.Reconciled?
  {
    hide Deciding;
    DecidingLog(w, s);
  }

  lemma SupportSoon(w: World, s: Daemon)
    ensures s.tick <= SupportTick(w, s)
  {
  }

  lemma StepPassesDeciding(w: World, s: Daemon)
    requires Unchanged(w, s)
    ensures Deciding(w, s).tick <= Step(w, s, PollTick).tick
  {
    hide Step, Deciding, Heal, Reconcile;
    UnchangedStep(w, s);
    HealFrame(w, Deciding(w, s));
    ReconcileFrame(w, Deciding(w, s));
  }

  // ----- a Dock at the side

  /** The Dock is not at the bottom at any tick of the interval. */
  ghost predicate SideDuring(w: World, from: nat, to: nat) {
    forall t :: from <= t < to ==> !w.bottom(t)
  }

  lemma ApplyUnlockQuiet(w: World, s: Daemon)
    requires NoAction(s.log)
    ensures NoAction(ApplyUnlock(w, s).0.log) && ApplyUnlock(w, s).0.supported == s.supported
  {
    hide Write;
  }

  lemma SideReconcile(w: World, s: Daemon)
    requires NoAction(s.log) && SideDuring(w, s.tick, Reconcile(w, s).0.tick)
    ensures NoAction(Reconcile(w, s).0.log) && !Reconcile(w, s).0.supported
  {
    hide ApplyUnlock, KeepLock, RestoreLock;
    ReconcileTicks(w, s);
    ApplyUnlockQuiet(w, RefreshSupport(w, s));
  }

  lemma SideCool(w: World, s: Daemon)
    requires NoAction(s.log) && SideDuring(w, s.tick, ReconcileAndCool(w, s).tick)
    ensures NoAction(ReconcileAndCool(w, s).log) && !ReconcileAndCool(w, s).supported
  {
    hide Reconcile, IndexOf;
    CoolTicks(w, s);
    SideReconcile(w, s);
  }

  lemma SidePollUnchanged(w: World, s: Daemon)
    requires NoAction(s.log) && SideDuring(w, s.tick, PollUnchanged(w, s).tick)
    ensures NoAction(PollUnchanged(w, s).log) && !PollUnchanged(w, s).supported
  {
    hide Observe, Reconcile, Heal;
    var s1 := Observe(w, s);
    ObserveFrame(w, s);
    ObserveSupport(w, s);
    ReconcileFrame(w, s1);
    HealFrame(w, s1);
    assert !w.bottom(s1.tick - 1);
    SideReconcile(w, s1);
  }

  lemma SidePollChanged(w: World, s: Daemon)
    requires NoAction(s.log) && SideDuring(w, s.tick, PollChanged(w, s).tick)
    ensures NoAction(PollChanged(w, s).log) && (!s.supported ==> !PollChanged(w, s).supported)
  {
    hide ReconcileAndCool, FreshCache, IndexOf;
    var s1 := RefreshStatus(w, RefreshInfo(w, RefreshCache(w, s))).0;
    assert s1.log == s.log + [CacheRefreshed] + QueryStatus(w, RefreshInfo(w, RefreshCache(w, s)).tick).log;
    if PollChanged(w, s) == ReconcileAndCool(w, s1) {
      SideCool(w, s1);
    }
  }

  lemma SideRequest(w: World, s: Daemon, request: Request)
    requires NoAction(s.log) && SideDuring(w, s.tick, HandleRequest(w, s, request).0.tick)
    ensures var s' := HandleRequest(w, s, request).0; NoAction(s'.log) && (!s.supported ==> !s'.supported)
  {
    hide ApplyUnlock, LockAndSave, MoveDock, IndexOf, IdentityOf;
    match request
    case GetState =>
    case SetState(target) => ApplySetTicks(w, s, target);
    case Unlock => ApplyUnlockQuiet(w, s);
  }

  lemma ApplySetTicks(w: World, s: Daemon, target: nat)
    ensures target < |s.status.displays| ==> s.tick + 2 <= ApplySetState(w, s, target).0.tick
  {
    hide MoveDock, LockAndSave, IdentityOf;
    if target < |s.status.displays| {
      var d := s.status.displays[target];
      var s1 := RefreshSupport(w, s);
      var s2 := s1.(tick := s1.tick + 1, log := s1.log + [DockQueried(w.dock(s1.tick))]);
      MoveDockFrame(w, ClearLock(s2), d);
      var id := IdentityOf(d, s1.info);
      if id.Some? {
        LockAndSaveFrame(w, s2, d, id.value);
        LockAndSaveFrame(w, MoveDock(w, ClearLock(s2), d).0, d, id.value);
      }
    }
  }

  /** A turn during which the Dock is never at the bottom relocates nothing and locks nothing; if it is
      a poll of an unchanged list, the Dock is known to be unsupported afterwards, and stays so. */
  lemma SideTurn(w: World, s: Daemon, input: Input)
    requires SideDuring(w, s.tick, Step(w, s, input).tick)
    ensures var s' := Step(w, s, input);
            && NoAction(s'.log) && (!s.supported ==> !s'.supported)
            && (input == PollTick && w.layout(s.tick).Active() == s.status.displays ==> !s'.supported)
  {
    hide PollUnchanged, PollChanged, HandleRequest;
    var s0 := s.(log := []);
    match input
    case Asked(request) => SideRequest(w, s0, request);
    case PollTick =>
      var ids := w.layout(s.tick).Active();
      var s1 := s0.(tick := s.tick + 1, log := [] + [Polled(ids)]);
      if ids == s.status.displays {
        SidePollUnchanged(w, s1);
      } else if s.pending == Some(ids) {
        SidePollChanged(w, s1.(pending := None, log := s1.log + [ChangeAccepted(ids)]));
      }
  }

  /** With the Dock at the side the lock is disabled: in every run, while the Dock is not at the bottom
      nothing is relocated or locked, and after the first poll of an unchanged list no mouse event is
      suppressed, whatever the lock, the cache and the requests. */
  lemma SideDockIsLeftAlone(w: World, store: Store, states: seq<Daemon>, inputs: seq<Input>, i: nat, j: nat)
    requires IsRun(w, store, states, inputs) && i < j < |states|
    requires SideDuring(w, states[i].tick, states[j].tick)
    ensures NoAction(states[j].log)
    ensures inputs[i] == PollTick && w.layout(states[i].tick).Active() == states[i].status.displays ==>
              forall p :: !ShouldSuppress(states[j].supported, states[j].lock, states[j].cache, p)
  {
    hide Step, Boot, ShouldSuppress, NoAction;
    SideSupport(w, store, states, inputs, i, j);
    UnsupportedNeverSuppresses(states[j].lock, states[j].cache);
  }

  lemma UnsupportedNeverSuppresses(lock: DisplayId, cache: seq<DisplayBounds>)
    ensures forall p :: !ShouldSuppress(false, lock, cache, p)
  {
  }

  lemma {:induction false} SideSupport(w: World, store: Store, states: seq<Daemon>, inputs: seq<Input>, i: nat, j: nat)
    requires IsRun(w, store, states, inputs) && i < j < |states|
    requires SideDuring(w, states[i].tick, states[j].tick)
    ensures NoAction(states[j].log)
    ensures inputs[i] == PollTick && w.layout(states[i].tick).Active() == states[i].status.displays ==> !states[j].supported
  {
    hide Step, Boot, NoAction;
    TurnOf(w, store, states, inputs, j - 1);
    StepFrame(w, states[j - 1], inputs[j - 1]);
    TicksGrow(w, store, states, inputs, i, j - 1);
    SideTurn(w, states[j - 1], inputs[j - 1]);
    if i < j - 1 {
      SideSupport(w, store, states, inputs, i, j - 1);
    }
  }

  /** When storing works too, such a poll removes the lock and the stored preference, in every run. */
  lemma SideDockUnlocks(w: World, store: Store, states: seq<Daemon>, inputs: seq<Input>, i: nat)
    requires IsRun(w, store, states, inputs) && i < |inputs| && inputs[i] == PollTick
    requires w.layout(states[i].tick).Active() == states[i].status.displays
    requires SideDuring(w, states[i].tick, states[i + 1].tick)
    requires forall t :: states[i].tick <= t < states[i + 1].tick ==> w.store(t)
    ensures Unlocked(states[i + 1]) && !states[i + 1].tapHeld
  {
    hide Step, Boot, Unlocked;
    TurnOf(w, store, states, inputs, i);
    SidePollUnlocks(w, states[i]);
  }

  lemma SidePollUnlocks(w: World, s: Daemon)
    requires SideDuring(w, s.tick, Step(w, s, PollTick).tick) && w.layout(s.tick).Active() == s.status.displays
    requires forall t :: s.tick <= t < Step(w, s, PollTick).tick ==> w.store(t)
    ensures Unlocked(Step(w, s, PollTick)) && !Step(w, s, PollTick).tapHeld
  {
    hide Observe, Reconcile, Heal, Stored;
    var s1 := s.(tick := s.tick + 1, log := [] + [Polled(w.layout(s.tick).Active())]);
    var s2 := Observe(w, s1);
    ObserveFrame(w, s1);
    ObserveSupport(w, s1);
    ReconcileFrame(w, s2);
    HealFrame(w, s2);
    assert !w.bottom(s2.tick - 1);
    SideReconcileUnlocks(w, s2);
  }

  lemma SideReconcileUnlocks(w: World, s: Daemon)
    requires SideDuring(w, s.tick, Reconcile(w, s).0.tick)
    requires forall t :: s.tick <= t < Reconcile(w, s).0.tick ==> w.store(t)
    ensures Unlocked(Reconcile(w, s).0) && !Reconcile(w, s).0.tapHeld
  {
    hide KeepLock, RestoreLock, Write, Stored, Unlocked;
    ReconcileTicks(w, s);
    var s1 := RefreshSupport(w, s);
    UnlockTicks(w, s1);
    UnlockUnlocks(w, s1);
  }

  lemma UnlockTicks(w: World, s: Daemon)
    ensures !ApplyUnlock(w, s).1 ==> exists t :: s.tick <= t < ApplyUnlock(w, s).0.tick && !w.store(t)
  {
    FailureIsSeen(w, s.tick, s.store, CLEAR_EDITS);
  }

  /** A write that fails has seen a failing access. */
  lemma {:induction false} FailureIsSeen(w: World, tick: nat, store: Store, edits: seq<Edit>)
    ensures !Write(w, tick, store, edits).ok ==>
              exists t :: tick <= t < Write(w, tick, store, edits).tick && !w.store(t)
    decreases |edits|
  {
    if edits != [] && w.store(tick) {
      FailureIsSeen(w, tick + 1, Apply(store, edits[0]), edits[1..]);
    }
  }
}
