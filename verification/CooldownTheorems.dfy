/** The pause after a failed reconcile, over runs: which failures start it, and when a poll relocates
    within it. */
module CooldownTheorems {
  import opened Options
  import opened Displays
  import opened DisplayLock
  import opened Environment
  import opened Preferences
  import opened Relocation
  import opened Controller
  import opened PollTheorems

  // ----- what a poll of an unchanged list reads, and when

  /** A poll that starts in `s` sees the list of the snapshot. */
  predicate Unchanged(w: World, s: Daemon) { w.layout(s.tick).Active() == s.status.displays }

  predicate InfoDue(w: World, s: Daemon) { s.infoRetryAfter.Some? && w.clock(s.tick + 1) >= s.infoRetryAfter.value }

  /** The tick at which such a poll first asks for the Dock's orientation. With a bottom Dock it reads the
      clock for the cooldown at the next tick and, under a lock, probes at the one after that. */
  function SupportTick(w: World, s: Daemon): nat { s.tick + if InfoDue(w, s) then 7 else 5 }

  /** The display info it then has. */
  function InfoThen(w: World, s: Daemon): map<DisplayId, DisplayInfo> {
    if InfoDue(w, s) then OrElse(w.info(s.tick + 2), s.info) else s.info
  }

  /** The state in which it decides what to do. */
  function Deciding(w: World, s: Daemon): Daemon {
    Observe(w, s.(tick := s.tick + 1, log := [] + [Polled(w.layout(s.tick).Active())]))
  }

  /** What it has refreshed before it asks for the orientation. */
  function Refreshing(w: World, s: Daemon): Daemon {
    var s1 := s.(tick := s.tick + 2, log := [] + [Polled(w.layout(s.tick).Active())], pending := None);
    RefreshCache(w, if InfoDue(w, s) then RefreshInfo(w, s1) else s1)
  }

  lemma DecidingUnfolds(w: World, s: Daemon)
    ensures Deciding(w, s) == RefreshSupport(w, RefreshLocation(w, Refreshing(w, s)).0)
  {
    hide RefreshInfo, RefreshCache, RefreshLocation, RefreshSupport;
  }

  lemma LocationOnly(w: World, s: Daemon)
    ensures var s' := RefreshLocation(w, s).0;
            s' == s.(tick := s.tick + 1, log := s'.log, status := s'.status) && s'.status.displays == s.status.displays
  {
    hide IndexOf;
  }

  lemma DecidingFacts(w: World, s: Daemon)
    ensures var c, s' := SupportTick(w, s), Deciding(w, s);
            && s'.tick == c + 1 && s'.supported == w.bottom(c)
            && s'.lock == (if !s.supported && w.mouse(c - 1) then 0 else s.lock) && s'.tapHeld == s.tapHeld
            && s'.status.displays == s.status.displays && s'.store == s.store && s'.info == InfoThen(w, s)
            && s'.cooldownUntil == s.cooldownUntil && (!InfoDue(w, s) ==> s'.infoRetryAfter == s.infoRetryAfter)
  {
    hide FreshCache, Deciding, RefreshLocation;
    DecidingUnfolds(w, s);
    LocationOnly(w, Refreshing(w, s));
  }

  lemma DecidingLog(w: World, s: Daemon)
    ensures forall e :: e in Deciding(w, s).log ==> !e.Attempted? && !e.Reconciled? && !e.LockSet? && !e.ChangeAccepted?
  {
    hide Observe;
    ObserveFrame(w, s.(tick := s.tick + 1, log := [] + [Polled(w.layout(s.tick).Active())]));
  }

  /** With a bottom Dock such a poll heals, otherwise it reconciles. */
  lemma UnchangedStep(w: World, s: Daemon)
    requires Unchanged(w, s)
    ensures Step(w, s, PollTick) ==
            (if w.bottom(SupportTick(w, s)) then Heal(w, Deciding(w, s)) else MarkedReconcile(w, Deciding(w, s)).0)
  {
    hide Observe, Heal, MarkedReconcile, SupportTick;
    hide PollChanged;
    DecidingFacts(w, s);
  }

  // ----- when a reconcile attempts to relocate

  /** A status query at tick `t` succeeds and does not find the Dock on `d`. */
  predicate Elsewhere(w: World, t: nat, d: DisplayId) {
    w.dock(t + 1).Some? && w.dock(t + 1).value in w.layout(t).Active() && w.dock(t + 1) != Some(d)
  }

  /** From tick `t` a reconcile, supported, finds that it has to move the Dock: away from the locked
      display, which is listed, or without a lock away from a listed display with the stored identity. */
  predicate MustMove(w: World, t: nat, displays: seq<DisplayId>, lock: DisplayId, store: Store, info: map<DisplayId, DisplayInfo>) {
    if lock != 0 then lock in displays && Elsewhere(w, t, lock)
    else
      && w.store(t) && w.store(t + 1) && w.store(t + 2) && w.store(t + 3) && Stored(store).Some?
      && var found := FindByIdentity(Stored(store).value, displays, info);
         found.Some? && Elsewhere(w, t + 4, found.value)
  }

  lemma AttemptIsLogged(w: World, s: Daemon, d: DisplayId)
    ensures Attempted(d, s.lock, s.cache, s.tick) in MoveDock(w, s, d).0.log
  {
    hide Relocate, Confirmed, SettleLog;
    var log := RelocateUntilCurrent(w, s.tick, s.lock, s.cache, d, 0).log;
    assert log != [] && log[0] == Attempted(d, s.lock, s.cache, s.tick);
  }

  lemma KeepLockAttemptsIff(w: World, s: Daemon)
    requires s.lock != 0 && !HasAttempt(s.log)
    ensures HasAttempt(KeepLock(w, s).0.log) <==> MustMove(w, s.tick, s.status.displays, s.lock, s.store, s.info)
  {
    hide MoveDock, IndexOf;
    var q := QueryStatus(w, s.tick);
    QuerySucceedsIff(w, s.tick);
    AttemptIsLogged(w, s.(tick := q.tick, log := s.log + q.log), s.lock);
  }

  lemma SetLockAttempts(w: World, s: Daemon, d: DisplayId)
    ensures HasAttempt(SetLock(w, s, d).0.log) <==> HasAttempt(s.log)
  {
    hide FreshCache;
    assert s.log <= SetLock(w, s, d).0.log;
  }

  lemma RestoreLockAttemptsIff(w: World, s: Daemon)
    requires s.lock == 0 && !HasAttempt(s.log)
    ensures HasAttempt(RestoreLock(w, s).0.log) <==> MustMove(w, s.tick, s.status.displays, s.lock, s.store, s.info)
  {
    hide MoveDock, QueryStatus, SetLock, Stored, FindByIdentity;
    if Load(w, s.tick, s.store).value == LoadedIdentity(Stored(s.store)) && Stored(s.store).Some? {
      var s1 := s.(tick := s.tick + 4);
      var q := QueryStatus(w, s1.tick);
      QuerySucceedsIff(w, s1.tick);
      var s2 := s1.(tick := q.tick, log := s1.log + q.log);
      forall d: DisplayId
        ensures HasAttempt(MoveDock(w, s2, d).0.log) && HasAttempt(SetLock(w, MoveDock(w, s2, d).0, d).0.log)
        ensures !HasAttempt(SetLock(w, s2, d).0.log)
      {
        AttemptIsLogged(w, s2, d);
        SetLockAttempts(w, s2, d);
        SetLockAttempts(w, MoveDock(w, s2, d).0, d);
      }
    }
  }

  /** A reconcile attempts to relocate if and only if it reads a bottom Dock and has to move it. */
  lemma ReconcileAttemptsIff(w: World, s: Daemon)
    requires !HasAttempt(s.log)
    ensures HasAttempt(Reconcile(w, s).0.log) <==>
            w.bottom(s.tick + 1)
            && MustMove(w, s.tick + 2, s.status.displays, if !s.supported && w.mouse(s.tick) then 0 else s.lock, s.store, s.info)
  {
    hide KeepLock, RestoreLock, MustMove, Write;
    var s1 := RefreshSupport(w, s);
    if s1.supported {
      if s1.lock != 0 {
        KeepLockAttemptsIff(w, s1);
      } else {
        RestoreLockAttemptsIff(w, s1);
      }
    }
  }

  lemma MarkedAttemptsIff(w: World, s: Daemon)
    ensures HasAttempt(MarkedReconcile(w, s).0.log) <==> HasAttempt(Reconcile(w, s).0.log)
  {
    hide Reconcile;
  }

  /** In every run, a poll of an unchanged list in which the cooldown still runs when its first orientation
      reading is done attempts to relocate if and only if that reading is not bottom, the one of the
      reconcile two ticks later is, and that reconcile has to move the Dock. */
  lemma AttemptsWithinCooldownExactly(w: World, store: Store, states: seq<Daemon>, inputs: seq<Input>, i: nat)
    requires IsRun(w, store, states, inputs) && i < |inputs| && inputs[i] == PollTick && Unchanged(w, states[i])
    requires states[i].cooldownUntil.Some? && w.clock(SupportTick(w, states[i]) + 1) < states[i].cooldownUntil.value
    ensures var s, c := states[i], SupportTick(w, states[i]);
            var lock := if (!s.supported && w.mouse(c - 1)) || w.mouse(c + 1) then 0 else s.lock;
            HasAttempt(states[i + 1].log) <==>
            !w.bottom(c) && w.bottom(c + 2) && MustMove(w, c + 3, s.status.displays, lock, s.store, InfoThen(w, s))
  {
    hide Boot, Step, Deciding, MustMove, Reconcile, ReconcileAndCool, NeedsHealing, MarkedReconcile;
    var s := states[i];
    TurnOf(w, store, states, inputs, i);
    UnchangedStep(w, s);
    DecidingFacts(w, s);
    DecidingLog(w, s);
    ReconcileAttemptsIff(w, Deciding(w, s));
    MarkedAttemptsIff(w, Deciding(w, s));
  }

  // ----- which failures start the cooldown

  /** A poll that starts in `s` reconciles on the paths that start the cooldown when that fails: it sees
      another list, or a bottom Dock on its first orientation reading. */
  predicate StartsCooldown(w: World, s: Daemon) {
    !Unchanged(w, s) || w.bottom(SupportTick(w, s))
  }

  ghost predicate CooldownJustStarted(w: World, s': Daemon) {
    s'.tick > 0 && s'.cooldownUntil == Some(w.clock(s'.tick - 1) + RECONCILE_COOLDOWN)
  }

  lemma ReconcileAndCoolFailure(w: World, s: Daemon)
    requires Reconciled(false) !in s.log && Reconciled(false) in ReconcileAndCool(w, s).log
    ensures CooldownJustStarted(w, ReconcileAndCool(w, s))
  {
    hide Reconcile, IndexOf;
    ReconcileFrame(w, s);
  }

  lemma NeedsHealingMarks(w: World, s: Daemon)
    ensures NoNewMarks(s.log, NeedsHealing(w, s).0.log)
  {
    hide Load, FindByIdentity;
  }

  lemma HealFailure(w: World, s: Daemon)
    requires Reconciled(false) !in s.log && Reconciled(false) in Heal(w, s).log
    ensures CooldownJustStarted(w, Heal(w, s))
  {
    hide ReconcileAndCool, NeedsHealing;
    var s1 := s.(tick := s.tick + 1);
    NeedsHealingMarks(w, s1);
    if !InCooldown(w, s) && NeedsHealing(w, s1).1 {
      ReconcileAndCoolFailure(w, NeedsHealing(w, s1).0);
    }
  }

  lemma ChangedFailure(w: World, s: Daemon)
    requires Reconciled(false) !in s.log && Reconciled(false) in PollChanged(w, s).log
    ensures CooldownJustStarted(w, PollChanged(w, s))
  {
    hide ReconcileAndCool, RefreshInfo, FreshCache, IndexOf;
    RefreshInfoFrame(w, RefreshCache(w, s));
    var s2 := RefreshStatus(w, RefreshInfo(w, RefreshCache(w, s))).0;
    assert Reconciled(false) !in s2.log;
    ReconcileAndCoolFailure(w, s2);
  }

  lemma RequestsLeaveCooldown(w: World, s: Daemon, request: Request)
    ensures var s' := Step(w, s, Asked(request)); s'.cooldownUntil == s.cooldownUntil && Reconciled(false) !in s'.log
  {
    hide HandleRequest;
    HandleRequestFrame(w, s.(log := []), request);
  }

  lemma FailedTurnCools(w: World, s: Daemon, input: Input)
    requires Reconciled(false) in Step(w, s, input).log
    ensures input == PollTick
    ensures StartsCooldown(w, s) ==> CooldownJustStarted(w, Step(w, s, input))
    ensures !StartsCooldown(w, s) ==> Step(w, s, input).cooldownUntil == s.cooldownUntil
  {
    hide Step, Deciding, Heal, Reconcile, PollChanged, SupportTick;
    if input.Asked? {
      RequestsLeaveCooldown(w, s, input.request);
    } else if Unchanged(w, s) {
      UnchangedStep(w, s);
      DecidingLog(w, s);
      DecidingFacts(w, s);
      if w.bottom(SupportTick(w, s)) {
        HealFailure(w, Deciding(w, s));
      } else {
        ReconcileFrame(w, Deciding(w, s));
      }
    } else {
      ChangedTurnFails(w, s);
    }
  }

  lemma ChangedTurnFails(w: World, s: Daemon)
    requires !Unchanged(w, s) && Reconciled(false) in Step(w, s, PollTick).log
    ensures CooldownJustStarted(w, Step(w, s, PollTick))
  {
    hide PollUnchanged, PollChanged;
    var ids := w.layout(s.tick).Active();
    var s1 := s.(tick := s.tick + 1, log := [] + [Polled(ids)]);
    if s.pending == Some(ids) {
      ChangedFailure(w, s1.(pending := None, log := s1.log + [ChangeAccepted(ids)]));
    }
  }

  lemma FailedBootCools(w: World, store: Store)
    requires Boot(w, store).Some? && Reconciled(false) in Boot(w, store).value.log
    ensures CooldownJustStarted(w, Boot(w, store).value)
  {
    hide Reconcile, IndexOf;
    var q := QueryStatus(w, 0);
    ReconcileFrame(w, Initial(q.tick + 1, store, q.value.value, w.info(q.tick).value));
  }

  /** Which failing reconciles start the cooldown, in every run: the one at start-up and those of polls
      that saw another list or first read a bottom Dock, with 5 seconds from the last clock reading of
      the turn. A failing reconcile of any other poll leaves the cooldown as it was. */
  lemma FailureStartsCooldown(w: World, store: Store, states: seq<Daemon>, inputs: seq<Input>, i: nat)
    requires IsRun(w, store, states, inputs) && i < |states| && Reconciled(false) in states[i].log
    ensures i > 0 ==> inputs[i - 1] == PollTick
    ensures i == 0 || StartsCooldown(w, states[i - 1]) ==>
              states[i].tick > 0 && states[i].cooldownUntil == Some(w.clock(states[i].tick - 1) + 5000)
    ensures i > 0 && !StartsCooldown(w, states[i - 1]) ==> states[i].cooldownUntil == states[i - 1].cooldownUntil
  {
    hide Step, Boot, StartsCooldown;
    if i == 0 {
      StartOf(w, store, states, inputs);
      FailedBootCools(w, store);
    } else {
      TurnOf(w, store, states, inputs, i - 1);
      FailedTurnCools(w, states[i - 1], inputs[i - 1]);
    }
  }

  lemma CoolSuccess(w: World, s: Daemon)
    requires Reconciled(true) !in s.log && Reconciled(true) in ReconcileAndCool(w, s).log
    ensures Refreshed(w, ReconcileAndCool(w, s))
  {
    hide Reconcile, IndexOf;
    ReconcileFrame(w, s);
    QuerySucceedsIff(w, Reconcile(w, s).0.tick);
  }

  /** The cooldown is over, and the snapshot is what the status query at the end answered, if it did. */
  ghost predicate Refreshed(w: World, s: Daemon) {
    && s.cooldownUntil == None && s.tick >= 2
    && (w.dock(s.tick - 1).Some? && w.dock(s.tick - 1).value in w.layout(s.tick - 2).Active() ==>
          && s.status.displays == w.layout(s.tick - 2).Active() && s.status.location < |s.status.displays|
          && w.dock(s.tick - 1) == Some(s.status.displays[s.status.location]))
  }

  lemma HealSuccess(w: World, s: Daemon)
    requires Reconciled(true) !in s.log && Reconciled(true) in Heal(w, s).log
    ensures Refreshed(w, Heal(w, s))
  {
    hide ReconcileAndCool, NeedsHealing, Refreshed;
    var s1 := s.(tick := s.tick + 1);
    NeedsHealingMarks(w, s1);
    if !InCooldown(w, s) && NeedsHealing(w, s1).1 {
      CoolSuccess(w, NeedsHealing(w, s1).0);
    }
  }

  lemma ChangedSuccess(w: World, s: Daemon)
    requires !Unchanged(w, s) && Reconciled(true) in Step(w, s, PollTick).log
    ensures Refreshed(w, Step(w, s, PollTick))
  {
    hide PollUnchanged, ReconcileAndCool, RefreshInfo, FreshCache, IndexOf, Refreshed;
    var ids := w.layout(s.tick).Active();
    var s1 := s.(tick := s.tick + 1, log := [] + [Polled(ids)] + [ChangeAccepted(ids)], pending := None);
    RefreshInfoFrame(w, RefreshCache(w, s1));
    var s2 := RefreshStatus(w, RefreshInfo(w, RefreshCache(w, s1))).0;
    assert Reconciled(true) !in s2.log;
    if s.pending == Some(ids) && RefreshStatus(w, RefreshInfo(w, RefreshCache(w, s1))).1 {
      CoolSuccess(w, s2);
    }
  }

  /** In every run, a successful reconcile of a poll that saw another list or first read a bottom Dock ends
      the cooldown, and the poll ends with the snapshot as its last status query answered it. */
  lemma SuccessEndsCooldown(w: World, store: Store, states: seq<Daemon>, inputs: seq<Input>, i: nat)
    requires IsRun(w, store, states, inputs) && 0 < i < |states| && inputs[i - 1] == PollTick
    requires Reconciled(true) in states[i].log && StartsCooldown(w, states[i - 1])
    ensures Refreshed(w, states[i])
  {
    hide Step, Boot, Deciding, Heal, SupportTick, MarkedReconcile, Refreshed;
    var s := states[i - 1];
    TurnOf(w, store, states, inputs, i - 1);
    if Unchanged(w, s) {
      UnchangedStep(w, s);
      DecidingLog(w, s);
      HealSuccess(w, Deciding(w, s));
    } else {
      ChangedSuccess(w, s);
    }
  }

  // ----- no retry within the cooldown

  /** The cooldown still runs until `until` at least, or `until` has passed. */
  ghost predicate Guarded(w: World, s: Daemon, until: nat) {
    (s.cooldownUntil.Some? && until <= s.cooldownUntil.value) || until <= w.clock(s.tick)
  }

  /** The turn that ended in `s` reconciled a changed list, successfully. */
  ghost predicate ChangeReconciled(s: Daemon) {
    Reconciled(true) in s.log && exists e :: e in s.log && e.ChangeAccepted?
  }

  /** All attempts in `log` began when `until` had passed. */
  ghost predicate AttemptsAfter(w: World, log: seq<Event>, until: nat) {
    forall e :: e in log && e.Attempted? ==> until <= w.clock(e.tick)
  }

  lemma GuardedLater(w: World, s: Daemon, s': Daemon, until: nat)
    requires w.Monotone() && Guarded(w, s, until) && s.tick <= s'.tick && s'.cooldownUntil == s.cooldownUntil
    ensures Guarded(w, s', until)
  {
  }

  lemma NeedsHealingFrame(w: World, s: Daemon)
    ensures var s' := NeedsHealing(w, s).0;
            s.tick <= s'.tick && s'.cooldownUntil == s.cooldownUntil && (HasAttempt(s'.log) ==> HasAttempt(s.log))
  {
    hide Load, FindByIdentity;
  }

  /** A healing poll acts only once `until` has passed. */
  lemma HealIsGuarded(w: World, s: Daemon, until: nat)
    requires w.Monotone() && Guarded(w, s, until) && !HasAttempt(s.log)
    ensures Guarded(w, Heal(w, s), until) && AttemptsAfter(w, Heal(w, s).log, until)
  {
    hide ReconcileAndCool, NeedsHealing;
    if !InCooldown(w, s) {
      var s1 := s.(tick := s.tick + 1);
      NeedsHealingFrame(w, s1);
      ReconcileAndCoolFrame(w, NeedsHealing(w, s1).0);
      assert w.clock(s.tick) <= w.clock(Heal(w, s).tick);
    }
  }

  lemma UnchangedIsGuarded(w: World, s: Daemon, until: nat)
    requires w.Monotone() && Guarded(w, s, until) && Unchanged(w, s)
    ensures Guarded(w, Step(w, s, PollTick), until)
    ensures w.bottom(SupportTick(w, s)) ==> AttemptsAfter(w, Step(w, s, PollTick).log, until)
  {
    hide Step, Deciding, Heal, Reconcile, AttemptsAfter;
    var s1 := Deciding(w, s);
    UnchangedStep(w, s);
    DecidingFacts(w, s);
    DecidingLog(w, s);
    GuardedLater(w, s, s1, until);
    if w.bottom(SupportTick(w, s)) {
      HealIsGuarded(w, s1, until);
    } else {
      ReconcileFrame(w, s1);
      GuardedLater(w, s1, MarkedReconcile(w, s1).0, until);
    }
  }

  lemma ChangedIsGuarded(w: World, s: Daemon, until: nat)
    requires w.Monotone() && Guarded(w, s, until) && until <= w.clock(s.tick) + RECONCILE_COOLDOWN
    ensures Guarded(w, PollChanged(w, s), until) || Reconciled(true) in PollChanged(w, s).log
  {
    hide Reconcile, RefreshInfo, FreshCache, IndexOf;
    var s1 := RefreshCache(w, s);
    RefreshInfoFrame(w, s1);
    var (s2, ok) := RefreshStatus(w, RefreshInfo(w, s1));
    if ok {
      var (s3, done) := Reconcile(w, s2);
      ReconcileFrame(w, s2);
      assert (s3.log + [Reconciled(done)])[|s3.log|] == Reconciled(done);
      if done {
        var s' := PollChanged(w, s);
        assert s3.log + [Reconciled(true)] <= s'.log;
        assert s'.log[|s3.log|] == Reconciled(true);
      } else {
        assert w.clock(s.tick) <= w.clock(s3.tick);
      }
    } else {
      GuardedLater(w, s, s2, until);
    }
  }

  lemma ChangedTurnIsGuarded(w: World, s: Daemon, until: nat)
    requires w.Monotone() && Guarded(w, s, until) && until <= w.clock(s.tick) + RECONCILE_COOLDOWN && !Unchanged(w, s)
    ensures Guarded(w, Step(w, s, PollTick), until) || ChangeReconciled(Step(w, s, PollTick))
  {
    hide PollUnchanged, PollChanged;
    var ids := w.layout(s.tick).Active();
    var s1 := s.(tick := s.tick + 1, log := [] + [Polled(ids)]);
    assert w.clock(s.tick) <= w.clock(s1.tick);
    if s.pending == Some(ids) {
      var s2 := s1.(pending := None, log := s1.log + [ChangeAccepted(ids)]);
      ChangedIsGuarded(w, s2, until);
      PollChangedFrame(w, s2);
      assert s2.log[1] == ChangeAccepted(ids);
      assert PollChanged(w, s2).log[1] == ChangeAccepted(ids);
    }
  }

  /** One turn keeps the guard unless it reconciles a changed list. */
  lemma StepIsGuarded(w: World, s: Daemon, input: Input, until: nat)
    requires w.Monotone() && Guarded(w, s, until) && until <= w.clock(s.tick) + RECONCILE_COOLDOWN
    ensures Guarded(w, Step(w, s, input), until) || ChangeReconciled(Step(w, s, input))
  {
    hide Step, Unchanged;
    StepFrame(w, s, input);
    if input.Asked? {
      RequestsLeaveCooldown(w, s, input.request);
      GuardedLater(w, s, Step(w, s, input), until);
    } else if Unchanged(w, s) {
      UnchangedIsGuarded(w, s, until);
    } else {
      ChangedTurnIsGuarded(w, s, until);
    }
  }

  lemma {:induction false} GuardOverRun(w: World, store: Store, states: seq<Daemon>, inputs: seq<Input>, i: nat, j: nat)
    requires IsRun(w, store, states, inputs) && w.Monotone() && i <= j < |states|
    requires CooldownJustStarted(w, states[i])
    requires forall m :: i < m <= j ==> !ChangeReconciled(states[m])
    ensures states[i].tick <= states[j].tick && Guarded(w, states[j], w.clock(states[i].tick - 1) + RECONCILE_COOLDOWN)
  {
    hide Step, Boot, ChangeReconciled;
    if i < j {
      TurnOf(w, store, states, inputs, j - 1);
      GuardOverRun(w, store, states, inputs, i, j - 1);
      StepIsGuarded(w, states[j - 1], inputs[j - 1], w.clock(states[i].tick - 1) + RECONCILE_COOLDOWN);
      StepFrame(w, states[j - 1], inputs[j - 1]);
    }
  }

  /** After a failing reconcile that started the cooldown, at start-up or in a poll, in every run and
      until a changed list is reconciled: a poll of an unchanged list that first reads a bottom Dock
      begins every relocation attempt only when 5 seconds have passed. */
  lemma NoRetryWithinCooldown(w: World, store: Store, states: seq<Daemon>, inputs: seq<Input>, i: nat, j: nat)
    requires IsRun(w, store, states, inputs) && w.Monotone() && i <= j < |inputs|
    requires Reconciled(false) in states[i].log && (i == 0 || StartsCooldown(w, states[i - 1]))
    requires forall m :: i < m <= j ==> !ChangeReconciled(states[m])
    requires inputs[j] == PollTick && Unchanged(w, states[j]) && w.bottom(SupportTick(w, states[j]))
    ensures states[i].tick > 0
    ensures forall e :: e in states[j + 1].log && e.Attempted? ==> w.clock(states[i].tick - 1) + 5000 <= w.clock(e.tick)
  {
    hide Step, Boot, ChangeReconciled, StartsCooldown, Unchanged, SupportTick;
    FailureStartsCooldown(w, store, states, inputs, i);
    GuardOverRun(w, store, states, inputs, i, j);
    TurnOf(w, store, states, inputs, j);
    UnchangedIsGuarded(w, states[j], w.clock(states[i].tick - 1) + RECONCILE_COOLDOWN);
  }
}
