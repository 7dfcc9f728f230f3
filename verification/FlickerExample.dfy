/** One run in which an orientation that flickers defeats the pause after failed reconciles. */
module FlickerExample {
  import opened Options
  import opened Geometry
  import opened Displays
  import opened DisplayLock
  import opened Environment
  import opened Preferences
  import opened Controller
  import opened PollTheorems
  import opened CooldownTheorems

  const SIDE_BY_SIDE := Layout([1, 2], map[1 := Rect(0.0, 0.0, 100.0, 100.0), 2 := Rect(100.0, 0.0, 100.0, 100.0)])
  const BUILTIN := map[2 := DisplayInfo("", true, 0, 0, 0)]
  const BUILTIN_PREFERRED := Store(false, Some(true), Some(0), Some(0), Some(0))

  /** The Dock leaves display 2 after start-up, an overlay interrupts every relocation, the orientation
      reads as unsupported at ticks 20 and 49 only, and the clock stands still. */
  function FlickerWorld(): World {
    World(_ => SIDE_BY_SIDE, t => Some(if t < 15 then 2 else 1), _ => Some(1), t => t != 20 && t != 49, _ => true,
          _ => Point(0.0, 0.0), _ => true, _ => Some(BUILTIN), _ => true, _ => true, _ => 0, _ => false)
  }

  /** Locked to display 2, supported, with both displays in the snapshot. */
  predicate Ready(s: Daemon) {
    s.lock == 2 && s.supported && s.status.displays == [1, 2] && s.infoRetryAfter == None && s.tick >= 15
  }

  lemma OverlayInterrupts(w: World, s: Daemon, d: DisplayId)
    requires w.layout(s.tick).Bounds(d).Some? && w.bottom(s.tick + 1) && w.overlay(s.tick + 2)
    ensures !MoveDock(w, s, d).1 && MoveDock(w, s, d).0.tick == s.tick + 3
  {
  }

  /** Reconciling in this world: interrupted at once. */
  lemma ReconcileFails(s: Daemon)
    requires Ready(s) && FlickerWorld().bottom(s.tick + 1) && FlickerWorld().bottom(s.tick + 5)
    ensures var (s', ok) := Reconcile(FlickerWorld(), s);
            !ok && s' == s.(tick := s.tick + 7, log := s'.log)
  {
    hide MoveDock, IndexOf;
    var w := FlickerWorld();
    var s1 := RefreshSupport(w, s);
    QuerySucceedsIff(w, s1.tick);
    var q := QueryStatus(w, s1.tick);
    var s2 := s1.(tick := q.tick, log := s1.log + q.log);
    OverlayInterrupts(w, s2, 2);
    MoveDockFrame(w, s2, 2);
  }

  lemma FlickerPoll(s: Daemon)
    requires Ready(s) && !FlickerWorld().bottom(s.tick + 5)
    requires FlickerWorld().bottom(s.tick + 7) && FlickerWorld().bottom(s.tick + 11)
    ensures var s' := Step(FlickerWorld(), s, PollTick);
            && Ready(s') && s'.tick == s.tick + 13 && s'.cooldownUntil == s.cooldownUntil
            && Reconciled(false) in s'.log && HasAttempt(s'.log)
  {
    hide Step, Deciding, Reconcile, FlickerWorld;
    var w := FlickerWorld();
    WorldFacts();
    UnchangedStep(w, s);
    DecidingFacts(w, s);
    var s1 := Deciding(w, s);
    ReconcileIgnoresFlag(w, s1);
    ReconcileFails(s1.(supported := true));
    DecidingLog(w, s);
    ReconcileAttemptsIff(w, s1);
    MarkedAttemptsIff(w, s1);
  }

  /** Without mouse events a reconcile does not depend on the support flag before it. */
  lemma ReconcileIgnoresFlag(w: World, s: Daemon)
    requires !w.mouse(s.tick)
    ensures Reconcile(w, s) == Reconcile(w, s.(supported := true))
  {
    hide KeepLock, RestoreLock, ApplyUnlock;
    assert RefreshSupport(w, s) == RefreshSupport(w, s.(supported := true));
  }

  lemma WorldFacts()
    ensures var w := FlickerWorld();
            && (forall t :: w.layout(t) == SIDE_BY_SIDE && w.probe(t) == Some(1) && w.clock(t) == 0 && !w.mouse(t) && w.store(t))
            && (forall t :: t >= 15 ==> w.dock(t) == Some(1))
            && SIDE_BY_SIDE.Active() == [1, 2]
  {
  }

  lemma RetryPoll(s: Daemon)
    requires Ready(s) && s.cooldownUntil == None && FlickerWorld().bottom(s.tick + 5)
    requires FlickerWorld().bottom(s.tick + 9) && FlickerWorld().bottom(s.tick + 13)
    ensures var s' := Step(FlickerWorld(), s, PollTick);
            && Ready(s') && s'.tick == s.tick + 16 && s'.cooldownUntil == Some(5000)
            && Reconciled(false) in s'.log && HasAttempt(s'.log)
  {
    hide Step, Deciding, Reconcile, FlickerWorld, RefreshStatus;
    var w := FlickerWorld();
    WorldFacts();
    UnchangedStep(w, s);
    DecidingFacts(w, s);
    DecidingLog(w, s);
    var s1 := Deciding(w, s);
    var s2 := NeedsHealing(w, s1.(tick := s1.tick + 1)).0;
    ReconcileFails(s2);
    ReconcileAttemptsIff(w, s2);
    MarkedAttemptsIff(w, s2);
  }

  lemma BootFacts()
    ensures var w := FlickerWorld();
            && (forall t :: t < 15 ==> w.dock(t) == Some(2) && w.bottom(t) && w.tap(t) && w.info(t) == Some(BUILTIN))
            && Stored(BUILTIN_PREFERRED) == Some(Identity(true, 0, 0, 0))
            && FindByIdentity(Identity(true, 0, 0, 0), [1, 2], BUILTIN) == Some(2)
  {
    assert [1, 2][1..] == [2];
  }

  lemma FlickerBoot()
    ensures var b := Boot(FlickerWorld(), BUILTIN_PREFERRED);
            b.Some? && Ready(b.value) && b.value.tick == 15 && b.value.cooldownUntil == None
  {
    hide FlickerWorld, Reconcile, IndexOf;
    var w := FlickerWorld();
    WorldFacts();
    BootFacts();
    QuerySucceedsIff(w, 0);
    QuerySucceedsIff(w, 13);
    BootReconciles(Initial(3, BUILTIN_PREFERRED, QueryStatus(w, 0).value.value, BUILTIN));
  }

  lemma BootReconciles(s: Daemon)
    requires s == Initial(3, BUILTIN_PREFERRED, s.status, BUILTIN) && s.status.displays == [1, 2]
    ensures var (s', ok) := Reconcile(FlickerWorld(), s);
            && ok && s'.lock == 2 && s'.supported && s'.tick == 13 && s'.status == s.status
            && s'.infoRetryAfter == None && s'.cooldownUntil == None
  {
    hide FlickerWorld, MoveDock, FreshCache, IndexOf, Stored, FindByIdentity;
    var w := FlickerWorld();
    WorldFacts();
    BootFacts();
    QuerySucceedsIff(w, 9);
    assert Load(w, 5, BUILTIN_PREFERRED) == Part(LoadedIdentity(Some(Identity(true, 0, 0, 0))), 9, []);
  }

  /** The flickering orientation, in one run under a clock that stands still: the first poll relocates,
      fails and starts no cooldown; the second relocates again and starts it; the third relocates
      although not a millisecond of the 5 seconds has passed. */
  lemma FlickersDefeatCooldown() returns (states: seq<Daemon>)
    ensures var w, inputs := FlickerWorld(), [PollTick, PollTick, PollTick];
            && w.Monotone() && IsRun(w, BUILTIN_PREFERRED, states, inputs)
            && (forall i :: 1 <= i <= 3 ==> HasAttempt(states[i].log))
            && Reconciled(false) in states[1].log && states[1].cooldownUntil == None
            && Reconciled(false) in states[2].log && states[2].cooldownUntil == Some(5000)
            && (forall e :: e in states[3].log && e.Attempted? ==> w.clock(e.tick) == 0)
  {
    hide Boot, Step;
    var w, inputs := FlickerWorld(), [PollTick, PollTick, PollTick];
    FlickerBoot();
    var s0 := Boot(w, BUILTIN_PREFERRED).value;
    var s1 := Step(w, s0, PollTick);
    FlickerPoll(s0);
    var s2 := Step(w, s1, PollTick);
    RetryPoll(s1);
    var s3 := Step(w, s2, PollTick);
    FlickerPoll(s2);
    states := [s0, s1, s2, s3];
    assert forall i :: 0 <= i < 4 ==> Reached(w, BUILTIN_PREFERRED, states, inputs, i);
  }
}
