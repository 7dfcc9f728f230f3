/** When a reconcile succeeds and what lock it leaves, exactly; and from that, when start-up and polls
    restore the preferred display. */
module RestoreTheorems {
  import opened Options
  import opened Displays
  import opened DisplayLock
  import opened Environment
  import opened Preferences
  import opened Controller
  import opened DeliveryTheorems
  import opened PollTheorems
  import opened CooldownTheorems
  import opened RecoveryTheorems
  import opened RequestTheorems

  // ----- restoring the preference

  /** A restore of display `d` that begins at tick `t` goes through: the four reads succeed, the status
      query does, the Dock is or comes there, and the tap is held or starts. */
  predicate Restores(w: World, t: nat, d: DisplayId, tapHeld: bool) {
    && Accesses(w, t, 4) && ListsDock(w, t + 4) && Arrives(w, t + 5, d)
    && (tapHeld || w.tap(ArrivalTick(w, t + 5, d)))
  }

  /** The display a restore is about: the first listed one with the stored identity. */
  function Preferred(store: Store, displays: seq<DisplayId>, info: map<DisplayId, DisplayInfo>): (d: Option<DisplayId>)
    ensures d.Some? ==> d.value in displays && Stored(store).Some? && IdentityOf(d.value, info) == Stored(store)
  {
    if Stored(store).Some? then FindByIdentity(Stored(store).value, displays, info) else None
  }

  lemma ReadsLoad(w: World, t: nat, store: Store)
    ensures Accesses(w, t, 4) <==> Load(w, t, store).value.LoadedIdentity?
    ensures Accesses(w, t, 4) ==> Load(w, t, store).value == LoadedIdentity(Stored(store)) && Load(w, t, store).tick == t + 4
  {
    hide Stored;
    if forall u :: t <= u < t + 4 ==> w.store(u) {
      assert w.store(t) && w.store(t + 1) && w.store(t + 2) && w.store(t + 3);
    }
  }

  /** Moving the Dock after a status query at tick `s.tick` that did not find it on `d`. */
  lemma MovedArrives(w: World, s: Daemon, d: DisplayId)
    requires s.tick > 0 && w.dock(s.tick - 1) != Some(d)
    ensures var (s', there) := MoveDock(w, s, d);
            && (there <==> Arrives(w, s.tick - 1, d)) && s'.tick == ArrivalTick(w, s.tick - 1, d)
            && s' == s.(tick := s'.tick, log := s'.log) && s.log <= s'.log
  {
    hide RelocateUntilCurrent;
    LoopIgnoresLock(w, s.tick, s.lock, s.cache, d, 0);
    MoveDockFrame(w, s, d);
  }

  /** The state after the reads and the status query of a restore. */
  function Queried(w: World, s: Daemon): Daemon {
    s.(tick := s.tick + 6, log := s.log + QueryStatus(w, s.tick + 4).log)
  }

  lemma RestoreUnfolds(w: World, s: Daemon, d: DisplayId)
    requires s.lock == 0 && Preferred(s.store, s.status.displays, s.info) == Some(d)
    ensures var r := RestoreLock(w, s);
            if !Accesses(w, s.tick, 4) || !ListsDock(w, s.tick + 4) then !r.1 && r.0.lock == 0
            else
              var (s3, there) := if w.dock(s.tick + 5) == Some(d) then (Queried(w, s), true) else MoveDock(w, Queried(w, s), d);
              r == if there then SetLock(w, s3, d) else (s3, false)
  {
    hide MoveDock, QueryStatus, SetLock, Stored, FindByIdentity, Load, Accesses;
    ReadsLoad(w, s.tick, s.store);
    QuerySucceedsIff(w, s.tick + 4);
    QueryShape(w, s.tick + 4);
  }

  /** Restoring succeeds, and sets the lock, exactly when it goes through. */
  lemma RestoreLockExactly(w: World, s: Daemon, d: DisplayId)
    requires s.lock == 0 && Preferred(s.store, s.status.displays, s.info) == Some(d)
    ensures var (s', ok) := RestoreLock(w, s);
            && (ok <==> Restores(w, s.tick, d, s.tapHeld)) && s'.lock == (if ok then d else 0)
            && (ok ==> s'.tapHeld && LockSet(d) in s'.log
                       && s'.cache == FreshCache(w.layout(ArrivalTick(w, s.tick + 5, d) + 1)))
  {
    hide RestoreLock, MoveDock, QueryStatus, SetLock, Preferred, Arrives, ArrivalTick, FreshCache, Accesses;
    RestoreUnfolds(w, s, d);
    AlreadyThere(w, s.tick + 5, d);
    var s2 := Queried(w, s);
    if w.dock(s.tick + 5) != Some(d) {
      MovedArrives(w, s2, d);
      SetLockExactly(w, MoveDock(w, s2, d).0, d);
    } else {
      SetLockExactly(w, s2, d);
    }
  }

  lemma QueryShape(w: World, t: nat)
    ensures var q := QueryStatus(w, t); q.tick == t + 2 && (q.value.Some? ==> w.dock(t + 1) == Some(Current(q.value.value)))
  {
  }

  lemma AlreadyThere(w: World, t: nat, d: DisplayId)
    ensures w.dock(t) == Some(d) ==> Arrives(w, t, d) && ArrivalTick(w, t, d) == t + 1
  {
    hide RelocateUntilCurrent;
  }

  /** Without a listed display of the stored identity, or without a stored identity, there is nothing to do:
      restoring succeeds exactly when the reads do, and sets no lock. */
  lemma NothingToRestore(w: World, s: Daemon)
    requires s.lock == 0 && Preferred(s.store, s.status.displays, s.info) == None
    ensures var (s', ok) := RestoreLock(w, s); (ok <==> Accesses(w, s.tick, 4)) && s' == s.(tick := s'.tick)
  {
    hide Stored, FindByIdentity, Load, Accesses;
    ReadsLoad(w, s.tick, s.store);
  }

  // ----- keeping a lock

  /** Under a lock on a listed display a reconcile succeeds exactly when the status query does and the Dock
      is or comes there. */
  lemma KeepLockExactly(w: World, s: Daemon)
    requires s.lock != 0 && s.lock in s.status.displays
    ensures KeepLock(w, s).1 <==> ListsDock(w, s.tick) && Arrives(w, s.tick + 1, s.lock)
  {
    hide MoveDock, QueryStatus, Arrives, ArrivalTick;
    QuerySucceedsIff(w, s.tick);
    QueryShape(w, s.tick);
    AlreadyThere(w, s.tick + 1, s.lock);
    var q := QueryStatus(w, s.tick);
    var s1 := s.(tick := q.tick, log := s.log + q.log);
    if q.value.Some? && Current(q.value.value) != s.lock {
      MovedArrives(w, s1, s.lock);
    }
  }

  // ----- a reconcile without a lock

  /** Without a lock, on a supported Dock, a reconcile leaves the lock on the preferred display exactly when
      it reads a bottom Dock and the restore goes through, and no lock otherwise. */
  lemma ReconcileRestoresExactly(w: World, s: Daemon, d: DisplayId)
    requires s.lock == 0 && Preferred(s.store, s.status.displays, s.info) == Some(d)
    ensures var s' := Reconcile(w, s).0;
            var goes := w.bottom(s.tick + 1) && Restores(w, s.tick + 2, d, s.tapHeld);
            s'.lock == (if goes then d else 0) && (goes ==> s'.tapHeld && LockSet(d) in s'.log)
  {
    hide RestoreLock, Restores, Write, Stored, FindByIdentity;
    var s1 := RefreshSupport(w, s);
    if s1.supported {
      RestoreLockExactly(w, s1, d);
    }
  }

  lemma CoolLeavesLock(w: World, s: Daemon)
    ensures var s1, s' := Reconcile(w, s).0, ReconcileAndCool(w, s);
            s'.lock == s1.lock && s'.tapHeld == s1.tapHeld && s1.log <= s'.log
            && (HasAttempt(s'.log) <==> HasAttempt(s1.log)) && (exists e :: e in s'.log && e.Reconciled?)
  {
    hide Reconcile, IndexOf;
    assert MarkedReconcile(w, s).0.log[|Reconcile(w, s).0.log|].Reconciled?;
    assert MarkedReconcile(w, s).0.log[|Reconcile(w, s).0.log|] in ReconcileAndCool(w, s).log;
  }

  // ----- polls without a lock

  /** An unchanged-list poll of `s` without a lock heals: it first reads a bottom Dock, the cooldown is
      over, and four reads find the identity of a listed display. */
  predicate Heals(w: World, s: Daemon) {
    var c := SupportTick(w, s);
    && w.bottom(c) && !(s.cooldownUntil.Some? && w.clock(c + 1) < s.cooldownUntil.value)
    && Accesses(w, c + 2, 4) && Preferred(s.store, s.status.displays, InfoThen(w, s)).Some?
  }

  lemma HealsIff(w: World, s: Daemon)
    requires s.lock == 0 && NoAction(s.log) && forall e :: e in s.log ==> !e.Reconciled?
    ensures var s' := Heal(w, s);
            var d := Preferred(s.store, s.status.displays, s.info);
            var due := !InCooldown(w, s) && Accesses(w, s.tick + 1, 4) && d.Some?;
            && ((exists e :: e in s'.log && e.Reconciled?) <==> due)
            && (HasAttempt(s'.log) <==> due && w.bottom(s.tick + 6)
                                        && MustMove(w, s.tick + 7, s.status.displays, 0, s.store, s.info))
            && (if due && w.bottom(s.tick + 6) && Restores(w, s.tick + 7, d.value, s.tapHeld)
                then s'.lock == d.value && s'.tapHeld && LockSet(d.value) in s'.log
                else s'.lock == 0)
  {
    hide ReconcileAndCool, Reconcile, Stored, FindByIdentity, Load, Accesses, Restores, MustMove;
    ReadsLoad(w, s.tick + 1, s.store);
    if !InCooldown(w, s) && Accesses(w, s.tick + 1, 4) && Preferred(s.store, s.status.displays, s.info).Some? {
      var s1 := s.(tick := s.tick + 5);
      ReconcileRestoresExactly(w, s1, Preferred(s.store, s.status.displays, s.info).value);
      ReconcileAttemptsIff(w, s1);
      CoolLeavesLock(w, s1);
    }
  }

  /** In every run, a poll of an unchanged list that starts without a lock and first reads a bottom Dock
      reconciles if and only if the cooldown is over, its four reads succeed and some listed display has
      the stored identity; it then relocates if and only if its reconcile has to move the Dock; and it ends
      with the lock on the first such display if and only if that restore goes through, without a lock
      otherwise. */
  lemma UnlockedPollHeals(w: World, store: Store, states: seq<Daemon>, inputs: seq<Input>, i: nat)
    requires IsRun(w, store, states, inputs) && i < |inputs| && inputs[i] == PollTick && Unchanged(w, states[i])
    requires states[i].lock == 0 && w.bottom(SupportTick(w, states[i]))
    ensures var s, s', c := states[i], states[i + 1], SupportTick(w, states[i]);
            var d := Preferred(s.store, s.status.displays, InfoThen(w, s));
            && ((exists e :: e in s'.log && e.Reconciled?) <==> Heals(w, s))
            && (HasAttempt(s'.log) <==> Heals(w, s) && w.bottom(c + 7)
                                        && MustMove(w, c + 8, s.status.displays, 0, s.store, InfoThen(w, s)))
            && (if Heals(w, s) && w.bottom(c + 7) && Restores(w, c + 8, d.value, s.tapHeld)
                then s'.lock == d.value && s'.tapHeld && LockSet(d.value) in s'.log
                else s'.lock == 0)
  {
    hide Step, Boot, Deciding, Heal, MarkedReconcile, Stored, FindByIdentity, Accesses, Restores, MustMove, InfoThen, SupportTick;
    var s := states[i];
    TurnOf(w, store, states, inputs, i);
    UnchangedStep(w, s);
    DecidingFacts(w, s);
    DecidingLog(w, s);
    HealsIff(w, Deciding(w, s));
  }

  /** From what happens outside alone: such a poll restores the preferred display when it heals, reads a
      bottom Dock again, the reads and the status query of the restore succeed, the Dock is on the display
      or the first relocation brings it there, and the tap starts at the tick at which that comes. */
  lemma BroughtDockIsLocked(w: World, store: Store, states: seq<Daemon>, inputs: seq<Input>, i: nat, d: DisplayId, k: nat)
    requires IsRun(w, store, states, inputs) && i < |inputs| && inputs[i] == PollTick && Unchanged(w, states[i])
    requires states[i].lock == 0 && Preferred(states[i].store, states[i].status.displays, InfoThen(w, states[i])) == Some(d)
    ensures var s, c := states[i], SupportTick(w, states[i]);
            var there := w.dock(c + 13) == Some(d);
            && Heals(w, s) && w.bottom(c + 7) && Accesses(w, c + 8, 4) && ListsDock(w, c + 12)
            && (there || BringsDock(w, c + 14, d, k)) && w.tap(if there then c + 14 else ProbeTick(c + 31, k) + 4) ==>
              states[i + 1].lock == d && states[i + 1].tapHeld
  {
    hide Step, Boot, Stored, FindByIdentity, Accesses, InfoThen, SupportTick, Unchanged, Arrives, ArrivalTick, BringsDock, ListsDock,
      HasAttempt, MustMove;
    var c := SupportTick(w, states[i]);
    if Heals(w, states[i]) && (w.dock(c + 13) == Some(d) || BringsDock(w, c + 14, d, k)) {
      UnlockedPollHeals(w, store, states, inputs, i);
      BroughtDockArrives(w, c + 13, d, k);
    }
  }

  // ----- start-up

  /** In every run, start-up locks the first listed display with the stored identity if and only if it reads
      a bottom Dock and the restore goes through; without such a display, or otherwise, there is no lock. */
  lemma StartupRestores(w: World, store: Store, states: seq<Daemon>, inputs: seq<Input>)
    requires IsRun(w, store, states, inputs)
    ensures w.info(2).Some?
    ensures var d := Preferred(store, w.layout(0).Active(), w.info(2).value);
            if d.Some? && w.bottom(4) && Restores(w, 5, d.value, false)
            then states[0].lock == d.value && states[0].tapHeld && LockSet(d.value) in states[0].log
            else states[0].lock == 0
  {
    hide Step, Boot, Preferred, Restores;
    StartOf(w, store, states, inputs);
    BootRestores(w, store);
  }

  lemma BootRestores(w: World, store: Store)
    requires Boot(w, store).Some?
    ensures w.info(2).Some?
    ensures var d, s' := Preferred(store, w.layout(0).Active(), w.info(2).value), Boot(w, store).value;
            if d.Some? && w.bottom(4) && Restores(w, 5, d.value, false)
            then s'.lock == d.value && s'.tapHeld && LockSet(d.value) in s'.log
            else s'.lock == 0
  {
    hide Reconcile, Preferred, Restores, RefreshStatus, QueryStatus;
    QuerySucceedsIff(w, 0);
    QueryShape(w, 0);
    var s := Initial(3, store, QueryStatus(w, 0).value.value, w.info(2).value);
    var d := Preferred(store, w.layout(0).Active(), w.info(2).value);
    StatusLeavesLock(w, MarkedReconcile(w, s).0);
    assert forall e :: e in Reconcile(w, s).0.log ==> e in MarkedReconcile(w, s).0.log;
    if d.Some? {
      ReconcileRestoresExactly(w, s, d.value);
    } else {
      ReconcileRestoresNothing(w, s);
    }
  }

  lemma StatusLeavesLock(w: World, s: Daemon)
    ensures var s' := RefreshStatus(w, s).0; s'.lock == s.lock && s'.tapHeld == s.tapHeld && s.log <= s'.log
  {
    hide IndexOf;
  }

  lemma ReconcileRestoresNothing(w: World, s: Daemon)
    requires s.lock == 0 && Preferred(s.store, s.status.displays, s.info) == None
    ensures Reconcile(w, s).0.lock == 0
  {
    hide RestoreLock, Preferred, Write;
    var s1 := RefreshSupport(w, s);
    if s1.supported {
      NothingToRestore(w, s1);
    }
  }
}
