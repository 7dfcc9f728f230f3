/** Losing the locked display and getting it back, over runs: the promise of
    crates/lockdock-ipc/docs/ipc_v1.md about disconnected displays. */
module ReconnectTheorems {
  import opened Options
  import opened Displays
  import opened DisplayLock
  import opened Environment
  import opened Preferences
  import opened Controller
  import opened DeliveryTheorems
  import opened LockTheorems
  import opened CallTheorems
  import opened PollTheorems
  import opened RecoveryTheorems

  /** At tick `t` the display list is `ids`, the Dock is at the bottom and a Dock query answers one of
      these displays. */
  ghost predicate StableAt(w: World, t: nat, ids: seq<DisplayId>) {
    w.layout(t).Active() == ids && w.bottom(t) && w.dock(t).Some? && w.dock(t).value in ids
  }

  ghost predicate Stable(w: World, from: nat, to: nat, ids: seq<DisplayId>) {
    forall t :: from <= t < to ==> StableAt(w, t, ids)
  }

  /** At tick `t` only displays of `known` are listed, none of them has identity `id`, and the Dock is
      at the bottom. */
  ghost predicate AwayAt(w: World, t: nat, known: set<DisplayId>, id: Identity) {
    && w.bottom(t)
    && (forall d :: d in w.layout(t).Active() ==> d in known)
    && (w.info(t).Some? ==> forall d :: d in known ==> IdentityOf(d, w.info(t).value) != Some(id))
  }

  ghost predicate Away(w: World, from: nat, to: nat, known: set<DisplayId>, id: Identity) {
    forall t :: from <= t < to ==> AwayAt(w, t, known, id)
  }

  /** No lock, preference `id` stored, and no display that the snapshot or the pending list mentions
      is known to have that identity. */
  ghost predicate Waiting(s: Daemon, known: set<DisplayId>, id: Identity) {
    && s.lock == 0 && Stored(s.store) == Some(id)
    && (forall d :: d in s.status.displays ==> d in known)
    && (s.pending.Some? ==> forall d :: d in s.pending.value ==> d in known)
    && (forall d :: d in known ==> IdentityOf(d, s.info) != Some(id))
  }

  // ----- the display disappears

  lemma QueryIsStable(w: World, tick: nat, ids: seq<DisplayId>)
    requires Stable(w, tick, tick + 2, ids)
    ensures QueryStatus(w, tick).value.Some? && QueryStatus(w, tick).value.value.displays == ids
    ensures Some(Current(QueryStatus(w, tick).value.value)) == w.dock(tick + 1)
  {
    assert StableAt(w, tick, ids) && StableAt(w, tick + 1, ids);
  }

  /** The first sight of a new list is only remembered. */
  lemma FirstSight(w: World, s: Daemon)
    requires w.layout(s.tick).Active() != s.status.displays && s.pending != Some(w.layout(s.tick).Active())
    ensures Step(w, s, PollTick) ==
            s.(tick := s.tick + 1, log := [Polled(w.layout(s.tick).Active())], pending := Some(w.layout(s.tick).Active()))
  {
    hide PollUnchanged, PollChanged;
    var ids := w.layout(s.tick).Active();
    assert [] + [Polled(ids)] == [Polled(ids)];
  }

  /** A poll that sees the pending list accepts it: the state it reconciles from, and whether the
      status could be refreshed. */
  function Accepted(w: World, s: Daemon): (Daemon, bool) {
    var ids := w.layout(s.tick).Active();
    var s1 := s.(tick := s.tick + 1, log := [Polled(ids), ChangeAccepted(ids)], pending := None);
    RefreshStatus(w, RefreshInfo(w, RefreshCache(w, s1)))
  }

  lemma SecondSight(w: World, s: Daemon)
    requires s.pending == Some(w.layout(s.tick).Active()) && w.layout(s.tick).Active() != s.status.displays
    ensures var (s1, ok) := Accepted(w, s);
            && Step(w, s, PollTick) == (if ok then ReconcileAndCool(w, s1) else s1)
            && s1.tick <= Step(w, s, PollTick).tick && (ok ==> s1.tick + 2 <= Step(w, s, PollTick).tick)
  {
    hide RefreshStatus, RefreshInfo, RefreshCache, ReconcileAndCool, IndexOf;
    var ids := w.layout(s.tick).Active();
    assert [] + [Polled(ids)] + [ChangeAccepted(ids)] == [Polled(ids), ChangeAccepted(ids)];
    CoolTicks(w, Accepted(w, s).0);
  }

  lemma CoolTicks(w: World, s: Daemon)
    ensures s.tick + 2 <= Reconcile(w, s).0.tick <= ReconcileAndCool(w, s).tick
  {
    hide Reconcile, IndexOf;
    ReconcileTicks(w, s);
  }

  lemma AcceptedFacts(w: World, s: Daemon)
    ensures var (s1, ok) := Accepted(w, s);
            && s1.tick == s.tick + 6 && s1.pending == None && NoAction(s1.log)
            && s1.lock == s.lock && s1.tapHeld == s.tapHeld && s1.store == s.store && s1.supported == s.supported
            && s1.info == OrElse(w.info(s.tick + 2), s.info)
            && ok == QueryStatus(w, s.tick + 4).value.Some?
            && s1.status == OrElse(QueryStatus(w, s.tick + 4).value, s.status)
  {
    hide FreshCache, IndexOf;
  }

  /** Reconciling when the locked display is not listed drops the lock. */
  lemma ReconcileDropsLock(w: World, s: Daemon)
    requires s.supported && w.bottom(s.tick + 1) && s.lock != 0 && s.lock !in s.status.displays
    ensures var (s', ok) := Reconcile(w, s);
            ok && s' == s.(tick := s.tick + 2, lock := 0, tapHeld := false, log := s.log + [SupportChecked(true)] + [LockCleared])
  {
  }

  lemma PollAdvances(w: World, s: Daemon)
    ensures s.tick < Step(w, s, PollTick).tick
  {
    hide Poll;
    PollCases(w, s.(log := []));
  }

  lemma CoolDropsLock(w: World, s: Daemon, ids: seq<DisplayId>)
    requires s.supported && s.lock != 0 && s.lock !in ids && s.status.displays == ids && NoAction(s.log)
    requires Stable(w, s.tick, ReconcileAndCool(w, s).tick, ids)
    ensures var s' := ReconcileAndCool(w, s);
            && s'.lock == 0 && !s'.tapHeld && s'.store == s.store && s'.status.displays == ids && s'.pending == s.pending
            && s'.info == s.info && s'.supported && NoAction(s'.log)
  {
    hide ReconcileAndCool, Reconcile, QueryStatus;
    CoolTicks(w, s);
    assert StableAt(w, s.tick + 1, ids);
    ReconcileDropsLock(w, s);
    CoolAfterSuccess(w, s);
    QueryIsStable(w, s.tick + 2, ids);
  }

  /** A poll that accepts a list without the locked display drops the lock and keeps the stored identity. */
  lemma AcceptedPollDropsLock(w: World, s: Daemon, ids: seq<DisplayId>)
    requires s.supported && s.lock != 0 && s.lock !in ids && ids != s.status.displays && s.pending == Some(ids)
    requires Stable(w, s.tick, Step(w, s, PollTick).tick, ids)
    ensures var s' := Step(w, s, PollTick);
            && s'.lock == 0 && !s'.tapHeld && s'.store == s.store && s'.status.displays == ids && s'.pending == None
            && s'.info == OrElse(w.info(s.tick + 2), s.info) && s.tick + 8 <= s'.tick && NoAction(s'.log)
  {
    hide Step, Accepted, ReconcileAndCool, QueryStatus;
    PollAdvances(w, s);
    assert StableAt(w, s.tick, ids);
    SecondSight(w, s);
    AcceptedFacts(w, s);
    QueryIsStable(w, s.tick + 4, ids);
    CoolDropsLock(w, Accepted(w, s).0, ids);
  }

  /** After a successful reconcile the poll only refreshes the status. */
  lemma CoolAfterSuccess(w: World, s: Daemon)
    requires Reconcile(w, s).1
    ensures var s1 := Reconcile(w, s).0;
            var q := QueryStatus(w, s1.tick);
            && ReconcileAndCool(w, s) == s1.(tick := s1.tick + 2, log := s1.log + [Reconciled(true)] + q.log, cooldownUntil := None,
                                             status := OrElse(q.value, s1.status))
            && q.log == [DockQueried(w.dock(s1.tick + 1))]
  {
    hide Reconcile, IndexOf;
  }

  // ----- the display stays away

  /** Reconciling while waiting does nothing. */
  lemma ReconcileWaits(w: World, s: Daemon, known: set<DisplayId>, id: Identity)
    requires Waiting(s, known, id) && w.bottom(s.tick + 1)
    ensures Waiting(Reconcile(w, s).0, known, id) && (NoAction(s.log) ==> NoAction(Reconcile(w, s).0.log))
  {
    hide RestoreLock, Stored, FindByIdentity, IdentityOf;
    var s1 := RefreshSupport(w, s);
    RestoreFrameWhenAbsent(w, s1, id);
    RestoreOutcomes(w, s1, id);
    RestoreLockFrame(w, s1);
  }

  lemma RestoreFrameWhenAbsent(w: World, s: Daemon, id: Identity)
    requires s.lock == 0 && Stored(s.store) == Some(id) && FindByIdentity(id, s.status.displays, s.info) == None
    ensures RestoreLock(w, s).0.log == s.log
  {
    hide Stored, FindByIdentity;
  }

  lemma ObserveWaits(w: World, s: Daemon, known: set<DisplayId>, id: Identity, to: nat)
    requires Waiting(s, known, id) && Away(w, s.tick, to, known, id) && Observe(w, s).tick <= to && NoAction(s.log)
    ensures Waiting(Observe(w, s), known, id) && Observe(w, s).supported && NoAction(Observe(w, s).log)
  {
    hide Observe, Stored, IdentityOf;
    ObserveKeepsLock(w, s);
    ObserveFrame(w, s);
    ObserveSupport(w, s);
    ObserveInfo(w, s);
    assert AwayAt(w, Observe(w, s).tick - 1, known, id) && AwayAt(w, s.tick + 1, known, id);
  }

  lemma ObserveInfo(w: World, s: Daemon)
    ensures Observe(w, s).info == s.info || w.info(s.tick + 1) == Some(Observe(w, s).info)
    ensures s.tick + 1 < Observe(w, s).tick
  {
    hide FreshCache, IndexOf;
  }

  lemma HealWaits(w: World, s: Daemon, known: set<DisplayId>, id: Identity)
    requires Waiting(s, known, id) && NoAction(s.log)
    ensures Waiting(Heal(w, s), known, id) && NoAction(Heal(w, s).log)
  {
    hide Stored, FindByIdentity, IdentityOf, ReconcileAndCool;
  }

  lemma AcceptedPollWaits(w: World, s: Daemon, known: set<DisplayId>, id: Identity)
    requires Waiting(s, known, id) && Away(w, s.tick, Step(w, s, PollTick).tick, known, id)
    requires s.pending == Some(w.layout(s.tick).Active()) && w.layout(s.tick).Active() != s.status.displays
    ensures Waiting(Step(w, s, PollTick), known, id) && NoAction(Step(w, s, PollTick).log)
  {
    hide Step, Accepted, Reconcile, Stored, IdentityOf, ReconcileAndCool;
    SecondSight(w, s);
    AcceptedFacts(w, s);
    var (s1, ok) := Accepted(w, s);
    QueryAway(w, s.tick + 4);
    assert AwayAt(w, s.tick + 2, known, id) && AwayAt(w, s.tick + 4, known, id);
    if ok {
      CoolWaits(w, s1, known, id);
    }
  }

  lemma QueryAway(w: World, tick: nat)
    ensures var q := QueryStatus(w, tick).value; q.Some? ==> q.value.displays == w.layout(tick).Active()
  {
  }

  lemma CoolWaits(w: World, s: Daemon, known: set<DisplayId>, id: Identity)
    requires Waiting(s, known, id) && Away(w, s.tick, ReconcileAndCool(w, s).tick, known, id) && NoAction(s.log)
    ensures Waiting(ReconcileAndCool(w, s), known, id) && NoAction(ReconcileAndCool(w, s).log)
  {
    hide Reconcile, Stored, IdentityOf, IndexOf;
    ReconcileTicks(w, s);
    var (s1, ok) := Reconcile(w, s);
    assert AwayAt(w, s.tick + 1, known, id);
    ReconcileWaits(w, s, known, id);
    if ok {
      QueryAway(w, s1.tick);
      assert AwayAt(w, s1.tick, known, id);
    }
  }

  /** While the display is away, polls and state reads keep waiting and act on nothing. */
  lemma StepWaits(w: World, s: Daemon, input: Input, known: set<DisplayId>, id: Identity)
    requires Waiting(s, known, id) && input in {PollTick, Asked(GetState)}
    requires Away(w, s.tick, Step(w, s, input).tick, known, id)
    ensures Waiting(Step(w, s, input), known, id) && NoAction(Step(w, s, input).log)
  {
    if input == PollTick {
      PollAdvances(w, s);
      PollWaits(w, s, known, id);
    } else {
      hide IndexOf, Stored, IdentityOf;
    }
  }

  lemma PollWaits(w: World, s: Daemon, known: set<DisplayId>, id: Identity)
    requires Waiting(s, known, id) && s.tick < Step(w, s, PollTick).tick
    requires Away(w, s.tick, Step(w, s, PollTick).tick, known, id)
    ensures Waiting(Step(w, s, PollTick), known, id) && NoAction(Step(w, s, PollTick).log)
  {
    hide Observe, Heal, Reconcile, PollChanged, Stored, IdentityOf;
    var ids := w.layout(s.tick).Active();
    assert AwayAt(w, s.tick, known, id);
    if ids == s.status.displays {
      var s1 := s.(tick := s.tick + 1, log := [] + [Polled(ids)]);
      var s2 := Observe(w, s1);
      ReconcileFrame(w, s2);
      HealFrame(w, s2);
      ObserveWaits(w, s1, known, id, Step(w, s, PollTick).tick);
      HealWaits(w, s2, known, id);
    } else if s.pending == Some(ids) {
      AcceptedPollWaits(w, s, known, id);
    } else {
      FirstSight(w, s);
    }
  }

  // ----- the display comes back

  /** At tick `t` the list is `ids`, calls other than relocations succeed, and `d` is the only listed
      display with identity `id`. */
  ghost predicate BackAt(w: World, t: nat, ids: seq<DisplayId>, d: DisplayId, id: Identity) {
    && StableAt(w, t, ids) && w.store(t) && w.tap(t)
    && w.info(t).Some? && (forall e :: e in ids ==> (IdentityOf(e, w.info(t).value) == Some(id) <==> e == d))
  }

  ghost predicate Back(w: World, from: nat, to: nat, ids: seq<DisplayId>, d: DisplayId, id: Identity) {
    d in ids && d != 0 && forall t :: from <= t < to ==> BackAt(w, t, ids, d, id)
  }

  /** At the poll that starts at tick `t` and accepts the list with `d`, the Dock is on `d` already, or
      the one relocation loop of that poll gets it there. */
  ghost predicate DockComes(w: World, t: nat, d: DisplayId) {
    Arrives(w, t + 13, d)
  }

  lemma UniqueIdentity(ids: seq<DisplayId>, info: map<DisplayId, DisplayInfo>, d: DisplayId, id: Identity)
    requires d in ids && forall e :: e in ids ==> (IdentityOf(e, info) == Some(id) <==> e == d)
    ensures FindByIdentity(id, ids, info) == Some(d)
  {
  }

  lemma LoadSucceeds(w: World, tick: nat, store: Store, to: nat)
    requires Load(w, tick, store).tick <= to && forall t :: tick <= t < to ==> w.store(t)
    ensures Load(w, tick, store).value == LoadedIdentity(Stored(store)) && Load(w, tick, store).tick == tick + 4
  {
  }

  lemma BackMeans(w: World, t: nat, ids: seq<DisplayId>, d: DisplayId, id: Identity)
    requires BackAt(w, t, ids, d, id)
    ensures StableAt(w, t, ids) && w.bottom(t) && w.store(t) && w.tap(t) && w.info(t).Some?
  {
    hide IdentityOf;
  }

  /** When the other calls succeed, restoring succeeds, and locks, exactly when the Dock is on the display
      with the stored identity or its relocation loop succeeds. */
  lemma RestoreExactly(w: World, s: Daemon, ids: seq<DisplayId>, d: DisplayId, id: Identity, to: nat)
    requires s.lock == 0 && Stored(s.store) == Some(id) && FindByIdentity(id, s.status.displays, s.info) == Some(d)
    requires Back(w, s.tick, to, ids, d, id) && RestoreLock(w, s).0.tick <= to
    ensures RestoreLock(w, s).1 <==> w.dock(s.tick + 5) == Some(d) || RelocateUntilCurrent(w, s.tick + 6, 0, [], d, 0).value
    ensures RestoreLock(w, s).1 ==> RestoreLock(w, s).0.tapHeld && LockSet(d) in RestoreLock(w, s).0.log
  {
    hide MoveDock, QueryStatus, Stored, FindByIdentity, Load, SetLock, BackAt, StableAt, RestoreLock, RelocateUntilCurrent;
    RestoreTicks(w, s, id);
    BackIsStable(w, s.tick, to, ids, d, id);
    LoadSucceeds(w, s.tick, s.store, to);
    var s1 := s.(tick := s.tick + 4);
    RestoreTicksLoaded(w, s, id, d);
    QueryIsStable(w, s1.tick, ids);
    QueryTakesTwo(w, s1.tick);
    var q := QueryStatus(w, s1.tick);
    var s2 := s1.(tick := q.tick, log := s1.log + q.log);
    MoveDockFrame(w, s2, d);
    MoveDockValue(w, s2, d);
    var (s3, there) := if Current(q.value.value) == d then (s2, true) else MoveDock(w, s2, d);
    if there {
      SetLockTicks(w, s3, d);
      BackMeans(w, s3.tick, ids, d, id);
    }
  }

  lemma QueryTakesTwo(w: World, tick: nat)
    ensures QueryStatus(w, tick).tick == tick + 2
  {
  }

  lemma MoveDockValue(w: World, s: Daemon, d: DisplayId)
    ensures MoveDock(w, s, d).1 == RelocateUntilCurrent(w, s.tick, 0, [], d, 0).value
  {
    hide RelocateUntilCurrent;
    LoopIgnoresLock(w, s.tick, s.lock, s.cache, d, 0);
  }

  lemma SetLockTicks(w: World, s: Daemon, d: DisplayId)
    ensures s.tick < SetLock(w, s, d).0.tick
    ensures w.tap(s.tick) ==> SetLock(w, s, d).1 && SetLock(w, s, d).0.tapHeld && LockSet(d) in SetLock(w, s, d).0.log
  {
    hide FreshCache;
  }

  lemma RestoreTicks(w: World, s: Daemon, id: Identity)
    requires s.lock == 0
    ensures Load(w, s.tick, s.store).tick <= RestoreLock(w, s).0.tick
  {
    hide MoveDock, Load, FindByIdentity, SetLock, QueryStatus;
    var s1 := s.(tick := Load(w, s.tick, s.store).tick);
    var q := QueryStatus(w, s1.tick);
    var s2 := s1.(tick := q.tick, log := s1.log + q.log);
    forall d: DisplayId
      ensures s2.tick <= MoveDock(w, s2, d).0.tick <= SetLock(w, MoveDock(w, s2, d).0, d).0.tick
      ensures s2.tick <= SetLock(w, s2, d).0.tick
    {
      MoveDockFrame(w, s2, d);
      SetLockFrame(w, MoveDock(w, s2, d).0, d);
      SetLockFrame(w, s2, d);
    }
  }

  lemma RestoreTicksLoaded(w: World, s: Daemon, id: Identity, d: DisplayId)
    requires s.lock == 0 && FindByIdentity(id, s.status.displays, s.info) == Some(d)
    requires Load(w, s.tick, s.store).value == LoadedIdentity(Some(id)) && Load(w, s.tick, s.store).tick == s.tick + 4
    ensures s.tick + 6 <= RestoreLock(w, s).0.tick
    ensures var s1 := s.(tick := s.tick + 4);
            var q := QueryStatus(w, s1.tick);
            var s2 := s1.(tick := q.tick, log := s1.log + q.log);
            q.value.Some? ==>
              var (s3, there) := if Current(q.value.value) == d then (s2, true) else MoveDock(w, s2, d);
              && s3.tick <= RestoreLock(w, s).0.tick
              && (if there then RestoreLock(w, s) == SetLock(w, s3, d) else RestoreLock(w, s) == (s3, false))
  {
    hide MoveDock, Load, FindByIdentity, SetLock;
    var s1 := s.(tick := s.tick + 4);
    var q := QueryStatus(w, s1.tick);
    var s2 := s1.(tick := q.tick, log := s1.log + q.log);
    MoveDockFrame(w, s2, d);
    SetLockFrame(w, MoveDock(w, s2, d).0, d);
    SetLockFrame(w, s2, d);
  }

  lemma CoolRegains(w: World, s: Daemon, ids: seq<DisplayId>, d: DisplayId, id: Identity)
    requires s.lock == 0 && Stored(s.store) == Some(id) && FindByIdentity(id, s.status.displays, s.info) == Some(d)
    requires Back(w, s.tick, ReconcileAndCool(w, s).tick, ids, d, id)
    ensures var s' := ReconcileAndCool(w, s);
            var there := w.dock(s.tick + 7) == Some(d) || RelocateUntilCurrent(w, s.tick + 8, 0, [], d, 0).value;
            s'.store == s.store && if there then s'.lock == d && s'.tapHeld && LockSet(d) in s'.log else s'.lock == 0
  {
    hide ReconcileAndCool, RestoreLock, QueryStatus, FindByIdentity, Stored, BackAt, RelocateUntilCurrent;
    CoolTicks(w, s);
    var s1 := RefreshSupport(w, s);
    BackMeans(w, s.tick + 1, ids, d, id);
    assert Reconcile(w, s) == RestoreLock(w, s1);
    RestoreExactly(w, s1, ids, d, id, ReconcileAndCool(w, s).tick);
    RestoreOutcomes(w, s1, id);
    CoolAfter(w, s);
  }

  /** After a reconcile the poll changes neither lock nor tap nor store. */
  lemma CoolAfter(w: World, s: Daemon)
    ensures var s1, s' := Reconcile(w, s).0, ReconcileAndCool(w, s);
            s'.lock == s1.lock && s'.tapHeld == s1.tapHeld && s'.store == s1.store && s1.log <= s'.log
  {
    hide Reconcile, IndexOf;
  }

  lemma BackIsStable(w: World, from: nat, to: nat, ids: seq<DisplayId>, d: DisplayId, id: Identity)
    requires Back(w, from, to, ids, d, id)
    ensures Stable(w, from, to, ids) && forall t :: from <= t < to ==> w.store(t)
  {
    hide BackAt, StableAt;
    forall t | from <= t < to
      ensures StableAt(w, t, ids) && w.store(t)
    {
      BackMeans(w, t, ids, d, id);
    }
  }

  /** A poll that accepts a list with the display locks to it, under whatever ID it has now, exactly when
      the Dock comes. */
  lemma AcceptedPollRegains(w: World, s: Daemon, ids: seq<DisplayId>, d: DisplayId, id: Identity)
    requires s.lock == 0 && Stored(s.store) == Some(id) && s.pending == Some(ids) && ids != s.status.displays
    requires Back(w, s.tick, Step(w, s, PollTick).tick, ids, d, id)
    ensures var s' := Step(w, s, PollTick);
            && s'.store == s.store
            && (DockComes(w, s.tick, d) ==> s'.lock == d && s'.tapHeld && LockSet(d) in s'.log)
            && (!DockComes(w, s.tick, d) ==> s'.lock == 0)
  {
    hide Step, Accepted, ReconcileAndCool, QueryStatus, Stored, FindByIdentity, RelocateUntilCurrent, IdentityOf;
    PollAdvances(w, s);
    BackIsStable(w, s.tick, Step(w, s, PollTick).tick, ids, d, id);
    assert StableAt(w, s.tick, ids);
    SecondSight(w, s);
    AcceptedFacts(w, s);
    QueryIsStable(w, s.tick + 4, ids);
    var s1 := Accepted(w, s).0;
    assert BackAt(w, s.tick + 2, ids, d, id);
    UniqueIdentity(ids, s1.info, d, id);
    CoolRegains(w, s1, ids, d, id);
  }

  // ----- the whole story

  /** From turn `i` to turn `j` there are only state reads. */
  ghost predicate OnlyReads(inputs: seq<Input>, i: nat, j: nat)
    requires j <= |inputs|
  {
    forall m :: i <= m < j ==> inputs[m] == Asked(GetState)
  }

  /** Reads have left alone what polls decide on. */
  ghost predicate SameDecision(s: Daemon, s': Daemon) {
    && s'.lock == s.lock && s'.supported == s.supported && s'.tapHeld == s.tapHeld && s'.store == s.store
    && s'.info == s.info && s'.pending == s.pending && s'.status.displays == s.status.displays
  }

  lemma ReadDecidesNothing(w: World, s: Daemon)
    requires s.supported || s.lock == 0
    ensures SameDecision(s, Step(w, s, Asked(GetState))) && NoAction(Step(w, s, Asked(GetState)).log)
  {
    hide IndexOf;
  }

  lemma {:induction false} ReadsDecideNothing(w: World, store: Store, states: seq<Daemon>, inputs: seq<Input>, i: nat, j: nat)
    requires IsRun(w, store, states, inputs) && i <= j <= |inputs| && OnlyReads(inputs, i, j)
    requires states[i].supported || states[i].lock == 0
    ensures SameDecision(states[i], states[j])
  {
    hide Step, Boot;
    if i < j {
      ReadsDecideNothing(w, store, states, inputs, i, j - 1);
      TurnOf(w, store, states, inputs, j - 1);
      ReadDecidesNothing(w, states[j - 1]);
    }
  }

  /** The turns of a run in which the locked display disappears, stays away and comes back as `d`. */
  ghost predicate LostAndFound(w: World, states: seq<Daemon>, inputs: seq<Input>, a: nat, a2: nat, b: nat, b2: nat,
                               without: seq<DisplayId>, with: seq<DisplayId>, known: set<DisplayId>, d: DisplayId, id: Identity)
  {
    && |states| == |inputs| + 1 && a < a2 < b < b2 < |inputs|
    // turns a and a2: two polls, with at most reads between them, see a list without the locked display
    && states[a].lock != 0 && states[a].lock !in without && states[a].supported && Stored(states[a].store) == Some(id)
    && without != states[a].status.displays && states[a].pending != Some(without)
    && inputs[a] == inputs[a2] == PollTick && OnlyReads(inputs, a + 1, a2)
    && Stable(w, states[a].tick, states[a2 + 1].tick, without)
    // until turn b: polls and state reads while no listed display has the identity
    && (forall e :: e in known ==> IdentityOf(e, states[a].info) != Some(id))
    && Away(w, states[a].tick, states[b].tick, known, id)
    && (forall m :: a2 < m < b ==> inputs[m] in {PollTick, Asked(GetState)})
    // turns b and b2: two polls, with at most reads between them, see a list with the display
    && d !in known && inputs[b] == inputs[b2] == PollTick && OnlyReads(inputs, b + 1, b2)
    && Back(w, states[b].tick, states[b2 + 1].tick, with, d, id)
  }

  lemma LosingPhase(w: World, store: Store, states: seq<Daemon>, inputs: seq<Input>, a: nat, a2: nat, b: nat, b2: nat,
                    without: seq<DisplayId>, with: seq<DisplayId>, known: set<DisplayId>, d: DisplayId, id: Identity)
    requires IsRun(w, store, states, inputs) && LostAndFound(w, states, inputs, a, a2, b, b2, without, with, known, d, id)
    ensures Waiting(states[a2 + 1], known, id) && states[a2 + 1].store == states[a].store
  {
    hide Step, Boot, Stored, IdentityOf, Back;
    TurnOf(w, store, states, inputs, a);
    TurnOf(w, store, states, inputs, a2);
    TicksGrow(w, store, states, inputs, a + 1, a2);
    TicksGrow(w, store, states, inputs, a2 + 1, b);
    PollAdvances(w, states[a]);
    PollAdvances(w, states[a2]);
    StableList(w, states[a].tick, states[a2 + 1].tick, without);
    FirstSight(w, states[a]);
    ReadsDecideNothing(w, store, states, inputs, a + 1, a2);
    AcceptedPollDropsLock(w, states[a2], without);
    assert AwayAt(w, states[a].tick, known, id) && AwayAt(w, states[a2].tick + 2, known, id);
  }

  lemma {:induction false} TicksGrow(w: World, store: Store, states: seq<Daemon>, inputs: seq<Input>, i: nat, j: nat)
    requires IsRun(w, store, states, inputs) && i <= j < |states|
    ensures states[i].tick <= states[j].tick
  {
    hide Step, Boot;
    if i < j {
      TurnOf(w, store, states, inputs, j - 1);
      TicksGrow(w, store, states, inputs, i, j - 1);
      StepFrame(w, states[j - 1], inputs[j - 1]);
    }
  }

  lemma {:induction false} WaitingPhase(w: World, store: Store, states: seq<Daemon>, inputs: seq<Input>, a: nat, a2: nat, b: nat, b2: nat,
                                        without: seq<DisplayId>, with: seq<DisplayId>, known: set<DisplayId>, d: DisplayId, id: Identity, m: nat)
    requires IsRun(w, store, states, inputs) && LostAndFound(w, states, inputs, a, a2, b, b2, without, with, known, d, id)
    requires a2 < m <= b
    ensures Waiting(states[m], known, id) && (m > a2 + 1 ==> NoAction(states[m].log))
  {
    hide Step, Boot, Stored, IdentityOf, Back, Waiting, Stable, NoAction, OnlyReads;
    if m == a2 + 1 {
      LosingPhase(w, store, states, inputs, a, a2, b, b2, without, with, known, d, id);
    } else {
      WaitingPhase(w, store, states, inputs, a, a2, b, b2, without, with, known, d, id, m - 1);
      TurnOf(w, store, states, inputs, m - 1);
      TicksGrow(w, store, states, inputs, a, m - 1);
      TicksGrow(w, store, states, inputs, m, b);
      StepWaits(w, states[m - 1], inputs[m - 1], known, id);
    }
  }

  /** Event `k` locks to `d`, and the last Dock query before it answered `d`. */
  ghost predicate SetAfterQuery(log: seq<Event>, d: DisplayId, k: nat) {
    k < |log| && log[k] == LockSet(d) && LastDock(log[..k]) == Some(Some(d))
  }

  ghost predicate LockEarned(log: seq<Event>, d: DisplayId) {
    exists k: nat :: SetAfterQuery(log, d, k)
  }

  /** In every run: two polls that see the list without the locked display drop the lock but keep the
      stored identity; until the display is back nothing is relocated or locked; and after two polls that
      list it again, under the same or a new ID, the identity is still stored, and the lock is on that
      ID, set right after a Dock query that answered it, if and only if the Dock was there at the last of
      these polls or its relocation loop succeeded; otherwise there is no lock. */
  lemma DisconnectAndReconnect(w: World, store: Store, states: seq<Daemon>, inputs: seq<Input>, a: nat, a2: nat, b: nat, b2: nat,
                               without: seq<DisplayId>, with: seq<DisplayId>, known: set<DisplayId>, d: DisplayId, id: Identity)
    requires IsRun(w, store, states, inputs) && LostAndFound(w, states, inputs, a, a2, b, b2, without, with, known, d, id)
    ensures forall m :: a2 < m <= b ==>
              states[m].lock == 0 && Stored(states[m].store) == Some(id) && (m > a2 + 1 ==> NoAction(states[m].log))
    ensures Stored(states[b2 + 1].store) == Some(id)
    ensures states[b2 + 1].lock == d <==> DockComes(w, states[b2].tick, d)
    ensures states[b2 + 1].lock == d ==> states[b2 + 1].tapHeld && LockEarned(states[b2 + 1].log, d)
    ensures states[b2 + 1].lock != d ==> states[b2 + 1].lock == 0
  {
    hide Step, Boot, Stored, IdentityOf, LastDock, StableAt, AwayAt, BackAt, DockComes, OnlyReads, NoAction;
    forall m | a2 < m <= b
      ensures Waiting(states[m], known, id) && (m > a2 + 1 ==> NoAction(states[m].log))
    {
      WaitingPhase(w, store, states, inputs, a, a2, b, b2, without, with, known, d, id, m);
    }
    FindingPhase(w, store, states, inputs, b, b2, with, known, d, id);
    EveryCall(w, store, states, inputs, b2 + 1);
    if DockComes(w, states[b2].tick, d) {
      var k: nat :| k < |states[b2 + 1].log| && states[b2 + 1].log[k] == LockSet(d);
      assert SetAfterQuery(states[b2 + 1].log, d, k);
    }
  }

  lemma FindingPhase(w: World, store: Store, states: seq<Daemon>, inputs: seq<Input>, b: nat, b2: nat,
                     with: seq<DisplayId>, known: set<DisplayId>, d: DisplayId, id: Identity)
    requires IsRun(w, store, states, inputs) && b < b2 < |inputs| && Waiting(states[b], known, id) && d !in known
    requires inputs[b] == inputs[b2] == PollTick && OnlyReads(inputs, b + 1, b2)
    requires Back(w, states[b].tick, states[b2 + 1].tick, with, d, id)
    ensures states[b2 + 1].store == states[b].store
    ensures DockComes(w, states[b2].tick, d) ==>
              states[b2 + 1].lock == d && states[b2 + 1].tapHeld && LockSet(d) in states[b2 + 1].log
    ensures !DockComes(w, states[b2].tick, d) ==> states[b2 + 1].lock == 0
  {
    hide Step, Boot, Stored, IdentityOf, StableAt, BackAt, DockComes;
    TurnOf(w, store, states, inputs, b);
    TurnOf(w, store, states, inputs, b2);
    TicksGrow(w, store, states, inputs, b + 1, b2);
    PollAdvances(w, states[b]);
    PollAdvances(w, states[b2]);
    BackIsStable(w, states[b].tick, states[b2 + 1].tick, with, d, id);
    StableList(w, states[b].tick, states[b2 + 1].tick, with);
    SeenFirst(w, states[b], with, known, d, id);
    ReadsDecideNothing(w, store, states, inputs, b + 1, b2);
    AcceptedPollRegains(w, states[b2], with, d, id);
  }

  /** The first poll that lists the display again only remembers the list. */
  lemma SeenFirst(w: World, s: Daemon, with: seq<DisplayId>, known: set<DisplayId>, d: DisplayId, id: Identity)
    requires Waiting(s, known, id) && d in with && d !in known && w.layout(s.tick).Active() == with
    ensures with != s.status.displays
    ensures Step(w, s, PollTick) == s.(tick := s.tick + 1, log := [Polled(with)], pending := Some(with))
  {
    hide Step, Stored, IdentityOf;
    FirstSight(w, s);
  }

  /** The same from what happens outside alone: if at the last of these polls the Dock is on the display
      already, or the first relocation brings it there - no overlay, the cursor left alone at each of its
      scheduled checks, one of the scheduled probes and the settling query finding the Dock there - then
      the run ends with the lock on the display. */
  lemma ReconnectedDisplayIsLocked(w: World, store: Store, states: seq<Daemon>, inputs: seq<Input>, a: nat, a2: nat, b: nat, b2: nat,
                                   without: seq<DisplayId>, with: seq<DisplayId>, known: set<DisplayId>, d: DisplayId, id: Identity, k: nat)
    requires IsRun(w, store, states, inputs) && LostAndFound(w, states, inputs, a, a2, b, b2, without, with, known, d, id)
    ensures w.dock(states[b2].tick + 13) == Some(d) || BringsDock(w, states[b2].tick + 14, d, k) ==>
              states[b2 + 1].lock == d && states[b2 + 1].tapHeld && LockEarned(states[b2 + 1].log, d)
  {
    hide IsRun, BringsDock, RelocateUntilCurrent, LockEarned, Stable, Away, Back, Stored, IdentityOf;
    DisconnectAndReconnect(w, store, states, inputs, a, a2, b, b2, without, with, known, d, id);
    if BringsDock(w, states[b2].tick + 14, d, k) {
      LoopSucceeds(w, states[b2].tick + 14, 0, [], d, k);
    }
  }

  lemma StableList(w: World, from: nat, to: nat, ids: seq<DisplayId>)
    requires Stable(w, from, to, ids) && from < to
    ensures w.layout(from).Active() == ids
  {
    assert StableAt(w, from, ids);
  }
}
