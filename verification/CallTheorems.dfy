/** What every call of the daemon keeps, in every run: locks are earned, relocations run with the lock
    off or on their target, a held lock has a held tap, and the snapshot stays valid. */
module CallTheorems {
  import opened Options
  import opened Displays
  import opened EdgeSweep
  import opened DisplayLock
  import opened Environment
  import opened Preferences
  import opened Relocation
  import opened Controller
  import opened LockTheorems

  /** Every lock set in the call was preceded by a Dock query that answered its display, with no
      other Dock query in between. */
  ghost predicate Earned(log: seq<Event>) {
    forall k :: 0 <= k < |log| && log[k].LockSet? ==> LastDock(log[..k]) == Some(Some(log[k].id))
  }

  /** `cache` was read from the layout at some tick of the interval. */
  ghost predicate CacheFrom(w: World, from: nat, to: nat, cache: seq<DisplayBounds>) {
    exists t :: from <= t < to && cache == FreshCache(w.layout(t))
  }

  /** Every relocation ran with the lock off, or on its target with a cache read in the same call. */
  ghost predicate Unobstructed(w: World, from: nat, log: seq<Event>) {
    forall e :: e in log && e.Attempted? ==>
      from <= e.tick && (e.lock == 0 || (e.lock == e.target && CacheFrom(w, from, e.tick, e.cache)))
  }

  /** The invariant of a call that began at tick `from`. */
  ghost predicate CallInvariant(w: World, from: nat, s: Daemon) {
    && from <= s.tick && ValidStatus(s.status) && (s.lock != 0 ==> s.tapHeld)
    && Earned(s.log) && Unobstructed(w, from, s.log) && Placed(w, s.log)
  }

  /** A lock in force has a cache read in this call. */
  ghost predicate CacheReady(w: World, from: nat, s: Daemon) {
    s.lock != 0 ==> CacheFrom(w, from, s.tick, s.cache)
  }

  lemma EarnedConcat(a: seq<Event>, b: seq<Event>)
    requires Earned(a) && forall e :: e in b ==> !e.LockSet?
    ensures Earned(a + b)
  {
    assert forall k :: |a| <= k < |a + b| ==> (a + b)[k] in b;
    forall k | 0 <= k < |a| && (a + b)[k].LockSet?
      ensures LastDock((a + b)[..k]) == Some(Some((a + b)[k].id))
    {
      assert (a + b)[..k] == a[..k];
    }
  }

  /** Events other than attempts and locks keep the invariant. */
  lemma QuietStep(w: World, from: nat, s: Daemon, s': Daemon, events: seq<Event>)
    requires CallInvariant(w, from, s) && s.tick <= s'.tick && s'.log == s.log + events
    requires forall e :: e in events ==> !e.LockSet? && !e.Attempted? && !Places(e)
    requires ValidStatus(s'.status) && (s'.lock != 0 ==> s'.tapHeld)
    ensures CallInvariant(w, from, s')
  {
    EarnedConcat(s.log, events);
    PlacedConcat(w, s.log, events);
  }

  lemma CacheLater(w: World, from: nat, s: Daemon, s': Daemon)
    requires CacheReady(w, from, s) && s.tick <= s'.tick && s'.cache == s.cache && (s'.lock == s.lock || s'.lock == 0)
    ensures CacheReady(w, from, s')
  {
  }

  lemma RefreshSupportKeeps(w: World, from: nat, s: Daemon)
    requires CallInvariant(w, from, s)
    ensures CallInvariant(w, from, RefreshSupport(w, s))
    ensures CacheReady(w, from, s) ==> CacheReady(w, from, RefreshSupport(w, s))
  {
    QuietStep(w, from, s, RefreshSupport(w, s), [SupportChecked(RefreshSupport(w, s).supported)]);
    if CacheReady(w, from, s) {
      CacheLater(w, from, s, RefreshSupport(w, s));
    }
  }

  lemma MoveDockKeeps(w: World, from: nat, s: Daemon, d: DisplayId)
    requires CallInvariant(w, from, s) && (s.lock == 0 || (s.lock == d && CacheReady(w, from, s)))
    ensures var (s', there) := MoveDock(w, s, d);
            && CallInvariant(w, from, s') && (there ==> LastDock(s'.log) == Some(Some(d)))
            && s' == s.(tick := s'.tick, log := s'.log) && s.tick <= s'.tick
  {
    hide RelocateUntilCurrent, LastDock, Placed;
    var r := RelocateUntilCurrent(w, s.tick, s.lock, s.cache, d, 0);
    RelocationLoopShape(w, s.tick, s.lock, s.cache, d, 0);
    LogsConcat(w, s.log, r.log);
    EarnedConcat(s.log, r.log);
    forall e | e in s.log + r.log && e.Attempted?
      ensures from <= e.tick && (e.lock == 0 || (e.lock == e.target && CacheFrom(w, from, e.tick, e.cache)))
    {
      if e in s.log {
      } else if e.lock != 0 {
        var t :| from <= t < s.tick && s.cache == FreshCache(w.layout(t));
        assert e.cache == s.cache && t < e.tick;
      }
    }
  }

  lemma SetLockKeeps(w: World, from: nat, s: Daemon, d: DisplayId)
    requires CallInvariant(w, from, s) && LastDock(s.log) == Some(Some(d))
    ensures CallInvariant(w, from, SetLock(w, s, d).0) && s.tick <= SetLock(w, s, d).0.tick
  {
    var (s', ok) := SetLock(w, s, d);
    if ok {
      var log := s.log + [CacheRefreshed];
      EarnedConcat(s.log, [CacheRefreshed]);
      assert LastDock(log) == LastDock(s.log) by {
        assert log[..|s.log|] == s.log;
      }
      forall k | 0 <= k < |s'.log| && s'.log[k].LockSet?
        ensures LastDock(s'.log[..k]) == Some(Some(s'.log[k].id))
      {
        assert s'.log[..k] == log[..k];
        assert log[..|log|] == log;
      }
      QuietIsPlaced(w, [CacheRefreshed]);
      QuietIsPlaced(w, [LockSet(d)]);
      PlacedConcat(w, s.log, [CacheRefreshed]);
      PlacedConcat(w, log, [LockSet(d)]);
      assert forall e :: e in s'.log && e.Attempted? ==> e in s.log;
    } else {
      assert s'.log == s.log + [];
      QuietStep(w, from, s, s', []);
    }
  }

  lemma QueryKeeps(w: World, from: nat, s: Daemon)
    requires CallInvariant(w, from, s)
    ensures var q := QueryStatus(w, s.tick);
            var s' := s.(tick := q.tick, log := s.log + q.log);
            && CallInvariant(w, from, s') && (CacheReady(w, from, s) ==> CacheReady(w, from, s'))
            && (q.value.Some? ==> LastDock(s'.log) == Some(Some(Current(q.value.value))))
  {
    var q := QueryStatus(w, s.tick);
    var s' := s.(tick := q.tick, log := s.log + q.log);
    QuietStep(w, from, s, s', q.log);
    LastDockConcat(s.log, q.log);
    if CacheReady(w, from, s) {
      CacheLater(w, from, s, s');
    }
  }

  lemma RefreshStatusKeeps(w: World, from: nat, s: Daemon)
    requires CallInvariant(w, from, s)
    ensures CallInvariant(w, from, RefreshStatus(w, s).0)
    ensures CacheReady(w, from, s) ==> CacheReady(w, from, RefreshStatus(w, s).0)
  {
    QuietStep(w, from, s, RefreshStatus(w, s).0, QueryStatus(w, s.tick).log);
    if CacheReady(w, from, s) {
      CacheLater(w, from, s, RefreshStatus(w, s).0);
    }
  }

  lemma RefreshLocationKeeps(w: World, from: nat, s: Daemon)
    requires CallInvariant(w, from, s)
    ensures CallInvariant(w, from, RefreshLocation(w, s).0)
    ensures CacheReady(w, from, s) ==> CacheReady(w, from, RefreshLocation(w, s).0)
  {
    QuietStep(w, from, s, RefreshLocation(w, s).0, [DockQueried(w.dock(s.tick))]);
    if CacheReady(w, from, s) {
      CacheLater(w, from, s, RefreshLocation(w, s).0);
    }
  }

  lemma ApplyUnlockKeeps(w: World, from: nat, s: Daemon)
    requires CallInvariant(w, from, s)
    ensures CallInvariant(w, from, ApplyUnlock(w, s).0)
  {
    var done := WriteIsPrefix(w, s.tick, s.store, CLEAR_EDITS);
    var (s', ok) := ApplyUnlock(w, s);
    assert s.log + [] == s.log;
    QuietStep(w, from, s, s', if ok then [LockCleared] else []);
  }

  lemma KeepLockKeeps(w: World, from: nat, s: Daemon)
    requires CallInvariant(w, from, s) && s.lock != 0 && CacheReady(w, from, s)
    ensures CallInvariant(w, from, KeepLock(w, s).0)
  {
    hide MoveDock, QueryStatus, LastDock;
    if s.lock !in s.status.displays {
      QuietStep(w, from, s, ClearLock(s), [LockCleared]);
    } else {
      var q := QueryStatus(w, s.tick);
      QueryKeeps(w, from, s);
      var s1 := s.(tick := q.tick, log := s.log + q.log);
      MoveDockKeeps(w, from, s1, s.lock);
    }
  }

  lemma RestoreLockKeeps(w: World, from: nat, s: Daemon)
    requires CallInvariant(w, from, s) && s.lock == 0
    ensures CallInvariant(w, from, RestoreLock(w, s).0)
  {
    hide MoveDock, QueryStatus, SetLock, Load, LastDock, FindByIdentity;
    var s1 := s.(tick := Load(w, s.tick, s.store).tick);
    assert s1.log == s.log + [];
    QuietStep(w, from, s, s1, []);
    var q := QueryStatus(w, s1.tick);
    QueryKeeps(w, from, s1);
    var s2 := s1.(tick := q.tick, log := s1.log + q.log);
    forall d: DisplayId
      ensures CallInvariant(w, from, MoveDock(w, s2, d).0)
      ensures MoveDock(w, s2, d).1 ==> CallInvariant(w, from, SetLock(w, MoveDock(w, s2, d).0, d).0)
    {
      MoveDockKeeps(w, from, s2, d);
      if MoveDock(w, s2, d).1 {
        SetLockKeeps(w, from, MoveDock(w, s2, d).0, d);
      }
    }
    if q.value.Some? {
      SetLockKeeps(w, from, s2, Current(q.value.value));
    }
  }

  lemma ReconcileKeeps(w: World, from: nat, s: Daemon)
    requires CallInvariant(w, from, s) && CacheReady(w, from, s)
    ensures CallInvariant(w, from, Reconcile(w, s).0)
  {
    hide RefreshSupport, ApplyUnlock, KeepLock, RestoreLock;
    RefreshSupportKeeps(w, from, s);
    var s1 := RefreshSupport(w, s);
    if !s1.supported {
      ApplyUnlockKeeps(w, from, s1);
    } else if s1.lock != 0 {
      KeepLockKeeps(w, from, s1);
    } else {
      RestoreLockKeeps(w, from, s1);
    }
  }

  lemma MarkedReconcileKeeps(w: World, from: nat, s: Daemon)
    requires CallInvariant(w, from, s) && CacheReady(w, from, s)
    ensures CallInvariant(w, from, MarkedReconcile(w, s).0)
  {
    hide Reconcile;
    ReconcileKeeps(w, from, s);
    var (s1, ok) := Reconcile(w, s);
    QuietStep(w, from, s1, MarkedReconcile(w, s).0, [Reconciled(ok)]);
  }

  lemma ReconcileAndCoolKeeps(w: World, from: nat, s: Daemon)
    requires CallInvariant(w, from, s) && CacheReady(w, from, s)
    ensures CallInvariant(w, from, ReconcileAndCool(w, s))
  {
    hide MarkedReconcile, RefreshStatus;
    MarkedReconcileKeeps(w, from, s);
    var (s1, ok) := MarkedReconcile(w, s);
    assert s1.log == s1.log + [];
    if ok {
      QuietStep(w, from, s1, s1.(cooldownUntil := None), []);
      RefreshStatusKeeps(w, from, s1.(cooldownUntil := None));
    } else {
      QuietStep(w, from, s1, StartCooldown(w, s1), []);
    }
  }

  lemma HealKeeps(w: World, from: nat, s: Daemon)
    requires CallInvariant(w, from, s) && CacheReady(w, from, s)
    ensures CallInvariant(w, from, Heal(w, s))
  {
    hide ReconcileAndCool, Load, FindByIdentity;
    var s1 := s.(tick := s.tick + 1);
    var (s2, needed) := NeedsHealing(w, s1);
    assert s.log == s.log + [];
    QuietStep(w, from, s, s1, []);
    QuietStep(w, from, s1, s2, if s1.lock != 0 then [Probed(w.probe(s1.tick))] else []);
    CacheLater(w, from, s, s2);
    ReconcileAndCoolKeeps(w, from, s2);
  }

  lemma RefreshCacheKeeps(w: World, from: nat, s: Daemon)
    requires CallInvariant(w, from, s)
    ensures CallInvariant(w, from, RefreshCache(w, s)) && CacheReady(w, from, RefreshCache(w, s))
  {
    QuietStep(w, from, s, RefreshCache(w, s), [CacheRefreshed]);
    assert from <= s.tick < s.tick + 1;
  }

  lemma RefreshInfoKeeps(w: World, from: nat, s: Daemon)
    requires CallInvariant(w, from, s)
    ensures CallInvariant(w, from, RefreshInfo(w, s))
    ensures CacheReady(w, from, s) ==> CacheReady(w, from, RefreshInfo(w, s))
  {
    assert s.log == s.log + [];
    QuietStep(w, from, s, RefreshInfo(w, s), []);
    if CacheReady(w, from, s) {
      CacheLater(w, from, s, RefreshInfo(w, s));
    }
  }

  lemma ObserveKeeps(w: World, from: nat, s: Daemon)
    requires CallInvariant(w, from, s)
    ensures CallInvariant(w, from, Observe(w, s)) && CacheReady(w, from, Observe(w, s))
  {
    hide RefreshInfo, RefreshCache, RefreshLocation, RefreshSupport;
    var s1 := s.(pending := None, tick := s.tick + 1);
    assert s.log == s.log + [];
    QuietStep(w, from, s, s1, []);
    RefreshInfoKeeps(w, from, s1);
    var s2 := if s.infoRetryAfter.Some? && w.clock(s.tick) >= s.infoRetryAfter.value then RefreshInfo(w, s1) else s1;
    RefreshCacheKeeps(w, from, s2);
    RefreshLocationKeeps(w, from, RefreshCache(w, s2));
    RefreshSupportKeeps(w, from, RefreshLocation(w, RefreshCache(w, s2)).0);
  }

  lemma PollUnchangedKeeps(w: World, from: nat, s: Daemon)
    requires CallInvariant(w, from, s)
    ensures CallInvariant(w, from, PollUnchanged(w, s))
  {
    hide Observe, MarkedReconcile, Heal;
    ObserveKeeps(w, from, s);
    MarkedReconcileKeeps(w, from, Observe(w, s));
    HealKeeps(w, from, Observe(w, s));
  }

  lemma PollChangedKeeps(w: World, from: nat, s: Daemon)
    requires CallInvariant(w, from, s)
    ensures CallInvariant(w, from, PollChanged(w, s))
  {
    hide RefreshInfo, RefreshCache, RefreshStatus, ReconcileAndCool;
    RefreshCacheKeeps(w, from, s);
    RefreshInfoKeeps(w, from, RefreshCache(w, s));
    RefreshStatusKeeps(w, from, RefreshInfo(w, RefreshCache(w, s)));
    ReconcileAndCoolKeeps(w, from, RefreshStatus(w, RefreshInfo(w, RefreshCache(w, s))).0);
  }

  lemma PollKeeps(w: World, from: nat, s: Daemon)
    requires CallInvariant(w, from, s)
    ensures CallInvariant(w, from, Poll(w, s))
  {
    hide PollUnchanged, PollChanged;
    var ids := w.layout(s.tick).Active();
    var s1 := s.(tick := s.tick + 1, log := s.log + [Polled(ids)]);
    QuietStep(w, from, s, s1, [Polled(ids)]);
    assert s1.log == s1.log + [];
    QuietStep(w, from, s1, s1.(pending := Some(ids)), []);
    var s2 := s1.(pending := None, log := s1.log + [ChangeAccepted(ids)]);
    QuietStep(w, from, s1, s2, [ChangeAccepted(ids)]);
    PollUnchangedKeeps(w, from, s1);
    PollChangedKeeps(w, from, s2);
  }

  lemma LockAndSaveKeeps(w: World, from: nat, s: Daemon, d: DisplayId, id: Identity)
    requires CallInvariant(w, from, s) && LastDock(s.log) == Some(Some(d))
    ensures CallInvariant(w, from, LockAndSave(w, s, d, id).0)
  {
    hide SetLock, RefreshStatus, Write, LastDock;
    SetLockKeeps(w, from, s, d);
    var (s1, locked) := SetLock(w, s, d);
    var done := WriteIsPrefix(w, s1.tick, s1.store, SaveEdits(id));
    var written := Write(w, s1.tick, s1.store, SaveEdits(id));
    var s2 := s1.(tick := written.tick, store := written.store);
    assert s1.log == s1.log + [];
    QuietStep(w, from, s1, s2, []);
    RefreshStatusKeeps(w, from, s2);
  }

  lemma ApplySetStateKeeps(w: World, from: nat, s: Daemon, target: nat)
    requires CallInvariant(w, from, s)
    ensures CallInvariant(w, from, ApplySetState(w, s, target).0)
  {
    hide RefreshSupport, MoveDock, LockAndSave, LastDock;
    if target < |s.status.displays| {
      var d := s.status.displays[target];
      RefreshSupportKeeps(w, from, s);
      var s1 := RefreshSupport(w, s);
      var dock := w.dock(s1.tick);
      var s2 := s1.(tick := s1.tick + 1, log := s1.log + [DockQueried(dock)]);
      QuietStep(w, from, s1, s2, [DockQueried(dock)]);
      LastDockAfterQuery(s1.log, dock);
      QuietStep(w, from, s2, ClearLock(s2), [LockCleared]);
      MoveDockKeeps(w, from, ClearLock(s2), d);
      var (s3, there) := if dock == Some(d) then (s2, true) else MoveDock(w, ClearLock(s2), d);
      var id := IdentityOf(d, s1.info);
      if there && id.Some? {
        LockAndSaveKeeps(w, from, s3, d, id.value);
      }
    }
  }

  lemma LastDockAfterQuery(log: seq<Event>, answer: Option<DisplayId>)
    ensures LastDock(log + [DockQueried(answer)]) == Some(answer)
  {
  }

  lemma HandleRequestKeeps(w: World, from: nat, s: Daemon, request: Request)
    requires CallInvariant(w, from, s)
    ensures CallInvariant(w, from, HandleRequest(w, s, request).0)
  {
    hide ApplySetState, ApplyUnlock, RefreshLocation;
    match request
    case GetState =>
      RefreshLocationKeeps(w, from, s);
      var s1 := RefreshLocation(w, s).0;
      assert s1.log == s1.log + [];
      QuietStep(w, from, s1, MouseEvents(w, s1), []);
    case SetState(target) => ApplySetStateKeeps(w, from, s, target);
    case Unlock => ApplyUnlockKeeps(w, from, s);
  }

  /** One turn of the main loop keeps the invariant, for any input and any answers. */
  lemma StepKeeps(w: World, s: Daemon, input: Input)
    requires ValidStatus(s.status) && (s.lock != 0 ==> s.tapHeld)
    ensures CallInvariant(w, s.tick, Step(w, s, input))
  {
    hide Poll, HandleRequest;
    var s0 := s.(log := []);
    assert CallInvariant(w, s.tick, s0);
    PollKeeps(w, s.tick, s0);
    if input.Asked? {
      HandleRequestKeeps(w, s.tick, s0, input.request);
    }
  }

  /** So does start-up. */
  lemma BootKeeps(w: World, store: Store)
    requires Boot(w, store).Some?
    ensures CallInvariant(w, 0, Boot(w, store).value)
  {
    hide MarkedReconcile, RefreshStatus;
    var q := QueryStatus(w, 0);
    var s := Initial(q.tick + 1, store, q.value.value, w.info(q.tick).value);
    assert CallInvariant(w, 0, s);
    MarkedReconcileKeeps(w, 0, s);
    var (s1, ok) := MarkedReconcile(w, s);
    if ok {
      RefreshStatusKeeps(w, 0, s1);
    } else {
      assert s1.log == s1.log + [];
      QuietStep(w, 0, s1, StartCooldown(w, s1), []);
    }
  }

  // ----- theorems over runs

  /** In every run and every call of it: the snapshot is valid, a lock target implies a held event tap,
      locks are earned, and relocations run with the lock off or on their target. */
  lemma {:induction false} EveryCall(w: World, store: Store, states: seq<Daemon>, inputs: seq<Input>, i: nat)
    requires IsRun(w, store, states, inputs) && i < |states|
    ensures CallInvariant(w, if i == 0 then 0 else states[i - 1].tick, states[i])
  {
    hide Step, Boot;
    if i == 0 {
      StartOf(w, store, states, inputs);
      BootKeeps(w, store);
    } else {
      TurnOf(w, store, states, inputs, i - 1);
      EveryCall(w, store, states, inputs, i - 1);
      StepKeeps(w, states[i - 1], inputs[i - 1]);
    }
  }

  /** The display arrangement is `layout` from tick `from` to tick `to`. */
  ghost predicate Unchanging(w: World, from: nat, to: nat, layout: Layout) {
    forall t :: from <= t <= to ==> w.layout(t) == layout
  }

  /** The displays are disjoint and `d` can be reached: at least 10 high, with a free stretch of edge. */
  ghost predicate Reachable(layout: Layout, d: DisplayId) {
    && layout.Disjoint() && d in layout.Active() && layout.Bounds(d).Some?
    && layout.Bounds(d).value.height >= RELOCATION_APPROACH_OFFSET
    && exists a, b :: OpenStretch(layout, d, BottomEdge(layout.Bounds(d).value), a, b)
  }

  /** The daemon's own tap never blocks its relocations: in every call of every run, each placement of
      the cursor belongs to an attempt of that call; and if the arrangement is stable until then and the
      attempt's display reachable, the placement is inside that display and not suppressed under the lock
      and cache of the attempt. */
  lemma TapNeverBlocksRelocation(w: World, store: Store, states: seq<Daemon>, inputs: seq<Input>, i: nat, m: nat, layout: Layout, supported: bool)
    returns (a: Event)
    requires IsRun(w, store, states, inputs) && i < |states| && m < |states[i].log| && Places(states[i].log[m])
    ensures LastAttempt(states[i].log[..m]) == Some(a) && a.Attempted?
    ensures Unchanging(w, if i == 0 then 0 else states[i - 1].tick, a.tick + 5, layout) && Reachable(layout, a.target) ==>
              && layout.Holds(a.target, states[i].log[m].point)
              && !ShouldSuppress(supported, a.lock, a.cache, states[i].log[m].point)
  {
    hide IsRun, Relocate, FreshCache, ShouldSuppress, LastAttempt;
    EveryCall(w, store, states, inputs, i);
    var log := states[i].log;
    assert PlacedAt(w, log, m);
    a := LastAttempt(log[..m]).value;
    assert a in log;
    if Unchanging(w, if i == 0 then 0 else states[i - 1].tick, a.tick + 5, layout) && Reachable(layout, a.target) {
      TapPassesRelocation(w, a.tick, a.target, supported, a.lock, layout);
      if a.lock == 0 {
        NoLockNoSuppression(supported, a.cache);
      }
    }
  }

  lemma NoLockNoSuppression(supported: bool, cache: seq<DisplayBounds>)
    ensures forall p :: !ShouldSuppress(supported, 0, cache, p)
  {
  }

  /** `shown` is how a reply names display `d`: by its number unless it is built in or has a name. */
  predicate Names(shown: Label, d: DisplayId, info: map<DisplayId, DisplayInfo>) {
    match shown
    case Numbered(e) => e == d && (d in info ==> !info[d].isBuiltin && info[d].name == "")
    case BuiltInDisplay => d in info && info[d].isBuiltin
    case Named(name) => d in info && !info[d].isBuiltin && info[d].name == name != ""
  }

  /** Every state reply, at any point of any run, names at most 32 displays, an in-range location, and
      as its target the first listed display that is the locked one, if it is listed; its labels name
      the displays of the snapshot, in order. */
  lemma StateReplyIsWellFormed(w: World, store: Store, states: seq<Daemon>, inputs: seq<Input>, i: nat)
    requires IsRun(w, store, states, inputs) && i < |states|
    ensures var (s, reply) := HandleRequest(w, states[i].(log := []), GetState);
            reply.State? ==>
              && reply.location < |reply.displays| == |s.status.displays| <= 32
              && (forall k :: 0 <= k < |reply.displays| ==> Names(reply.displays[k], s.status.displays[k], s.info))
              && LastDock(s.log) == Some(Some(s.status.displays[reply.location]))
              && (reply.target.Some? <==> s.lock != 0 && s.lock in s.status.displays)
              && (reply.target.Some? ==> reply.target.value < |reply.displays| && s.status.displays[reply.target.value] == s.lock)
  {
    hide IsRun;
    EveryCall(w, store, states, inputs, i);
    var s0 := states[i].(log := []);
    assert [] + [DockQueried(w.dock(s0.tick))] == [DockQueried(w.dock(s0.tick))];
    assert LastDock([DockQueried(w.dock(s0.tick))]) == Some(w.dock(s0.tick));
  }
}
