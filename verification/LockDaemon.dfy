/** The daemon's statements, field by field (crates/lockdock-daemon/src: controller.rs, daemon.rs,
    display_lock.rs, display_state.rs, preferences.rs, relocation.rs). Every method is proved to take
    the state to the one its function in `Controller`, `Relocation` or `Preferences` gives. */
module LockDaemonProcess {
  import opened Options
  import opened Geometry
  import opened Displays
  import opened EdgeSweep
  import opened DisplayLock
  import opened Environment
  import opened Preferences
  import opened Relocation
  import opened Controller
  import opened LockTheorems

  /** A loop that is to produce `total` on top of `base` has come to `log` with `rest` still to come. */
  ghost predicate Remains<A(!new)>(total: Part<A>, base: seq<Event>, rest: Part<A>, log: seq<Event>) {
    total.value == rest.value && total.tick == rest.tick && base + total.log == log + rest.log
  }

  lemma RemainsAfter<A(!new)>(total: Part<A>, base: seq<Event>, rest: Part<A>, log: seq<Event>, head: seq<Event>, next: Part<A>)
    requires Remains(total, base, rest, log)
    requires rest.value == next.value && rest.tick == next.tick && rest.log == head + next.log
    ensures Remains(total, base, next, log + head)
  {
    assert log + (head + next.log) == (log + head) + next.log;
  }

  lemma VerifyEquation(w: World, tick: nat, target: DisplayId, i: nat)
    ensures Verify(w, tick, target, i) ==
            (if i >= VERIFY_ATTEMPTS then Part(TimedOut, tick, [])
             else if w.probe(tick) == Some(target) then Part(Relocated, tick + 1, [Probed(w.probe(tick))])
             else
               var rest := Verify(w, tick + 1, target, i + 1);
               Part(rest.value, rest.tick, [Probed(w.probe(tick))] + [Slept(VERIFY_DELAY)] + rest.log))
  {
    assert [Probed(w.probe(tick))] + [Slept(VERIFY_DELAY)] == [Probed(w.probe(tick)), Slept(VERIFY_DELAY)];
  }

  class LockDaemon {
    const world: World
    var tick: nat
    ghost var log: seq<Event>

    // display_lock.rs
    var lockTarget: DisplayId
    var dockSupported: bool
    var tapHeld: bool
    var displayCache: seq<DisplayBounds>

    // preferences.rs
    var store: Store

    // display_state.rs
    var status: Status
    var info: map<DisplayId, DisplayInfo>

    // daemon.rs
    var pendingDisplays: Option<seq<DisplayId>>
    var infoRetryAfter: Option<nat>
    var reconcileCooldownUntil: Option<nat>

    ghost function Model(): Daemon
      reads this
    {
      Daemon(tick, log, lockTarget, dockSupported, tapHeld, displayCache, store, status, info,
             pendingDisplays, infoRetryAfter, reconcileCooldownUntil)
    }

    constructor (world: World, tick: nat, store: Store, status: Status, info: map<DisplayId, DisplayInfo>)
      ensures this.world == world && Model() == Initial(tick, store, status, info)
    {
      this.world := world;
      this.tick := tick;
      log := [];
      lockTarget := 0;
      dockSupported := true;
      tapHeld := false;
      displayCache := [];
      this.store := store;
      this.status := status;
      this.info := info;
      pendingDisplays := None;
      infoRetryAfter := None;
      reconcileCooldownUntil := None;
    }

    // ----- relocation.rs

    method Record(event: Event)
      modifies this`log
      ensures log == old(log) + [event]
    {
      log := log + [event];
    }

    method CursorTakenByUser(expected: Point) returns (taken: bool)
      modifies this`tick
      ensures taken == CursorTaken(world, old(tick), expected) && tick == old(tick) + 1
    {
      var current := world.cursor(tick);
      tick := tick + 1;
      taken := Abs(current.x - expected.x) > USER_MOVE_TOLERANCE || Abs(current.y - expected.y) > USER_MOVE_TOLERANCE;
    }

    method MoveCursor(source: bool, point: Point)
      modifies this`log
      ensures log == old(log) + Place(source, point)
    {
      Record(Warped(point));
      if source {
        Record(Moved(point));
      }
    }

    method WalkCursor(source: bool, from: Point, to: Point, steps: nat) returns (kept: bool)
      requires steps > 0
      modifies this`tick, this`log
      ensures var r := SmoothMove(world, old(tick), source, from, to, 1, steps);
              kept == r.value && tick == r.tick && log == old(log) + r.log
    {
      hide CursorTaken, Interpolate;
      ghost var r := SmoothMove(world, tick, source, from, to, 1, steps);
      var step := 1;
      while step <= steps
        invariant 1 <= step <= steps + 1
        invariant Remains(r, old(log), SmoothMove(world, tick, source, from, to, step, steps), log)
      {
        ghost var rest, before := SmoothMove(world, tick, source, from, to, step, steps), log;
        var point := Interpolate(from, to, step, steps);
        var moved := if source then Moved(point) else Warped(point);
        Record(moved);
        Record(Slept(EDGE_MOVE_DELAY));
        assert log == before + [moved, Slept(EDGE_MOVE_DELAY)];
        var taken := CursorTakenByUser(point);
        if taken {
          return false;
        }
        step := step + 1;
        RemainsAfter(r, old(log), rest, before, [moved, Slept(EDGE_MOVE_DELAY)],
                     SmoothMove(world, tick, source, from, to, step, steps));
      }
      kept := true;
    }

    method DockProbeMatches(target: DisplayId) returns (hit: bool)
      modifies this`tick, this`log
      ensures hit == (world.probe(old(tick)) == Some(target))
      ensures tick == old(tick) + 1 && log == old(log) + [Probed(world.probe(old(tick)))]
    {
      var answer := world.probe(tick);
      tick := tick + 1;
      Record(Probed(answer));
      hit := answer == Some(target);
    }

    method VerifyRelocation(target: DisplayId) returns (outcome: Outcome)
      modifies this`tick, this`log
      ensures var r := Verify(world, old(tick), target, 0);
              outcome == r.value && tick == r.tick && log == old(log) + r.log
    {
      hide Verify;
      ghost var r := Verify(world, tick, target, 0);
      var i := 0;
      while i < VERIFY_ATTEMPTS
        invariant 0 <= i <= VERIFY_ATTEMPTS
        invariant Remains(r, old(log), Verify(world, tick, target, i), log)
      {
        ghost var rest, before, head := Verify(world, tick, target, i), log, [Probed(world.probe(tick))];
        VerifyEquation(world, tick, target, i);
        var hit := DockProbeMatches(target);
        if hit {
          return Relocated;
        }
        Record(Slept(VERIFY_DELAY));
        head := head + [Slept(VERIFY_DELAY)];
        i := i + 1;
        assert log == before + head;
        RemainsAfter(r, old(log), rest, before, head, Verify(world, tick, target, i));
      }
      VerifyEquation(world, tick, target, i);
      outcome := TimedOut;
    }

    method WaitForDockRelocation(source: bool, edge: Point, target: DisplayId) returns (outcome: Outcome)
      modifies this`tick, this`log
      ensures var r := WaitForDock(world, old(tick), source, edge, target, 0);
              outcome == r.value && tick == r.tick && log == old(log) + r.log
    {
      hide CursorTaken, Verify;
      ghost var r := WaitForDock(world, tick, source, edge, target, 0);
      var attempt := 0;
      while attempt < NUDGE_ATTEMPTS
        invariant 0 <= attempt <= NUDGE_ATTEMPTS
        invariant Remains(r, old(log), WaitForDock(world, tick, source, edge, target, attempt), log)
      {
        ghost var rest, before, head := WaitForDock(world, tick, source, edge, target, attempt), log, NudgeLog(source, edge);
        PostNudge(source, edge);
        var taken := CursorTakenByUser(edge);
        if taken {
          return Interrupted;
        }
        if (attempt + 1) % PROBE_INTERVAL == 0 {
          head := head + [Probed(world.probe(tick))];
          var hit := DockProbeMatches(target);
          assert log == before + head;
          if hit {
            return Relocated;
          }
        }
        attempt := attempt + 1;
        RemainsAfter(r, old(log), rest, before, head, WaitForDock(world, tick, source, edge, target, attempt));
      }
      outcome := VerifyRelocation(target);
    }

    method PostNudge(source: bool, edge: Point)
      modifies this`log
      ensures log == old(log) + NudgeLog(source, edge)
    {
      if source {
        Record(Nudged(edge));
      }
      Record(Slept(NUDGE_DELAY));
    }

    method RestoreCursor(edge: Point, home: Point)
      modifies this`tick, this`log
      ensures var r := Restore(world, old(tick), edge, home); tick == r.tick && log == old(log) + r.log
    {
      var taken := CursorTakenByUser(edge);
      if !taken {
        Record(Restored(home));
      }
    }

    method PushCursor(source: bool, t: real, edgeY: real, target: DisplayId) returns (outcome: Outcome)
      modifies this`tick, this`log
      ensures var r := PushAtEdge(world, old(tick), source, t, edgeY, target);
              outcome == r.value && tick == r.tick && log == old(log) + r.log
    {
      hide SmoothMove, WaitForDock, CursorTaken;
      var approach := Point(t, edgeY - RELOCATION_APPROACH_OFFSET);
      var edge := Point(t, edgeY - 1.0);
      MoveCursor(source, approach);
      Record(Slept(APPROACH_DELAY));
      ghost var placed := Place(source, approach) + [Slept(APPROACH_DELAY)];
      assert log == old(log) + placed;
      var taken := CursorTakenByUser(approach);
      if taken {
        return Interrupted;
      }
      ghost var walked := SmoothMove(world, tick, source, approach, edge, 1, EDGE_MOVE_STEPS).log;
      var kept := WalkCursor(source, approach, edge, EDGE_MOVE_STEPS);
      assert log == old(log) + (placed + walked);
      if !kept {
        return Interrupted;
      }
      ghost var waited := WaitForDock(world, tick, source, edge, target, 0).log;
      outcome := WaitForDockRelocation(source, edge, target);
      assert log == old(log) + (placed + walked + waited);
    }

    method PushCursorAndRestore(source: bool, t: real, edgeY: real, target: DisplayId, home: Point) returns (result: Attempt)
      modifies this`tick, this`log
      ensures var r := PushAndRestore(world, old(tick), source, t, edgeY, target, home);
              result == r.value && tick == r.tick && log == old(log) + r.log
    {
      hide PushAtEdge, Restore;
      var outcome := PushCursor(source, t, edgeY, target);
      match outcome
      case Relocated =>
        RestoreCursor(Point(t, edgeY - 1.0), home);
        result := Done;
      case Interrupted =>
        result := UserInterrupted;
      case TimedOut =>
        RestoreCursor(Point(t, edgeY - 1.0), home);
        result := Failed;
    }

    method RelocateDisplay(target: DisplayId) returns (result: Attempt)
      modifies this`tick, this`log
      ensures var r := Relocate(world, old(tick), target);
              result == r.value && tick == r.tick && log == old(log) + r.log
    {
      hide PushAndRestore, Overlaps, WidestGap, ChooseTriggerCoordinate;
      var bounds := world.layout(tick).Bounds(target);
      tick := tick + 1;
      if bounds.None? {
        return Failed;
      }
      var bottom := world.bottom(tick);
      tick := tick + 1;
      if !bottom {
        return Done;
      }
      var overlay := world.overlay(tick);
      tick := tick + 1;
      if overlay {
        return UserInterrupted;
      }
      var home := world.cursor(tick);
      var source := world.source(tick + 1);
      var layout := world.layout(tick + 2);
      tick := tick + 3;
      var edge := BottomEdge(bounds.value);
      var overlaps := CollectEdgeOverlaps(layout, target, edge);
      var safe := FindSafeEdgeSegment(edge, overlaps);
      var t := ChooseTriggerCoordinate(bounds.value, overlaps, safe);
      result := PushCursorAndRestore(source, t, edge.y, target, home);
    }

    // ----- display_lock.rs

    method ClearLockTarget()
      modifies this
      ensures Model() == ClearLock(old(Model()))
    {
      lockTarget := 0;
      tapHeld := false;
      Record(LockCleared);
    }

    method RefreshDisplayCache()
      modifies this
      ensures Model() == RefreshCache(world, old(Model()))
    {
      var next := ReadDisplayCache(world.layout(tick));
      tick := tick + 1;
      displayCache := next;
      Record(CacheRefreshed);
    }

    method SetLockTarget(d: DisplayId) returns (ok: bool)
      modifies this
      ensures (Model(), ok) == SetLock(world, old(Model()), d)
    {
      if !tapHeld {
        var started := world.tap(tick);
        if !started {
          tick := tick + 1;
          return false;
        }
        tapHeld := true;
      }
      tick := tick + 1;
      RefreshDisplayCache();
      lockTarget := d;
      Record(LockSet(d));
      ok := true;
    }

    /** A mouse event at an arbitrary position, decided as in the event tap. */
    method ShouldSuppressEvent(p: Point) returns (suppress: bool)
      modifies this`lockTarget
      ensures suppress == ShouldSuppress(dockSupported, old(lockTarget), displayCache, p)
      ensures lockTarget == if dockSupported then old(lockTarget) else 0
    {
      if !dockSupported {
        lockTarget := 0;
        return false;
      }
      if lockTarget == 0 {
        return false;
      }
      var current := CachedDisplayAt(displayCache, p);
      if current.None? || current.value.id == lockTarget {
        return false;
      }
      var distance := DistanceFromBottomEdge(p, current.value.bounds);
      suppress := 0.0 <= distance <= LOCK_EDGE_ZONE;
    }

    method LetMouseEventsPass()
      modifies this
      ensures Model() == MouseEvents(world, old(Model()))
    {
      if world.mouse(tick) {
        var suppress := ShouldSuppressEvent(world.cursor(tick));
      }
      tick := tick + 1;
    }

    method RefreshDockSupport() returns (supported: bool)
      modifies this
      ensures Model() == RefreshSupport(world, old(Model())) && supported == dockSupported
    {
      LetMouseEventsPass();
      supported := world.bottom(tick);
      tick := tick + 1;
      dockSupported := supported;
      Record(SupportChecked(supported));
    }

    // ----- display_state.rs

    method DockDisplay() returns (dock: Option<DisplayId>)
      modifies this`tick, this`log
      ensures dock == world.dock(old(tick)) && tick == old(tick) + 1 && log == old(log) + [DockQueried(dock)]
    {
      dock := world.dock(tick);
      tick := tick + 1;
      Record(DockQueried(dock));
    }

    method QueryDisplayStatus() returns (r: Option<Status>)
      modifies this`tick, this`log
      ensures var q := QueryStatus(world, old(tick)); r == q.value && tick == q.tick && log == old(log) + q.log
    {
      var displays := world.layout(tick).Active();
      tick := tick + 1;
      var dock := DockDisplay();
      if dock.None? {
        return None;
      }
      var index := IndexOf(displays, dock.value);
      r := if index.Some? then Some(Status(displays, index.value)) else None;
    }

    method RefreshSnapshotStatus() returns (ok: bool)
      modifies this
      ensures (Model(), ok) == RefreshStatus(world, old(Model()))
    {
      var next := QueryDisplayStatus();
      if next.None? {
        return false;
      }
      status := next.value;
      ok := true;
    }

    method RefreshSnapshotLocation() returns (ok: bool)
      modifies this
      ensures (Model(), ok) == RefreshLocation(world, old(Model()))
    {
      var dock := DockDisplay();
      if dock.None? {
        return false;
      }
      var index := IndexOf(status.displays, dock.value);
      if index.None? {
        return false;
      }
      status := status.(location := index.value);
      ok := true;
    }

    // ----- preferences.rs

    method Edited(e: Edit) returns (ok: bool)
      modifies this`tick, this`store
      ensures tick == old(tick) + 1 && ok == world.store(old(tick))
      ensures store == if ok then Apply(old(store), e) else old(store)
    {
      ok := world.store(tick);
      tick := tick + 1;
      if ok {
        store := Apply(store, e);
      }
    }

    /** The accesses of `save` and `clear`, up to the first error. */
    method WriteEdits(edits: seq<Edit>) returns (ok: bool)
      modifies this`tick, this`store
      ensures Written(store, tick, ok) == Write(world, old(tick), old(store), edits)
    {
      ghost var total := Write(world, tick, store, edits);
      for i := 0 to |edits|
        invariant Write(world, tick, store, edits[i..]) == total
      {
        assert edits[i..][1..] == edits[i + 1..];
        ok := Edited(edits[i]);
        if !ok {
          return;
        }
      }
      ok := true;
    }

    // ----- controller.rs

    method RelocateDisplayUntilCurrent(d: DisplayId) returns (there: bool)
      modifies this`tick, this`log
      ensures var r := RelocateUntilCurrent(world, old(tick), lockTarget, displayCache, d, 0);
              there == r.value && tick == r.tick && log == old(log) + r.log
    {
      hide Relocate, RelocateUntilCurrent, AttemptLog, QueryStatus;
      ghost var r := RelocateUntilCurrent(world, tick, lockTarget, displayCache, d, 0);
      var attempt := 0;
      while attempt < RETRY_ATTEMPTS
        invariant 0 <= attempt <= RETRY_ATTEMPTS
        invariant Remains(r, old(log), RelocateUntilCurrent(world, tick, lockTarget, displayCache, d, attempt), log)
      {
        ghost var rest, before := RelocateUntilCurrent(world, tick, lockTarget, displayCache, d, attempt), log;
        ghost var head := AttemptLog(tick, lockTarget, displayCache, d, attempt, Relocate(world, tick, d).log);
        LoopEquations(world, tick, lockTarget, displayCache, d, attempt);
        var result := AttemptRelocation(d, attempt);
        if result == UserInterrupted {
          return false;
        }
        if result == Done {
          head := head + SettleLog(world, tick);
          var confirmed := SettleAndConfirm(d);
          assert log == before + head;
          if confirmed {
            return true;
          }
        }
        attempt := attempt + 1;
        RemainsAfter(r, old(log), rest, before, head,
                     RelocateUntilCurrent(world, tick, lockTarget, displayCache, d, attempt));
      }
      LoopEquations(world, tick, lockTarget, displayCache, d, attempt);
      there := false;
    }

    method AttemptRelocation(d: DisplayId, attempt: nat) returns (result: Attempt)
      modifies this`tick, this`log
      ensures var r := Relocate(world, old(tick), d);
              && result == r.value && tick == r.tick
              && log == old(log) + AttemptLog(old(tick), lockTarget, displayCache, d, attempt, r.log)
    {
      hide Relocate;
      if attempt > 0 {
        Record(Slept(RETRY_DELAY));
      }
      Record(Attempted(d, lockTarget, displayCache, tick));
      result := RelocateDisplay(d);
    }

    method SettleAndConfirm(d: DisplayId) returns (confirmed: bool)
      modifies this`tick, this`log
      ensures confirmed == Confirmed(world, old(tick), d) && tick == old(tick) + 2 && log == old(log) + SettleLog(world, old(tick))
    {
      hide IndexOf;
      Record(Slept(SETTLE_DELAY));
      var status := QueryDisplayStatus();
      confirmed := status.Some? && status.value.displays[status.value.location] == d;
    }

    method ApplySet(target: nat) returns (outcome: SetOutcome)
      modifies this
      ensures (Model(), outcome) == ApplySetState(world, old(Model()), target)
    {
      hide RelocateUntilCurrent, QueryStatus, RefreshSupport, SetLock, RefreshStatus, Write, IdentityOf;
      if target >= |status.displays| {
        return OutOfRange;
      }
      var d := status.displays[target];
      var supported := RefreshDockSupport();
      if !supported {
        return Unsupported;
      }
      var identity := IdentityOf(d, info);
      if identity.None? {
        return NoIdentity;
      }
      var dock := DockDisplay();
      if dock.None? {
        return DockUnknown;
      }
      if dock.value != d {
        ClearLockTarget();
        var there := RelocateDisplayUntilCurrent(d);
        if !there {
          return NotMoved;
        }
      }
      var locked := SetLockTarget(d);
      if !locked {
        return TapFailed;
      }
      var saved := WriteEdits(SaveEdits(identity.value));
      if !saved {
        return NotSaved;
      }
      var refreshed := RefreshSnapshotStatus();
      outcome := if refreshed then Locked else NotRefreshed;
    }

    method ApplyUnlockRequest() returns (ok: bool)
      modifies this
      ensures (Model(), ok) == ApplyUnlock(world, old(Model()))
    {
      ok := WriteEdits(CLEAR_EDITS);
      if ok {
        ClearLockTarget();
      }
    }

    method LoadPreferences() returns (r: Loaded)
      modifies this`tick
      ensures var l := Load(world, old(tick), store); r == l.value && tick == l.tick
    {
      var i := 0;
      while i < 4
        invariant 0 <= i <= 4 && tick == old(tick) + i
        invariant forall k :: old(tick) <= k < old(tick) + i ==> world.store(k)
      {
        tick := tick + 1;
        i := i + 1;
        if !world.store(tick - 1) {
          return LoadError;
        }
      }
      r := LoadedIdentity(Stored(store));
    }

    method ReconcileDisplayState() returns (ok: bool)
      modifies this
      ensures (Model(), ok) == Reconcile(world, old(Model()))
    {
      hide RelocateUntilCurrent, QueryStatus, FreshCache, Load;
      var supported := RefreshDockSupport();
      if !supported {
        ok := ApplyUnlockRequest();
        return;
      }
      if lockTarget != 0 {
        var locked := lockTarget;
        if locked !in status.displays {
          ClearLockTarget();
          return true;
        }
        var current := QueryDisplayStatus();
        if current.None? {
          return false;
        }
        if current.value.displays[current.value.location] == locked {
          return true;
        }
        ok := RelocateDisplayUntilCurrent(locked);
        return;
      }
      ok := RestorePreference();
    }

    method RestorePreference() returns (ok: bool)
      modifies this
      ensures (Model(), ok) == RestoreLock(world, old(Model()))
    {
      hide RelocateUntilCurrent, QueryStatus, FreshCache, Load;
      var loaded := LoadPreferences();
      if loaded.LoadError? {
        return false;
      }
      if loaded.id.None? {
        return true;
      }
      var preferred := FindByIdentity(loaded.id.value, status.displays, info);
      if preferred.None? {
        return true;
      }
      var current := QueryDisplayStatus();
      if current.None? {
        return false;
      }
      if current.value.displays[current.value.location] != preferred.value {
        var there := RelocateDisplayUntilCurrent(preferred.value);
        if !there {
          return false;
        }
      }
      ok := SetLockTarget(preferred.value);
    }

    method DockNeedsHealing() returns (needed: bool)
      modifies this
      ensures (Model(), needed) == NeedsHealing(world, old(Model()))
    {
      hide Load;
      if lockTarget != 0 {
        var current := world.probe(tick);
        tick := tick + 1;
        Record(Probed(current));
        return current.Some? && current.value != lockTarget;
      }
      var loaded := LoadPreferences();
      needed := loaded.LoadedIdentity? && loaded.id.Some?
                && FindByIdentity(loaded.id.value, status.displays, info).Some?;
    }

    // ----- daemon.rs

    method StartReconcileCooldown()
      modifies this
      ensures Model() == StartCooldown(world, old(Model()))
    {
      reconcileCooldownUntil := Some(world.clock(tick) + RECONCILE_COOLDOWN);
      tick := tick + 1;
    }

    method RefreshDisplayInfo()
      modifies this
      ensures Model() == RefreshInfo(world, old(Model()))
    {
      var next := world.info(tick);
      if next.Some? {
        info := next.value;
        infoRetryAfter := None;
      } else {
        infoRetryAfter := Some(world.clock(tick + 1) + INFO_RETRY_INTERVAL);
      }
      tick := tick + 2;
    }

    /** The shared tail of the two poll paths that reconcile. */
    method ReconcileFromPoll()
      modifies this
      ensures Model() == ReconcileAndCool(world, old(Model()))
    {
      hide Reconcile, QueryStatus;
      var ok := ReconcileDisplayState();
      Record(Reconciled(ok));
      if !ok {
        StartReconcileCooldown();
        return;
      }
      reconcileCooldownUntil := None;
      var refreshed := RefreshSnapshotStatus();
    }

    method HealDockPosition()
      modifies this
      ensures Model() == Heal(world, old(Model()))
    {
      hide ReconcileAndCool, NeedsHealing;
      var now := world.clock(tick);
      tick := tick + 1;
      if reconcileCooldownUntil.Some? && now < reconcileCooldownUntil.value {
        return;
      }
      var needed := DockNeedsHealing();
      if needed {
        ReconcileFromPoll();
      }
    }

    method ObserveDisplays() returns (supported: bool)
      modifies this
      ensures Model() == Observe(world, old(Model())) && supported == dockSupported
    {
      hide RefreshInfo, RefreshCache, RefreshLocation, RefreshSupport;
      pendingDisplays := None;
      var now := world.clock(tick);
      tick := tick + 1;
      if infoRetryAfter.Some? && now >= infoRetryAfter.value {
        RefreshDisplayInfo();
      }
      RefreshDisplayCache();
      var located := RefreshSnapshotLocation();
      supported := RefreshDockSupport();
    }

    method AcceptDisplays(displays: seq<DisplayId>)
      modifies this
      ensures Model() == PollChanged(world, old(Model()).(pending := None, log := old(log) + [ChangeAccepted(displays)]))
    {
      hide ReconcileAndCool, RefreshInfo, RefreshCache, RefreshStatus;
      pendingDisplays := None;
      Record(ChangeAccepted(displays));
      RefreshDisplayCache();
      RefreshDisplayInfo();
      var refreshed := RefreshSnapshotStatus();
      if refreshed {
        ReconcileFromPoll();
      }
    }

    method PollDisplayChanges()
      modifies this
      ensures Model() == Poll(world, old(Model()))
    {
      hide Reconcile, Heal, Observe, PollChanged;
      var displays := world.layout(tick).Active();
      tick := tick + 1;
      Record(Polled(displays));
      if displays == status.displays {
        var supported := ObserveDisplays();
        if !supported {
          var ok := ReconcileDisplayState();
          Record(Reconciled(ok));
          return;
        }
        HealDockPosition();
        return;
      }
      if pendingDisplays != Some(displays) {
        pendingDisplays := Some(displays);
        return;
      }
      AcceptDisplays(displays);
    }

    method Handle(request: Request) returns (response: Response)
      modifies this
      ensures (Model(), response) == HandleRequest(world, old(Model()), request)
    {
      hide RefreshLocation, MouseEvents, ApplySetState, ApplyUnlock;
      match request
      case GetState =>
        var ok := RefreshSnapshotLocation();
        LetMouseEventsPass();
        response := Refused;
        if ok {
          var target := if lockTarget == 0 then None else IndexOf(status.displays, lockTarget);
          response := State(LabelsOf(status.displays, info), status.location, target);
        }
      case SetState(target) =>
        var outcome := ApplySet(target);
        response := if outcome == Locked then Succeeded else Refused;
      case Unlock =>
        var ok := ApplyUnlockRequest();
        response := if ok then Succeeded else Refused;
    }

    /** One turn of the main loop. */
    method Turn(input: Input)
      modifies this
      ensures Model() == Step(world, old(Model()), input)
    {
      hide Poll, HandleRequest;
      log := [];
      match input
      case PollTick => PollDisplayChanges();
      case Asked(request) =>
        var response := Handle(request);
    }
  }

  /** The first part of `run`: load the snapshot and reconcile; null when the snapshot cannot be loaded. */
  method Start(world: World, store: Store) returns (daemon: LockDaemon?)
    ensures daemon == null <==> Boot(world, store).None?
    ensures daemon != null ==> fresh(daemon) && daemon.world == world && Some(daemon.Model()) == Boot(world, store)
  {
    hide Reconcile, RefreshStatus, QueryStatus;
    var status := QueryStatus(world, 0);
    var info := world.info(status.tick);
    if status.value.None? || info.None? {
      return null;
    }
    daemon := new LockDaemon(world, status.tick + 1, store, status.value.value, info.value);
    var ok := daemon.ReconcileDisplayState();
    daemon.Record(Reconciled(ok));
    if ok {
      var refreshed := daemon.RefreshSnapshotStatus();
    } else {
      daemon.StartReconcileCooldown();
    }
  }

  /** `run`: start, then one turn after another. The states between the turns form a run. */
  method Run(world: World, store: Store, inputs: seq<Input>) returns (started: bool, ghost states: seq<Daemon>)
    ensures started <==> Boot(world, store).Some?
    ensures started ==> IsRun(world, store, states, inputs)
  {
    hide Boot, Step;
    states := [];
    var daemon := Start(world, store);
    started := daemon != null;
    if !started {
      return;
    }
    states := [daemon.Model()];
    for i := 0 to |inputs|
      invariant daemon.world == world && |states| == i + 1 && states[i] == daemon.Model()
      invariant Boot(world, store) == Some(states[0])
      invariant forall k :: 0 <= k < i ==> states[k + 1] == Step(world, states[k], inputs[k])
    {
      daemon.Turn(inputs[i]);
      states := states + [daemon.Model()];
    }
  }
}
