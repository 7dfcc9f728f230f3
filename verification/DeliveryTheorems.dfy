/** When a relocation brings the Dock over: the exact conditions on the environment, tick by tick. */
module DeliveryTheorems {
  import opened Options
  import opened Geometry
  import opened Displays
  import opened EdgeSweep
  import opened DisplayLock
  import opened Environment
  import opened Relocation
  import opened Controller
  import opened LockTheorems

  // ----- the schedule of cursor checks and probes

  const PROBES := NUDGE_ATTEMPTS / PROBE_INTERVAL + VERIFY_ATTEMPTS

  /** The tick of the cursor check after nudge `a`, when nudging begins at tick `t0`. */
  function NudgeTick(t0: nat, a: nat): nat { t0 + a + a / PROBE_INTERVAL }

  /** The tick of probe `k`: one after every third nudge, and five at the end. */
  function ProbeTick(t0: nat, k: nat): nat { if k < 13 then t0 + 4 * k + 3 else t0 + 40 + k }

  /** The last nudge before probe `k`. */
  function LastNudge(k: nat): nat { if k < 13 then 3 * k + 2 else NUDGE_ATTEMPTS - 1 }

  /** The user leaves the cursor alone at nudges `a` to `b`. */
  ghost predicate KeptAt(w: World, t0: nat, edge: Point, a: nat, b: nat) {
    forall n: nat :: a <= n <= b ==> !CursorTaken(w, NudgeTick(t0, n), edge)
  }

  ghost predicate MissesBefore(w: World, t0: nat, target: DisplayId, from: nat, k: nat) {
    forall m: nat :: from <= m < k ==> w.probe(ProbeTick(t0, m)) != Some(target)
  }

  /** From nudge `a` on, probe `k` is the first to find the Dock on the target, and until then the user
      leaves the cursor alone. */
  ghost predicate FoundFrom(w: World, t0: nat, edge: Point, target: DisplayId, a: nat, k: nat) {
    && a / PROBE_INTERVAL <= k < PROBES && w.probe(ProbeTick(t0, k)) == Some(target)
    && MissesBefore(w, t0, target, a / PROBE_INTERVAL, k) && KeptAt(w, t0, edge, a, LastNudge(k))
  }

  lemma {:induction false} VerifyFound(w: World, t0: nat, target: DisplayId, i: nat, k: nat)
    requires i <= VERIFY_ATTEMPTS && 13 + i <= k < PROBES && w.probe(ProbeTick(t0, k)) == Some(target)
    requires MissesBefore(w, t0, target, 13 + i, k)
    ensures var r := Verify(w, ProbeTick(t0, 13 + i), target, i); r.value == Relocated && r.tick == ProbeTick(t0, k) + 1
    decreases VERIFY_ATTEMPTS - i
  {
    if 13 + i < k {
      assert w.probe(ProbeTick(t0, 13 + i)) != Some(target);
      VerifyFound(w, t0, target, i + 1, k);
    }
  }

  lemma {:induction false} VerifyFinds(w: World, t0: nat, target: DisplayId, i: nat) returns (k: nat)
    requires i <= VERIFY_ATTEMPTS && Verify(w, ProbeTick(t0, 13 + i), target, i).value == Relocated
    ensures 13 + i <= k < PROBES && w.probe(ProbeTick(t0, k)) == Some(target) && MissesBefore(w, t0, target, 13 + i, k)
    decreases VERIFY_ATTEMPTS - i
  {
    if w.probe(ProbeTick(t0, 13 + i)) == Some(target) {
      k := 13 + i;
    } else {
      k := VerifyFinds(w, t0, target, i + 1);
    }
  }

  /** One nudge that neither ends the wait nor probes successfully leads to the next. */
  lemma WaitContinues(w: World, t0: nat, source: bool, edge: Point, target: DisplayId, a: nat)
    requires a < NUDGE_ATTEMPTS && !CursorTaken(w, NudgeTick(t0, a), edge)
    requires (a + 1) % PROBE_INTERVAL == 0 ==> w.probe(ProbeTick(t0, a / PROBE_INTERVAL)) != Some(target)
    ensures var r := WaitForDock(w, NudgeTick(t0, a), source, edge, target, a);
            var next := WaitForDock(w, NudgeTick(t0, a + 1), source, edge, target, a + 1);
            r.value == next.value && r.tick == next.tick
  {
    hide CursorTaken, NudgeLog;
    if (a + 1) % PROBE_INTERVAL == 0 {
      assert ProbeTick(t0, a / PROBE_INTERVAL) == NudgeTick(t0, a) + 1;
      assert NudgeTick(t0, a + 1) == NudgeTick(t0, a) + 2;
    } else {
      assert NudgeTick(t0, a + 1) == NudgeTick(t0, a) + 1;
    }
  }

  lemma {:induction false} WaitFound(w: World, t0: nat, source: bool, edge: Point, target: DisplayId, a: nat, k: nat)
    requires a <= NUDGE_ATTEMPTS && FoundFrom(w, t0, edge, target, a, k)
    ensures var r := WaitForDock(w, NudgeTick(t0, a), source, edge, target, a);
            r.value == Relocated && r.tick == ProbeTick(t0, k) + 1
    decreases NUDGE_ATTEMPTS - a
  {
    hide CursorTaken, NudgeLog, Verify;
    if a == NUDGE_ATTEMPTS {
      VerifyFound(w, t0, target, 0, k);
    } else if a == LastNudge(k) && k < 13 {
      assert !CursorTaken(w, NudgeTick(t0, a), edge);
    } else {
      assert !CursorTaken(w, NudgeTick(t0, a), edge);
      WaitContinues(w, t0, source, edge, target, a);
      WaitFound(w, t0, source, edge, target, a + 1, k);
    }
  }

  lemma FoundNow(w: World, t0: nat, edge: Point, target: DisplayId, a: nat)
    requires a < NUDGE_ATTEMPTS && (a + 1) % PROBE_INTERVAL == 0 && !CursorTaken(w, NudgeTick(t0, a), edge)
    requires w.probe(ProbeTick(t0, a / PROBE_INTERVAL)) == Some(target)
    ensures FoundFrom(w, t0, edge, target, a, a / PROBE_INTERVAL)
  {
    hide CursorTaken;
  }

  lemma FoundAtEnd(w: World, t0: nat, edge: Point, target: DisplayId, k: nat)
    requires 13 <= k < PROBES && w.probe(ProbeTick(t0, k)) == Some(target) && MissesBefore(w, t0, target, 13, k)
    ensures FoundFrom(w, t0, edge, target, NUDGE_ATTEMPTS, k)
  {
    hide CursorTaken;
  }

  lemma FoundEarlier(w: World, t0: nat, edge: Point, target: DisplayId, a: nat, k: nat)
    requires a < NUDGE_ATTEMPTS && !CursorTaken(w, NudgeTick(t0, a), edge) && FoundFrom(w, t0, edge, target, a + 1, k)
    requires (a + 1) % PROBE_INTERVAL == 0 ==> w.probe(ProbeTick(t0, a / PROBE_INTERVAL)) != Some(target)
    ensures FoundFrom(w, t0, edge, target, a, k)
  {
    hide CursorTaken;
    assert (a + 1) / PROBE_INTERVAL == a / PROBE_INTERVAL + if (a + 1) % PROBE_INTERVAL == 0 then 1 else 0;
  }

  lemma {:induction false} WaitFinds(w: World, t0: nat, source: bool, edge: Point, target: DisplayId, a: nat) returns (k: nat)
    requires a <= NUDGE_ATTEMPTS && WaitForDock(w, NudgeTick(t0, a), source, edge, target, a).value == Relocated
    ensures FoundFrom(w, t0, edge, target, a, k)
    decreases NUDGE_ATTEMPTS - a
  {
    hide CursorTaken, NudgeLog, Verify, KeptAt, MissesBefore;
    if a == NUDGE_ATTEMPTS {
      k := VerifyFinds(w, t0, target, 0);
      FoundAtEnd(w, t0, edge, target, k);
    } else if (a + 1) % PROBE_INTERVAL == 0 && w.probe(ProbeTick(t0, a / PROBE_INTERVAL)) == Some(target) {
      k := a / PROBE_INTERVAL;
      FoundNow(w, t0, edge, target, a);
    } else {
      WaitContinues(w, t0, source, edge, target, a);
      k := WaitFinds(w, t0, source, edge, target, a + 1);
      FoundEarlier(w, t0, edge, target, a, k);
    }
  }

  // ----- a wait that times out

  lemma {:induction false} VerifyMisses(w: World, t0: nat, target: DisplayId, i: nat)
    requires i <= VERIFY_ATTEMPTS
    ensures Verify(w, ProbeTick(t0, 13 + i), target, i).value == TimedOut <==> MissesBefore(w, t0, target, 13 + i, PROBES)
    ensures Verify(w, ProbeTick(t0, 13 + i), target, i).value != Interrupted
    decreases VERIFY_ATTEMPTS - i
  {
    if i < VERIFY_ATTEMPTS {
      VerifyMisses(w, t0, target, i + 1);
      if MissesBefore(w, t0, target, 13 + i + 1, PROBES) && w.probe(ProbeTick(t0, 13 + i)) != Some(target) {
        assert MissesBefore(w, t0, target, 13 + i, PROBES);
      }
    }
  }

  /** From nudge `a` on the user leaves the cursor alone and no probe finds the Dock on the target. */
  ghost predicate MissedFrom(w: World, t0: nat, edge: Point, target: DisplayId, a: nat) {
    KeptAt(w, t0, edge, a, NUDGE_ATTEMPTS - 1) && MissesBefore(w, t0, target, a / PROBE_INTERVAL, PROBES)
  }

  /** Missing from one nudge on is keeping still there, missing its probe if it has one, and missing from
      the next on. */
  lemma MissedStep(w: World, t0: nat, edge: Point, target: DisplayId, a: nat)
    requires a < NUDGE_ATTEMPTS
    ensures MissedFrom(w, t0, edge, target, a) <==>
            && !CursorTaken(w, NudgeTick(t0, a), edge)
            && ((a + 1) % PROBE_INTERVAL == 0 ==> w.probe(ProbeTick(t0, a / PROBE_INTERVAL)) != Some(target))
            && MissedFrom(w, t0, edge, target, a + 1)
  {
    hide CursorTaken;
    assert (a + 1) / PROBE_INTERVAL == a / PROBE_INTERVAL + if (a + 1) % PROBE_INTERVAL == 0 then 1 else 0;
  }

  lemma {:induction false} WaitMisses(w: World, t0: nat, source: bool, edge: Point, target: DisplayId, a: nat)
    requires a <= NUDGE_ATTEMPTS
    ensures WaitForDock(w, NudgeTick(t0, a), source, edge, target, a).value == TimedOut <==> MissedFrom(w, t0, edge, target, a)
    decreases NUDGE_ATTEMPTS - a
  {
    hide CursorTaken, NudgeLog, Verify, MissedFrom;
    if a == NUDGE_ATTEMPTS {
      VerifyMisses(w, t0, target, 0);
      NothingKept(w, t0, edge, target);
    } else {
      MissedStep(w, t0, edge, target, a);
      WaitStops(w, t0, source, edge, target, a);
      if !CursorTaken(w, NudgeTick(t0, a), edge)
         && ((a + 1) % PROBE_INTERVAL == 0 ==> w.probe(ProbeTick(t0, a / PROBE_INTERVAL)) != Some(target)) {
        WaitContinues(w, t0, source, edge, target, a);
        WaitMisses(w, t0, source, edge, target, a + 1);
      }
    }
  }

  lemma NothingKept(w: World, t0: nat, edge: Point, target: DisplayId)
    ensures MissedFrom(w, t0, edge, target, NUDGE_ATTEMPTS) <==> MissesBefore(w, t0, target, 13, PROBES)
  {
    hide CursorTaken;
  }

  lemma WaitStops(w: World, t0: nat, source: bool, edge: Point, target: DisplayId, a: nat)
    requires a < NUDGE_ATTEMPTS
    ensures CursorTaken(w, NudgeTick(t0, a), edge) ==>
              WaitForDock(w, NudgeTick(t0, a), source, edge, target, a).value == Interrupted
    ensures !CursorTaken(w, NudgeTick(t0, a), edge) && (a + 1) % PROBE_INTERVAL == 0
            && w.probe(ProbeTick(t0, a / PROBE_INTERVAL)) == Some(target) ==>
              WaitForDock(w, NudgeTick(t0, a), source, edge, target, a).value == Relocated
  {
    hide CursorTaken, NudgeLog;
  }

  // ----- the walk

  ghost predicate KeptOnWalk(w: World, tick: nat, from: Point, to: Point, step: nat, steps: nat)
    requires steps > 0
  {
    forall n: nat :: step <= n <= steps ==> !CursorTaken(w, tick + n - step, Interpolate(from, to, n, steps))
  }

  lemma {:induction false} WalkKeptIff(w: World, tick: nat, source: bool, from: Point, to: Point, step: nat, steps: nat)
    requires 1 <= step <= steps + 1 && steps > 0
    ensures var r := SmoothMove(w, tick, source, from, to, step, steps);
            && (r.value <==> KeptOnWalk(w, tick, from, to, step, steps))
            && (r.value ==> r.tick == tick + steps + 1 - step)
    decreases steps + 1 - step
  {
    hide CursorTaken, Interpolate;
    if step <= steps {
      WalkKeptIff(w, tick + 1, source, from, to, step + 1, steps);
      if KeptOnWalk(w, tick, from, to, step, steps) {
        assert !CursorTaken(w, tick + step - step, Interpolate(from, to, step, steps));
        forall n: nat | step + 1 <= n <= steps
          ensures !CursorTaken(w, tick + 1 + n - (step + 1), Interpolate(from, to, n, steps))
        {
          assert !CursorTaken(w, tick + n - step, Interpolate(from, to, n, steps));
        }
      }
    }
  }

  // ----- a whole relocation

  /** A relocation to `d` that begins at tick `t`, with a bottom Dock, goes through and its probe `k` is
      the first to find the Dock there: the display has bounds, no overlay covers it, and the user leaves
      the cursor alone at the approach, on the walk and at the edge until then. */
  ghost predicate Delivers(w: World, t: nat, d: DisplayId, k: nat) {
    var bounds := w.layout(t).Bounds(d);
    && bounds.Some? && !w.overlay(t + 2)
    && var x := TriggerCoordinate(w.layout(t + 5), d, bounds.value);
       var approach := Point(x, bounds.value.Bottom() - RELOCATION_APPROACH_OFFSET);
       var edge := Point(x, bounds.value.Bottom() - 1.0);
       && !CursorTaken(w, t + 6, approach)
       && KeptOnWalk(w, t + 7, approach, edge, 1, EDGE_MOVE_STEPS)
       && FoundFrom(w, t + 17, edge, d, 0, k)
  }

  lemma PushFound(w: World, tick: nat, source: bool, x: real, edgeY: real, d: DisplayId, k: nat)
    requires var approach, edge := Point(x, edgeY - RELOCATION_APPROACH_OFFSET), Point(x, edgeY - 1.0);
             && !CursorTaken(w, tick, approach) && KeptOnWalk(w, tick + 1, approach, edge, 1, EDGE_MOVE_STEPS)
             && FoundFrom(w, tick + 11, edge, d, 0, k)
    ensures var r := PushAtEdge(w, tick, source, x, edgeY, d); r.value == Relocated && r.tick == ProbeTick(tick + 11, k) + 1
  {
    hide CursorTaken, SmoothMove, WaitForDock, KeptOnWalk, FoundFrom;
    var approach, edge := Point(x, edgeY - RELOCATION_APPROACH_OFFSET), Point(x, edgeY - 1.0);
    WalkKeptIff(w, tick + 1, source, approach, edge, 1, EDGE_MOVE_STEPS);
    WaitFound(w, tick + 11, source, edge, d, 0, k);
  }

  lemma PushFinds(w: World, tick: nat, source: bool, x: real, edgeY: real, d: DisplayId) returns (k: nat)
    requires PushAtEdge(w, tick, source, x, edgeY, d).value == Relocated
    ensures var approach, edge := Point(x, edgeY - RELOCATION_APPROACH_OFFSET), Point(x, edgeY - 1.0);
            && !CursorTaken(w, tick, approach) && KeptOnWalk(w, tick + 1, approach, edge, 1, EDGE_MOVE_STEPS)
            && FoundFrom(w, tick + 11, edge, d, 0, k)
  {
    hide CursorTaken, SmoothMove, WaitForDock, KeptOnWalk, FoundFrom;
    var approach, edge := Point(x, edgeY - RELOCATION_APPROACH_OFFSET), Point(x, edgeY - 1.0);
    WalkKeptIff(w, tick + 1, source, approach, edge, 1, EDGE_MOVE_STEPS);
    k := WaitFinds(w, tick + 11, source, edge, d, 0);
  }

  lemma RelocateDelivers(w: World, t: nat, d: DisplayId, k: nat)
    requires w.bottom(t + 1) && Delivers(w, t, d, k)
    ensures Relocate(w, t, d).value == Done && Relocate(w, t, d).tick == ProbeTick(t + 17, k) + 2
  {
    hide PushAtEdge, CursorTaken, KeptOnWalk, FoundFrom, TriggerCoordinate;
    var bounds := w.layout(t).Bounds(d).value;
    PushFound(w, t + 6, w.source(t + 4), TriggerCoordinate(w.layout(t + 5), d, bounds), bounds.Bottom(), d, k);
  }

  /** With a bottom Dock, a relocation succeeds if and only if the environment lets it: no overlay, the
      cursor left alone at each scheduled check, and one of the 18 scheduled probes finds the Dock on the
      target. */
  lemma RelocatesExactlyWhen(w: World, t: nat, d: DisplayId)
    requires w.bottom(t + 1)
    ensures Relocate(w, t, d).value == Done <==> exists k :: Delivers(w, t, d, k)
  {
    hide PushAtEdge, Delivers, CursorTaken, KeptOnWalk, FoundFrom, TriggerCoordinate, Restore;
    if k :| Delivers(w, t, d, k) {
      RelocateDelivers(w, t, d, k);
    }
    if Relocate(w, t, d).value == Done {
      var k := DeliveredBy(w, t, d);
    }
  }

  lemma DeliveredBy(w: World, t: nat, d: DisplayId) returns (k: nat)
    requires w.bottom(t + 1) && Relocate(w, t, d).value == Done
    ensures Delivers(w, t, d, k)
  {
    hide PushAtEdge, CursorTaken, KeptOnWalk, FoundFrom, TriggerCoordinate, Restore;
    var bounds := w.layout(t).Bounds(d).value;
    k := PushFinds(w, t + 6, w.source(t + 4), TriggerCoordinate(w.layout(t + 5), d, bounds), bounds.Bottom(), d);
  }

  /** A relocation to `d` that begins at tick `t`, with a bottom Dock, is left alone to the end and none of
      its 18 probes finds the Dock there. */
  ghost predicate Exhausts(w: World, t: nat, d: DisplayId) {
    var bounds := w.layout(t).Bounds(d);
    && bounds.Some? && !w.overlay(t + 2)
    && var x := TriggerCoordinate(w.layout(t + 5), d, bounds.value);
       var approach := Point(x, bounds.value.Bottom() - RELOCATION_APPROACH_OFFSET);
       var edge := Point(x, bounds.value.Bottom() - 1.0);
       && !CursorTaken(w, t + 6, approach)
       && KeptOnWalk(w, t + 7, approach, edge, 1, EDGE_MOVE_STEPS)
       && MissedFrom(w, t + 17, edge, d, 0)
  }

  lemma PushMisses(w: World, tick: nat, source: bool, x: real, edgeY: real, d: DisplayId)
    ensures var approach, edge := Point(x, edgeY - RELOCATION_APPROACH_OFFSET), Point(x, edgeY - 1.0);
            PushAtEdge(w, tick, source, x, edgeY, d).value == TimedOut <==>
            && !CursorTaken(w, tick, approach) && KeptOnWalk(w, tick + 1, approach, edge, 1, EDGE_MOVE_STEPS)
            && MissedFrom(w, tick + 11, edge, d, 0)
  {
    hide CursorTaken, SmoothMove, WaitForDock, KeptOnWalk, MissedFrom;
    var approach, edge := Point(x, edgeY - RELOCATION_APPROACH_OFFSET), Point(x, edgeY - 1.0);
    WalkKeptIff(w, tick + 1, source, approach, edge, 1, EDGE_MOVE_STEPS);
    WaitMisses(w, tick + 11, source, edge, d, 0);
  }

  /** With a bottom Dock, a relocation fails without an interruption if and only if the display has no
      bounds, or it is left alone to the end and all 18 probes miss. With `RelocatesExactlyWhen` this says
      when it is interrupted: in all other cases. */
  lemma TimesOutExactlyWhen(w: World, t: nat, d: DisplayId)
    requires w.bottom(t + 1)
    ensures Relocate(w, t, d).value == Failed <==> w.layout(t).Bounds(d).None? || Exhausts(w, t, d)
  {
    hide PushAtEdge, CursorTaken, KeptOnWalk, MissedFrom, TriggerCoordinate, Restore;
    if w.layout(t).Bounds(d).Some? {
      var bounds := w.layout(t).Bounds(d).value;
      PushMisses(w, t + 6, w.source(t + 4), TriggerCoordinate(w.layout(t + 5), d, bounds), bounds.Bottom(), d);
    }
  }

  /** A relocation that begins at tick `t` brings the Dock to `d` at the first attempt: it goes through,
      and the status query after it lists `d` and finds the Dock there. */
  ghost predicate BringsDock(w: World, t: nat, d: DisplayId, k: nat) {
    && w.bottom(t + 1) && Delivers(w, t, d, k)
    && var settled := ProbeTick(t + 17, k) + 2;
       d in w.layout(settled).Active() && w.dock(settled + 1) == Some(d)
  }

  /** Then the relocation loop succeeds, under any lock and cache. */
  lemma LoopSucceeds(w: World, t: nat, lock: DisplayId, cache: seq<DisplayBounds>, d: DisplayId, k: nat)
    requires BringsDock(w, t, d, k)
    ensures RelocateUntilCurrent(w, t, lock, cache, d, 0).value
  {
    hide Relocate, RelocateUntilCurrent, Delivers, IndexOf, AttemptLog, SettleLog;
    RelocateDelivers(w, t, d, k);
    LoopEquations(w, t, lock, cache, d, 0);
    QuerySucceedsIff(w, ProbeTick(t + 17, k) + 2);
  }

  /** What the loop achieves, and when, does not depend on the lock and the cache. */
  lemma {:induction false} LoopIgnoresLock(w: World, t: nat, lock: DisplayId, cache: seq<DisplayBounds>, d: DisplayId, attempt: nat)
    ensures var r, free := RelocateUntilCurrent(w, t, lock, cache, d, attempt), RelocateUntilCurrent(w, t, 0, [], d, attempt);
            r.value == free.value && r.tick == free.tick
    decreases RETRY_ATTEMPTS - attempt
  {
    hide Relocate, RelocateUntilCurrent, AttemptLog, SettleLog, Confirmed;
    LoopEquations(w, t, lock, cache, d, attempt);
    LoopEquations(w, t, 0, [], d, attempt);
    if attempt < RETRY_ATTEMPTS {
      LoopIgnoresLock(w, AfterAttempt(w, t, d), lock, cache, d, attempt + 1);
    }
  }

  // ----- the retries

  /** The tick after an attempt that begins at tick `t`. */
  function AfterAttempt(w: World, t: nat, d: DisplayId): nat {
    var moved := Relocate(w, t, d);
    if moved.value == Done then moved.tick + 2 else moved.tick
  }

  /** The tick at which attempt `n` of a loop that begins at tick `t` begins, if it comes to that. */
  function AttemptTick(w: World, t: nat, d: DisplayId, n: nat): nat {
    if n == 0 then t else AfterAttempt(w, AttemptTick(w, t, d, n - 1), d)
  }

  /** The attempt at tick `t` relocates, and the status query after it finds the Dock on `d`. */
  predicate Succeeds(w: World, t: nat, d: DisplayId) {
    Relocate(w, t, d).value == Done && Confirmed(w, Relocate(w, t, d).tick, d)
  }

  /** The attempt at tick `t` is the last: it succeeds or is interrupted. */
  predicate Stops(w: World, t: nat, d: DisplayId) {
    Succeeds(w, t, d) || Relocate(w, t, d).value == UserInterrupted
  }

  /** With a bottom Dock an attempt succeeds if and only if it brings the Dock over. */
  lemma SucceedsExactlyWhen(w: World, t: nat, d: DisplayId)
    requires w.bottom(t + 1)
    ensures Succeeds(w, t, d) <==> exists k :: BringsDock(w, t, d, k)
  {
    hide Relocate, Delivers, IndexOf;
    if Succeeds(w, t, d) {
      var k := DeliveredBy(w, t, d);
      RelocateDelivers(w, t, d, k);
      QuerySucceedsIff(w, ProbeTick(t + 17, k) + 2);
      assert BringsDock(w, t, d, k);
    }
    if k :| BringsDock(w, t, d, k) {
      RelocateDelivers(w, t, d, k);
      QuerySucceedsIff(w, ProbeTick(t + 17, k) + 2);
    }
  }

  /** The sleep of attempts `a` to `n` of a loop that begins at tick `t`: half a second before each but the
      first, that of the relocation, and a quarter of a second after one that succeeds. */
  function LoopSleep(w: World, t: nat, d: DisplayId, a: nat, n: nat): nat
    decreases n + 1 - a
  {
    if a > n then 0
    else
      var moved := Relocate(w, AttemptTick(w, t, d, a), d);
      (if a > 0 then 500 else 0) + Total(SleepMs, moved.log) + (if moved.value == Done then 250 else 0) + LoopSleep(w, t, d, a + 1, n)
  }

  lemma {:induction false} RetriesFrom(w: World, t: nat, lock: DisplayId, cache: seq<DisplayBounds>, d: DisplayId, a: nat) returns (n: nat)
    requires a < RETRY_ATTEMPTS
    ensures a <= n < RETRY_ATTEMPTS && (forall m: nat :: a <= m < n ==> !Stops(w, AttemptTick(w, t, d, m), d))
    ensures n < RETRY_ATTEMPTS - 1 ==> Stops(w, AttemptTick(w, t, d, n), d)
    ensures var r := RelocateUntilCurrent(w, AttemptTick(w, t, d, a), lock, cache, d, a);
            && r.value == Succeeds(w, AttemptTick(w, t, d, n), d) && r.tick == AttemptTick(w, t, d, n + 1)
            && Total(Attempts, r.log) == n - a + 1 && Total(SleepMs, r.log) == LoopSleep(w, t, d, a, n)
    decreases RETRY_ATTEMPTS - a
  {
    hide Relocate, RelocateUntilCurrent, AttemptLog, SettleLog, Confirmed, OnlyCursorWork, Total;
    var from := AttemptTick(w, t, d, a);
    var moved := Relocate(w, from, d);
    var first, settled := AttemptLog(from, lock, cache, d, a, moved.log), SettleLog(w, moved.tick);
    LoopEquations(w, from, lock, cache, d, a);
    AttemptLogCost(w, from, lock, cache, d, a);
    SettleLogFacts(w, moved.tick, d);
    MeasuresConcat(first, settled);
    var done := if moved.value == Done then first + settled else first;
    var rest := RelocateUntilCurrent(w, AttemptTick(w, t, d, a + 1), lock, cache, d, a + 1);
    MeasuresConcat(done, rest.log);
    n := a;
    if !Stops(w, from, d) {
      if a + 1 < RETRY_ATTEMPTS {
        n := RetriesFrom(w, t, lock, cache, d, a + 1);
      } else {
        LoopEquations(w, AttemptTick(w, t, d, a + 1), lock, cache, d, a + 1);
        NothingSpent();
      }
    }
  }

  lemma NothingSpent()
    ensures Total(Attempts, []) == Total(SleepMs, []) == 0
  {
  }

  /** The retries, exactly: the loop attempts again after every attempt that neither succeeds nor is
      interrupted, three times at most, each time where the one before ended; attempt `n` is the last, and
      the loop succeeds if and only if that one does. */
  lemma LoopRetriesExactly(w: World, t: nat, lock: DisplayId, cache: seq<DisplayBounds>, d: DisplayId) returns (n: nat)
    ensures n < 3 && (forall m: nat :: m < n ==> !Stops(w, AttemptTick(w, t, d, m), d))
    ensures n < 2 ==> Stops(w, AttemptTick(w, t, d, n), d)
    ensures var r := RelocateUntilCurrent(w, t, lock, cache, d, 0);
            && r.value == Succeeds(w, AttemptTick(w, t, d, n), d) && r.tick == AttemptTick(w, t, d, n + 1)
            && Total(Attempts, r.log) == n + 1 && Total(SleepMs, r.log) == LoopSleep(w, t, d, 0, n)
  {
    n := RetriesFrom(w, t, lock, cache, d, 0);
  }

  // ----- being or coming there

  /** A status query at tick `t` succeeds. */
  predicate ListsDock(w: World, t: nat) {
    w.dock(t + 1).Some? && w.dock(t + 1).value in w.layout(t).Active()
  }

  /** A Dock query at tick `t` finds the Dock on `d`, or the relocation loop that follows it gets it there. */
  predicate Arrives(w: World, t: nat, d: DisplayId) {
    w.dock(t) == Some(d) || RelocateUntilCurrent(w, t + 1, 0, [], d, 0).value
  }

  /** The tick after that. */
  function ArrivalTick(w: World, t: nat, d: DisplayId): nat {
    if w.dock(t) == Some(d) then t + 1 else RelocateUntilCurrent(w, t + 1, 0, [], d, 0).tick
  }

  /** It does when the Dock is there, or when the first attempt brings it there; then it is known when. */
  lemma BroughtDockArrives(w: World, t: nat, d: DisplayId, k: nat)
    requires w.dock(t) == Some(d) || BringsDock(w, t + 1, d, k)
    ensures Arrives(w, t, d)
    ensures ArrivalTick(w, t, d) == if w.dock(t) == Some(d) then t + 1 else ProbeTick(t + 18, k) + 4
  {
    hide Relocate, RelocateUntilCurrent, Delivers, IndexOf, AttemptLog, SettleLog;
    if w.dock(t) != Some(d) {
      RelocateDelivers(w, t + 1, d, k);
      LoopEquations(w, t + 1, 0, [], d, 0);
      QuerySucceedsIff(w, ProbeTick(t + 18, k) + 2);
    }
  }
}
