/** Moving the Dock by walking the cursor to a display's bottom edge
    (crates/lockdock-daemon/src/relocation.rs). */
module Relocation {
  import opened Options
  import opened Geometry
  import opened Displays
  import opened EdgeSweep
  import opened DisplayLock
  import opened Environment

  const NUDGE_ATTEMPTS := 40
  const PROBE_INTERVAL := 3
  const NUDGE_DELAY := 15
  const VERIFY_ATTEMPTS := 5
  const VERIFY_DELAY := 10
  const APPROACH_DELAY := 30
  const EDGE_MOVE_STEPS := 10
  const EDGE_MOVE_DELAY := 15
  const USER_MOVE_TOLERANCE := 24.0

  datatype Outcome = Relocated | Interrupted | TimedOut

  /** How one relocation attempt ended: `Done` and `UserInterrupted` as named, `Failed` any other error. */
  datatype Attempt = Done | UserInterrupted | Failed

  function Abs(x: real): real { if x < 0.0 then -x else x }

  predicate CursorTaken(w: World, tick: nat, expected: Point) {
    var current := w.cursor(tick);
    Abs(current.x - expected.x) > USER_MOVE_TOLERANCE || Abs(current.y - expected.y) > USER_MOVE_TOLERANCE
  }

  function Place(source: bool, p: Point): seq<Event> {
    if source then [Warped(p), Moved(p)] else [Warped(p)]
  }

  function Interpolate(from: Point, to: Point, step: nat, steps: nat): Point
    requires steps > 0
  {
    var progress := step as real / steps as real;
    Point(from.x + (to.x - from.x) * progress, from.y + (to.y - from.y) * progress)
  }

  /** The walk from step `step` on; false when the user takes the cursor. */
  function SmoothMove(w: World, tick: nat, source: bool, from: Point, to: Point, step: nat, steps: nat): Part<bool>
    requires steps > 0
    decreases steps + 1 - step
  {
    if step > steps then Part(true, tick, [])
    else
      var p := Interpolate(from, to, step, steps);
      var log := [if source then Moved(p) else Warped(p), Slept(EDGE_MOVE_DELAY)];
      if CursorTaken(w, tick, p) then Part(false, tick + 1, log)
      else
        var rest := SmoothMove(w, tick + 1, source, from, to, step + 1, steps);
        Part(rest.value, rest.tick, log + rest.log)
  }

  /** The final probes, from the `i`-th on. */
  function Verify(w: World, tick: nat, target: DisplayId, i: nat): Part<Outcome>
    decreases VERIFY_ATTEMPTS - i
  {
    if i >= VERIFY_ATTEMPTS then Part(TimedOut, tick, [])
    else if w.probe(tick) == Some(target) then Part(Relocated, tick + 1, [Probed(w.probe(tick))])
    else
      var rest := Verify(w, tick + 1, target, i + 1);
      Part(rest.value, rest.tick, [Probed(w.probe(tick)), Slept(VERIFY_DELAY)] + rest.log)
  }

  function NudgeLog(source: bool, edge: Point): seq<Event> {
    (if source then [Nudged(edge)] else []) + [Slept(NUDGE_DELAY)]
  }

  /** Nudging and probing, from the `attempt`-th nudge on. */
  function WaitForDock(w: World, tick: nat, source: bool, edge: Point, target: DisplayId, attempt: nat): Part<Outcome>
    decreases NUDGE_ATTEMPTS - attempt
  {
    if attempt >= NUDGE_ATTEMPTS then Verify(w, tick, target, 0)
    else
      var log := NudgeLog(source, edge);
      if CursorTaken(w, tick, edge) then Part(Interrupted, tick + 1, log)
      else if (attempt + 1) % PROBE_INTERVAL == 0 then
        var probed := log + [Probed(w.probe(tick + 1))];
        if w.probe(tick + 1) == Some(target) then Part(Relocated, tick + 2, probed)
        else
          var rest := WaitForDock(w, tick + 2, source, edge, target, attempt + 1);
          Part(rest.value, rest.tick, probed + rest.log)
      else
        var rest := WaitForDock(w, tick + 1, source, edge, target, attempt + 1);
        Part(rest.value, rest.tick, log + rest.log)
  }

  /** The cursor goes back unless the user has taken it. */
  function Restore(w: World, tick: nat, edge: Point, home: Point): Part<()> {
    Part((), tick + 1, if CursorTaken(w, tick, edge) then [] else [Restored(home)])
  }

  /** Approach, walk and wait at trigger coordinate `t`. */
  function PushAtEdge(w: World, tick: nat, source: bool, t: real, edgeY: real, target: DisplayId): Part<Outcome> {
    var approach := Point(t, edgeY - RELOCATION_APPROACH_OFFSET);
    var edge := Point(t, edgeY - 1.0);
    var placed := Place(source, approach) + [Slept(APPROACH_DELAY)];
    if CursorTaken(w, tick, approach) then Part(Interrupted, tick + 1, placed)
    else
      var walked := SmoothMove(w, tick + 1, source, approach, edge, 1, EDGE_MOVE_STEPS);
      if !walked.value then Part(Interrupted, walked.tick, placed + walked.log)
      else
        var waited := WaitForDock(w, walked.tick, source, edge, target, 0);
        Part(waited.value, waited.tick, placed + walked.log + waited.log)
  }

  /** Pushing at the edge and putting the cursor back unless the user interrupted. */
  function PushAndRestore(w: World, tick: nat, source: bool, t: real, edgeY: real, target: DisplayId, home: Point): Part<Attempt> {
    var pushed := PushAtEdge(w, tick, source, t, edgeY, target);
    if pushed.value == Interrupted then Part(UserInterrupted, pushed.tick, pushed.log)
    else
      var restored := Restore(w, pushed.tick, Point(t, edgeY - 1.0), home);
      Part(if pushed.value == Relocated then Done else Failed, restored.tick, pushed.log + restored.log)
  }

  /** One `relocate_display` call. The queries are, in tick order: target bounds, orientation,
      overlay, cursor, event source, layout. */
  function Relocate(w: World, tick: nat, target: DisplayId): Part<Attempt> {
    var bounds := w.layout(tick).Bounds(target);
    if bounds.None? then Part(Failed, tick + 1, [])
    else if !w.bottom(tick + 1) then Part(Done, tick + 2, [])
    else if w.overlay(tick + 2) then Part(UserInterrupted, tick + 3, [])
    else
      var t := TriggerCoordinate(w.layout(tick + 5), target, bounds.value);
      PushAndRestore(w, tick + 6, w.source(tick + 4), t, bounds.value.Bottom(), target, w.cursor(tick + 3))
  }

  // ----- what a relocation may cost

  /** The events a relocation may cause. */
  predicate IsCursorWork(e: Event) {
    e.Warped? || e.Moved? || e.Nudged? || e.Restored? || e.Slept? || e.Probed?
  }

  ghost predicate OnlyCursorWork(log: seq<Event>) {
    forall e :: e in log ==> IsCursorWork(e)
  }

  lemma {:induction false} SmoothMoveCost(w: World, tick: nat, source: bool, from: Point, to: Point, step: nat, steps: nat, d: DisplayId)
    requires 1 <= step <= steps + 1 && steps > 0
    ensures var r := SmoothMove(w, tick, source, from, to, step, steps);
            && Total(SleepMs, r.log) <= EDGE_MOVE_DELAY * (steps + 1 - step)
            && (r.value ==> Total(SleepMs, r.log) == EDGE_MOVE_DELAY * (steps + 1 - step))
            && Total(Nudges, r.log) == 0 && Total(Misses(d), r.log) == 0
            && OnlyCursorWork(r.log) && tick <= r.tick
    decreases steps + 1 - step
  {
    hide Interpolate, CursorTaken;
    if step <= steps {
      var p := Interpolate(from, to, step, steps);
      var log := [if source then Moved(p) else Warped(p), Slept(EDGE_MOVE_DELAY)];
      CostOfTwo(log[0], log[1], d);
      if !CursorTaken(w, tick, p) {
        SmoothMoveCost(w, tick + 1, source, from, to, step + 1, steps, d);
        CostConcat(log, SmoothMove(w, tick + 1, source, from, to, step + 1, steps).log, d);
      }
    }
  }

  lemma CostOfTwo(a: Event, b: Event, d: DisplayId)
    ensures Total(SleepMs, [a, b]) == Weight(SleepMs, a) + Weight(SleepMs, b) && Total(SleepMs, [a]) == Weight(SleepMs, a)
    ensures Total(Nudges, [a, b]) == Weight(Nudges, a) + Weight(Nudges, b) && Total(Nudges, [a]) == Weight(Nudges, a)
    ensures Total(Misses(d), [a, b]) == Weight(Misses(d), a) + Weight(Misses(d), b)
    ensures Total(Misses(d), [a]) == Weight(Misses(d), a)
  {
    TotalTwo(SleepMs, a, b);
    TotalTwo(Nudges, a, b);
    TotalTwo(Misses(d), a, b);
    TotalOne(SleepMs, a);
    TotalOne(Nudges, a);
    TotalOne(Misses(d), a);
  }

  lemma CostConcat(a: seq<Event>, b: seq<Event>, d: DisplayId)
    ensures Total(SleepMs, a + b) == Total(SleepMs, a) + Total(SleepMs, b)
    ensures Total(Nudges, a + b) == Total(Nudges, a) + Total(Nudges, b)
    ensures Total(Misses(d), a + b) == Total(Misses(d), a) + Total(Misses(d), b)
  {
    TotalConcat(SleepMs, a, b);
    TotalConcat(Nudges, a, b);
    TotalConcat(Misses(d), a, b);
  }

  /** The cost of the final probes from the `i`-th on. */
  ghost predicate VerifyBound(r: Part<Outcome>, target: DisplayId, i: nat) {
    && Total(SleepMs, r.log) <= VERIFY_DELAY * (VERIFY_ATTEMPTS - i)
    && (r.value == Relocated ==>
          && Total(SleepMs, r.log) <= VERIFY_DELAY * (VERIFY_ATTEMPTS - 1 - i)
          && r.log != [] && r.log[|r.log| - 1] == Probed(Some(target)))
    && Total(Nudges, r.log) == 0 && r.value != Interrupted
    && (r.value == TimedOut ==>
          Total(Misses(target), r.log) == VERIFY_ATTEMPTS - i && Total(SleepMs, r.log) == VERIFY_DELAY * (VERIFY_ATTEMPTS - i))
    && OnlyCursorWork(r.log)
  }

  lemma VerifyStep(rest: Part<Outcome>, target: DisplayId, i: nat, probe: Option<DisplayId>)
    requires i < VERIFY_ATTEMPTS && VerifyBound(rest, target, i + 1) && probe != Some(target)
    ensures VerifyBound(Part(rest.value, rest.tick, [Probed(probe), Slept(VERIFY_DELAY)] + rest.log), target, i)
  {
    hide Total;
    CostOfTwo(Probed(probe), Slept(VERIFY_DELAY), target);
    CostConcat([Probed(probe), Slept(VERIFY_DELAY)], rest.log, target);
  }

  lemma {:induction false} VerifyCost(w: World, tick: nat, target: DisplayId, i: nat)
    requires i <= VERIFY_ATTEMPTS
    ensures VerifyBound(Verify(w, tick, target, i), target, i) && tick <= Verify(w, tick, target, i).tick
    decreases VERIFY_ATTEMPTS - i
  {
    if i < VERIFY_ATTEMPTS {
      if w.probe(tick) != Some(target) {
        hide VerifyBound;
        VerifyCost(w, tick + 1, target, i + 1);
        VerifyStep(Verify(w, tick + 1, target, i + 1), target, i, w.probe(tick));
      } else {
        CostOfTwo(Probed(w.probe(tick)), Slept(VERIFY_DELAY), target);
      }
    }
  }

  /** The cost of waiting from nudge `attempt` on. */
  ghost predicate WaitBound(r: Part<Outcome>, source: bool, target: DisplayId, attempt: nat) {
    && Total(SleepMs, r.log) <= NUDGE_DELAY * (NUDGE_ATTEMPTS - attempt) + VERIFY_DELAY * VERIFY_ATTEMPTS
    && (r.value == Relocated ==>
          && Total(SleepMs, r.log) <= NUDGE_DELAY * (NUDGE_ATTEMPTS - attempt) + VERIFY_DELAY * (VERIFY_ATTEMPTS - 1)
          && r.log != [] && r.log[|r.log| - 1] == Probed(Some(target)))
    && Total(Nudges, r.log) <= NUDGE_ATTEMPTS - attempt
    && (r.value == TimedOut ==>
          && Total(Misses(target), r.log) == NUDGE_ATTEMPTS / PROBE_INTERVAL - attempt / PROBE_INTERVAL + VERIFY_ATTEMPTS
          && Total(Nudges, r.log) == (if source then NUDGE_ATTEMPTS - attempt else 0)
          && Total(SleepMs, r.log) == NUDGE_DELAY * (NUDGE_ATTEMPTS - attempt) + VERIFY_DELAY * VERIFY_ATTEMPTS)
    && OnlyCursorWork(r.log)
  }

  lemma NudgeLogCost(source: bool, edge: Point, target: DisplayId, probe: Option<DisplayId>)
    ensures var log := NudgeLog(source, edge);
            && Total(SleepMs, log) == Total(SleepMs, log + [Probed(probe)]) == NUDGE_DELAY
            && Total(Nudges, log) == Total(Nudges, log + [Probed(probe)]) == (if source then 1 else 0)
            && Total(Misses(target), log) == 0
            && Total(Misses(target), log + [Probed(probe)]) == (if probe == Some(target) then 0 else 1)
            && OnlyCursorWork(log) && OnlyCursorWork(log + [Probed(probe)])
  {
    CostOfTwo(Nudged(edge), Slept(NUDGE_DELAY), target);
    CostOfTwo(Slept(NUDGE_DELAY), Probed(probe), target);
    CostOfTwo(Probed(probe), Probed(probe), target);
    CostConcat(NudgeLog(source, edge), [Probed(probe)], target);
    assert NudgeLog(source, edge) == if source then [Nudged(edge), Slept(NUDGE_DELAY)] else [Slept(NUDGE_DELAY)];
  }

  lemma WaitStep(head: seq<Event>, rest: Part<Outcome>, source: bool, edge: Point, target: DisplayId, attempt: nat, probe: Option<DisplayId>)
    requires attempt < NUDGE_ATTEMPTS && WaitBound(rest, source, target, attempt + 1)
    requires head == NudgeLog(source, edge) + if (attempt + 1) % PROBE_INTERVAL == 0 then [Probed(probe)] else []
    requires probe != Some(target)
    ensures WaitBound(Part(rest.value, rest.tick, head + rest.log), source, target, attempt)
  {
    hide Total, NudgeLog;
    NudgeLogCost(source, edge, target, probe);
    assert NudgeLog(source, edge) + [] == NudgeLog(source, edge);
    CostConcat(head, rest.log, target);
  }

  /** From nudge `attempt` on: a timed-out wait made every remaining probe and all of them missed, a
      successful one ends with a hit, and sleeps and nudges are bounded. */
  lemma {:induction false} WaitCost(w: World, tick: nat, source: bool, edge: Point, target: DisplayId, attempt: nat)
    requires attempt <= NUDGE_ATTEMPTS
    ensures WaitBound(WaitForDock(w, tick, source, edge, target, attempt), source, target, attempt)
    ensures tick <= WaitForDock(w, tick, source, edge, target, attempt).tick
    decreases NUDGE_ATTEMPTS - attempt
  {
    hide Total, NudgeLog, CursorTaken;
    if attempt == NUDGE_ATTEMPTS {
      VerifyCost(w, tick, target, 0);
    } else if CursorTaken(w, tick, edge) {
      NudgeLogCost(source, edge, target, None);
    } else if (attempt + 1) % PROBE_INTERVAL != 0 {
      WaitCost(w, tick + 1, source, edge, target, attempt + 1);
      assert NudgeLog(source, edge) == NudgeLog(source, edge) + [];
      WaitStep(NudgeLog(source, edge), WaitForDock(w, tick + 1, source, edge, target, attempt + 1), source, edge, target, attempt, None);
    } else {
      var probe := w.probe(tick + 1);
      NudgeLogCost(source, edge, target, probe);
      if probe != Some(target) {
        WaitCost(w, tick + 2, source, edge, target, attempt + 1);
        WaitStep(NudgeLog(source, edge) + [Probed(probe)], WaitForDock(w, tick + 2, source, edge, target, attempt + 1),
                 source, edge, target, attempt, probe);
      }
    }
  }

  lemma PlaceCost(source: bool, p: Point, d: DisplayId)
    ensures var log := Place(source, p) + [Slept(APPROACH_DELAY)];
            && Total(SleepMs, log) == APPROACH_DELAY && Total(Nudges, log) == 0 && Total(Misses(d), log) == 0
            && OnlyCursorWork(log)
  {
    CostOfTwo(Warped(p), Moved(p), d);
    CostOfTwo(Slept(APPROACH_DELAY), Slept(APPROACH_DELAY), d);
    CostConcat(Place(source, p), [Slept(APPROACH_DELAY)], d);
  }

  const TIMED_OUT_MISSES := NUDGE_ATTEMPTS / PROBE_INTERVAL + VERIFY_ATTEMPTS

  lemma PushCost(w: World, tick: nat, source: bool, t: real, edgeY: real, target: DisplayId)
    ensures var r := PushAtEdge(w, tick, source, t, edgeY, target);
            && Total(SleepMs, r.log) <= 830 && (r.value == Relocated ==> Total(SleepMs, r.log) <= 820)
            && Total(Nudges, r.log) <= NUDGE_ATTEMPTS
            && (r.value == TimedOut ==>
                  && Total(Misses(target), r.log) == TIMED_OUT_MISSES && Total(SleepMs, r.log) == 830
                  && Total(Nudges, r.log) == (if source then NUDGE_ATTEMPTS else 0))
            && (r.value == Relocated ==> Probed(Some(target)) in r.log)
            && OnlyCursorWork(r.log) && tick < r.tick
  {
    var approach, edge := Point(t, edgeY - RELOCATION_APPROACH_OFFSET), Point(t, edgeY - 1.0);
    var placed := Place(source, approach) + [Slept(APPROACH_DELAY)];
    PlaceCost(source, approach, target);
    if !CursorTaken(w, tick, approach) {
      var walked := SmoothMove(w, tick + 1, source, approach, edge, 1, EDGE_MOVE_STEPS);
      SmoothMoveCost(w, tick + 1, source, approach, edge, 1, EDGE_MOVE_STEPS, target);
      CostConcat(placed, walked.log, target);
      if walked.value {
        var waited := WaitForDock(w, walked.tick, source, edge, target, 0);
        WaitCost(w, walked.tick, source, edge, target, 0);
        CostConcat(placed + walked.log, waited.log, target);
        if waited.value == Relocated {
          assert waited.log[|waited.log| - 1] in placed + walked.log + waited.log;
        }
      }
    }
  }

  lemma PushAndRestoreCost(w: World, tick: nat, source: bool, t: real, edgeY: real, target: DisplayId, home: Point)
    ensures var r := PushAndRestore(w, tick, source, t, edgeY, target, home);
            && Total(SleepMs, r.log) <= 830 && (r.value == Done ==> Total(SleepMs, r.log) <= 820)
            && Total(Nudges, r.log) <= NUDGE_ATTEMPTS
            && (r.value == Done ==> Probed(Some(target)) in r.log)
            && (r.value == Failed ==>
                  && Total(Misses(target), r.log) == TIMED_OUT_MISSES && Total(SleepMs, r.log) == 830
                  && Total(Nudges, r.log) == (if source then NUDGE_ATTEMPTS else 0))
            && (r.value == UserInterrupted ==> forall e :: e in r.log ==> !e.Restored?)
            && OnlyCursorWork(r.log) && tick < r.tick
  {
    var pushed := PushAtEdge(w, tick, source, t, edgeY, target);
    PushCost(w, tick, source, t, edgeY, target);
    PushPoints(w, tick, source, t, edgeY, target);
    var restored := Restore(w, pushed.tick, Point(t, edgeY - 1.0), home);
    CostOfTwo(Restored(home), Restored(home), target);
    CostConcat(pushed.log, restored.log, target);
  }

  /** One relocation: at most 830 ms of sleep (820 when it succeeds) and 40 nudges; it succeeds with a
      bottom Dock only on a probe that sees the Dock on the target; it fails on a known display only
      after exactly 18 probes that all miss, 830 ms and, with an event source, 40 nudges; and an interrupted one leaves the cursor to the user. */
  lemma RelocateCost(w: World, tick: nat, target: DisplayId)
    ensures var r := Relocate(w, tick, target);
            && Total(SleepMs, r.log) <= 830 && (r.value == Done ==> Total(SleepMs, r.log) <= 820)
            && Total(Nudges, r.log) <= NUDGE_ATTEMPTS
            && (r.value == Done && w.bottom(tick + 1) ==> Probed(Some(target)) in r.log)
            && (r.value == Failed && w.layout(tick).Bounds(target).Some? ==>
                  && Total(Misses(target), r.log) == 18 && Total(SleepMs, r.log) == 830
                  && Total(Nudges, r.log) == (if w.source(tick + 4) then 40 else 0))
            && (r.value == UserInterrupted ==> forall e :: e in r.log ==> !e.Restored?)
            && OnlyCursorWork(r.log) && tick < r.tick
  {
    var bounds := w.layout(tick).Bounds(target);
    if bounds.Some? && w.bottom(tick + 1) && !w.overlay(tick + 2) {
      var t := TriggerCoordinate(w.layout(tick + 5), target, bounds.value);
      PushAndRestoreCost(w, tick + 6, w.source(tick + 4), t, bounds.value.Bottom(), target, w.cursor(tick + 3));
    }
  }

  // ----- where a relocation puts the cursor

  /** Events that reach the event tap while the Dock is being moved. */
  predicate Places(e: Event) { e.Warped? || e.Moved? || e.Nudged? }

  ghost predicate PlacesOnWalk(log: seq<Event>, t: real, edgeY: real) {
    forall e :: e in log ==> !e.Restored? && (Places(e) ==> OnWalk(t, Edge(t, t, edgeY), e.point))
  }

  lemma {:induction false} SmoothMovePoints(w: World, tick: nat, source: bool, t: real, edgeY: real, step: nat)
    requires 1 <= step <= EDGE_MOVE_STEPS + 1
    ensures PlacesOnWalk(SmoothMove(w, tick, source, Point(t, edgeY - RELOCATION_APPROACH_OFFSET), Point(t, edgeY - 1.0),
                                    step, EDGE_MOVE_STEPS).log, t, edgeY)
    decreases EDGE_MOVE_STEPS + 1 - step
  {
    if step <= EDGE_MOVE_STEPS {
      var from, to := Point(t, edgeY - RELOCATION_APPROACH_OFFSET), Point(t, edgeY - 1.0);
      var p := Interpolate(from, to, step, EDGE_MOVE_STEPS);
      assert to.y - from.y == 9.0;
      assert p.y == from.y + 9.0 * (step as real / 10.0);
      if !CursorTaken(w, tick, p) {
        SmoothMovePoints(w, tick + 1, source, t, edgeY, step + 1);
      }
    }
  }

  lemma {:induction false} VerifyPoints(w: World, tick: nat, target: DisplayId, i: nat)
    ensures forall e :: e in Verify(w, tick, target, i).log ==> !Places(e) && !e.Restored?
    decreases VERIFY_ATTEMPTS - i
  {
    if i < VERIFY_ATTEMPTS {
      VerifyPoints(w, tick + 1, target, i + 1);
    }
  }

  lemma {:induction false} WaitPoints(w: World, tick: nat, source: bool, t: real, edgeY: real, target: DisplayId, attempt: nat)
    ensures PlacesOnWalk(WaitForDock(w, tick, source, Point(t, edgeY - 1.0), target, attempt).log, t, edgeY)
    decreases NUDGE_ATTEMPTS - attempt
  {
    if attempt < NUDGE_ATTEMPTS {
      WaitPoints(w, tick + 1, source, t, edgeY, target, attempt + 1);
      WaitPoints(w, tick + 2, source, t, edgeY, target, attempt + 1);
    } else {
      VerifyPoints(w, tick, target, 0);
    }
  }

  lemma PushPoints(w: World, tick: nat, source: bool, t: real, edgeY: real, target: DisplayId)
    ensures PlacesOnWalk(PushAtEdge(w, tick, source, t, edgeY, target).log, t, edgeY)
  {
    var approach, edge := Point(t, edgeY - RELOCATION_APPROACH_OFFSET), Point(t, edgeY - 1.0);
    SmoothMovePoints(w, tick + 1, source, t, edgeY, 1);
    WaitPoints(w, SmoothMove(w, tick + 1, source, approach, edge, 1, EDGE_MOVE_STEPS).tick, source, t, edgeY, target, 0);
  }

  /** Lockdock's tap never blocks its own relocation: with disjoint displays, a current cache, a target
      at least 10 high whose edge has a free stretch, and the lock absent or on the target, none of the
      cursor positions of the relocation is suppressed. */
  lemma TapPassesRelocation(w: World, tick: nat, target: DisplayId, supported: bool, lock: DisplayId, layout: Layout)
    requires w.layout(tick) == w.layout(tick + 5) == layout && layout.Disjoint()
    requires target in layout.Active() && layout.Bounds(target).Some?
    requires layout.Bounds(target).value.height >= RELOCATION_APPROACH_OFFSET
    requires exists a, b :: OpenStretch(layout, target, BottomEdge(layout.Bounds(target).value), a, b)
    requires lock == 0 || lock == target
    ensures forall e :: e in Relocate(w, tick, target).log && Places(e) ==>
              layout.Holds(target, e.point) && !ShouldSuppress(supported, lock, FreshCache(layout), e.point)
  {
    var bounds := layout.Bounds(target).value;
    var t := TriggerCoordinate(layout, target, bounds);
    PushPoints(w, tick + 6, w.source(tick + 4), t, bounds.Bottom(), target);
    forall e | e in Relocate(w, tick, target).log && Places(e)
      ensures layout.Holds(target, e.point) && !ShouldSuppress(supported, lock, FreshCache(layout), e.point)
    {
      WalkStaysInside(layout, target, bounds, e.point);
      EventsOnLockedDisplayPass(layout, supported, lock, target, e.point);
    }
  }
}
