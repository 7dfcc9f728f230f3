/** What one relocation does, event by event: the walk in numbers, the nudges, how it ends and what
    becomes of the cursor. */
module RelocationTheorems {
  import opened Geometry
  import opened Displays
  import opened EdgeSweep
  import opened DisplayLock
  import opened Environment
  import opened Relocation

  // ----- the walk

  /** Step `k` of a walk at coordinate `x` to an edge at `edgeY`: nine tenths of a unit further down than
      the step before it. */
  function WalkPoint(x: real, edgeY: real, k: nat): Point {
    Point(x, edgeY - 10.0 + 9.0 * (k as real) / 10.0)
  }

  /** The events of step `k`: a posted move, or a warp without an event source, and a pause. */
  function StepEvents(source: bool, x: real, edgeY: real, k: nat): seq<Event> {
    var p := WalkPoint(x, edgeY, k);
    [if source then Moved(p) else Warped(p), Slept(15)]
  }

  /** The events of the first `n` steps. */
  function WalkLog(source: bool, x: real, edgeY: real, n: nat): seq<Event> {
    if n == 0 then [] else WalkLog(source, x, edgeY, n - 1) + StepEvents(source, x, edgeY, n)
  }

  lemma StepPoint(x: real, edgeY: real, k: nat)
    ensures Interpolate(Point(x, edgeY - RELOCATION_APPROACH_OFFSET), Point(x, edgeY - 1.0), k, EDGE_MOVE_STEPS) == WalkPoint(x, edgeY, k)
  {
    assert (edgeY - 1.0) - (edgeY - 10.0) == 9.0;
    assert 9.0 * (k as real / 10.0) == 9.0 * (k as real) / 10.0;
  }

  /** The user leaves the cursor alone at steps `a` to `b`. */
  ghost predicate StepsKept(w: World, tick: nat, x: real, edgeY: real, a: nat, b: nat) {
    forall k: nat :: a <= k <= b ==> !CursorTaken(w, tick + k, WalkPoint(x, edgeY, k))
  }

  /** The walk from step `step` on. */
  function Walk(w: World, tick: nat, source: bool, x: real, edgeY: real, step: nat): Part<bool> {
    SmoothMove(w, tick + step, source, Point(x, edgeY - RELOCATION_APPROACH_OFFSET), Point(x, edgeY - 1.0), step, EDGE_MOVE_STEPS)
  }

  lemma WalkEquation(w: World, tick: nat, source: bool, x: real, edgeY: real, step: nat)
    requires 1 <= step <= EDGE_MOVE_STEPS
    ensures var r, rest := Walk(w, tick, source, x, edgeY, step), Walk(w, tick, source, x, edgeY, step + 1);
            var head := StepEvents(source, x, edgeY, step);
            if CursorTaken(w, tick + step, WalkPoint(x, edgeY, step)) then !r.value && r.log == head
            else r.value == rest.value && r.log == head + rest.log
  {
    hide CursorTaken, Interpolate, WalkPoint;
    StepPoint(x, edgeY, step);
  }

  lemma {:induction false} WalkFrom(w: World, tick: nat, source: bool, x: real, edgeY: real, step: nat) returns (n: nat)
    requires 1 <= step <= EDGE_MOVE_STEPS + 1
    ensures var r := Walk(w, tick, source, x, edgeY, step);
            && step - 1 <= n <= 10 && WalkLog(source, x, edgeY, step - 1) + r.log == WalkLog(source, x, edgeY, n)
            && (if r.value then n == 10 && StepsKept(w, tick, x, edgeY, step, 10)
                else step <= n && CursorTaken(w, tick + n, WalkPoint(x, edgeY, n)) && StepsKept(w, tick, x, edgeY, step, n - 1))
    decreases EDGE_MOVE_STEPS + 1 - step
  {
    hide CursorTaken, WalkPoint, SmoothMove;
    var before := WalkLog(source, x, edgeY, step - 1);
    if step > EDGE_MOVE_STEPS {
      n := 10;
      WalkOver(w, tick, source, x, edgeY);
      assert before + [] == before;
    } else {
      WalkEquation(w, tick, source, x, edgeY, step);
      hide Walk;
      if CursorTaken(w, tick + step, WalkPoint(x, edgeY, step)) {
        n := step;
      } else {
        n := WalkFrom(w, tick, source, x, edgeY, step + 1);
        var head, rest := StepEvents(source, x, edgeY, step), Walk(w, tick, source, x, edgeY, step + 1);
        assert before + (head + rest.log) == (before + head) + rest.log;
      }
    }
  }

  lemma WalkOver(w: World, tick: nat, source: bool, x: real, edgeY: real)
    ensures Walk(w, tick, source, x, edgeY, 11).value && Walk(w, tick, source, x, edgeY, 11).log == []
  {
  }

  /** The exact log of a walk of 10 steps from 10 above the edge to 1 above it, whose first cursor check is
      at tick `tick + 1`. Left alone it makes all the steps and ends at the edge point; otherwise it ends
      with the step at which the user has taken the cursor. */
  lemma WalkIsExact(w: World, tick: nat, source: bool, x: real, edgeY: real) returns (n: nat)
    ensures var r := SmoothMove(w, tick + 1, source, Point(x, edgeY - 10.0), Point(x, edgeY - 1.0), 1, 10);
            && n <= 10 && r.log == WalkLog(source, x, edgeY, n)
            && (if r.value then n == 10 && StepsKept(w, tick, x, edgeY, 1, 10)
                else 1 <= n && CursorTaken(w, tick + n, WalkPoint(x, edgeY, n)) && StepsKept(w, tick, x, edgeY, 1, n - 1))
    ensures WalkPoint(x, edgeY, 10) == Point(x, edgeY - 1.0)
    ensures forall k: nat :: WalkPoint(x, edgeY, k + 1).y == WalkPoint(x, edgeY, k).y + 0.9
  {
    n := WalkFrom(w, tick, source, x, edgeY, 1);
    NoSteps(source, x, edgeY);
    forall k: nat
      ensures WalkPoint(x, edgeY, k + 1).y == WalkPoint(x, edgeY, k).y + 0.9
    {
      assert 9.0 * ((k + 1) as real) / 10.0 == 9.0 * (k as real) / 10.0 + 0.9;
    }
  }

  /** In order of the log: step `k` is its event `2 * (k - 1)`, followed by a pause of 15 ms. */
  lemma {:induction false} WalkStepAt(source: bool, x: real, edgeY: real, n: nat, k: nat)
    requires 1 <= k <= n
    ensures |WalkLog(source, x, edgeY, n)| == 2 * n
    ensures var p := Point(x, edgeY - 10.0 + 9.0 * (k as real) / 10.0);
            && WalkLog(source, x, edgeY, n)[2 * (k - 1)] == (if source then Moved(p) else Warped(p))
            && WalkLog(source, x, edgeY, n)[2 * (k - 1) + 1] == Slept(15)
  {
    if k < n {
      WalkStepAt(source, x, edgeY, n - 1, k);
    } else if n > 1 {
      WalkStepAt(source, x, edgeY, n - 1, 1);
    }
  }

  /** The user has taken the cursor when it is more than 24 away from where it was placed, to any side. */
  lemma CursorIsTakenBeyond24(w: World, t: nat, p: Point)
    ensures CursorTaken(w, t, p) <==>
            !(p.x - 24.0 <= w.cursor(t).x <= p.x + 24.0 && p.y - 24.0 <= w.cursor(t).y <= p.y + 24.0)
  {
  }

  // ----- the nudges and the cursor

  /** At the edge nothing is placed but nudges, exactly at the edge point. */
  ghost predicate OnlyNudges(log: seq<Event>, source: bool, edge: Point) {
    forall e :: e in log ==> (e == Nudged(edge) && source) || e.Slept? || e.Probed?
  }

  lemma {:induction false} VerifyNudges(w: World, tick: nat, source: bool, edge: Point, target: DisplayId, i: nat)
    ensures OnlyNudges(Verify(w, tick, target, i).log, source, edge)
    decreases VERIFY_ATTEMPTS - i
  {
    if i < VERIFY_ATTEMPTS {
      VerifyNudges(w, tick + 1, source, edge, target, i + 1);
    }
  }

  lemma {:induction false} WaitNudges(w: World, tick: nat, source: bool, edge: Point, target: DisplayId, attempt: nat)
    ensures OnlyNudges(WaitForDock(w, tick, source, edge, target, attempt).log, source, edge)
    decreases NUDGE_ATTEMPTS - attempt
  {
    hide CursorTaken;
    if attempt < NUDGE_ATTEMPTS {
      WaitNudges(w, tick + 1, source, edge, target, attempt + 1);
      WaitNudges(w, tick + 2, source, edge, target, attempt + 1);
    } else {
      VerifyNudges(w, tick, source, edge, target, 0);
    }
  }

  /** The placement of the cursor at the approach point. */
  function ApproachLog(source: bool, x: real, edgeY: real): seq<Event> {
    var p := Point(x, edgeY - 10.0);
    if source then [Warped(p), Moved(p), Slept(30)] else [Warped(p), Slept(30)]
  }

  lemma NoSteps(source: bool, x: real, edgeY: real)
    ensures WalkLog(source, x, edgeY, 0) == []
  {
  }

  lemma PushIsExact(w: World, tick: nat, source: bool, x: real, edgeY: real, d: DisplayId) returns (n: nat, rest: seq<Event>)
    ensures var r := PushAtEdge(w, tick, source, x, edgeY, d);
            && n <= 10 && r.log == ApproachLog(source, x, edgeY) + WalkLog(source, x, edgeY, n) + rest
            && OnlyNudges(rest, source, Point(x, edgeY - 1.0)) && (rest != [] || r.value != Interrupted ==> n == 10)
  {
    hide CursorTaken, SmoothMove, WaitForDock, WalkLog;
    var approach, edge := Point(x, edgeY - 10.0), Point(x, edgeY - 1.0);
    var placed := Place(source, approach) + [Slept(APPROACH_DELAY)];
    assert placed == ApproachLog(source, x, edgeY);
    n, rest := 0, [];
    if CursorTaken(w, tick, approach) {
      NoSteps(source, x, edgeY);
      assert placed + [] + [] == placed;
    } else {
      n := WalkIsExact(w, tick, source, x, edgeY);
      var walked := SmoothMove(w, tick + 1, source, approach, edge, 1, EDGE_MOVE_STEPS);
      if walked.value {
        rest := WaitForDock(w, walked.tick, source, edge, d, 0).log;
        WaitNudges(w, walked.tick, source, edge, d, 0);
      } else {
        assert placed + walked.log + [] == placed + walked.log;
      }
    }
  }

  /** A whole relocation with a bottom Dock and without an overlay, event by event: the approach point, the
      first `n` steps of the walk - all of them unless it is interrupted on the way -, then nudges, all at
      the edge point. An uninterrupted one ends with the cursor put back where it was before, unless the
      user holds it by then; an interrupted one never puts it back. */
  lemma RelocationIsExact(w: World, t: nat, d: DisplayId) returns (n: nat, rest: seq<Event>)
    requires w.layout(t).Bounds(d).Some? && w.bottom(t + 1) && !w.overlay(t + 2)
    ensures var r, bounds, source := Relocate(w, t, d), w.layout(t).Bounds(d).value, w.source(t + 4);
            var x, edgeY := TriggerCoordinate(w.layout(t + 5), d, bounds), bounds.y + bounds.height;
            var edge := Point(x, edgeY - 1.0);
            var back := if r.value == UserInterrupted || CursorTaken(w, r.tick - 1, edge) then [] else [Restored(w.cursor(t + 3))];
            && r.log == ApproachLog(source, x, edgeY) + WalkLog(source, x, edgeY, n) + rest + back
            && n <= 10 && OnlyNudges(rest, source, edge) && (rest != [] || r.value != UserInterrupted ==> n == 10)
  {
    hide PushAtEdge, TriggerCoordinate, CursorTaken, WalkLog;
    var bounds := w.layout(t).Bounds(d).value;
    var x := TriggerCoordinate(w.layout(t + 5), d, bounds);
    n, rest := PushIsExact(w, t + 6, w.source(t + 4), x, bounds.Bottom(), d);
    var pushed := PushAtEdge(w, t + 6, w.source(t + 4), x, bounds.Bottom(), d);
    assert pushed.log + [] == pushed.log;
  }
}
