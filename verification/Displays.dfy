/** The display arrangement and the attribution of the Dock's rectangle to a display
    (crates/lockdock-display/src/displays.rs). */
module Displays {
  import opened Options
  import opened Geometry

  type DisplayId = nat

  const MAX_DISPLAYS := 32
  const NEAREST_DISPLAY_MAX_DISTANCE := 512.0

  /** What the window server reports at one instant: the raw display list and the frame of each
      display it knows. */
  datatype Layout = Layout(displays: seq<DisplayId>, frames: map<DisplayId, Rect>) {

    /** `active_displays`: the list is read through a buffer of 32 entries. */
    function Active(): (ids: seq<DisplayId>)
      ensures ids <= displays && |ids| <= 32 && (ids == displays || |ids| == 32)
    {
      if |displays| <= MAX_DISPLAYS then displays else displays[..MAX_DISPLAYS]
    }

    /** `display_bounds`: display 0, an unknown display and an empty frame are errors. */
    function Bounds(id: DisplayId): (b: Option<Rect>)
      ensures b.Some? <==> id != 0 && id in frames && frames[id].NonEmpty()
      ensures b.Some? ==> b.value == frames[id]
    {
      if id != 0 && id in frames && frames[id].NonEmpty() then Some(frames[id]) else None
    }

    /** No point belongs to two different displays. */
    ghost predicate Disjoint() {
      forall i, j, p: Point :: i in Active() && j in Active() && i != j && Holds(i, p) ==> !Holds(j, p)
    }

    /** Display `id` has bounds and they contain `p`. */
    predicate Holds(id: DisplayId, p: Point) {
      Bounds(id).Some? && Bounds(id).value.Contains(p)
    }
  }

  // ----- distance from a point to a display

  /** How far `v` lies outside the closed interval [lo, hi]. */
  function Outside(lo: real, hi: real, v: real): real {
    Max(Max(lo - v, v - hi), 0.0)
  }

  function SquaredDistance(p: Point, b: Rect): real {
    var dx := Outside(b.x, b.x + b.width, p.x);
    var dy := Outside(b.y, b.y + b.height, p.y);
    dx * dx + dy * dy
  }

  ghost predicate InClosedRect(q: Point, b: Rect) {
    b.x <= q.x <= b.x + b.width && b.y <= q.y <= b.y + b.height
  }

  function SquaredLength(p: Point, q: Point): real {
    (p.x - q.x) * (p.x - q.x) + (p.y - q.y) * (p.y - q.y)
  }

  function Clamp(lo: real, hi: real, v: real): real {
    if v < lo then lo else if v > hi then hi else v
  }

  lemma AxisDistance(lo: real, hi: real, v: real, q: real)
    requires lo <= q <= hi
    ensures Outside(lo, hi, v) * Outside(lo, hi, v) <= (v - q) * (v - q)
    ensures (v - Clamp(lo, hi, v)) * (v - Clamp(lo, hi, v)) == Outside(lo, hi, v) * Outside(lo, hi, v)
  {
    var d := Outside(lo, hi, v);
    if v < lo {
      ProductMonotone(d, q - v, d, q - v);
      assert (q - v) * (q - v) == (v - q) * (v - q);
    } else if v > hi {
      ProductMonotone(d, v - q, d, v - q);
    }
  }

  lemma NoPointIsNearer(p: Point, b: Rect, q: Point)
    requires InClosedRect(q, b)
    ensures SquaredDistance(p, b) <= SquaredLength(p, q)
  {
    AxisDistance(b.x, b.x + b.width, p.x, q.x);
    AxisDistance(b.y, b.y + b.height, p.y, q.y);
  }

  lemma ClampIsThatNear(p: Point, b: Rect) returns (near: Point)
    requires b.NonEmpty()
    ensures InClosedRect(near, b) && SquaredLength(p, near) == SquaredDistance(p, b)
  {
    near := Point(Clamp(b.x, b.x + b.width, p.x), Clamp(b.y, b.y + b.height, p.y));
    AxisDistance(b.x, b.x + b.width, p.x, near.x);
    AxisDistance(b.y, b.y + b.height, p.y, near.y);
  }

  /** `dx * dx + dy * dy` is exactly the minimum squared distance from the point to the closed
      rectangle: no point of the rectangle is nearer, and one of them is that near. */
  lemma SquaredDistanceIsMinimum(p: Point, b: Rect)
    requires b.NonEmpty()
    ensures forall q :: InClosedRect(q, b) ==> SquaredDistance(p, b) <= SquaredLength(p, q)
    ensures exists q :: InClosedRect(q, b) && SquaredLength(p, q) == SquaredDistance(p, b)
  {
    forall q | InClosedRect(q, b)
      ensures SquaredDistance(p, b) <= SquaredLength(p, q)
    {
      NoPointIsNearer(p, b, q);
    }
    var near := ClampIsThatNear(p, b);
  }

  // ----- nearest display

  /** The `k`-th active display is close enough to `p` to be considered. */
  predicate Near(layout: Layout, p: Point, k: nat)
    requires k < |layout.Active()|
  {
    var b := layout.Bounds(layout.Active()[k]);
    b.Some? && SquaredDistance(p, b.value) < 512.0 * 512.0
  }

  /** The `k`-th active display is the first of the nearest ones among the first `n`. */
  ghost predicate FirstNearest(layout: Layout, p: Point, n: nat, k: nat)
    requires n <= |layout.Active()|
  {
    && k < n && Near(layout, p, k)
    && var dist := SquaredDistance(p, layout.Bounds(layout.Active()[k]).value);
       forall j :: 0 <= j < n && Near(layout, p, j) ==>
         && dist <= SquaredDistance(p, layout.Bounds(layout.Active()[j]).value)
         && (j < k ==> dist < SquaredDistance(p, layout.Bounds(layout.Active()[j]).value))
  }

  /** `best` is what the nearest-display rule answers for `p` among the first `n` displays. */
  ghost predicate NearestAnswer(layout: Layout, p: Point, n: nat, best: Option<DisplayId>)
    requires n <= |layout.Active()|
  {
    match best
    case None => forall j :: 0 <= j < n ==> !Near(layout, p, j)
    case Some(id) => exists k: nat :: FirstNearest(layout, p, n, k) && id == layout.Active()[k]
  }

  method NearestDisplay(layout: Layout, p: Point) returns (best: Option<DisplayId>)
    ensures NearestAnswer(layout, p, |layout.Active()|, best)
  {
    best := None;
    var bestDistance := NEAREST_DISPLAY_MAX_DISTANCE * NEAREST_DISPLAY_MAX_DISTANCE;
    var displays := layout.Active();
    ghost var at := 0;
    for i := 0 to |displays|
      invariant best.None? ==> bestDistance == NEAREST_DISPLAY_MAX_DISTANCE * NEAREST_DISPLAY_MAX_DISTANCE
      invariant best.None? ==> forall j :: 0 <= j < i ==> !Near(layout, p, j)
      invariant best.Some? ==>
                  && FirstNearest(layout, p, i, at) && best.value == displays[at]
                  && bestDistance == SquaredDistance(p, layout.Bounds(displays[at]).value)
    {
      var bounds := layout.Bounds(displays[i]);
      if bounds.Some? {
        var distance := SquaredDistance(p, bounds.value);
        if distance < bestDistance {
          bestDistance := distance;
          best := Some(displays[i]);
          at := i;
        }
      }
    }
  }

  // ----- display of a rectangle

  /** Area of `rect` on the `k`-th active display; 0 when its bounds are unavailable. */
  function AreaOn(layout: Layout, rect: Rect, k: nat): real
    requires k < |layout.Active()|
  {
    var b := layout.Bounds(layout.Active()[k]);
    if b.Some? then rect.Intersection(b.value).Area() else 0.0
  }

  /** The `k`-th active display is the first of those, among the first `n`, with the largest
      positive share of `rect`. */
  ghost predicate FirstLargest(layout: Layout, rect: Rect, n: nat, k: nat)
    requires n <= |layout.Active()|
  {
    && k < n && AreaOn(layout, rect, k) > 0.0
    && forall j :: 0 <= j < n ==>
         && AreaOn(layout, rect, j) <= AreaOn(layout, rect, k)
         && (j < k ==> AreaOn(layout, rect, j) < AreaOn(layout, rect, k))
  }

  function Center(rect: Rect): Point {
    Point(rect.x + rect.width / 2.0, rect.y + rect.height / 2.0)
  }

  /** What `display_for_rect` promises: nothing for an empty rectangle; otherwise the first display
      with the largest share; otherwise the nearest one below the drift limit. */
  ghost predicate Attributed(layout: Layout, rect: Rect, answer: Option<DisplayId>) {
    var n := |layout.Active()|;
    if !rect.NonEmpty() then answer.None?
    else if exists k :: 0 <= k < n && AreaOn(layout, rect, k) > 0.0 then
      exists k: nat :: FirstLargest(layout, rect, n, k) && answer == Some(layout.Active()[k])
    else NearestAnswer(layout, Center(rect), n, answer)
  }

  method DisplayForRect(layout: Layout, rect: Rect) returns (best: Option<DisplayId>)
    ensures Attributed(layout, rect, best)
  {
    if rect.width <= 0.0 || rect.height <= 0.0 {
      return None;
    }
    best := None;
    var bestArea := 0.0;
    var displays := layout.Active();
    ghost var at := 0;
    for i := 0 to |displays|
      invariant best.None? ==> bestArea == 0.0 && forall j :: 0 <= j < i ==> AreaOn(layout, rect, j) <= 0.0
      invariant best.Some? ==>
                  && FirstLargest(layout, rect, i, at) && best.value == displays[at]
                  && bestArea == AreaOn(layout, rect, at)
    {
      var bounds := layout.Bounds(displays[i]);
      if bounds.Some? {
        var area := rect.Intersection(bounds.value).Area();
        if area > bestArea {
          bestArea := area;
          best := Some(displays[i]);
          at := i;
        }
      }
    }
    if best.None? {
      best := NearestDisplay(layout, Center(rect));
    }
  }

  /** The promise determines the answer. */
  lemma AttributionIsUnique(layout: Layout, rect: Rect, a: Option<DisplayId>, b: Option<DisplayId>)
    requires Attributed(layout, rect, a) && Attributed(layout, rect, b)
    ensures a == b
  {
  }

  lemma ShareNeedsCommonPoint(layout: Layout, rect: Rect, k: nat) returns (q: Point)
    requires k < |layout.Active()| && AreaOn(layout, rect, k) > 0.0
    ensures rect.Contains(q) && layout.Holds(layout.Active()[k], q)
  {
    var b := layout.Bounds(layout.Active()[k]).value;
    IntersectionIsMeet(rect, b, Point(0.0, 0.0));
    q :| rect.Contains(q) && b.Contains(q);
  }

  lemma ShareWhenInside(layout: Layout, rect: Rect, k: nat)
    requires k < |layout.Active()| && rect.NonEmpty() && layout.Bounds(layout.Active()[k]).Some?
    requires rect.Within(layout.Bounds(layout.Active()[k]).value)
    ensures AreaOn(layout, rect, k) > 0.0
  {
    IntersectionArea(rect, layout.Bounds(layout.Active()[k]).value);
    PositiveProduct(rect.width, rect.height);
  }

  /** With disjoint displays, a Dock rectangle inside one display is attributed to that display. */
  lemma InsideOneDisplay(layout: Layout, rect: Rect, k: nat, answer: Option<DisplayId>)
    requires layout.Disjoint() && rect.NonEmpty()
    requires k < |layout.Active()| && layout.Bounds(layout.Active()[k]).Some?
    requires rect.Within(layout.Bounds(layout.Active()[k]).value)
    requires Attributed(layout, rect, answer)
    ensures answer == Some(layout.Active()[k])
  {
    var ids := layout.Active();
    ShareWhenInside(layout, rect, k);
    var m: nat :| FirstLargest(layout, rect, |ids|, m) && answer == Some(ids[m]);
    var q := ShareNeedsCommonPoint(layout, rect, m);
    assert layout.Holds(ids[k], q);
  }
}
