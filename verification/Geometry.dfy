/** Points and rectangles. The source's `f64` coordinates are modelled as reals. */
module Geometry {

  datatype Point = Point(x: real, y: real)

  datatype Rect = Rect(x: real, y: real, width: real, height: real) {

    /** Half-open containment: the left and top edges belong to the rectangle. */
    predicate Contains(p: Point) {
      x <= p.x < x + width && y <= p.y < y + height
    }

    function Intersection(other: Rect): Rect {
      var x1 := Max(x, other.x);
      var y1 := Max(y, other.y);
      var x2 := Min(x + width, other.x + other.width);
      var y2 := Min(y + height, other.y + other.height);
      if x2 <= x1 || y2 <= y1 then EMPTY_RECT else Rect(x1, y1, x2 - x1, y2 - y1)
    }

    function Area(): real { width * height }

    function Bottom(): real { y + height }

    predicate NonEmpty() { width > 0.0 && height > 0.0 }

    /** This rectangle lies inside `outer`. */
    predicate Within(outer: Rect) {
      && outer.x <= x && x + width <= outer.x + outer.width
      && outer.y <= y && y + height <= outer.y + outer.height
    }
  }

  const EMPTY_RECT := Rect(0.0, 0.0, 0.0, 0.0)

  function Max(a: real, b: real): real { if a >= b then a else b }

  function Min(a: real, b: real): real { if a <= b then a else b }

  /** The intersection is the greatest lower bound: it contains exactly the common points, and it
      has positive area exactly when there is a common point. */
  lemma IntersectionIsMeet(a: Rect, b: Rect, p: Point)
    ensures a.Intersection(b).Contains(p) <==> a.Contains(p) && b.Contains(p)
    ensures a.Intersection(b).Area() > 0.0 <==> exists q :: a.Contains(q) && b.Contains(q)
  {
    var c := a.Intersection(b);
    if c.width > 0.0 && c.height > 0.0 {
      PositiveProduct(c.width, c.height);
      var corner := Point(c.x, c.y);
      assert a.Contains(corner) && b.Contains(corner);
    } else {
      assert c == EMPTY_RECT;
      if q :| a.Contains(q) && b.Contains(q) {
        assert false;
      }
    }
  }

  lemma PositiveProduct(a: real, b: real)
    requires a > 0.0 && b > 0.0
    ensures a * b > 0.0
  {
  }

  lemma ProductMonotone(a: real, b: real, c: real, d: real)
    requires 0.0 <= a <= b && 0.0 <= c <= d
    ensures a * c <= b * d
  {
    assert a * c <= b * c;
    assert b * c <= b * d;
  }

  /** Intersecting never yields more area than the rectangle itself, and all of it when inside. */
  lemma IntersectionArea(r: Rect, b: Rect)
    requires r.NonEmpty()
    ensures 0.0 <= r.Intersection(b).Area() <= r.Area()
    ensures r.Within(b) ==> r.Intersection(b) == r
  {
    var c := r.Intersection(b);
    PositiveProduct(r.width, r.height);
    ProductMonotone(c.width, r.width, c.height, r.height);
    ProductMonotone(0.0, c.width, 0.0, c.height);
  }
}
