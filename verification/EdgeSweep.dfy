/** Choosing where on a display's bottom edge to push the cursor: the contacts of other displays with
    the edge, the widest gap between them, and the trigger coordinate
    (crates/lockdock-daemon/src/relocation.rs). */
module EdgeSweep {
  import opened Options
  import opened Geometry
  import opened Displays

  datatype Segment = Segment(start: real, end: real, width: real, center: real)

  const NO_SEGMENT := Segment(0.0, 0.0, 0.0, 0.0)

  function Between(start: real, end: real): Segment {
    Segment(start, end, end - start, start + (end - start) / 2.0)
  }

  /** The bottom edge of a display. */
  datatype Edge = Edge(min: real, max: real, y: real)

  function BottomEdge(bounds: Rect): Edge {
    Edge(bounds.x, bounds.x + bounds.width, bounds.Bottom())
  }

  // ----- contacts with other displays

  /** The vertical span of `other` comes within 1 of the edge. */
  predicate TouchesEdge(other: Rect, edge: Edge) {
    !(other.Bottom() < edge.y - 1.0 || other.y > edge.y + 1.0)
  }

  function Contact(other: Rect, edge: Edge): Segment {
    Between(Max(edge.min, other.x), Min(edge.max, other.x + other.width))
  }

  /** Display `id` contributes a contact: it is not the target, its bounds are known, it touches the
      edge and its contact is wider than 2. */
  predicate InContact(layout: Layout, target: DisplayId, edge: Edge, id: DisplayId) {
    && id != target && layout.Bounds(id).Some?
    && TouchesEdge(layout.Bounds(id).value, edge)
    && Contact(layout.Bounds(id).value, edge).width > 2.0
  }

  /** The contacts of the displays in `ids`, in list order. */
  function ContactsOf(layout: Layout, target: DisplayId, edge: Edge, ids: seq<DisplayId>): (contacts: seq<Segment>)
    ensures forall s :: s in contacts <==>
              exists id :: id in ids && InContact(layout, target, edge, id) && s == Contact(layout.Bounds(id).value, edge)
  {
    if ids == [] then []
    else
      var init, id := ids[..|ids| - 1], ids[|ids| - 1];
      var rest := ContactsOf(layout, target, edge, init);
      assert forall i :: i in ids <==> i in init || i == id;
      if InContact(layout, target, edge, id) then rest + [Contact(layout.Bounds(id).value, edge)] else rest
  }

  // ----- sorting

  predicate Before(l: Segment, r: Segment) {
    l.start < r.start || (l.start == r.start && l.end <= r.end)
  }

  ghost predicate Sorted(s: seq<Segment>) {
    forall i, j :: 0 <= i < j < |s| ==> Before(s[i], s[j])
  }

  function Insert(x: Segment, s: seq<Segment>): seq<Segment> {
    if s == [] || Before(x, s[0]) then [x] + s else [s[0]] + Insert(x, s[1..])
  }

  /** The stable sort by start, then end. */
  function SortSegments(s: seq<Segment>): seq<Segment> {
    if s == [] then [] else Insert(s[0], SortSegments(s[1..]))
  }

  lemma {:induction false} InsertPermutes(x: Segment, s: seq<Segment>)
    ensures multiset(Insert(x, s)) == multiset(s) + multiset{x}
  {
    if s != [] && !Before(x, s[0]) {
      InsertPermutes(x, s[1..]);
      assert s == [s[0]] + s[1..];
    }
  }

  lemma {:induction false} InsertSorts(x: Segment, s: seq<Segment>)
    requires Sorted(s)
    ensures Sorted(Insert(x, s))
  {
    if s != [] && !Before(x, s[0]) {
      var rest := Insert(x, s[1..]);
      InsertSorts(x, s[1..]);
      InsertPermutes(x, s[1..]);
      forall j | 0 <= j < |rest|
        ensures Before(s[0], rest[j])
      {
        assert rest[j] in multiset(rest);
        assert rest[j] == x || rest[j] in s[1..];
      }
    }
  }

  /** Sorting keeps every contact, the same number of times, and orders them. */
  lemma {:induction false} SortIsSortedPermutation(s: seq<Segment>)
    ensures Sorted(SortSegments(s)) && multiset(SortSegments(s)) == multiset(s)
  {
    if s != [] {
      SortIsSortedPermutation(s[1..]);
      InsertSorts(s[0], SortSegments(s[1..]));
      InsertPermutes(s[0], SortSegments(s[1..]));
      assert s == [s[0]] + s[1..];
    }
  }

  function Overlaps(layout: Layout, target: DisplayId, edge: Edge): seq<Segment> {
    SortSegments(ContactsOf(layout, target, edge, layout.Active()))
  }

  method CollectEdgeOverlaps(layout: Layout, target: DisplayId, edge: Edge) returns (overlaps: seq<Segment>)
    ensures overlaps == Overlaps(layout, target, edge)
  {
    overlaps := [];
    var displays := layout.Active();
    for i := 0 to |displays|
      invariant overlaps == ContactsOf(layout, target, edge, displays[..i])
    {
      var id := displays[i];
      assert displays[..i + 1][..i] == displays[..i];
      if id == target {
        continue;
      }
      var bounds := layout.Bounds(id);
      if bounds.None? {
        continue;
      }
      var other := bounds.value;
      if other.y + other.height < edge.y - 1.0 || other.y > edge.y + 1.0 {
        continue;
      }
      var start := Max(edge.min, other.x);
      var end := Min(edge.max, other.x + other.width);
      if end > start && end - start > 2.0 {
        overlaps := overlaps + [Segment(start, end, end - start, start + (end - start) / 2.0)];
      }
    }
    assert displays[..|displays|] == displays;
    overlaps := SortSegments(overlaps);
  }

  // ----- the sweep

  function Better(best: Segment, start: real, end: real): Segment {
    if end <= start then best
    else if end - start > best.width then Between(start, end)
    else best
  }

  /** Cursor and best gap after the sweep has passed `overlaps`. */
  function Swept(edge: Edge, overlaps: seq<Segment>): (r: (real, Segment)) {
    if overlaps == [] then (edge.min, NO_SEGMENT)
    else
      var (cursor, best) := Swept(edge, overlaps[..|overlaps| - 1]);
      var o := overlaps[|overlaps| - 1];
      (if o.end > cursor then o.end else cursor,
       if o.start > cursor then Better(best, cursor, o.start) else best)
  }

  function WidestGap(edge: Edge, overlaps: seq<Segment>): Segment {
    var (cursor, best) := Swept(edge, overlaps);
    Better(best, cursor, edge.max)
  }

  /** The wider of `best` and the candidate; an empty candidate or one no wider than `best` loses. */
  method UpdateBestSegment(best: Segment, start: real, end: real) returns (next: Segment)
    ensures next == best || (start < end && next == Between(start, end) && next.width > best.width)
    ensures next.width >= best.width && (start < end ==> next.width >= end - start)
  {
    next := best;
    if end <= start {
      return;
    }
    var width := end - start;
    if width > best.width {
      next := Segment(start, end, width, start + width / 2.0);
    }
  }

  method FindSafeEdgeSegment(edge: Edge, overlaps: seq<Segment>) returns (best: Segment)
    ensures best == WidestGap(edge, overlaps)
  {
    best := NO_SEGMENT;
    var cursor := edge.min;
    for i := 0 to |overlaps|
      invariant (cursor, best) == Swept(edge, overlaps[..i])
    {
      var overlap := overlaps[i];
      assert overlaps[..i + 1][..i] == overlaps[..i];
      if overlap.start > cursor {
        best := UpdateBestSegment(best, cursor, overlap.start);
      }
      if overlap.end > cursor {
        cursor := overlap.end;
      }
    }
    assert overlaps[..|overlaps|] == overlaps;
    best := UpdateBestSegment(best, cursor, edge.max);
  }

  // ----- exactness of the sweep

  predicate Covered(overlaps: seq<Segment>, p: real) {
    exists s :: s in overlaps && s.start <= p <= s.end
  }

  /** (a, b) is a nonempty open part of the edge that meets no overlap. */
  ghost predicate FreeGap(edge: Edge, overlaps: seq<Segment>, a: real, b: real) {
    edge.min <= a < b <= edge.max && forall p :: a < p < b ==> !Covered(overlaps, p)
  }

  /** What collecting establishes: sorted, nonempty and within the edge. */
  ghost predicate Clipped(edge: Edge, overlaps: seq<Segment>) {
    Sorted(overlaps) && forall s :: s in overlaps ==> edge.min <= s.start < s.end <= edge.max
  }

  ghost predicate Misses(overlaps: seq<Segment>, a: real, b: real) {
    forall s :: s in overlaps ==> s.end <= a || b <= s.start
  }

  lemma FreeGapMisses(edge: Edge, overlaps: seq<Segment>, a: real, b: real)
    requires Clipped(edge, overlaps) && edge.min <= a < b <= edge.max
    ensures FreeGap(edge, overlaps, a, b) <==> Misses(overlaps, a, b)
  {
    if FreeGap(edge, overlaps, a, b) {
      forall s | s in overlaps
        ensures s.end <= a || b <= s.start
      {
        var p := (Max(a, s.start) + Min(b, s.end)) / 2.0;
        if a < s.end && s.start < b {
          assert a < p < b && Covered(overlaps, p);
        }
      }
    }
  }

  /** `best` is the leftmost widest of the gaps that a sweep has completed, where a gap counts as
      completed once the sweep's cursor is past its start. */
  ghost predicate BestSoFar(edge: Edge, overlaps: seq<Segment>, cursor: real, best: Segment) {
    && (best == NO_SEGMENT || (best == Between(best.start, best.end) && edge.min <= best.start < best.end
                               && Misses(overlaps, best.start, best.end)))
    && forall a, b :: edge.min <= a < b && Misses(overlaps, a, b) ==>
         cursor <= a || Loses(best, a, b)
  }

  predicate Loses(best: Segment, a: real, b: real) {
    b - a <= best.width && (b - a == best.width ==> best.start <= a)
  }

  lemma {:induction false} SweptInvariant(edge: Edge, overlaps: seq<Segment>)
    requires Clipped(edge, overlaps)
    ensures var (cursor, best) := Swept(edge, overlaps);
            && edge.min <= cursor && (edge.min < edge.max ==> cursor <= edge.max)
            && (forall s :: s in overlaps ==> s.end <= cursor)
            && BestSoFar(edge, overlaps, cursor, best)
            && (best != NO_SEGMENT ==> overlaps != [] && best.end <= overlaps[|overlaps| - 1].start)
  {
    if overlaps != [] {
      var n := |overlaps| - 1;
      var init, o := overlaps[..n], overlaps[n];
      assert forall s :: s in overlaps <==> s in init || s == o;
      SweptInvariant(edge, init);
      var (cursor, best) := Swept(edge, init);
      var (cursor', best') := Swept(edge, overlaps);
      assert init != [] ==> Before(init[n - 1], o);
      assert best' != NO_SEGMENT ==> Misses(overlaps, best'.start, best'.end);
      forall a, b | edge.min <= a < b && Misses(overlaps, a, b)
        ensures cursor' <= a || Loses(best', a, b)
      {
        assert Misses(init, a, b);
        assert o.end <= a || b <= o.start;
      }
    }
  }

  /** The sweep is exact: on sorted clipped overlaps it returns a free gap of maximum width, the
      leftmost such gap, and width 0 exactly when there is no free gap. */
  lemma SweepIsExact(edge: Edge, overlaps: seq<Segment>)
    requires Clipped(edge, overlaps) && edge.min < edge.max
    ensures var best := WidestGap(edge, overlaps);
            && (best.width == 0.0 <==> forall a, b :: !FreeGap(edge, overlaps, a, b))
            && (best.width > 0.0 ==> best == Between(best.start, best.end) && FreeGap(edge, overlaps, best.start, best.end))
            && best.width >= 0.0
            && forall a, b :: FreeGap(edge, overlaps, a, b) ==> Loses(best, a, b)
  {
    SweptInvariant(edge, overlaps);
    var (cursor, before) := Swept(edge, overlaps);
    var best := WidestGap(edge, overlaps);
    forall a, b | FreeGap(edge, overlaps, a, b)
      ensures Loses(best, a, b)
    {
      FreeGapMisses(edge, overlaps, a, b);
    }
    if best.width > 0.0 {
      assert Misses(overlaps, best.start, best.end);
      FreeGapMisses(edge, overlaps, best.start, best.end);
    }
  }

  // ----- the trigger coordinate

  function ChooseTriggerCoordinate(bounds: Rect, overlaps: seq<Segment>, safe: Segment): real {
    var preferred := Max(bounds.x + bounds.width - 10.0, bounds.x);
    if Covered(overlaps, preferred) then safe.center else preferred
  }

  /** The coordinate a relocation to `target` pushes at. */
  function TriggerCoordinate(layout: Layout, target: DisplayId, bounds: Rect): real {
    var edge := BottomEdge(bounds);
    var overlaps := Overlaps(layout, target, edge);
    ChooseTriggerCoordinate(bounds, overlaps, WidestGap(edge, overlaps))
  }

  /** Some other display's contact with the edge contains coordinate `p`. */
  ghost predicate Blocked(layout: Layout, target: DisplayId, edge: Edge, p: real) {
    exists id :: id in layout.Active() && InContact(layout, target, edge, id)
      && Contact(layout.Bounds(id).value, edge).start <= p <= Contact(layout.Bounds(id).value, edge).end
  }

  /** The open stretch (a, b) of the edge is free of contacts. */
  ghost predicate OpenStretch(layout: Layout, target: DisplayId, edge: Edge, a: real, b: real) {
    edge.min <= a < b <= edge.max && forall p :: a < p < b ==> !Blocked(layout, target, edge, p)
  }

  /** Sorting neither loses nor invents contacts. */
  lemma OverlapMembers(layout: Layout, target: DisplayId, edge: Edge, s: Segment)
    ensures s in Overlaps(layout, target, edge) <==>
            exists id :: id in layout.Active() && InContact(layout, target, edge, id)
              && s == Contact(layout.Bounds(id).value, edge)
  {
    var contacts := ContactsOf(layout, target, edge, layout.Active());
    SortIsSortedPermutation(contacts);
    assert s in SortSegments(contacts) <==> s in multiset(SortSegments(contacts));
    assert s in contacts <==> s in multiset(contacts);
  }

  lemma OverlapsAreClipped(layout: Layout, target: DisplayId, edge: Edge)
    ensures Clipped(edge, Overlaps(layout, target, edge))
  {
    SortIsSortedPermutation(ContactsOf(layout, target, edge, layout.Active()));
    forall s | s in Overlaps(layout, target, edge)
      ensures edge.min <= s.start < s.end <= edge.max
    {
      OverlapMembers(layout, target, edge, s);
    }
  }

  /** The collected overlaps cover exactly the blocked coordinates. */
  lemma OverlapsAreComplete(layout: Layout, target: DisplayId, edge: Edge, p: real)
    ensures Covered(Overlaps(layout, target, edge), p) <==> Blocked(layout, target, edge, p)
  {
    var overlaps := Overlaps(layout, target, edge);
    if Covered(overlaps, p) {
      var s :| s in overlaps && s.start <= p <= s.end;
      OverlapMembers(layout, target, edge, s);
    }
    if Blocked(layout, target, edge, p) {
      var id :| id in layout.Active() && InContact(layout, target, edge, id)
        && Contact(layout.Bounds(id).value, edge).start <= p <= Contact(layout.Bounds(id).value, edge).end;
      OverlapMembers(layout, target, edge, Contact(layout.Bounds(id).value, edge));
    }
  }

  lemma StretchesAreGaps(layout: Layout, target: DisplayId, edge: Edge, a: real, b: real)
    ensures OpenStretch(layout, target, edge, a, b) <==> FreeGap(edge, Overlaps(layout, target, edge), a, b)
  {
    forall p
      ensures Covered(Overlaps(layout, target, edge), p) <==> Blocked(layout, target, edge, p)
    {
      OverlapsAreComplete(layout, target, edge, p);
    }
  }

  /** An uncovered coordinate lies in some gap. */
  lemma {:induction false} UncoveredHasGap(edge: Edge, overlaps: seq<Segment>, p: real) returns (a: real, b: real)
    requires edge.min <= p <= edge.max && edge.min < edge.max && !Covered(overlaps, p)
    requires forall s :: s in overlaps ==> s.start <= s.end
    ensures edge.min <= a <= p <= b <= edge.max && a < b && Misses(overlaps, a, b)
    ensures (a < p || a == edge.min) && (p < b || b == edge.max)
  {
    if overlaps == [] {
      a, b := edge.min, edge.max;
    } else {
      var n := |overlaps| - 1;
      var init, o := overlaps[..n], overlaps[n];
      assert forall s :: s in overlaps <==> s in init || s == o;
      a, b := UncoveredHasGap(edge, init, p);
      assert !(o.start <= p <= o.end);
      if o.end < p {
        a := Max(a, o.end);
      } else {
        b := Min(b, o.start);
      }
    }
  }

  /** End to end from display bounds: the trigger coordinate lies on the target's edge clear of every
      contact exactly when the edge has a free stretch. */
  lemma TriggerIsClear(layout: Layout, target: DisplayId, bounds: Rect)
    requires bounds.NonEmpty()
    ensures var edge := BottomEdge(bounds);
            var t := TriggerCoordinate(layout, target, bounds);
            (exists a, b :: OpenStretch(layout, target, edge, a, b)) <==>
            edge.min <= t < edge.max && !Blocked(layout, target, edge, t)
  {
    var edge := BottomEdge(bounds);
    var overlaps := Overlaps(layout, target, edge);
    var t := TriggerCoordinate(layout, target, bounds);
    OverlapsAreClipped(layout, target, edge);
    OverlapsAreComplete(layout, target, edge, t);
    SweepIsExact(edge, overlaps);
    if edge.min <= t < edge.max && !Blocked(layout, target, edge, t) {
      var a, b := UncoveredHasGap(edge, overlaps, t);
      FreeGapMisses(edge, overlaps, a, b);
      StretchesAreGaps(layout, target, edge, a, b);
    }
    if a, b :| OpenStretch(layout, target, edge, a, b) {
      StretchesAreGaps(layout, target, edge, a, b);
      var best := WidestGap(edge, overlaps);
      assert best.start < best.center < best.end;
    }
  }

  /** Which coordinate it is: 10 from the right end of the edge, or its left end when it is narrower than
      that, unless a contact is there; then the centre of the leftmost widest free stretch, if any. */
  lemma TriggerIsPreferredOrCentral(layout: Layout, target: DisplayId, bounds: Rect)
    requires bounds.NonEmpty()
    ensures var edge := BottomEdge(bounds);
            var preferred := if bounds.width >= 10.0 then bounds.x + bounds.width - 10.0 else bounds.x;
            var t := TriggerCoordinate(layout, target, bounds);
            if !Blocked(layout, target, edge, preferred) then t == preferred
            else forall a, b :: WidestStretch(layout, target, edge, a, b) ==> t == a + (b - a) / 2.0
  {
    var edge := BottomEdge(bounds);
    var overlaps := Overlaps(layout, target, edge);
    var preferred := Max(bounds.x + bounds.width - 10.0, bounds.x);
    OverlapsAreComplete(layout, target, edge, preferred);
    OverlapsAreClipped(layout, target, edge);
    SweepIsExact(edge, overlaps);
    forall a, b | WidestStretch(layout, target, edge, a, b)
      ensures WidestGap(edge, overlaps).center == a + (b - a) / 2.0
    {
      var best := WidestGap(edge, overlaps);
      StretchesAreGaps(layout, target, edge, a, b);
      StretchesAreGaps(layout, target, edge, best.start, best.end);
    }
  }

  /** (a, b) is the leftmost of the widest free stretches of the edge. */
  ghost predicate WidestStretch(layout: Layout, target: DisplayId, edge: Edge, a: real, b: real) {
    && OpenStretch(layout, target, edge, a, b)
    && forall p, q :: OpenStretch(layout, target, edge, p, q) ==> q - p < b - a || (q - p == b - a && a <= p)
  }

  /** A display directly below the target covers its edge: there the trigger is off the edge. */
  lemma StackedDisplayCoversEdge()
    ensures var upper, lower := Rect(100.0, 0.0, 50.0, 50.0), Rect(100.0, 50.0, 50.0, 50.0);
            var layout := Layout([1, 2], map[1 := upper, 2 := lower]);
            && layout.Disjoint() && layout.Bounds(1) == Some(upper)
            && (forall a, b :: !OpenStretch(layout, 1, BottomEdge(upper), a, b))
            && TriggerCoordinate(layout, 1, upper) < BottomEdge(upper).min
  {
    var upper, lower := Rect(100.0, 0.0, 50.0, 50.0), Rect(100.0, 50.0, 50.0, 50.0);
    var layout := Layout([1, 2], map[1 := upper, 2 := lower]);
    var edge := BottomEdge(upper);
    assert InContact(layout, 1, edge, 2);
    forall a, b
      ensures !OpenStretch(layout, 1, edge, a, b)
    {
      if edge.min <= a < b <= edge.max {
        var p := (a + b) / 2.0;
        assert a < p < b && 2 in layout.Active();
        assert Blocked(layout, 1, edge, p);
      }
    }
    FullyCoveredEdgeTriggersAtZero(layout, 1, upper);
  }

  /** When contacts leave no free stretch, the sweep returns no gap and the trigger coordinate is the
      default 0 wherever the display lies. */
  lemma FullyCoveredEdgeTriggersAtZero(layout: Layout, target: DisplayId, bounds: Rect)
    requires bounds.NonEmpty()
    requires forall a, b :: !OpenStretch(layout, target, BottomEdge(bounds), a, b)
    ensures TriggerCoordinate(layout, target, bounds) == 0.0
  {
    var edge := BottomEdge(bounds);
    var overlaps := Overlaps(layout, target, edge);
    var preferred := Max(bounds.x + bounds.width - 10.0, bounds.x);
    OverlapsAreClipped(layout, target, edge);
    if !Covered(overlaps, preferred) {
      var a, b := UncoveredHasGap(edge, overlaps, preferred);
      FreeGapMisses(edge, overlaps, a, b);
      StretchesAreGaps(layout, target, edge, a, b);
    }
    forall a, b
      ensures !FreeGap(edge, overlaps, a, b)
    {
      StretchesAreGaps(layout, target, edge, a, b);
    }
    SweepIsExact(edge, overlaps);
    SweptInvariant(edge, overlaps);
  }
}
