/** The suppression decision of the event tap (crates/lockdock-daemon/src/display_lock.rs). */
module DisplayLock {
  import opened Options
  import opened Geometry
  import opened Displays
  import opened EdgeSweep

  const LOCK_EDGE_ZONE := 4.0

  datatype DisplayBounds = DisplayBounds(id: DisplayId, bounds: Rect)

  /** The cache contents after a refresh that reads `layout`: the active displays with bounds. */
  function CacheOf(layout: Layout, ids: seq<DisplayId>): (cache: seq<DisplayBounds>)
    ensures forall d :: d in cache <==> d.id in ids && layout.Bounds(d.id) == Some(d.bounds)
  {
    if ids == [] then []
    else
      var init, id := ids[..|ids| - 1], ids[|ids| - 1];
      var rest := CacheOf(layout, init);
      assert forall i :: i in ids <==> i in init || i == id;
      if layout.Bounds(id).Some? then rest + [DisplayBounds(id, layout.Bounds(id).value)] else rest
  }

  /** What one display adds to the cache: an entry if it has bounds, nothing otherwise. */
  function EntryOf(layout: Layout, id: DisplayId): seq<DisplayBounds> {
    if layout.Bounds(id).Some? then [DisplayBounds(id, layout.Bounds(id).value)] else []
  }

  lemma CacheOfLast(layout: Layout, ids: seq<DisplayId>, id: DisplayId)
    ensures CacheOf(layout, ids + [id]) == CacheOf(layout, ids) + EntryOf(layout, id)
  {
    assert (ids + [id])[..|ids + [id]| - 1] == ids;
  }

  /** The cache is built display by display: nothing is dropped, doubled or moved. */
  lemma {:induction false} CacheOfConcat(layout: Layout, a: seq<DisplayId>, b: seq<DisplayId>)
    ensures CacheOf(layout, a + b) == CacheOf(layout, a) + CacheOf(layout, b)
    ensures |b| == 1 ==> CacheOf(layout, b) == EntryOf(layout, b[0])
  {
    hide CacheOf, EntryOf;
    NothingCached(layout);
    if b == [] {
      assert a + b == a;
    } else {
      var init, id := b[..|b| - 1], b[|b| - 1];
      CacheOfConcat(layout, a, init);
      CacheOfLast(layout, a + init, id);
      CacheOfLast(layout, init, id);
      assert (a + init) + [id] == a + b && init + [id] == b;
    }
  }

  lemma NothingCached(layout: Layout)
    ensures CacheOf(layout, []) == []
  {
  }

  function FreshCache(layout: Layout): seq<DisplayBounds> {
    CacheOf(layout, layout.Active())
  }

  method ReadDisplayCache(layout: Layout) returns (next: seq<DisplayBounds>)
    ensures next == FreshCache(layout)
  {
    next := [];
    var displays := layout.Active();
    for i := 0 to |displays|
      invariant next == CacheOf(layout, displays[..i])
    {
      assert displays[..i + 1][..i] == displays[..i];
      var bounds := layout.Bounds(displays[i]);
      if bounds.Some? {
        next := next + [DisplayBounds(displays[i], bounds.value)];
      }
    }
    assert displays[..|displays|] == displays;
  }

  /** The first cached display containing `p`. */
  function CachedDisplayAt(cache: seq<DisplayBounds>, p: Point): (d: Option<DisplayBounds>)
    ensures d.Some? ==> d.value in cache && d.value.bounds.Contains(p)
    ensures d.None? ==> forall e :: e in cache ==> !e.bounds.Contains(p)
  {
    if cache == [] then None
    else if cache[0].bounds.Contains(p) then Some(cache[0])
    else CachedDisplayAt(cache[1..], p)
  }

  /** It is the first one: no display cached before it contains the point. */
  lemma {:induction false} CachedIsFirst(cache: seq<DisplayBounds>, p: Point) returns (k: nat)
    requires exists e :: e in cache && e.bounds.Contains(p)
    ensures k < |cache| && CachedDisplayAt(cache, p) == Some(cache[k]) && cache[k].bounds.Contains(p)
    ensures forall j :: 0 <= j < k ==> !cache[j].bounds.Contains(p)
  {
    k := 0;
    if !cache[0].bounds.Contains(p) {
      var rest := CachedIsFirst(cache[1..], p);
      k := rest + 1;
      forall j | 0 <= j < k
        ensures !cache[j].bounds.Contains(p)
      {
        if j > 0 {
          assert cache[j] == cache[1..][j - 1];
        }
      }
    }
  }

  function DistanceFromBottomEdge(p: Point, bounds: Rect): real { bounds.y + bounds.height - p.y }

  /** The decision for one mouse event; 0 as the lock target means no lock. */
  predicate ShouldSuppress(supported: bool, lock: DisplayId, cache: seq<DisplayBounds>, p: Point) {
    supported && lock != 0
    && var current := CachedDisplayAt(cache, p);
       current.Some? && current.value.id != lock
       && 0.0 <= DistanceFromBottomEdge(p, current.value.bounds) <= LOCK_EDGE_ZONE
  }

  /** `p` is in the bottom zone of display `id`, 4 high. */
  predicate InDockZone(layout: Layout, id: DisplayId, p: Point) {
    layout.Holds(id, p) && p.y >= layout.Bounds(id).value.Bottom() - 4.0
  }

  /** With a current cache and disjoint displays, exactly the events in the bottom zone of a display
      other than the locked one are suppressed. */
  lemma SuppressedExactlyInForeignZones(layout: Layout, lock: DisplayId, p: Point)
    requires layout.Disjoint()
    ensures ShouldSuppress(true, lock, FreshCache(layout), p) <==>
            lock != 0 && exists id :: id in layout.Active() && id != lock && InDockZone(layout, id, p)
  {
    var current := CachedDisplayAt(FreshCache(layout), p);
    forall id | id in layout.Active() && layout.Holds(id, p)
      ensures current.Some? && current.value.id == id
    {
      assert DisplayBounds(id, layout.Bounds(id).value) in FreshCache(layout);
      assert current.Some? && layout.Holds(current.value.id, p);
    }
  }

  /** Events inside display `d` pass while the lock is `d` or absent. */
  lemma EventsOnLockedDisplayPass(layout: Layout, supported: bool, lock: DisplayId, d: DisplayId, p: Point)
    requires layout.Disjoint() && d in layout.Active() && layout.Holds(d, p)
    requires lock == 0 || lock == d
    ensures !ShouldSuppress(supported, lock, FreshCache(layout), p)
  {
    SuppressedExactlyInForeignZones(layout, lock, p);
  }

  // ----- relocation points

  const RELOCATION_APPROACH_OFFSET := 10.0

  /** The cursor positions of a relocation that walks from `RELOCATION_APPROACH_OFFSET` above the edge
      to 1 above it at coordinate `t`. */
  predicate OnWalk(t: real, edge: Edge, p: Point) {
    p.x == t && edge.y - RELOCATION_APPROACH_OFFSET <= p.y <= edge.y - 1.0
  }

  /** A relocation's positions lie inside the target when it is at least 10 high and its edge has a
      free stretch. */
  lemma WalkStaysInside(layout: Layout, target: DisplayId, bounds: Rect, p: Point)
    requires bounds.NonEmpty() && bounds.height >= RELOCATION_APPROACH_OFFSET
    requires exists a, b :: OpenStretch(layout, target, BottomEdge(bounds), a, b)
    requires OnWalk(TriggerCoordinate(layout, target, bounds), BottomEdge(bounds), p)
    ensures bounds.Contains(p)
  {
    TriggerIsClear(layout, target, bounds);
  }
}
