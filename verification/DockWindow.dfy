/** Finding the Dock bar window through a cached window ID
    (crates/lockdock-display/native/display.c). */
module DockWindow {
  import opened Options
  import opened Geometry

  /** A window dictionary, reduced to the entries the lookup reads. ID 0 is the null window. */
  datatype Window = Window(id: nat, layer: int, ownedByDock: bool, wallpaper: bool, bounds: Option<Rect>)

  /** The window server's answers to the three list queries; `None` is a NULL list. */
  datatype Answers = Answers(including: Option<seq<Window>>, onScreen: Option<seq<Window>>, all: Option<seq<Window>>)

  predicate IsBar(w: Window, level: int) {
    && w.layer == level && w.ownedByDock && !w.wallpaper
    && w.bounds.Some? && w.bounds.value.NonEmpty() && w.id != 0
  }

  /** The first bar of largest area in a window list. */
  function Largest(windows: seq<Window>, level: int): (best: Option<Window>)
    ensures best.Some? ==> best.value in windows && IsBar(best.value, level)
  {
    if windows == [] then None
    else
      var best := Largest(windows[..|windows| - 1], level);
      var w := windows[|windows| - 1];
      if IsBar(w, level) && (best.None? || w.bounds.value.Area() > best.value.bounds.value.Area()) then Some(w) else best
  }

  /** Discovery finds something exactly when the list has a bar; what it finds has maximum area and
      is the first such window. */
  lemma {:induction false} LargestIsFirstMaximum(windows: seq<Window>, level: int)
    ensures Largest(windows, level).Some? <==> exists i :: 0 <= i < |windows| && IsBar(windows[i], level)
    ensures Largest(windows, level).Some? ==>
              exists k :: 0 <= k < |windows| && windows[k] == Largest(windows, level).value && FirstMaximum(windows, level, k)
  {
    if windows != [] {
      var init, w := windows[..|windows| - 1], windows[|windows| - 1];
      LargestIsFirstMaximum(init, level);
      assert forall i :: 0 <= i < |init| ==> windows[i] == init[i];
      if Largest(init, level).Some? {
        var k :| 0 <= k < |init| && init[k] == Largest(init, level).value && FirstMaximum(init, level, k);
        assert windows[k] == init[k] && IsBar(windows[k], level);
        if Largest(windows, level) == Largest(init, level) {
          assert FirstMaximum(windows, level, k);
        } else {
          assert FirstMaximum(windows, level, |init|);
        }
      } else if IsBar(w, level) {
        assert windows[|init|] == w && FirstMaximum(windows, level, |init|);
      }
    }
  }

  ghost predicate FirstMaximum(windows: seq<Window>, level: int, k: int)
    requires 0 <= k < |windows|
  {
    && IsBar(windows[k], level)
    && forall j :: 0 <= j < |windows| && IsBar(windows[j], level) ==>
         && windows[j].bounds.value.Area() <= windows[k].bounds.value.Area()
         && (j < k ==> windows[j].bounds.value.Area() < windows[k].bounds.value.Area())
  }

  function Discover(windows: Option<seq<Window>>, level: int): Option<Window> {
    if windows.None? then None else Largest(windows.value, level)
  }

  /** The window the cached ID still names, when it is still a Dock bar. */
  function Cached(id: nat, including: Option<seq<Window>>, level: int): Option<Window> {
    if id != 0 && including.Some? && |including.value| > 0
       && IsBar(including.value[0], level) && including.value[0].id == id
    then Some(including.value[0]) else None
  }

  /** The window chosen by one lookup: cache, then on-screen windows, then all windows. */
  function Lookup(id: nat, answers: Answers, level: int): Option<Window> {
    var cached := Cached(id, answers.including, level);
    if cached.Some? then cached
    else
      var visible := Discover(answers.onScreen, level);
      if visible.Some? then visible else Discover(answers.all, level)
  }

  function IdOf(w: Option<Window>): nat { if w.Some? then w.value.id else 0 }

  function BoundsOf(w: Option<Window>): Option<Rect> { if w.Some? then w.value.bounds else None }

  /** The loop variables of a discovery describe the window `best`. */
  ghost predicate Tracks(best: Option<Window>, id: nat, bounds: Rect, area: real) {
    match best
    case None => id == 0 && bounds == EMPTY_RECT && area == 0.0
    case Some(w) => id == w.id && w.bounds == Some(bounds) && area == bounds.Area()
  }

  lemma BarHasArea(w: Window, level: int)
    requires IsBar(w, level)
    ensures w.bounds.value.Area() > 0.0
  {
    PositiveProduct(w.bounds.value.width, w.bounds.value.height);
  }

  /** The process-wide cache, `g_dock_window_id`. */
  class WindowCache {
    var id: nat

    constructor ()
      ensures id == 0
    {
      id := 0;
    }

    method CopyCached(including: Option<seq<Window>>, level: int) returns (bounds: Option<Rect>)
      modifies this
      ensures bounds == BoundsOf(Cached(old(id), including, level))
      ensures id == if bounds.Some? then old(id) else 0
    {
      bounds := None;
      if id == 0 {
        return;
      }
      if including.Some? && |including.value| > 0 {
        var window := including.value[0];
        if IsBar(window, level) && window.id == id {
          bounds := window.bounds;
        }
      }
      if bounds.None? {
        id := 0;
      }
    }

    method CopyForOption(windows: Option<seq<Window>>, level: int) returns (bounds: Option<Rect>)
      modifies this
      ensures bounds == BoundsOf(Discover(windows, level))
      ensures id == if bounds.Some? then IdOf(Discover(windows, level)) else old(id)
    {
      bounds := None;
      if windows.None? {
        return;
      }
      var bestBounds := EMPTY_RECT;
      var bestArea := 0.0;
      var bestId := 0;
      for i := 0 to |windows.value|
        invariant id == old(id)
        invariant Tracks(Largest(windows.value[..i], level), bestId, bestBounds, bestArea)
      {
        var window := windows.value[i];
        assert windows.value[..i + 1][..i] == windows.value[..i];
        if IsBar(window, level) {
          var area := window.bounds.value.Area();
          BarHasArea(window, level);
          if area > bestArea {
            bestArea := area;
            bestBounds := window.bounds.value;
            bestId := window.id;
          }
        }
      }
      assert windows.value[..|windows.value|] == windows.value;
      if bestId == 0 || !bestBounds.NonEmpty() {
        return;
      }
      id := bestId;
      bounds := Some(bestBounds);
    }

    method CopyDockWindowBounds(answers: Answers, level: int) returns (bounds: Option<Rect>)
      modifies this
      ensures bounds == BoundsOf(Lookup(old(id), answers, level))
      ensures id == IdOf(Lookup(old(id), answers, level))
    {
      bounds := CopyCached(answers.including, level);
      if bounds.None? {
        bounds := CopyForOption(answers.onScreen, level);
        if bounds.None? {
          bounds := CopyForOption(answers.all, level);
        }
      }
    }
  }

  /** Whatever ID is cached and whatever the server answers: returned bounds belong to a window that
      this very lookup saw as a Dock bar, its ID is the one cached afterwards, and a failed lookup
      leaves nothing cached. */
  lemma LookupIsCurrent(id: nat, answers: Answers, level: int)
    ensures match Lookup(id, answers, level)
            case Some(w) =>
              && IsBar(w, level)
              && ((answers.including.Some? && w in answers.including.value && w.id == id)
                  || (answers.onScreen.Some? && w in answers.onScreen.value)
                  || (answers.all.Some? && w in answers.all.value))
            case None =>
              && (answers.onScreen.Some? ==> forall w :: w in answers.onScreen.value ==> !IsBar(w, level))
              && (answers.all.Some? ==> forall w :: w in answers.all.value ==> !IsBar(w, level))
  {
    if answers.onScreen.Some? {
      LargestIsFirstMaximum(answers.onScreen.value, level);
    }
    if answers.all.Some? {
      LargestIsFirstMaximum(answers.all.value, level);
    }
  }

  /** The order of preference: the cached window while it is a bar, then a bar on screen, however large the
      others are, and only then any other bar; among those of a list, the first of largest area. */
  lemma LookupPrefersVisible(id: nat, answers: Answers, level: int)
    ensures var r := Lookup(id, answers, level);
            if Cached(id, answers.including, level).Some? then r == Cached(id, answers.including, level)
            else if answers.onScreen.Some? && HasBarIn(answers.onScreen.value, level) then
              exists k :: 0 <= k < |answers.onScreen.value| && FirstMaximum(answers.onScreen.value, level, k)
                          && r == Some(answers.onScreen.value[k])
            else if answers.all.Some? && HasBarIn(answers.all.value, level) then
              exists k :: 0 <= k < |answers.all.value| && FirstMaximum(answers.all.value, level, k)
                          && r == Some(answers.all.value[k])
            else r == None
  {
    if answers.onScreen.Some? {
      LargestIsFirstMaximum(answers.onScreen.value, level);
    }
    if answers.all.Some? {
      LargestIsFirstMaximum(answers.all.value, level);
    }
  }

  ghost predicate HasBarIn(windows: seq<Window>, level: int) {
    exists i :: 0 <= i < |windows| && IsBar(windows[i], level)
  }

  // ----- coherent servers

  /** The windows of one instant, with their visibility. */
  datatype Server = Server(windows: seq<Window>, visible: set<nat>) {
    ghost predicate Valid() {
      forall i, j :: 0 <= i < |windows| && 0 <= j < |windows| && windows[i].id == windows[j].id ==> i == j
    }
  }

  function Select(windows: seq<Window>, ids: set<nat>): (picked: seq<Window>)
    ensures forall w :: w in picked <==> w in windows && w.id in ids
  {
    if windows == [] then []
    else
      var rest := Select(windows[..|windows| - 1], ids);
      var w := windows[|windows| - 1];
      if w.id in ids then rest + [w] else rest
  }

  function AnswersOf(server: Server, id: nat): Answers {
    Answers(Some(Select(server.windows, {id})), Some(Select(server.windows, server.visible)), Some(server.windows))
  }

  ghost predicate HasBar(server: Server, level: int) {
    exists w :: w in server.windows && IsBar(w, level)
  }

  ghost predicate HasOneBar(server: Server, level: int) {
    && HasBar(server, level)
    && forall v, w :: v in server.windows && w in server.windows && IsBar(v, level) && IsBar(w, level) ==> v == w
  }

  /** With any cached ID, a lookup answers exactly when some window is a Dock bar, it answers with one
      of them, and when there is only one it answers what discovery without a cache answers. */
  lemma CacheRefinesDiscovery(server: Server, id: nat, level: int)
    ensures Lookup(id, AnswersOf(server, id), level).Some? <==> HasBar(server, level)
    ensures Lookup(id, AnswersOf(server, id), level).Some? ==>
              var w := Lookup(id, AnswersOf(server, id), level).value; w in server.windows && IsBar(w, level)
    ensures HasOneBar(server, level) ==>
              Lookup(id, AnswersOf(server, id), level) == Lookup(0, AnswersOf(server, 0), level)
  {
    LookupIsCurrent(id, AnswersOf(server, id), level);
    LookupIsCurrent(0, AnswersOf(server, 0), level);
    LargestIsFirstMaximum(server.windows, level);
  }

  /** A cached ID that still names a bar is kept; one that does not is dropped and rediscovered. */
  lemma CacheIsStickyOrDropped(server: Server, id: nat, level: int)
    requires server.Valid()
    ensures (exists w :: w in server.windows && IsBar(w, level) && w.id == id) <==>
            Cached(id, AnswersOf(server, id).including, level).Some?
    ensures IdOf(Lookup(id, AnswersOf(server, id), level)) == id && id != 0 ==>
              exists w :: w in server.windows && IsBar(w, level) && w.id == id
    ensures Cached(id, AnswersOf(server, id).including, level).None? ==>
              Lookup(id, AnswersOf(server, id), level) == Lookup(0, AnswersOf(server, 0), level)
  {
    CacheRefinesDiscovery(server, id, level);
    if w :| w in server.windows && IsBar(w, level) && w.id == id {
      var picked := AnswersOf(server, id).including.value;
      assert w in picked && |picked| > 0 && picked[0] in picked;
      assert picked[0] == w;
    }
  }

  /** The answers of a run of lookups against a changing server, starting with `id` cached. */
  function LookupRun(servers: seq<Server>, id: nat, level: int): (answers: seq<Option<Window>>)
    ensures |answers| == |servers|
  {
    if servers == [] then []
    else
      var first := Lookup(id, AnswersOf(servers[0], id), level);
      [first] + LookupRun(servers[1..], IdOf(first), level)
  }

  /** Over any run the cached lookup agrees with fresh discovery wherever the bar is unique, and is
      `None` exactly where no bar exists. */
  lemma {:induction false} RunRefinesDiscovery(servers: seq<Server>, id: nat, level: int, k: nat)
    requires k < |servers|
    ensures var answer := LookupRun(servers, id, level)[k];
            && (answer.Some? <==> HasBar(servers[k], level))
            && (answer.Some? ==> answer.value in servers[k].windows && IsBar(answer.value, level))
            && (HasOneBar(servers[k], level) ==> answer == Lookup(0, AnswersOf(servers[k], 0), level))
  {
    CacheRefinesDiscovery(servers[0], id, level);
    if k > 0 {
      RunRefinesDiscovery(servers[1..], IdOf(Lookup(id, AnswersOf(servers[0], id), level)), level, k - 1);
    }
  }
}
