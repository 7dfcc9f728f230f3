/** The environment of the daemon. Every answer the daemon gets from macOS is an arbitrary function of
    a query counter, the tick, so a theorem about all worlds covers every environment. */
module Environment {
  import opened Options
  import opened Geometry
  import opened Displays
  import opened DisplayLock

  type u32 = n: int | 0 <= n < 0x1_0000_0000

  datatype DisplayInfo = DisplayInfo(name: string, isBuiltin: bool, vendor: u32, model: u32, serial: u32)

  datatype World = World(
    layout: nat -> Layout,                              // display list and bounds
    dock: nat -> Option<DisplayId>,                     // dock_display(); None is an error
    probe: nat -> Option<DisplayId>,                    // dock_window_display()
    bottom: nat -> bool,                                // the Dock orientation is Bottom
    overlay: nat -> bool,                               // dock_overlay_active
    cursor: nat -> Point,                               // the mouse location
    source: nat -> bool,                                // an event source could be created
    info: nat -> Option<map<DisplayId, DisplayInfo>>,   // load_display_info(); None is an error
    store: nat -> bool,                                 // one preferences access succeeds
    tap: nat -> bool,                                   // EventTap::start succeeds
    clock: nat -> nat,                                  // Instant::now(), in milliseconds
    mouse: nat -> bool)                                 // a mouse event reaches the tap
  {
    /** The clock never goes back. */
    ghost predicate Monotone() {
      forall i, j :: 0 <= i <= j ==> clock(i) <= clock(j)
    }
  }

  /** What the daemon does to the outside world, and the answers its decisions rest on. */
  datatype Event =
    | Warped(point: Point)
    | Moved(point: Point)
    | Nudged(point: Point)
    | Restored(point: Point)
    | Slept(ms: nat)
    | Probed(answer: Option<DisplayId>)
    | Attempted(target: DisplayId, lock: DisplayId, cache: seq<DisplayBounds>, tick: nat)
    | DockQueried(answer: Option<DisplayId>)
    | SupportChecked(bottom: bool)
    | Polled(ids: seq<DisplayId>)
    | ChangeAccepted(ids: seq<DisplayId>)
    | CacheRefreshed
    | Reconciled(ok: bool)
    | LockSet(id: DisplayId)
    | LockCleared

  /** The result of a step of the daemon that starts at some tick: its value, the tick after it and
      the events it caused. */
  datatype Part<A> = Part(value: A, tick: nat, log: seq<Event>)

  // ----- measuring logs

  datatype Measure = SleepMs | Nudges | Attempts | Misses(target: DisplayId)

  function Weight(m: Measure, e: Event): nat {
    match (m, e)
    case (SleepMs, Slept(ms)) => ms
    case (Nudges, Nudged(_)) => 1
    case (Attempts, Attempted(_, _, _, _)) => 1
    case (Misses(d), Probed(a)) => if a == Some(d) then 0 else 1
    case _ => 0
  }

  function Total(m: Measure, log: seq<Event>): nat {
    if log == [] then 0 else Weight(m, log[0]) + Total(m, log[1..])
  }

  lemma {:induction false} TotalConcat(m: Measure, a: seq<Event>, b: seq<Event>)
    ensures Total(m, a + b) == Total(m, a) + Total(m, b)
  {
    if a == [] {
      assert a + b == b;
    } else {
      TotalConcat(m, a[1..], b);
      assert (a + b)[1..] == a[1..] + b;
    }
  }

  lemma TotalOne(m: Measure, e: Event)
    ensures Total(m, [e]) == Weight(m, e)
  {
    assert [e][1..] == [];
  }

  lemma TotalTwo(m: Measure, a: Event, b: Event)
    ensures Total(m, [a, b]) == Weight(m, a) + Weight(m, b)
  {
    TotalOne(m, b);
    assert [a, b][1..] == [b];
  }
}
