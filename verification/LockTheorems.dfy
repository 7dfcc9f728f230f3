/** What every call of the daemon keeps: locks are earned, relocations run with the lock off or on
    their target, the snapshot stays valid. */
module LockTheorems {
  import opened Options
  import opened Displays
  import opened DisplayLock
  import opened Environment
  import opened Relocation
  import opened Controller

  // ----- one relocation loop

  /** The answer of the last Dock query in `log`. */
  function LastDock(log: seq<Event>): Option<Option<DisplayId>> {
    if log == [] then None
    else if log[|log| - 1].DockQueried? then Some(log[|log| - 1].answer)
    else LastDock(log[..|log| - 1])
  }

  lemma {:induction false} LastDockConcat(a: seq<Event>, b: seq<Event>)
    ensures LastDock(a + b) == if LastDock(b).Some? then LastDock(b) else LastDock(a)
  {
    if b == [] {
      assert a + b == a;
    } else {
      LastDockConcat(a, b[..|b| - 1]);
      assert (a + b)[..|a + b| - 1] == a + b[..|b| - 1];
    }
  }

  lemma {:induction false} NoDockQuery(log: seq<Event>)
    requires forall e :: e in log ==> !e.DockQueried?
    ensures LastDock(log) == None
  {
    if log != [] {
      NoDockQuery(log[..|log| - 1]);
    }
  }

  /** The last attempt in `log`. */
  function LastAttempt(log: seq<Event>): (a: Option<Event>)
    ensures a.Some? ==> a.value.Attempted? && a.value in log
  {
    if log == [] then None
    else if log[|log| - 1].Attempted? then Some(log[|log| - 1])
    else LastAttempt(log[..|log| - 1])
  }

  lemma {:induction false} LastAttemptConcat(a: seq<Event>, b: seq<Event>)
    ensures LastAttempt(a + b) == if LastAttempt(b).Some? then LastAttempt(b) else LastAttempt(a)
  {
    if b == [] {
      assert a + b == a;
    } else {
      LastAttemptConcat(a, b[..|b| - 1]);
      assert (a + b)[..|a + b| - 1] == a + b[..|b| - 1];
    }
  }

  lemma {:induction false} NoLastAttempt(log: seq<Event>)
    requires forall e :: e in log ==> !e.Attempted?
    ensures LastAttempt(log) == None
  {
    if log != [] {
      NoLastAttempt(log[..|log| - 1]);
    }
  }

  /** Event `m` places the cursor, or posts an event there, only on behalf of the last attempt before it. */
  ghost predicate PlacedAt(w: World, log: seq<Event>, m: nat)
    requires m < |log|
  {
    Places(log[m]) ==>
      var a := LastAttempt(log[..m]);
      a.Some? && log[m] in Relocate(w, a.value.tick, a.value.target).log
  }

  /** Every cursor placement in `log` belongs to the relocation of the last attempt before it. */
  ghost predicate Placed(w: World, log: seq<Event>) {
    forall m :: 0 <= m < |log| ==> PlacedAt(w, log, m)
  }

  lemma PlacedConcat(w: World, a: seq<Event>, b: seq<Event>)
    requires Placed(w, a) && Placed(w, b)
    ensures Placed(w, a + b)
  {
    hide Relocate, LastAttempt;
    forall m | 0 <= m < |a + b|
      ensures PlacedAt(w, a + b, m)
    {
      if m < |a| {
        assert PlacedAt(w, a, m) && (a + b)[..m] == a[..m];
      } else {
        assert PlacedAt(w, b, m - |a|) && (a + b)[..m] == a + b[..m - |a|];
        LastAttemptConcat(a, b[..m - |a|]);
      }
    }
  }

  lemma QuietIsPlaced(w: World, log: seq<Event>)
    requires forall e :: e in log ==> !Places(e)
    ensures Placed(w, log)
  {
    hide Relocate, LastAttempt;
    forall m | 0 <= m < |log|
      ensures PlacedAt(w, log, m)
    {
      assert log[m] in log;
    }
  }

  /** Events of a relocation loop. */
  ghost predicate LoopEvents(log: seq<Event>, lock: DisplayId, cache: seq<DisplayBounds>, d: DisplayId, tick: nat) {
    forall e :: e in log ==>
      IsCursorWork(e) || e.DockQueried? || (e.Attempted? && e == Attempted(d, lock, cache, e.tick) && tick <= e.tick)
  }

  lemma AttemptLogEvents(tick: nat, lock: DisplayId, cache: seq<DisplayBounds>, d: DisplayId, attempt: nat, moved: seq<Event>)
    requires OnlyCursorWork(moved)
    ensures var log := AttemptLog(tick, lock, cache, d, attempt, moved);
            && LoopEvents(log, lock, cache, d, tick) && (forall e :: e in log ==> !e.DockQueried?)
            && (forall i :: 0 <= i < |log| && log[i].Attempted? ==> log[i] == Attempted(d, lock, cache, tick) && log[i + 1..] == moved)
  {
    var began := (if attempt > 0 then [Slept(RETRY_DELAY)] else []) + [Attempted(d, lock, cache, tick)];
    var log := AttemptLog(tick, lock, cache, d, attempt, moved);
    forall i | |began| <= i < |log|
      ensures log[i] in moved
    {
      assert log[i] == moved[i - |began|];
    }
    assert log[|began|..] == moved;
  }

  lemma AttemptLogShape(w: World, tick: nat, lock: DisplayId, cache: seq<DisplayBounds>, d: DisplayId, attempt: nat)
    ensures var moved := Relocate(w, tick, d).log;
            var log := AttemptLog(tick, lock, cache, d, attempt, moved);
            && Placed(w, log) && LastDock(log) == None && LoopEvents(log, lock, cache, d, tick)
            && (forall i :: 0 <= i < |log| && log[i].Attempted? ==> log[i] == Attempted(d, lock, cache, tick) && log[i + 1..] == moved)
  {
    hide Relocate, AttemptLog, IsCursorWork;
    var moved := Relocate(w, tick, d).log;
    RelocateCost(w, tick, d);
    AttemptLogEvents(tick, lock, cache, d, attempt, moved);
    NoDockQuery(AttemptLog(tick, lock, cache, d, attempt, moved));
    AttemptLogPlaces(w, tick, lock, cache, d, attempt);
  }

  lemma AttemptLogPlaces(w: World, tick: nat, lock: DisplayId, cache: seq<DisplayBounds>, d: DisplayId, attempt: nat)
    ensures Placed(w, AttemptLog(tick, lock, cache, d, attempt, Relocate(w, tick, d).log))
  {
    hide Relocate, LastAttempt;
    var moved := Relocate(w, tick, d).log;
    var began := (if attempt > 0 then [Slept(RETRY_DELAY)] else []) + [Attempted(d, lock, cache, tick)];
    RelocateCost(w, tick, d);
    forall m | 0 <= m < |began + moved|
      ensures PlacedAt(w, began + moved, m)
    {
      if m >= |began| {
        var before := moved[..m - |began|];
        assert (began + moved)[..m] == began + before;
        assert forall e :: e in before ==> e in moved && IsCursorWork(e);
        NoLastAttempt(before);
        LastAttemptConcat(began, before);
        AttemptIsLast(began);
        assert (began + moved)[m] == moved[m - |began|];
      }
    }
  }

  lemma AttemptIsLast(log: seq<Event>)
    requires log != [] && log[|log| - 1].Attempted?
    ensures LastAttempt(log) == Some(log[|log| - 1])
  {
  }

  lemma AttemptLogCost(w: World, tick: nat, lock: DisplayId, cache: seq<DisplayBounds>, d: DisplayId, attempt: nat)
    ensures var moved := Relocate(w, tick, d).log;
            var log := AttemptLog(tick, lock, cache, d, attempt, moved);
            && Total(SleepMs, log) == Total(SleepMs, moved) + (if attempt > 0 then RETRY_DELAY else 0)
            && Total(Nudges, log) == Total(Nudges, moved)
            && Total(Attempts, log) == 1
  {
    hide Relocate;
    var delay := if attempt > 0 then [Slept(RETRY_DELAY)] else [];
    var began := Attempted(d, lock, cache, tick);
    var moved := Relocate(w, tick, d).log;
    RelocateCost(w, tick, d);
    NoAttempts(moved);
    MeasuresConcat(delay + [began], moved);
    MeasuresConcat(delay, [began]);
    MeasuresOne(began);
    MeasuresOne(Slept(RETRY_DELAY));
  }

  lemma MeasuresOne(e: Event)
    ensures Total(SleepMs, [e]) == Weight(SleepMs, e)
    ensures Total(Nudges, [e]) == Weight(Nudges, e)
    ensures Total(Attempts, [e]) == Weight(Attempts, e)
  {
    TotalOne(SleepMs, e);
    TotalOne(Nudges, e);
    TotalOne(Attempts, e);
  }

  lemma MeasuresConcat(a: seq<Event>, b: seq<Event>)
    ensures Total(SleepMs, a + b) == Total(SleepMs, a) + Total(SleepMs, b)
    ensures Total(Nudges, a + b) == Total(Nudges, a) + Total(Nudges, b)
    ensures Total(Attempts, a + b) == Total(Attempts, a) + Total(Attempts, b)
  {
    TotalConcat(SleepMs, a, b);
    TotalConcat(Nudges, a, b);
    TotalConcat(Attempts, a, b);
  }

  lemma {:induction false} NoAttempts(log: seq<Event>)
    requires OnlyCursorWork(log)
    ensures Total(Attempts, log) == 0
  {
    if log != [] {
      assert log[0] in log && IsCursorWork(log[0]);
      NoAttempts(log[1..]);
    }
  }

  lemma SettleLogFacts(w: World, tick: nat, d: DisplayId)
    ensures var log := SettleLog(w, tick);
            && Placed(w, log) && (Confirmed(w, tick, d) ==> LastDock(log) == Some(Some(d)))
            && (forall e :: e in log ==> e.Slept? || e.DockQueried?)
            && Total(SleepMs, log) == SETTLE_DELAY && Total(Nudges, log) == 0 && Total(Attempts, log) == 0
  {
    var q := DockQueried(w.dock(tick + 1));
    assert SettleLog(w, tick) == [Slept(SETTLE_DELAY)] + [q];
    MeasuresConcat([Slept(SETTLE_DELAY)], [q]);
    MeasuresOne(Slept(SETTLE_DELAY));
    MeasuresOne(q);
  }

  /** The equations of the loop, by the result of its next attempt. */
  lemma LoopEquations(w: World, tick: nat, lock: DisplayId, cache: seq<DisplayBounds>, d: DisplayId, attempt: nat)
    ensures var r := RelocateUntilCurrent(w, tick, lock, cache, d, attempt);
            var moved := Relocate(w, tick, d);
            var first := AttemptLog(tick, lock, cache, d, attempt, moved.log);
            var settled := first + SettleLog(w, moved.tick);
            if attempt >= RETRY_ATTEMPTS then r == Part(false, tick, [])
            else if moved.value == UserInterrupted then r == Part(false, moved.tick, first)
            else if moved.value == Done && Confirmed(w, moved.tick, d) then r == Part(true, moved.tick + 2, settled)
            else
              var rest := RelocateUntilCurrent(w, if moved.value == Done then moved.tick + 2 else moved.tick, lock, cache, d, attempt + 1);
              r == Part(rest.value, rest.tick, (if moved.value == Done then settled else first) + rest.log)
  {
    hide Relocate, AttemptLog, SettleLog, Confirmed;
  }

  /** A relocation loop makes at most 3 attempts and 120 nudges, and sleeps at most 4210 ms. */
  lemma {:induction false} RelocationLoopCost(w: World, tick: nat, lock: DisplayId, cache: seq<DisplayBounds>, d: DisplayId, attempt: nat)
    requires attempt <= RETRY_ATTEMPTS
    ensures var log := RelocateUntilCurrent(w, tick, lock, cache, d, attempt).log;
            var left := RETRY_ATTEMPTS - attempt;
            && (attempt == 0 ==> Total(SleepMs, log) <= 4210)
            && Total(SleepMs, log) <= 1570 * left
            && Total(Nudges, log) <= NUDGE_ATTEMPTS * left
            && Total(Attempts, log) <= left
    decreases RETRY_ATTEMPTS - attempt
  {
    hide RelocateUntilCurrent, Relocate, AttemptLog, SettleLog, Confirmed, OnlyCursorWork;
    LoopEquations(w, tick, lock, cache, d, attempt);
    if attempt < RETRY_ATTEMPTS {
      var moved := Relocate(w, tick, d);
      var first, settled := AttemptLog(tick, lock, cache, d, attempt, moved.log), SettleLog(w, moved.tick);
      AttemptLogCost(w, tick, lock, cache, d, attempt);
      RelocateCost(w, tick, d);
      SettleLogFacts(w, moved.tick, d);
      MeasuresConcat(first, settled);
      var next := if moved.value == Done then moved.tick + 2 else moved.tick;
      RelocationLoopCost(w, next, lock, cache, d, attempt + 1);
      MeasuresConcat(if moved.value == Done then first + settled else first,
                     RelocateUntilCurrent(w, next, lock, cache, d, attempt + 1).log);
    }
  }

  /** A relocation loop succeeds only when its last Dock query answered the target; all its attempts
      are for the target and carry the lock and cache of the caller. */
  lemma {:induction false} RelocationLoopShape(w: World, tick: nat, lock: DisplayId, cache: seq<DisplayBounds>, d: DisplayId, attempt: nat)
    requires attempt <= RETRY_ATTEMPTS
    ensures var r := RelocateUntilCurrent(w, tick, lock, cache, d, attempt);
            && (r.value ==> LastDock(r.log) == Some(Some(d)))
            && LoopEvents(r.log, lock, cache, d, tick) && Placed(w, r.log) && tick <= r.tick
    decreases RETRY_ATTEMPTS - attempt
  {
    hide RelocateUntilCurrent, Relocate, AttemptLog, SettleLog, Confirmed, OnlyCursorWork, LastDock, Placed;
    LoopEquations(w, tick, lock, cache, d, attempt);
    if attempt < RETRY_ATTEMPTS {
      var moved := Relocate(w, tick, d);
      var first, settled := AttemptLog(tick, lock, cache, d, attempt, moved.log), SettleLog(w, moved.tick);
      AttemptLogShape(w, tick, lock, cache, d, attempt);
      RelocateCost(w, tick, d);
      SettleLogFacts(w, moved.tick, d);
      LogsConcat(w, first, settled);
      var next := if moved.value == Done then moved.tick + 2 else moved.tick;
      RelocationLoopShape(w, next, lock, cache, d, attempt + 1);
      LogsConcat(w, if moved.value == Done then first + settled else first,
                 RelocateUntilCurrent(w, next, lock, cache, d, attempt + 1).log);
    } else {
      NothingLogged(w);
    }
  }

  lemma NothingLogged(w: World)
    ensures LastDock([]) == None && Placed(w, [])
  {
  }

  lemma LogsConcat(w: World, a: seq<Event>, b: seq<Event>)
    requires Placed(w, a) && Placed(w, b)
    ensures Placed(w, a + b)
    ensures LastDock(a + b) == if LastDock(b).Some? then LastDock(b) else LastDock(a)
  {
    PlacedConcat(w, a, b);
    LastDockConcat(a, b);
  }

  /** The loop stops at the first interruption: nothing follows the interrupted relocation, and the
      loop fails. */
  lemma {:induction false} InterruptionStopsLoop(w: World, tick: nat, lock: DisplayId, cache: seq<DisplayBounds>, d: DisplayId, attempt: nat, i: nat)
    requires attempt <= RETRY_ATTEMPTS
    requires var r := RelocateUntilCurrent(w, tick, lock, cache, d, attempt);
             i < |r.log| && r.log[i].Attempted? && Relocate(w, r.log[i].tick, d).value == UserInterrupted
    ensures var r := RelocateUntilCurrent(w, tick, lock, cache, d, attempt);
            !r.value && r.log[i + 1..] == Relocate(w, r.log[i].tick, d).log
    decreases RETRY_ATTEMPTS - attempt
  {
    hide RelocateUntilCurrent, Relocate, AttemptLog, SettleLog, Confirmed, Placed, LastDock, LoopEvents;
    LoopEquations(w, tick, lock, cache, d, attempt);
    var r := RelocateUntilCurrent(w, tick, lock, cache, d, attempt);
    var moved := Relocate(w, tick, d);
    var first := AttemptLog(tick, lock, cache, d, attempt, moved.log);
    AttemptLogShape(w, tick, lock, cache, d, attempt);
    SettleLogFacts(w, moved.tick, d);
    var done := if moved.value == Done then first + SettleLog(w, moved.tick) else first;
    forall j | |first| <= j < |done|
      ensures !done[j].Attempted?
    {
      assert done[j] in SettleLog(w, moved.tick);
    }
    assert forall j :: 0 <= j < |done| ==> r.log[j] == done[j];
    if i >= |done| {
      var next := if moved.value == Done then moved.tick + 2 else moved.tick;
      var rest := RelocateUntilCurrent(w, next, lock, cache, d, attempt + 1);
      InterruptionStopsLoop(w, next, lock, cache, d, attempt + 1, i - |done|);
      assert r.log[i + 1..] == rest.log[i - |done| + 1..];
    }
  }
}
