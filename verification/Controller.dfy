/** The lock controller and the poll step as a state machine over the daemon's state
    (crates/lockdock-daemon/src/controller.rs, daemon.rs, display_state.rs, display_lock.rs). The class
    `LockDaemon` performs these steps; the theorems about runs are proved here about the functions. */
module Controller {
  import opened Options
  import opened Displays
  import opened DisplayLock
  import opened Environment
  import opened Preferences
  import opened Relocation

  const RETRY_ATTEMPTS := 3
  const RETRY_DELAY := 500
  const SETTLE_DELAY := 250
  const RECONCILE_COOLDOWN := 5000
  const INFO_RETRY_INTERVAL := 15000

  datatype Status = Status(displays: seq<DisplayId>, location: nat)

  /** The daemon's mutable state. `log` holds the events of the call in progress. */
  datatype Daemon = Daemon(
    tick: nat,
    log: seq<Event>,
    lock: DisplayId,                                  // LOCK_TARGET; 0 is no lock
    supported: bool,                                  // DOCK_SUPPORTED
    tapHeld: bool,                                    // EVENT_TAP holds an EventTap
    cache: seq<DisplayBounds>,                        // DISPLAY_CACHE
    store: Store,                                     // DisplayPreferences
    status: Status, info: map<DisplayId, DisplayInfo>,  // DisplaySnapshot
    pending: Option<seq<DisplayId>>,                  // PollState
    infoRetryAfter: Option<nat>,
    cooldownUntil: Option<nat>)

  // ----- display status

  function IndexOf(displays: seq<DisplayId>, d: DisplayId): (k: Option<nat>)
    ensures k.Some? ==> k.value < |displays| && displays[k.value] == d && d !in displays[..k.value]
    ensures k.None? ==> d !in displays
  {
    if displays == [] then None
    else if displays[0] == d then Some(0)
    else
      var rest := IndexOf(displays[1..], d);
      if rest.None? then None
      else
        assert displays[..rest.value + 1] == [displays[0]] + displays[1..][..rest.value];
        Some(rest.value + 1)
  }

  ghost predicate ValidStatus(s: Status) {
    s.location < |s.displays| <= MAX_DISPLAYS
  }

  /** `query_display_status`: reads the display list, then asks where the Dock is. */
  function QueryStatus(w: World, tick: nat): (r: Part<Option<Status>>)
    ensures r.tick == tick + 2 && r.log == [DockQueried(w.dock(tick + 1))]
    ensures r.value.Some? ==> ValidStatus(r.value.value) && w.dock(tick + 1) == Some(Current(r.value.value))
  {
    var displays := w.layout(tick).Active();
    var dock := w.dock(tick + 1);
    var index := if dock.Some? then IndexOf(displays, dock.value) else None;
    Part(if index.Some? then Some(Status(displays, index.value)) else None, tick + 2, [DockQueried(dock)])
  }

  /** It succeeds if and only if the Dock answer is on the list, whose first entry for it is the location. */
  lemma QuerySucceedsIff(w: World, tick: nat)
    ensures var q := QueryStatus(w, tick).value;
            && (q.Some? <==> w.dock(tick + 1).Some? && w.dock(tick + 1).value in w.layout(tick).Active())
            && (q.Some? ==> q.value.displays == w.layout(tick).Active()
                            && w.dock(tick + 1).value !in q.value.displays[..q.value.location])
  {
    if w.dock(tick + 1).Some? {
      var index := IndexOf(w.layout(tick).Active(), w.dock(tick + 1).value);
    }
  }

  /** The display the Dock is on. */
  function Current(s: Status): DisplayId
    requires s.location < |s.displays|
  {
    s.displays[s.location]
  }

  // ----- display_lock.rs

  function ClearLock(s: Daemon): Daemon {
    s.(lock := 0, tapHeld := false, log := s.log + [LockCleared])
  }

  function RefreshCache(w: World, s: Daemon): Daemon {
    s.(tick := s.tick + 1, cache := FreshCache(w.layout(s.tick)), log := s.log + [CacheRefreshed])
  }

  /** Locks to `d`; fails when the event tap cannot be started. */
  function SetLock(w: World, s: Daemon, d: DisplayId): (Daemon, bool) {
    if !s.tapHeld && !w.tap(s.tick) then (s.(tick := s.tick + 1), false)
    else
      var s1 := RefreshCache(w, s.(tick := s.tick + 1, tapHeld := true));
      (s1.(lock := d, log := s1.log + [LockSet(d)]), true)
  }

  /** While the Dock is unsupported any mouse event zeroes the lock target. */
  function MouseEvents(w: World, s: Daemon): Daemon {
    s.(tick := s.tick + 1, lock := if !s.supported && w.mouse(s.tick) then 0 else s.lock)
  }

  /** `refresh_dock_support`; the answer is the new `supported`. */
  function RefreshSupport(w: World, s: Daemon): Daemon {
    var s1 := MouseEvents(w, s);
    s1.(tick := s1.tick + 1, supported := w.bottom(s1.tick), log := s1.log + [SupportChecked(w.bottom(s1.tick))])
  }

  // ----- relocation with retries

  /** The events of one attempt: the delay before a retry, the attempt itself and its relocation. */
  function AttemptLog(tick: nat, lock: DisplayId, cache: seq<DisplayBounds>, d: DisplayId, attempt: nat, moved: seq<Event>): seq<Event> {
    (if attempt > 0 then [Slept(RETRY_DELAY)] else []) + [Attempted(d, lock, cache, tick)] + moved
  }

  /** What follows a relocation that reported success: settling and a status query. */
  function SettleLog(w: World, tick: nat): seq<Event> {
    [Slept(SETTLE_DELAY)] + QueryStatus(w, tick).log
  }

  /** A status query after a relocation shows the Dock on `d`. */
  predicate Confirmed(w: World, tick: nat, d: DisplayId) {
    var status := QueryStatus(w, tick).value;
    status.Some? && Current(status.value) == d
  }

  /** `relocate_display_until_current` from the given attempt on, called with lock `lock` and cache
      `cache`; true when a status query after a relocation shows the Dock on `d`. */
  function RelocateUntilCurrent(w: World, tick: nat, lock: DisplayId, cache: seq<DisplayBounds>, d: DisplayId, attempt: nat): Part<bool>
    decreases RETRY_ATTEMPTS - attempt
  {
    if attempt >= RETRY_ATTEMPTS then Part(false, tick, [])
    else
      var moved := Relocate(w, tick, d);
      var log := AttemptLog(tick, lock, cache, d, attempt, moved.log);
      match moved.value
      case UserInterrupted => Part(false, moved.tick, log)
      case Failed =>
        var rest := RelocateUntilCurrent(w, moved.tick, lock, cache, d, attempt + 1);
        Part(rest.value, rest.tick, log + rest.log)
      case Done =>
        var settled := log + SettleLog(w, moved.tick);
        if Confirmed(w, moved.tick, d) then Part(true, moved.tick + 2, settled)
        else
          var rest := RelocateUntilCurrent(w, moved.tick + 2, lock, cache, d, attempt + 1);
          Part(rest.value, rest.tick, settled + rest.log)
  }

  /** Relocating within a call. */
  function MoveDock(w: World, s: Daemon, d: DisplayId): (Daemon, bool) {
    var r := RelocateUntilCurrent(w, s.tick, s.lock, s.cache, d, 0);
    (s.(tick := r.tick, log := s.log + r.log), r.value)
  }

  // ----- snapshot refreshes

  function RefreshStatus(w: World, s: Daemon): (Daemon, bool) {
    var q := QueryStatus(w, s.tick);
    (s.(tick := q.tick, log := s.log + q.log, status := if q.value.Some? then q.value.value else s.status), q.value.Some?)
  }

  function RefreshLocation(w: World, s: Daemon): (Daemon, bool) {
    var dock := w.dock(s.tick);
    var index := if dock.Some? then IndexOf(s.status.displays, dock.value) else None;
    var status := if index.Some? then s.status.(location := index.value) else s.status;
    (s.(tick := s.tick + 1, log := s.log + [DockQueried(dock)], status := status), index.Some?)
  }

  function RefreshInfo(w: World, s: Daemon): Daemon {
    var info := w.info(s.tick);
    if info.Some? then s.(tick := s.tick + 2, info := info.value, infoRetryAfter := None)
    else s.(tick := s.tick + 2, infoRetryAfter := Some(w.clock(s.tick + 1) + INFO_RETRY_INTERVAL))
  }

  // ----- controller.rs

  datatype SetOutcome =
    | Locked | OutOfRange | Unsupported | NoIdentity | DockUnknown | NotMoved | TapFailed | NotSaved | NotRefreshed

  function ApplySetState(w: World, s: Daemon, target: nat): (Daemon, SetOutcome) {
    if target >= |s.status.displays| then (s, OutOfRange)
    else
      var d := s.status.displays[target];
      var s1 := RefreshSupport(w, s);
      if !s1.supported then (s1, Unsupported)
      else
        var id := IdentityOf(d, s1.info);
        if id.None? then (s1, NoIdentity)
        else
          var dock := w.dock(s1.tick);
          var s2 := s1.(tick := s1.tick + 1, log := s1.log + [DockQueried(dock)]);
          if dock.None? then (s2, DockUnknown)
          else
            var (s3, there) := if dock.value == d then (s2, true) else MoveDock(w, ClearLock(s2), d);
            if !there then (s3, NotMoved)
            else LockAndSave(w, s3, d, id.value)
  }

  function LockAndSave(w: World, s: Daemon, d: DisplayId, id: Identity): (Daemon, SetOutcome) {
    var (s1, locked) := SetLock(w, s, d);
    if !locked then (s1, TapFailed)
    else
      var written := Write(w, s1.tick, s1.store, SaveEdits(id));
      var s2 := s1.(tick := written.tick, store := written.store);
      if !written.ok then (s2, NotSaved)
      else
        var (s3, refreshed) := RefreshStatus(w, s2);
        (s3, if refreshed then Locked else NotRefreshed)
  }

  function ApplyUnlock(w: World, s: Daemon): (Daemon, bool) {
    var written := Write(w, s.tick, s.store, CLEAR_EDITS);
    var s1 := s.(tick := written.tick, store := written.store);
    if written.ok then (ClearLock(s1), true) else (s1, false)
  }

  function Reconcile(w: World, s: Daemon): (Daemon, bool) {
    var s1 := RefreshSupport(w, s);
    if !s1.supported then ApplyUnlock(w, s1)
    else if s1.lock != 0 then KeepLock(w, s1)
    else RestoreLock(w, s1)
  }

  /** Reconciling with a lock in force. */
  function KeepLock(w: World, s: Daemon): (Daemon, bool) {
    if s.lock !in s.status.displays then (ClearLock(s), true)
    else
      var q := QueryStatus(w, s.tick);
      var s1 := s.(tick := q.tick, log := s.log + q.log);
      if q.value.None? then (s1, false)
      else if Current(q.value.value) == s.lock then (s1, true)
      else MoveDock(w, s1, s.lock)
  }

  /** Reconciling without a lock: restore the saved preference if its display is active. */
  function RestoreLock(w: World, s: Daemon): (Daemon, bool) {
    var loaded := Load(w, s.tick, s.store);
    var s1 := s.(tick := loaded.tick);
    match loaded.value
    case LoadError => (s1, false)
    case LoadedIdentity(None) => (s1, true)
    case LoadedIdentity(Some(id)) =>
      var found := FindByIdentity(id, s1.status.displays, s1.info);
      if found.None? then (s1, true)
      else
        var q := QueryStatus(w, s1.tick);
        var s2 := s1.(tick := q.tick, log := s1.log + q.log);
        if q.value.None? then (s2, false)
        else
          var (s3, there) := if Current(q.value.value) == found.value then (s2, true) else MoveDock(w, s2, found.value);
          if there then SetLock(w, s3, found.value) else (s3, false)
  }

  /** Whether the Dock is away from where the lock, or the saved preference, wants it. */
  function NeedsHealing(w: World, s: Daemon): (Daemon, bool) {
    if s.lock != 0 then
      var current := w.probe(s.tick);
      (s.(tick := s.tick + 1, log := s.log + [Probed(current)]), current.Some? && current.value != s.lock)
    else
      var loaded := Load(w, s.tick, s.store);
      (s.(tick := loaded.tick),
       loaded.value.LoadedIdentity? && loaded.value.id.Some?
       && FindByIdentity(loaded.value.id.value, s.status.displays, s.info).Some?)
  }

  // ----- daemon.rs

  function StartCooldown(w: World, s: Daemon): Daemon {
    s.(tick := s.tick + 1, cooldownUntil := Some(w.clock(s.tick) + RECONCILE_COOLDOWN))
  }

  function InCooldown(w: World, s: Daemon): bool {
    s.cooldownUntil.Some? && w.clock(s.tick) < s.cooldownUntil.value
  }

  /** Reconciling from start-up or a poll, with a mark of its result in the log. */
  function MarkedReconcile(w: World, s: Daemon): (Daemon, bool) {
    var (s1, ok) := Reconcile(w, s);
    (s1.(log := s1.log + [Reconciled(ok)]), ok)
  }

  /** Reconciling from a poll: a failure starts the cooldown, a success ends it and refreshes the status. */
  function ReconcileAndCool(w: World, s: Daemon): Daemon {
    var (s1, ok) := MarkedReconcile(w, s);
    if ok then RefreshStatus(w, s1.(cooldownUntil := None)).0 else StartCooldown(w, s1)
  }

  function Heal(w: World, s: Daemon): Daemon {
    var s1 := s.(tick := s.tick + 1);
    if InCooldown(w, s) then s1
    else
      var (s2, needed) := NeedsHealing(w, s1);
      if needed then ReconcileAndCool(w, s2) else s2
  }

  function Poll(w: World, s: Daemon): Daemon {
    var ids := w.layout(s.tick).Active();
    var s1 := s.(tick := s.tick + 1, log := s.log + [Polled(ids)]);
    if ids == s.status.displays then PollUnchanged(w, s1)
    else if s.pending != Some(ids) then s1.(pending := Some(ids))
    else PollChanged(w, s1.(pending := None, log := s1.log + [ChangeAccepted(ids)]))
  }

  /** A poll that saw the list of the snapshot. With an unsupported Dock it reconciles without asking
      for the cooldown and without starting it. */
  function PollUnchanged(w: World, s: Daemon): Daemon {
    var s1 := Observe(w, s);
    if !s1.supported then MarkedReconcile(w, s1).0 else Heal(w, s1)
  }

  /** What such a poll refreshes before it decides: due display info, the cache, the Dock location and
      the orientation. */
  function Observe(w: World, s: Daemon): Daemon {
    var s1 := s.(pending := None, tick := s.tick + 1);
    var s2 := if s.infoRetryAfter.Some? && w.clock(s.tick) >= s.infoRetryAfter.value then RefreshInfo(w, s1) else s1;
    RefreshSupport(w, RefreshLocation(w, RefreshCache(w, s2)).0)
  }

  /** A poll that saw a changed list for the second time in a row. */
  function PollChanged(w: World, s: Daemon): Daemon {
    var (s1, ok) := RefreshStatus(w, RefreshInfo(w, RefreshCache(w, s)));
    if ok then ReconcileAndCool(w, s1) else s1
  }

  // ----- requests

  datatype Request = GetState | SetState(target: nat) | Unlock

  datatype Label = BuiltInDisplay | Named(name: string) | Numbered(id: DisplayId)

  datatype Response =
    | State(displays: seq<Label>, location: nat, target: Option<nat>)
    | Succeeded
    | Refused

  function LabelOf(d: DisplayId, info: map<DisplayId, DisplayInfo>): Label {
    if d !in info then Numbered(d)
    else if info[d].isBuiltin then BuiltInDisplay
    else if info[d].name == [] then Numbered(d)
    else Named(info[d].name)
  }

  function LabelsOf(displays: seq<DisplayId>, info: map<DisplayId, DisplayInfo>): seq<Label> {
    seq(|displays|, i requires 0 <= i < |displays| => LabelOf(displays[i], info))
  }

  function BuildState(s: Daemon): Response {
    State(LabelsOf(s.status.displays, s.info),
          s.status.location,
          if s.lock == 0 then None else IndexOf(s.status.displays, s.lock))
  }

  function HandleRequest(w: World, s: Daemon, request: Request): (Daemon, Response) {
    match request
    case GetState =>
      var (s1, ok) := RefreshLocation(w, s);
      var s2 := MouseEvents(w, s1);
      (s2, if ok then BuildState(s2) else Refused)
    case SetState(target) =>
      var (s1, outcome) := ApplySetState(w, s, target);
      (s1, if outcome == Locked then Succeeded else Refused)
    case Unlock =>
      var (s1, ok) := ApplyUnlock(w, s);
      (s1, if ok then Succeeded else Refused)
  }

  // ----- steps and runs

  datatype Input = PollTick | Asked(request: Request)

  /** One turn of the main loop; the log starts empty. */
  function Step(w: World, s: Daemon, input: Input): Daemon {
    var s0 := s.(log := []);
    match input
    case PollTick => Poll(w, s0)
    case Asked(request) => HandleRequest(w, s0, request).0
  }

  /** The state the daemon starts from: a loaded snapshot and otherwise defaults. */
  function Initial(tick: nat, store: Store, status: Status, info: map<DisplayId, DisplayInfo>): Daemon {
    Daemon(tick, [], 0, true, false, [], store, status, info, None, None, None)
  }

  /** Start-up: load the snapshot, then reconcile once. `None` when the snapshot cannot be loaded. */
  function Boot(w: World, store: Store): Option<Daemon> {
    var q := QueryStatus(w, 0);
    var info := w.info(q.tick);
    if q.value.None? || info.None? then None
    else Some(ReconcileAtBoot(w, Initial(q.tick + 1, store, q.value.value, info.value)))
  }

  function ReconcileAtBoot(w: World, s: Daemon): Daemon {
    var (s1, ok) := MarkedReconcile(w, s);
    if ok then RefreshStatus(w, s1).0 else StartCooldown(w, s1)
  }

  /** State `i` is where start-up, or turn `i - 1`, ends. */
  ghost predicate Reached(w: World, store: Store, states: seq<Daemon>, inputs: seq<Input>, i: nat)
    requires i < |states| == |inputs| + 1
  {
    if i == 0 then Boot(w, store) == Some(states[0]) else states[i] == Step(w, states[i - 1], inputs[i - 1])
  }

  /** `states` are the states between the turns `inputs` of one daemon. */
  ghost predicate IsRun(w: World, store: Store, states: seq<Daemon>, inputs: seq<Input>) {
    |states| == |inputs| + 1 && forall i :: 0 <= i < |states| ==> Reached(w, store, states, inputs, i)
  }

  lemma TurnOf(w: World, store: Store, states: seq<Daemon>, inputs: seq<Input>, i: nat)
    requires IsRun(w, store, states, inputs) && i < |inputs|
    ensures states[i + 1] == Step(w, states[i], inputs[i])
  {
    hide Boot, Step;
    assert Reached(w, store, states, inputs, i + 1);
  }

  lemma StartOf(w: World, store: Store, states: seq<Daemon>, inputs: seq<Input>)
    requires IsRun(w, store, states, inputs)
    ensures Boot(w, store) == Some(states[0])
  {
    hide Boot, Step;
    assert Reached(w, store, states, inputs, 0);
  }
}
