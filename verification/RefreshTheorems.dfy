/** What polls refresh: the display info and when it is asked for again, the suppression cache, the
    snapshot, and the adoption of a changed list. */
module RefreshTheorems {
  import opened Options
  import opened Displays
  import opened DisplayLock
  import opened Environment
  import opened Preferences
  import opened Controller
  import opened PollTheorems
  import opened CooldownTheorems
  import opened RecoveryTheorems
  import opened RequestTheorems
  import opened ReconnectTheorems

  // ----- what a reconcile leaves alone

  lemma KeepLockCache(w: World, s: Daemon)
    ensures KeepLock(w, s).0.cache == s.cache
  {
    hide QueryStatus, RelocateUntilCurrent;
  }

  lemma RestoreLockCache(w: World, s: Daemon)
    ensures RestoreLock(w, s).0.cache == s.cache || HasLockSet(RestoreLock(w, s).0.log)
  {
    hide QueryStatus, MoveDock, SetLock, Load, FindByIdentity, HasLockSet;
    var s1 := s.(tick := Load(w, s.tick, s.store).tick);
    var q := QueryStatus(w, s1.tick);
    var s2 := s1.(tick := q.tick, log := s1.log + q.log);
    forall d: DisplayId
      ensures MoveDock(w, s2, d).0.cache == s.cache
      ensures SetLock(w, s2, d).0.cache == s.cache || HasLockSet(SetLock(w, s2, d).0.log)
      ensures SetLock(w, MoveDock(w, s2, d).0, d).0.cache == s.cache || HasLockSet(SetLock(w, MoveDock(w, s2, d).0, d).0.log)
    {
      MoveDockFrame(w, s2, d);
      SetLockExactly(w, s2, d);
      SetLockExactly(w, MoveDock(w, s2, d).0, d);
    }
  }

  lemma ReconcileCache(w: World, s: Daemon)
    ensures Reconcile(w, s).0.cache == s.cache || HasLockSet(Reconcile(w, s).0.log)
  {
    hide KeepLock, RestoreLock, Write, HasLockSet;
    KeepLockCache(w, RefreshSupport(w, s));
    RestoreLockCache(w, RefreshSupport(w, s));
  }

  /** What a reconcile of a poll, with or without the cooldown, leaves of a state. */
  ghost predicate Settled(s: Daemon, s': Daemon) {
    && s'.info == s.info && s'.infoRetryAfter == s.infoRetryAfter && s'.pending == s.pending
    && (s'.cache == s.cache || HasLockSet(s'.log))
  }

  lemma MarkedSettles(w: World, s: Daemon)
    ensures Settled(s, MarkedReconcile(w, s).0) && MarkedReconcile(w, s).0.status == s.status
  {
    hide Reconcile;
    ReconcileFrame(w, s);
    ReconcileCache(w, s);
    assert Reconcile(w, s).0.log <= MarkedReconcile(w, s).0.log;
  }

  lemma CoolSettles(w: World, s: Daemon)
    ensures Settled(s, ReconcileAndCool(w, s))
  {
    hide MarkedReconcile, IndexOf;
    MarkedSettles(w, s);
    assert MarkedReconcile(w, s).0.log <= ReconcileAndCool(w, s).log;
  }

  lemma HealSettles(w: World, s: Daemon)
    ensures Settled(s, Heal(w, s))
    ensures (forall e :: e in Heal(w, s).log ==> !e.Reconciled?) ==> Heal(w, s).status == s.status
  {
    hide ReconcileAndCool, Load, FindByIdentity, HasLockSet;
    var s2 := NeedsHealing(w, s.(tick := s.tick + 1)).0;
    CoolSettles(w, s2);
    CoolMarks(w, s2);
  }

  lemma CoolMarks(w: World, s: Daemon)
    ensures exists e :: e in ReconcileAndCool(w, s).log && e.Reconciled?
  {
    hide Reconcile, IndexOf;
    var log := Reconcile(w, s).0.log;
    assert MarkedReconcile(w, s).0.log[|log|].Reconciled?;
    assert MarkedReconcile(w, s).0.log[|log|] in ReconcileAndCool(w, s).log;
  }

  // ----- an unchanged list

  /** When display info that failed to load is to be asked for again. */
  function RetryThen(w: World, s: Daemon): Option<nat> {
    if !InfoDue(w, s) then s.infoRetryAfter
    else if w.info(s.tick + 2).Some? then None
    else Some(w.clock(s.tick + 3) + 15000)
  }

  lemma DecidingSnapshot(w: World, s: Daemon)
    ensures var c, s' := SupportTick(w, s), Deciding(w, s);
            && s'.cache == FreshCache(w.layout(c - 3)) && s'.pending == None && s'.infoRetryAfter == RetryThen(w, s)
            && s'.status == s.status.(location := LocationThen(w.dock(c - 2), s.status))
  {
    hide FreshCache, Deciding, RefreshLocation, LocationThen;
    DecidingUnfolds(w, s);
    LocationOnly(w, Refreshing(w, s));
    LocationFound(w, Refreshing(w, s));
  }

  lemma LocationFound(w: World, s: Daemon)
    ensures RefreshLocation(w, s).0.status == s.status.(location := LocationThen(w.dock(s.tick), s.status))
  {
    hide IndexOf;
  }

  /** The location after a Dock query: where the answer is first listed, or as before. */
  function LocationThen(answer: Option<DisplayId>, status: Status): nat {
    if answer.Some? && IndexOf(status.displays, answer.value).Some? then IndexOf(status.displays, answer.value).value
    else status.location
  }

  /** In every run, a poll of an unchanged list asks for the display info again if and only if that is due,
      15 seconds after the last failure; it forgets a pending list; its cache is read from the arrangement
      of that poll, or of the lock it sets; and unless it reconciles, its location is where the Dock query
      of that poll found the Dock, if that is listed. */
  lemma UnchangedPollRefreshes(w: World, store: Store, states: seq<Daemon>, inputs: seq<Input>, i: nat)
    requires IsRun(w, store, states, inputs) && i < |inputs| && inputs[i] == PollTick && Unchanged(w, states[i])
    ensures var s, s', c := states[i], states[i + 1], SupportTick(w, states[i]);
            && s'.info == InfoThen(w, s) && s'.infoRetryAfter == RetryThen(w, s) && s'.pending == None
            && (s'.cache == FreshCache(w.layout(c - 3)) || HasLockSet(s'.log))
            && ((forall e :: e in s'.log ==> !e.Reconciled?) ==>
                  s'.status == s.status.(location := LocationThen(w.dock(c - 2), s.status)))
  {
    hide Step, Boot, Deciding, Heal, MarkedReconcile, FreshCache, IndexOf, HasLockSet, InfoThen, RetryThen, LocationThen;
    var s := states[i];
    TurnOf(w, store, states, inputs, i);
    UnchangedStep(w, s);
    DecidingFacts(w, s);
    DecidingSnapshot(w, s);
    HealSettles(w, Deciding(w, s));
    MarkedSettles(w, Deciding(w, s));
    MarkedHasMark(w, Deciding(w, s));
  }

  lemma MarkedHasMark(w: World, s: Daemon)
    ensures exists e :: e in MarkedReconcile(w, s).0.log && e.Reconciled?
  {
    hide Reconcile;
    assert MarkedReconcile(w, s).0.log[|Reconcile(w, s).0.log|].Reconciled?;
  }

  // ----- a changed list

  /** In every run, a poll that sees the pending list for the second time accepts it: it reads the cache and
      the display info anew, asks for failed info again after 15 seconds, and if and only if its status
      query succeeds it reconciles on the new status; otherwise the snapshot stays. */
  lemma AcceptedListIsAdopted(w: World, store: Store, states: seq<Daemon>, inputs: seq<Input>, i: nat)
    requires IsRun(w, store, states, inputs) && i < |inputs| && inputs[i] == PollTick
    requires !Unchanged(w, states[i]) && states[i].pending == Some(w.layout(states[i].tick).Active())
    ensures var s, s' := states[i], states[i + 1];
            && s'.pending == None && s'.info == OrElse(w.info(s.tick + 2), s.info)
            && s'.infoRetryAfter == (if w.info(s.tick + 2).Some? then None else Some(w.clock(s.tick + 3) + 15000))
            && (s'.cache == FreshCache(w.layout(s.tick + 1)) || HasLockSet(s'.log))
            && ((exists e :: e in s'.log && e.Reconciled?) <==> QueryStatus(w, s.tick + 4).value.Some?)
            && (QueryStatus(w, s.tick + 4).value.None? ==> s'.status == s.status)
  {
    hide Step, Boot, Accepted, ReconcileAndCool, FreshCache, IndexOf, HasLockSet, QueryStatus;
    var s := states[i];
    TurnOf(w, store, states, inputs, i);
    SecondSight(w, s);
    AcceptedFacts(w, s);
    AcceptedSnapshot(w, s);
    CoolSettles(w, Accepted(w, s).0);
    CoolMarks(w, Accepted(w, s).0);
  }

  lemma AcceptedSnapshot(w: World, s: Daemon)
    ensures var s' := Accepted(w, s).0;
            && s'.cache == FreshCache(w.layout(s.tick + 1)) && (forall e :: e in s'.log ==> !e.Reconciled?)
            && s'.infoRetryAfter == (if w.info(s.tick + 2).Some? then None else Some(w.clock(s.tick + 3) + 15000))
  {
    hide FreshCache, IndexOf;
  }
}
