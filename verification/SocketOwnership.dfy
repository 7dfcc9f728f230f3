/** Ownership of one socket path by any number of processes (crates/lockdock-ipc/src/server.rs): each
    binds at most once, step by step, and may fail, crash or drop its server at any point. */
module SocketOwnership {
  import opened Options

  type Pid = nat

  /** What is at the socket path. A socket remembers which process bound it. */
  datatype Path = Absent | File | Socket(owner: Pid)

  datatype Outcome = SocketInUse | SocketPathOccupied | IoError | Crashed | Ended

  /** Where a process is in Server::bind, or in the drop of its Server. */
  datatype Pc =
    | Fresh
    | Locked     // holds the file lock, about to look at the path
    | Probing    // saw a socket, about to connect to it
    | Removing   // the connection was refused
    | Clear      // about to bind
    | Bound      // bound, not yet listening
    | Serving
    | Unlinked   // dropping: the path was removed
    | Closed     // dropping: the listener is closed
    | Dying      // crashed: the file lock is gone, the listener not yet
    | Done(outcome: Outcome)

  datatype State = State(path: Path, holder: Option<Pid>, procs: map<Pid, Pc>)

  function PcOf(s: State, p: Pid): Pc { if p in s.procs then s.procs[p] else Fresh }

  predicate HoldsLock(pc: Pc) { !pc.Fresh? && !pc.Dying? && !pc.Done? }

  /** Connections to the process's socket can be accepted by the kernel. */
  predicate Listening(pc: Pc) { pc.Serving? || pc.Unlinked? || pc.Dying? }

  /** Some processes may have come and gone before, and left a socket behind. */
  predicate Initial(s: State) {
    s.holder == None && (forall p <- s.procs :: s.procs[p].Done?) && (s.path.Socket? ==> s.path.owner in s.procs)
  }

  datatype Action =
    | TryLock(p: Pid)
    | Stat(p: Pid)
    | Connect(p: Pid, backlogFull: bool)   // a full backlog refuses even on a live listener
    | Remove(p: Pid)
    | BindPath(p: Pid)
    | Listen(p: Pid)
    | Fail(p: Pid)                         // any other error of a step of Server::bind
    | Unlink(p: Pid, ok: bool)             // Drop for Server; its error is ignored
    | CloseListener(p: Pid)
    | Unlock(p: Pid)
    | Crash(p: Pid, lockFirst: bool)       // descriptors close in either order
    | Die(p: Pid)
    | PutFile                              // somebody else creates a file where nothing was

  function Actor(a: Action): Option<Pid> {
    if a.PutFile? then None else Some(a.p)
  }

  function Goto(s: State, p: Pid, pc: Pc): State { s.(procs := s.procs[p := pc]) }

  /** Leaving with the lock released. */
  function Leave(s: State, p: Pid, pc: Pc): State { Goto(s, p, pc).(holder := None) }

  function Next(s: State, a: Action): Option<State> {
    match a
    case TryLock(p) =>
      if PcOf(s, p) != Fresh then None
      else if s.holder.Some? then Some(Goto(s, p, Done(SocketInUse)))
      else Some(Goto(s, p, Locked).(holder := Some(p)))
    case Stat(p) =>
      if PcOf(s, p) != Locked then None
      else Some(match s.path
                case Absent => Goto(s, p, Clear)
                case File => Leave(s, p, Done(SocketPathOccupied))
                case Socket(_) => Goto(s, p, Probing))
    case Connect(p, backlogFull) =>
      if PcOf(s, p) != Probing then None
      else Some(match s.path
                case Absent => Goto(s, p, Clear)
                case File => Leave(s, p, Done(IoError))
                case Socket(q) =>
                  if Listening(PcOf(s, q)) && !backlogFull then Leave(s, p, Done(SocketInUse)) else Goto(s, p, Removing))
    case Remove(p) =>
      if PcOf(s, p) != Removing then None
      else if s.path == Absent then Some(Leave(s, p, Done(IoError)))
      else Some(Goto(s, p, Clear).(path := Absent))
    case BindPath(p) =>
      if PcOf(s, p) != Clear then None
      else if s.path != Absent then Some(Leave(s, p, Done(IoError)))
      else Some(Goto(s, p, Bound).(path := Socket(p)))
    case Listen(p) => if PcOf(s, p) != Bound then None else Some(Goto(s, p, Serving))
    case Fail(p) =>
      var pc := PcOf(s, p);
      if pc == Fresh then Some(Goto(s, p, Done(IoError)))
      else if pc.Locked? || pc.Probing? || pc.Removing? || pc.Clear? || pc.Bound? then Some(Leave(s, p, Done(IoError)))
      else None
    case Unlink(p, ok) =>
      if PcOf(s, p) != Serving then None else Some(Goto(s, p, Unlinked).(path := if ok then Absent else s.path))
    case CloseListener(p) => if PcOf(s, p) != Unlinked then None else Some(Goto(s, p, Closed))
    case Unlock(p) => if PcOf(s, p) != Closed then None else Some(Leave(s, p, Done(Ended)))
    case Crash(p, lockFirst) =>
      var pc := PcOf(s, p);
      if !HoldsLock(pc) then None
      else if pc.Serving? || pc.Unlinked? then Some(if lockFirst then Leave(s, p, Dying) else Goto(s, p, Closed))
      else Some(Leave(s, p, Done(Crashed)))
    case Die(p) => if PcOf(s, p) != Dying then None else Some(Goto(s, p, Done(Crashed)))
    case PutFile => if s.path == Absent then Some(s.(path := File)) else None
  }

  // ----- the invariant

  ghost predicate LockOk(s: State) {
    forall p: Pid :: HoldsLock(PcOf(s, p)) <==> s.holder == Some(p)
  }

  ghost predicate PathOk(s: State) {
    && (s.path.Socket? ==> var pc := PcOf(s, s.path.owner);
                           pc.Bound? || pc.Serving? || pc.Unlinked? || pc.Closed? || pc.Dying? || pc.Done?)
    && (s.holder.Some? ==>
          var p := s.holder.value;
          var pc := PcOf(s, p);
          && (pc.Bound? || pc.Serving? ==> s.path == Socket(p))
          && (pc.Probing? || pc.Removing? ==> s.path.Socket?))
  }

  ghost predicate Inv(s: State) { LockOk(s) && PathOk(s) }

  lemma BindStepKeeps(s: State, a: Action)
    requires Inv(s) && Next(s, a).Some?
    requires a.TryLock? || a.Stat? || a.Connect? || a.Remove? || a.BindPath? || a.Listen?
    ensures Inv(Next(s, a).value)
  {
    var s' := Next(s, a).value;
    assert forall p :: p != a.p ==> PcOf(s', p) == PcOf(s, p);
  }

  lemma EndStepKeeps(s: State, a: Action)
    requires Inv(s) && Next(s, a).Some?
    requires a.Fail? || a.Unlink? || a.CloseListener? || a.Unlock? || a.Crash? || a.Die? || a.PutFile?
    ensures Inv(Next(s, a).value)
  {
    var s' := Next(s, a).value;
    if a != PutFile {
      assert forall p :: p != a.p ==> PcOf(s', p) == PcOf(s, p);
    }
  }

  lemma StepKeeps(s: State, a: Action)
    requires Inv(s) && Next(s, a).Some?
    ensures Inv(Next(s, a).value)
  {
    hide Inv, Next;
    if a.TryLock? || a.Stat? || a.Connect? || a.Remove? || a.BindPath? || a.Listen? {
      BindStepKeeps(s, a);
    } else {
      EndStepKeeps(s, a);
    }
  }

  // ----- theorems over executions

  ghost predicate IsPath(states: seq<State>, actions: seq<Action>) {
    && |states| == |actions| + 1
    && forall k :: 0 <= k < |actions| ==> Next(states[k], actions[k]) == Some(states[k + 1])
  }

  ghost predicate IsExecution(states: seq<State>, actions: seq<Action>) {
    IsPath(states, actions) && Initial(states[0])
  }

  lemma {:induction false} PathKeeps(states: seq<State>, actions: seq<Action>, k: nat)
    requires IsPath(states, actions) && Inv(states[0]) && k < |states|
    ensures Inv(states[k])
  {
    hide Inv, Next;
    if k > 0 {
      PathKeeps(states, actions, k - 1);
      assert Next(states[k - 1], actions[k - 1]) == Some(states[k]);
      StepKeeps(states[k - 1], actions[k - 1]);
    }
  }

  /** At any moment of any execution at most one process is between taking the lock, to bind or serve,
      and releasing it; while it serves, the path is its own socket. */
  lemma OneServer(states: seq<State>, actions: seq<Action>, k: nat, p: Pid, q: Pid)
    requires IsExecution(states, actions) && k < |states|
    requires HoldsLock(PcOf(states[k], p)) && HoldsLock(PcOf(states[k], q))
    ensures p == q
    ensures PcOf(states[k], p).Serving? ==> states[k].path == Socket(p)
  {
    PathKeeps(states, actions, k);
  }

  /** Every removal in every execution is of a socket, and either of the remover's own or of one whose
      binder neither serves nor is about to; a file is never removed; and nothing replaces what is
      there without a removal first. */
  lemma RemovalsAreSafe(states: seq<State>, actions: seq<Action>, k: nat)
    requires IsExecution(states, actions) && k < |actions| && states[k + 1].path != states[k].path
    ensures states[k].path == Absent || (states[k].path.Socket? && states[k + 1].path == Absent)
    ensures states[k].path.Socket? ==>
              var owner := states[k].path.owner;
              && (actions[k].Unlink? || actions[k].Remove?)
              && (actions[k].Unlink? ==> owner == actions[k].p)
              && (actions[k].Remove? ==> !HoldsLock(PcOf(states[k], owner)))
    ensures states[k + 1].path.Socket? ==> actions[k] == BindPath(states[k + 1].path.owner)
  {
    PathKeeps(states, actions, k);
    assert Next(states[k], actions[k]) == Some(states[k + 1]);
  }

  /** While a process serves, nothing the others do - binding, failing, crashing, dropping - takes its
      socket from the path: only its own drop or crash ends that. */
  lemma {:induction false} ServerKeepsItsSocket(states: seq<State>, actions: seq<Action>, j: nat, k: nat, p: Pid)
    requires IsExecution(states, actions) && j <= k < |states|
    requires PcOf(states[j], p).Serving?
    requires forall i :: j <= i < k ==> Actor(actions[i]) != Some(p)
    ensures PcOf(states[k], p).Serving? && states[k].path == Socket(p)
  {
    if j < k {
      ServerKeepsItsSocket(states, actions, j, k - 1, p);
      assert Next(states[k - 1], actions[k - 1]) == Some(states[k]);
      OthersLeave(states[k - 1], actions[k - 1], p);
    }
    PathKeeps(states, actions, k);
  }

  lemma OthersLeave(s: State, a: Action, p: Pid)
    requires Next(s, a).Some? && Actor(a) != Some(p)
    ensures PcOf(Next(s, a).value, p) == PcOf(s, p)
  {
  }

  /** A file at the path stays for ever, and from then on nobody serves. */
  lemma {:induction false} FileStays(states: seq<State>, actions: seq<Action>, j: nat, k: nat, p: Pid)
    requires IsExecution(states, actions) && j <= k < |states| && states[j].path == File
    ensures states[k].path == File && !PcOf(states[k], p).Serving?
  {
    if j < k {
      FileStays(states, actions, j, k - 1, p);
      if states[k].path != states[k - 1].path {
        RemovalsAreSafe(states, actions, k - 1);
      }
    }
    PathKeeps(states, actions, k);
  }

  // ----- a stale socket never blocks

  /** Steps of `Server::bind` left until the process serves. */
  function StepsLeft(pc: Pc): nat {
    match pc
    case Locked => 6 case Probing => 5 case Removing => 4 case Clear => 3 case Bound => 2 case Serving => 1 case _ => 0
  }

  predicate Binding(pc: Pc) { 1 <= StepsLeft(pc) }

  function BindStep(s: State, p: Pid): Action {
    match PcOf(s, p)
    case Locked => Stat(p)
    case Probing => Connect(p, false)
    case Removing => Remove(p)
    case Clear => BindPath(p)
    case _ => Listen(p)
  }

  /** Nothing but dead sockets stands in the way of the process holding the lock. */
  ghost predicate WayIsFree(s: State, p: Pid) {
    && Binding(PcOf(s, p))
    && s.path != File
    && (PcOf(s, p).Clear? ==> s.path == Absent)
    && (s.path.Socket? ==> !PcOf(s, s.path.owner).Dying?)
  }

  /** p goes on with its bind, and nobody creates a file at the path. */
  predicate Undisturbed(a: Action, p: Pid) {
    a != PutFile && (a.p == p ==> !a.Fail? && !a.Crash? && !a.Unlink?)
  }

  lemma WayStaysFree(s: State, a: Action, p: Pid)
    requires Inv(s) && WayIsFree(s, p) && Next(s, a).Some? && Undisturbed(a, p)
    ensures var s' := Next(s, a).value;
            && WayIsFree(s', p)
            && StepsLeft(PcOf(s', p)) + (if a.p == p then 1 else 0) <= StepsLeft(PcOf(s, p))
  {
    var s' := Next(s, a).value;
    assert forall q: Pid :: q != a.p ==> PcOf(s', q) == PcOf(s, q);
    assert s.holder == Some(p);
  }

  /** How many of the actions are p's. */
  function StepsOf(actions: seq<Action>, p: Pid): nat {
    if actions == [] then 0
    else StepsOf(actions[..|actions| - 1], p) + (if Actor(actions[|actions| - 1]) == Some(p) then 1 else 0)
  }

  lemma {:induction false} WayOverPath(states: seq<State>, actions: seq<Action>, p: Pid)
    requires IsPath(states, actions) && Inv(states[0]) && WayIsFree(states[0], p)
    requires forall k :: 0 <= k < |actions| ==> Undisturbed(actions[k], p)
    ensures var last := states[|actions|];
            Inv(last) && WayIsFree(last, p) && StepsLeft(PcOf(last, p)) + StepsOf(actions, p) <= StepsLeft(PcOf(states[0], p))
  {
    hide Inv, WayIsFree, Next, Undisturbed;
    if actions != [] {
      var n := |actions| - 1;
      WayOverPath(states[..n + 1], actions[..n], p);
      assert Next(states[n], actions[n]) == Some(states[n + 1]);
      StepKeeps(states[n], actions[n]);
      WayStaysFree(states[n], actions[n], p);
    }
  }

  /** A process that takes the lock where there is nothing, or a socket left by a process that is gone,
      ends up serving whatever the others do meanwhile: it is never turned away, until it serves its
      next step is enabled, and five steps of its own after the lock it serves. */
  lemma StaleSocketNeverBlocks(states: seq<State>, actions: seq<Action>, p: Pid)
    requires IsPath(states, actions) && Inv(states[0])
    requires PcOf(states[0], p) == Fresh && states[0].holder == None && states[0].path != File
    requires states[0].path.Socket? ==> !PcOf(states[0], states[0].path.owner).Dying?
    requires actions != [] && actions[0] == TryLock(p)
    requires forall k :: 1 <= k < |actions| ==> Undisturbed(actions[k], p)
    ensures var last := states[|actions|];
            && HoldsLock(PcOf(last, p))
            && (PcOf(last, p).Serving? ==> last.path == Socket(p))
            && (PcOf(last, p).Serving? || Next(last, BindStep(last, p)).Some?)
            && (StepsOf(actions[1..], p) == 5 ==> PcOf(last, p).Serving?)
            && StepsOf(actions[1..], p) <= 5
  {
    assert Next(states[0], actions[0]) == Some(states[0 + 1]);
    StepKeeps(states[0], actions[0]);
    WayOverPath(states[1..], actions[1..], p);
  }

  // ----- one uninterrupted bind or drop

  function Run(s: State, actions: seq<Action>): Option<State>
    decreases |actions|
  {
    if actions == [] then Some(s)
    else
      var next := Next(s, actions[0]);
      if next.Some? then Run(next.value, actions[1..]) else None
  }

  /** Where an uninterrupted bind meets an I/O error, if at all. */
  datatype Fault = NoFault | AtLock | AtStat | AtConnect | AtRemove | AtBind | AtListen

  /** The steps of Server::bind when nobody else moves. */
  function BindActions(s: State, p: Pid, fault: Fault): seq<Action> {
    if fault == AtLock then [Fail(p)]
    else [TryLock(p)] + (if s.holder.Some? then [] else if fault == AtStat then [Fail(p)] else [Stat(p)] + AfterStat(s, p, fault))
  }

  function AfterStat(s: State, p: Pid, fault: Fault): seq<Action> {
    match s.path
    case Absent => AtClear(p, fault)
    case File => []
    case Socket(q) =>
      if fault == AtConnect then [Fail(p)]
      else [Connect(p, false)] + (if Listening(PcOf(s, q)) then [] else AfterProbe(p, fault))
  }

  function AfterProbe(p: Pid, fault: Fault): seq<Action> {
    if fault == AtRemove then [Fail(p)] else [Remove(p)] + AtClear(p, fault)
  }

  function AtClear(p: Pid, fault: Fault): seq<Action> {
    if fault == AtBind then [Fail(p)] else [BindPath(p)] + [if fault == AtListen then Fail(p) else Listen(p)]
  }

  lemma RunStep(s: State, a: Action, rest: seq<Action>)
    requires Next(s, a).Some?
    ensures Run(s, [a] + rest) == Run(Next(s, a).value, rest)
  {
    assert ([a] + rest)[1..] == rest;
  }

  lemma {:induction false} RunKeeps(s: State, actions: seq<Action>)
    requires Inv(s) && Run(s, actions).Some?
    decreases |actions|
    ensures Inv(Run(s, actions).value)
  {
    hide Inv, Next;
    if actions != [] {
      StepKeeps(s, actions[0]);
      RunKeeps(Next(s, actions[0]).value, actions[1..]);
    }
  }

  /** The state a bind that nobody disturbs ends in. */
  function AfterBind(s: State, p: Pid, fault: Fault): State {
    if fault == AtLock then Goto(s, p, Done(IoError))
    else if s.holder.Some? then Goto(s, p, Done(SocketInUse))
    else if fault == AtStat then Goto(s, p, Done(IoError))
    else
      match s.path
      case Absent => AfterClear(s, p, fault)
      case File => Goto(s, p, Done(SocketPathOccupied))
      case Socket(q) =>
        if fault == AtConnect then Goto(s, p, Done(IoError))
        else if Listening(PcOf(s, q)) then Goto(s, p, Done(SocketInUse))
        else if fault == AtRemove then Goto(s, p, Done(IoError))
        else AfterClear(s, p, fault)
  }

  /** A listen that fails leaves a dead socket behind. */
  function AfterClear(s: State, p: Pid, fault: Fault): State {
    if fault == AtBind then Goto(s, p, Done(IoError)).(path := Absent)
    else if fault == AtListen then Goto(s, p, Done(IoError)).(path := Socket(p))
    else Goto(s, p, Serving).(path := Socket(p), holder := Some(p))
  }

  lemma ClearRun(s: State, p: Pid, fault: Fault)
    requires PcOf(s, p) == Clear && s.path == Absent && s.holder == Some(p)
    ensures Run(s, AtClear(p, fault)) == Some(if fault == AtBind || fault == AtListen then AfterClear(s, p, fault).(holder := None)
                                              else AfterClear(s, p, fault))
  {
    hide StepsLeft;
    if fault == AtBind {
      RunStep(s, Fail(p), []);
    } else {
      var bound := Next(s, BindPath(p)).value;
      var last := if fault == AtListen then Fail(p) else Listen(p);
      RunStep(s, BindPath(p), [last]);
      RunStep(bound, last, []);
      var pc := if fault == AtListen then Done(IoError) else Serving;
      assert bound.procs[p := pc] == s.procs[p := pc];
    }
  }

  lemma ProbeRun(s: State, p: Pid, q: Pid, fault: Fault)
    requires PcOf(s, p) == Probing && s.path == Socket(q) && s.holder == Some(p) && fault != AtConnect
    ensures Run(s, AfterStat(s, p, fault)) ==
            Some(if Listening(PcOf(s, q)) then Leave(s, p, Done(SocketInUse))
                 else if fault == AtRemove then Leave(s, p, Done(IoError))
                 else if fault == AtBind || fault == AtListen then AfterClear(s, p, fault).(holder := None)
                 else AfterClear(s, p, fault))
  {
    hide StepsLeft, AtClear;
    var probed := Next(s, Connect(p, false)).value;
    if Listening(PcOf(s, q)) {
      RunStep(s, Connect(p, false), []);
    } else {
      RunStep(s, Connect(p, false), AfterProbe(p, fault));
      if fault == AtRemove {
        RunStep(probed, Fail(p), []);
        assert probed.procs[p := Done(IoError)] == s.procs[p := Done(IoError)];
      } else {
        RunStep(probed, Remove(p), AtClear(p, fault));
        var removed := Next(probed, Remove(p)).value;
        ClearRun(removed, p, fault);
        assert forall pc :: Goto(removed, p, pc).procs == Goto(s, p, pc).procs;
      }
    }
  }

  lemma StatRun(s: State, p: Pid, fault: Fault)
    requires PcOf(s, p) == Locked && s.holder == Some(p) && fault != AtLock && fault != AtStat
    requires s.path.Socket? ==> s.path.owner != p
    ensures Run(s, [Stat(p)] + AfterStat(s, p, fault)) ==
            Some(AfterBind(s.(holder := None), p, fault))
  {
    hide StepsLeft, AtClear;
    var seen := Next(s, Stat(p)).value;
    RunStep(s, Stat(p), AfterStat(s, p, fault));
    assert forall pc :: Goto(seen, p, pc).procs == Goto(s, p, pc).procs;
    match s.path {
      case Absent => ClearRun(seen, p, fault);
      case File =>
      case Socket(q) =>
        assert PcOf(seen, q) == PcOf(s, q);
        if fault == AtConnect {
          RunStep(seen, Fail(p), []);
        } else {
          ProbeRun(seen, p, q, fault);
        }
    }
  }

  /** The error that an uninterrupted bind would meet does not lie on its way. */
  predicate Harmless(s: State, fault: Fault) {
    fault == NoFault || ((fault == AtConnect || fault == AtRemove) && s.path == Absent)
  }

  /** An uninterrupted bind is a run of the step system and ends in `AfterBind`: the process serves if
      and only if the lock is free, no file is at the path, no dying server still listens there and no
      I/O error is met. */
  lemma BindRun(s: State, p: Pid, fault: Fault)
    requires Inv(s) && PcOf(s, p) == Fresh
    ensures Run(s, BindActions(s, p, fault)) == Some(AfterBind(s, p, fault)) && Inv(AfterBind(s, p, fault))
    ensures PcOf(AfterBind(s, p, fault), p) == Serving <==>
            s.holder.None? && s.path != File && !(s.path.Socket? && PcOf(s, s.path.owner).Dying?) && Harmless(s, fault)
  {
    BindSteps(s, p, fault);
    RunKeeps(s, BindActions(s, p, fault));
  }

  lemma BindSteps(s: State, p: Pid, fault: Fault)
    requires Inv(s) && PcOf(s, p) == Fresh
    ensures Run(s, BindActions(s, p, fault)) == Some(AfterBind(s, p, fault))
  {
    hide StepsLeft, AfterStat, AfterClear;
    if fault == AtLock {
      RunStep(s, Fail(p), []);
    } else if s.holder.Some? {
      RunStep(s, TryLock(p), []);
    } else {
      var locked := Next(s, TryLock(p)).value;
      assert s.path.Socket? ==> s.path.owner != p;
      LockedSame(s, p, fault);
      if fault == AtStat {
        RunStep(s, TryLock(p), [Fail(p)]);
        RunStep(locked, Fail(p), []);
      } else {
        RunStep(s, TryLock(p), [Stat(p)] + AfterStat(s, p, fault));
        StatRun(locked, p, fault);
      }
    }
  }

  /** Having taken the lock changes nothing for the rest of the bind. */
  lemma LockedSame(s: State, p: Pid, fault: Fault)
    requires s.holder == None && (s.path.Socket? ==> s.path.owner != p)
    ensures var locked := Goto(s, p, Locked).(holder := Some(p));
            && AfterStat(locked, p, fault) == AfterStat(s, p, fault)
            && AfterBind(locked.(holder := None), p, fault) == AfterBind(s, p, fault)
            && Goto(locked.(holder := None), p, Done(IoError)) == Goto(s, p, Done(IoError))
  {
    var locked := Goto(s, p, Locked);
    assert forall pc :: Goto(locked, p, pc).procs == Goto(s, p, pc).procs;
  }

  function AfterDrop(s: State, p: Pid): State { Goto(s, p, Done(Ended)).(path := Absent, holder := None) }

  /** And dropping the server afterwards leaves neither the socket nor the lock. */
  lemma DropRun(s: State, p: Pid)
    requires Inv(s) && PcOf(s, p) == Serving
    ensures Run(s, [Unlink(p, true), CloseListener(p), Unlock(p)]) == Some(AfterDrop(s, p)) && Inv(AfterDrop(s, p))
  {
    var unlinked := Next(s, Unlink(p, true)).value;
    var closed := Next(unlinked, CloseListener(p)).value;
    var actions := [Unlink(p, true)] + ([CloseListener(p)] + [Unlock(p)]);
    RunStep(s, Unlink(p, true), [CloseListener(p)] + [Unlock(p)]);
    RunStep(unlinked, CloseListener(p), [Unlock(p)]);
    RunStep(closed, Unlock(p), []);
    assert closed.procs[p := Done(Ended)] == s.procs[p := Done(Ended)];
    assert actions == [Unlink(p, true), CloseListener(p), Unlock(p)];
    RunKeeps(s, actions);
  }

  lemma LockIsTaken(s: State, p: Pid)
    requires PcOf(s, p) == Fresh
    ensures Next(s, Fail(p)) == Some(Goto(s, p, Done(IoError)))
    ensures Next(s, TryLock(p)) == Some(if s.holder.Some? then Goto(s, p, Done(SocketInUse)) else Goto(s, p, Locked).(holder := Some(p)))
  {
  }

  /** While nobody holds the lock, only a dying server listens at the path. */
  lemma FreeLockListens(s: State, p: Pid)
    requires Inv(s) && PcOf(s, p) == Fresh && s.path.Socket?
    ensures s.path.owner != p && (s.holder.None? ==> (Listening(PcOf(s, s.path.owner)) <==> PcOf(s, s.path.owner).Dying?))
  {
    assert s.holder.None? ==> !HoldsLock(PcOf(s, s.path.owner));
  }

  /** The lock, the path and the processes, changed by the calls of server.rs. */
  class Host {
    var path: Path
    var holder: Option<Pid>
    var procs: map<Pid, Pc>

    function View(): State reads this { State(path, holder, procs) }

    constructor ()
      ensures Inv(View()) && View() == State(Absent, None, map[])
    {
      path, holder, procs := Absent, None, map[];
    }

    method LockSocket(p: Pid, fault: Fault) returns (error: Option<Outcome>)
      requires PcOf(View(), p) == Fresh
      modifies this
      ensures Next(old(View()), if fault == AtLock then Fail(p) else TryLock(p)) == Some(View())
      ensures error == if fault == AtLock then Some(IoError) else if old(holder).Some? then Some(SocketInUse) else None
    {
      if fault == AtLock {
        error := Some(IoError);
      } else if holder.Some? {
        error := Some(SocketInUse);
      } else {
        holder, error := Some(p), None;
      }
      procs := procs[p := if error.Some? then Done(error.value) else Locked];
    }

    /** On an error the caller's file is closed, which releases the lock. */
    method RemoveStaleSocket(p: Pid, fault: Fault) returns (error: Option<Outcome>)
      requires Inv(View()) && PcOf(View(), p) == Locked
      modifies this
      ensures holder == if error.Some? then None else old(holder)
      ensures procs == old(procs)[p := if error.Some? then Done(error.value) else Clear]
      ensures error.Some? ==> path == old(path)
      ensures error.None? ==> path == Absent
      ensures error == if fault == AtStat then Some(IoError) else
                       match old(path)
                       case Absent => None
                       case File => Some(SocketPathOccupied)
                       case Socket(q) =>
                         if fault == AtConnect then Some(IoError)
                         else if PcOf(old(View()), q).Dying? then Some(SocketInUse)
                         else if fault == AtRemove then Some(IoError)
                         else None
    {
      error := None;
      if fault == AtStat {
        error := Some(IoError);
      } else if path.File? {
        error := Some(SocketPathOccupied);
      } else if path.Socket? {
        if fault == AtConnect {
          error := Some(IoError);
        } else if Listening(PcOf(View(), path.owner)) {
          error := Some(SocketInUse);
        } else if fault == AtRemove {
          error := Some(IoError);
        } else {
          path := Absent;
        }
      }
      if error.Some? {
        holder := None;
      }
      procs := procs[p := if error.Some? then Done(error.value) else Clear];
    }

    method BindListener(p: Pid, fault: Fault) returns (error: Option<Outcome>)
      requires PcOf(View(), p) == Clear && path == Absent && holder == Some(p)
      modifies this
      ensures holder == if error.Some? then None else old(holder)
      ensures procs == old(procs)[p := if error.Some? then Done(error.value) else Serving]
      ensures path == if fault == AtBind then Absent else Socket(p)
      ensures error == if fault == AtBind || fault == AtListen then Some(IoError) else None
    {
      if fault != AtBind {
        path := Socket(p);
      }
      error := if fault == AtBind || fault == AtListen then Some(IoError) else None;
      if error.Some? {
        holder := None;
      }
      procs := procs[p := if error.Some? then Done(error.value) else Serving];
    }

    method Bind(p: Pid, fault: Fault) returns (error: Option<Outcome>)
      requires Inv(View()) && PcOf(View(), p) == Fresh
      modifies this
      ensures Inv(View()) && View() == AfterBind(old(View()), p, fault)
      ensures error == if PcOf(View(), p).Done? then Some(PcOf(View(), p).outcome) else None
    {
      hide Inv, Run, BindActions, Next, Listening, HoldsLock;
      ghost var before := View();
      BindRun(before, p, fault);
      LockIsTaken(before, p);
      if path.Socket? {
        FreeLockListens(before, p);
      }
      StepKeeps(before, if fault == AtLock then Fail(p) else TryLock(p));
      error := LockSocket(p, fault);
      if error.None? {
        error := RemoveStaleSocket(p, fault);
        if error.None? {
          error := BindListener(p, fault);
        }
        assert procs == AfterBind(before, p, fault).procs;
      }
    }

    /** The socket goes first, the listener next, the lock last. */
    method Drop(p: Pid)
      requires Inv(View()) && PcOf(View(), p) == Serving
      modifies this
      ensures Inv(View()) && View() == AfterDrop(old(View()), p)
    {
      ghost var before := View();
      DropRun(before, p);
      path, procs := Absent, procs[p := Unlinked];
      procs := procs[p := Closed];
      holder, procs := None, procs[p := Done(Ended)];
      assert procs == AfterDrop(before, p).procs;
    }
  }
}
