/** The shutdown handshake between the daemon's main thread and its accept thread
    (crates/lockdock-daemon/src/daemon.rs, lines 52-125), as a step system over the shutdown flag, the
    listener's queue, the channel and the lock target. */
module Shutdown {
  import opened Options

  type DisplayId = nat

  datatype MainPc =
    | CheckFlag
    | Working         // polling, receiving, handling a request
    | SetFlag
    | ClearLock
    | DropReceiver
    | Connect         // wake the accept thread
    | Join
    | Returned

  datatype AcceptPc =
    | LoopCheck
    | Accepting       // in accept(), blocked while nothing is queued
    | Reading
    | Sending
    | Leaving         // the loop is over; listener and sender are about to be dropped
    | Exited

  /** `channel` is the number of requests sent to the main thread and not yet received; `accepts` counts
      the connections taken off the queue since the flag was set. */
  datatype State = State(
    flag: bool,
    main: MainPc, accept: AcceptPc,
    queue: nat, backlog: nat,
    receiver: bool, channel: nat,
    lockTarget: DisplayId,
    accepts: nat)

  predicate Initial(s: State) {
    !s.flag && s.main == CheckFlag && s.accept == LoopCheck && s.queue <= s.backlog && 1 <= s.backlog && s.receiver && s.channel == 0
    && s.accepts == 0
  }

  datatype Action =
    | MainStep(lock: DisplayId)     // `lock` is the target that the main loop's work leaves behind
    | AcceptStep(ok: bool)          // `ok` says whether accept or read succeeded
    | AcceptError                   // accept() fails without taking a connection
    | Signal
    | ClientConnect

  predicate Listening(s: State) { !s.accept.Exited? }

  /** connect() queues a connection unless the listener is gone or its backlog full. */
  function Queued(s: State): State {
    if Listening(s) && s.queue < s.backlog then s.(queue := s.queue + 1) else s
  }

  function MainNext(s: State, lock: DisplayId): Option<State> {
    match s.main
    case CheckFlag => Some(s.(main := if s.flag then SetFlag else Working))
    case Working =>
      // one request at most; an empty channel whose sender is gone ends the loop
      Some(s.(lockTarget := lock, channel := if s.channel > 0 then s.channel - 1 else 0,
              main := if s.channel == 0 && s.accept.Exited? then SetFlag else CheckFlag))
    case SetFlag => Some(s.(flag := true, main := ClearLock))
    case ClearLock => Some(s.(lockTarget := 0, main := DropReceiver))
    case DropReceiver => Some(s.(receiver := false, main := Connect))
    case Connect => Some(Queued(s).(main := Join))
    case Join => if s.accept.Exited? then Some(s.(main := Returned)) else None
    case Returned => None
  }

  function AcceptNext(s: State, ok: bool): Option<State> {
    match s.accept
    case LoopCheck => Some(s.(accept := if s.flag then Leaving else Accepting))
    case Accepting =>
      if s.queue == 0 then None
      else Some(s.(queue := s.queue - 1, accepts := if s.flag then s.accepts + 1 else 0,
                   accept := if ok then Reading else LoopCheck))
    case Reading => Some(s.(accept := if ok then Sending else LoopCheck))
    case Sending =>
      if s.receiver then Some(s.(channel := s.channel + 1, accept := LoopCheck)) else Some(s.(accept := Leaving))
    case Leaving => Some(s.(accept := Exited))
    case Exited => None
  }

  function Next(s: State, a: Action): Option<State> {
    match a
    case MainStep(lock) => MainNext(s, lock)
    case AcceptStep(ok) => AcceptNext(s, ok)
    case AcceptError => if s.accept.Accepting? then Some(s.(accept := LoopCheck)) else None
    case Signal => Some(s.(flag := true))
    case ClientConnect => Some(Queued(s))
  }

  // ----- the invariant

  predicate PastClear(pc: MainPc) { pc.DropReceiver? || pc.Connect? || pc.Join? || pc.Returned? }

  ghost predicate Inv(s: State) {
    && 1 <= s.backlog && s.queue <= s.backlog
    && (s.main.ClearLock? || PastClear(s.main) ==> s.flag)
    && (PastClear(s.main) ==> s.lockTarget == 0)
    && (s.receiver <==> !(s.main.Connect? || s.main.Join? || s.main.Returned?))
    && (s.main.Join? && s.accept.Accepting? ==> 0 < s.queue)
    && (s.main.Returned? ==> s.accept.Exited?)
    && (s.accept.Leaving? || s.accept.Exited? ==> s.flag)
    && s.accepts + (if s.flag && s.accept.Accepting? then 1 else 0) <= 1
    && (!s.flag ==> s.accepts == 0)
  }

  lemma StepKeeps(s: State, a: Action)
    requires Inv(s) && Next(s, a).Some?
    ensures Inv(Next(s, a).value)
  {
  }

  // ----- theorems over executions

  ghost predicate IsPath(states: seq<State>, actions: seq<Action>) {
    && |states| == |actions| + 1
    && forall k :: 0 <= k < |actions| ==> Next(states[k], actions[k]) == Some(states[k + 1])
  }

  ghost predicate IsExecution(states: seq<State>, actions: seq<Action>) {
    IsPath(states, actions) && Initial(states[0])
  }

  lemma {:induction false} PathKeeps(states: seq<State>, actions: seq<Action>, k: nat)
    requires IsPath(states, actions) && Inv(states[0]) && k < |states|
    ensures Inv(states[k])
  {
    hide Inv, Next;
    if k > 0 {
      PathKeeps(states, actions, k - 1);
      assert Next(states[k - 1], actions[k - 1]) == Some(states[k]);
      StepKeeps(states[k - 1], actions[k - 1]);
    }
  }

  /** After the flag is set the accept thread takes at most one more connection; whenever the main
      thread waits in join and the accept thread in accept(), a connection is queued; once the main
      thread is past clear_lock_target the target stays 0; and it returns only after the accept thread
      has dropped the listener. */
  lemma Handshake(states: seq<State>, actions: seq<Action>, k: nat)
    requires IsExecution(states, actions) && k < |states|
    ensures var s := states[k];
            && s.accepts <= 1
            && (s.main.Join? && s.accept.Accepting? ==> 0 < s.queue)
            && (PastClear(s.main) ==> s.flag && s.lockTarget == 0)
            && (s.main.Returned? ==> !Listening(s))
  {
    PathKeeps(states, actions, k);
  }

  // ----- termination

  predicate IsProgress(a: Action) { a.MainStep? || a.AcceptStep? }

  function MainRank(pc: MainPc): nat {
    match pc
    case Working => 7 case CheckFlag => 6 case SetFlag => 5 case ClearLock => 4
    case DropReceiver => 3 case Connect => 2 case Join => 1 case Returned => 0
  }

  function AcceptRank(pc: AcceptPc): nat {
    match pc
    case Accepting => 5 case Reading => 4 case Sending => 3 case LoopCheck => 2 case Leaving => 1 case Exited => 0
  }

  /** A bound on the steps left before the main thread returns, once the flag is set. */
  function Rank(s: State): nat { MainRank(s.main) + AcceptRank(s.accept) }

  lemma StepLowersRank(s: State, a: Action)
    requires Inv(s) && s.flag && Next(s, a).Some?
    ensures var s' := Next(s, a).value;
            s'.flag && Rank(s') + (if IsProgress(a) then 1 else 0) <= Rank(s)
  {
  }

  /** With the flag set, one of the two threads can always go on until the main thread has returned. */
  lemma NoDeadlock(s: State)
    requires Inv(s) && s.flag && s.main != Returned
    ensures MainNext(s, 0).Some? || AcceptNext(s, true).Some?
  {
  }

  function ProgressSteps(actions: seq<Action>): nat {
    if actions == [] then 0
    else ProgressSteps(actions[..|actions| - 1]) + (if IsProgress(actions[|actions| - 1]) then 1 else 0)
  }

  lemma {:induction false} RankOverPath(states: seq<State>, actions: seq<Action>)
    requires IsPath(states, actions) && Inv(states[0]) && states[0].flag
    ensures var last := states[|actions|];
            Inv(last) && last.flag && Rank(last) + ProgressSteps(actions) <= Rank(states[0])
  {
    hide Inv, Next, Rank;
    if actions != [] {
      var n := |actions| - 1;
      RankOverPath(states[..n + 1], actions[..n]);
      assert Next(states[n], actions[n]) == Some(states[n + 1]);
      StepKeeps(states[n], actions[n]);
      StepLowersRank(states[n], actions[n]);
    }
  }

  /** Shutdown never hangs: from any reachable state with the flag set, whatever clients and signals do,
      the two threads take at most 12 steps, and when neither can take one the main thread has returned,
      the accept thread has exited and the lock is cleared. */
  lemma ShutdownEnds(states: seq<State>, actions: seq<Action>, j: nat)
    requires IsExecution(states, actions) && j < |states| && states[j].flag
    ensures ProgressSteps(actions[j..]) <= 12
    ensures var last := states[|actions|];
            MainNext(last, 0).None? && AcceptNext(last, true).None? ==>
              last.main == Returned && last.accept == Exited && last.lockTarget == 0
  {
    PathKeeps(states, actions, j);
    var tail := states[j..];
    assert tail[|actions| - j] == states[|actions|];
    RankOverPath(tail, actions[j..]);
  }

  /** Without the connection the main thread makes to itself the join could wait for ever: it is
      reachable that the accept thread sits in accept() with an empty queue when the main thread is
      about to connect. */
  lemma WakeupIsNeeded(backlog: nat) returns (states: seq<State>, actions: seq<Action>)
    requires 1 <= backlog
    ensures IsExecution(states, actions)
    ensures var last := states[|actions|];
            last.main == Connect && last.accept == Accepting && last.queue == 0 && AcceptNext(last, true).None?
  {
    var s0 := State(false, CheckFlag, LoopCheck, 0, backlog, true, 0, 0, 0);
    var s1 := s0.(accept := Accepting);
    var s2 := s1.(flag := true);
    var s3 := s2.(main := SetFlag);
    var s4 := s3.(main := ClearLock);
    var s5 := s4.(main := DropReceiver);
    var s6 := s5.(main := Connect, receiver := false);
    states := [s0, s1, s2, s3, s4, s5, s6];
    actions := [AcceptStep(true), Signal, MainStep(0), MainStep(0), MainStep(0), MainStep(0)];
  }

  // ----- normal operation

  /** Without a signal so far, the main thread is in its loop and the accept thread in its own. */
  ghost predicate Operating(s: State) {
    !s.flag && (s.main.CheckFlag? || s.main.Working?) && !s.accept.Leaving? && !s.accept.Exited? && s.receiver
  }

  lemma OperatingGoesOn(s: State, a: Action)
    requires Operating(s) && a != Signal && Next(s, a).Some?
    ensures Operating(Next(s, a).value)
  {
  }

  /** The daemon stops only for a signal: in every execution, as long as none has come, the flag is not set,
      the main thread is in its loop, and the accept thread has not left its own. */
  lemma {:induction false} StopsOnlyForASignal(states: seq<State>, actions: seq<Action>, k: nat)
    requires IsExecution(states, actions) && k < |states| && forall m :: 0 <= m < k ==> actions[m] != Signal
    ensures Operating(states[k])
  {
    hide Next;
    if k > 0 {
      StopsOnlyForASignal(states, actions, k - 1);
      assert Next(states[k - 1], actions[k - 1]) == Some(states[k]);
      OperatingGoesOn(states[k - 1], actions[k - 1]);
    }
  }

  // ----- no request is lost

  /** How far the connections of an execution have come: taken off the queue, their request read or not,
      the request read, and received by the main thread. */
  datatype Count = Count(taken: nat, tried: nat, read: nat, received: nat)

  function Counted(c: Count, s: State, a: Action): Count {
    match a
    case AcceptStep(ok) =>
      if s.accept.Accepting? && ok then c.(taken := c.taken + 1)
      else if s.accept.Reading? then c.(tried := c.tried + 1, read := if ok then c.read + 1 else c.read)
      else c
    case MainStep(_) => if s.main.Working? && s.channel > 0 then c.(received := c.received + 1) else c
    case _ => c
  }

  function CountAt(states: seq<State>, actions: seq<Action>, k: nat): Count
    requires k < |states| == |actions| + 1
  {
    if k == 0 then Count(0, 0, 0, 0) else Counted(CountAt(states, actions, k - 1), states[k - 1], actions[k - 1])
  }

  /** Every connection taken is read from, and every request read is received, waits in the channel, or is
      about to be sent - until the main thread drops the channel. */
  ghost predicate NothingLost(s: State, c: Count) {
    && c.taken == c.tried + (if s.accept.Reading? then 1 else 0)
    && (s.receiver ==> c.read == c.received + s.channel + (if s.accept.Sending? then 1 else 0))
  }

  lemma NothingGetsLost(s: State, c: Count, a: Action)
    requires Inv(s) && NothingLost(s, c) && Next(s, a).Some?
    ensures NothingLost(Next(s, a).value, Counted(c, s, a))
  {
  }

  /** In every execution no connection and no request is lost while the daemon operates. */
  lemma {:induction false} RequestsArrive(states: seq<State>, actions: seq<Action>, k: nat)
    requires IsExecution(states, actions) && k < |states|
    ensures NothingLost(states[k], CountAt(states, actions, k))
  {
    hide Next, Inv, Counted;
    if k > 0 {
      RequestsArrive(states, actions, k - 1);
      InitiallyOk(states[0]);
      PathKeeps(states, actions, k - 1);
      assert Next(states[k - 1], actions[k - 1]) == Some(states[k]);
      NothingGetsLost(states[k - 1], CountAt(states, actions, k - 1), actions[k - 1]);
    }
  }

  lemma InitiallyOk(s: State)
    requires Initial(s)
    ensures Inv(s)
  {
  }
}
