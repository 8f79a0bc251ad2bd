/** The Darwin exec handshake: the controller's spawn and the gate process it starts, as two programs
    that interleave freely, may fail at every call, and may die at any moment. */
module ExecGate {
  /** The four gate descriptors: the read and write ends of the ready and the release pipe. The
      gate process inherits readyWrite and releaseRead only. */
  datatype Ends = Ends(readyRead: bool, readyWrite: bool, releaseRead: bool, releaseWrite: bool)

  datatype End = ReadyRead | ReadyWrite | ReleaseRead | ReleaseWrite

  const ALL := Ends(true, true, true, true)
  const NONE := Ends(false, false, false, false)

  datatype ParentPc =
    | Forking | ClosingReadyWrite | ClosingReleaseRead | Waiting | Reading
    | Identifying | CheckingPipe | Acquiring | Registering | Releasing | Marking
    | Finally(ok: bool) | Returned(ok: bool) | Crashed

  datatype ChildPc =
    | Unborn | Announcing | Selecting | Receiving | Closing(go: bool) | Execing | Running | Gone

  datatype Parent = Parent(
    pc: ParentPc,
    vars: Ends,      // descriptor variables that still name a descriptor
    reclosed: bool,        // some descriptor was closed again after its first close
    identified: bool,      // live, directly spawned, same user, not in the baseline
    piped: bool,           // holds the scope's pipe capability
    known: bool,           // key in `known`
    handled: bool,         // real token in `handles`
    wroteG: bool,
    released: bool)        // launch["gateReleased"]

  datatype State = State(
    parent: Parent,
    child: ChildPc,
    childHeld: Ends,
    argsOk: bool,          // the gate's own argument checks pass
    ready: nat,            // R bytes in the ready pipe
    release: nat,          // G bytes in the release pipe
    execed: bool)          // the product has run

  /** One call by either program (`ok` says that the call itself succeeds or does not time out), or a
      death. A call that is waiting for data leaves the state as it is. */
  datatype Move = ParentMove(ok: bool) | ChildMove(ok: bool) | KillChild | CrashParent

  function Init(argsOk: bool): State {
    State(Parent(Forking, ALL, false, false, false, false, false, false, false),
          Unborn, NONE, argsOk, 0, 0, false)
  }

  /** The descriptors the controller has open: a dead controller has none. */
  function Held(s: State): Ends {
    if s.parent.pc.Crashed? then NONE else s.parent.vars
  }

  predicate Alive(s: State) {
    s.child != Unborn && s.child != Gone
  }

  /** A pipe is readable when it holds data or has no writer left. */
  predicate ReadyReadable(s: State) {
    s.ready > 0 || (!Held(s).readyWrite && !s.childHeld.readyWrite)
  }

  predicate ReleaseReadable(s: State) {
    s.release > 0 || !Held(s).releaseWrite
  }

  function At(s: State, pc: ParentPc): State {
    s.(parent := s.parent.(pc := pc))
  }

  function Without(v: Ends, e: End): Ends {
    match e
    case ReadyRead => v.(readyRead := false)
    case ReadyWrite => v.(readyWrite := false)
    case ReleaseRead => v.(releaseRead := false)
    case ReleaseWrite => v.(releaseWrite := false)
  }

  predicate Named(v: Ends, e: End) {
    match e
    case ReadyRead => v.readyRead
    case ReadyWrite => v.readyWrite
    case ReleaseRead => v.releaseRead
    case ReleaseWrite => v.releaseWrite
  }

  /** The variable is withdrawn before the call; the descriptor is gone even if close reports a failure. */
  function Close(s: State, e: End, next: ParentPc): State {
    s.(parent := s.parent.(pc := next, vars := Without(s.parent.vars, e),
                           reclosed := s.parent.reclosed || !Named(s.parent.vars, e)))
  }

  predicate Empty(v: Ends) {
    !v.readyRead && !v.readyWrite && !v.releaseRead && !v.releaseWrite
  }

  /** The final sweep closes what is still named, one descriptor per call. */
  function NextEnd(v: Ends): End {
    if v.readyRead then ReadyRead else if v.readyWrite then ReadyWrite
    else if v.releaseRead then ReleaseRead else ReleaseWrite
  }

  function ParentStep(s: State, ok: bool): State {
    match s.parent.pc
    case Forking =>
      if ok then At(s, ClosingReadyWrite).(child := Announcing, childHeld := NONE.(readyWrite := true, releaseRead := true))
      else At(s, Finally(false))
    case ClosingReadyWrite => Close(s, ReadyWrite, if ok then ClosingReleaseRead else Finally(false))
    case ClosingReleaseRead => Close(s, ReleaseRead, if ok then Waiting else Finally(false))
    case Waiting => if !ok then At(s, Finally(false)) else if ReadyReadable(s) then At(s, Reading) else s
    case Reading =>
      if ok && s.ready > 0 then At(s, Identifying).(ready := s.ready - 1) else At(s, Finally(false))
    case Identifying =>
      if ok && Alive(s) then s.(parent := s.parent.(pc := CheckingPipe, identified := true)) else At(s, Finally(false))
    case CheckingPipe =>
      if ok && Alive(s) then s.(parent := s.parent.(pc := Acquiring, piped := true)) else At(s, Finally(false))
    case Acquiring => if ok && Alive(s) then At(s, Registering) else At(s, Finally(false))
    case Registering => s.(parent := s.parent.(pc := Releasing, known := true, handled := true))
    case Releasing =>
      if ok && s.childHeld.releaseRead
      then s.(parent := s.parent.(pc := Marking, wroteG := true), release := s.release + 1)
      else At(s, Finally(false))
    case Marking => s.(parent := s.parent.(pc := Finally(true), released := true))
    case Finally(good) =>
      if Empty(s.parent.vars) then At(s, Returned(good)) else Close(s, NextEnd(s.parent.vars), Finally(good && ok))
    case Returned(_) => s
    case Crashed => s
  }

  function ChildStep(s: State, ok: bool): State {
    match s.child
    case Announcing =>
      if !s.argsOk then s.(child := Gone, childHeld := NONE)
      else if ok && Held(s).readyRead then s.(child := Selecting, ready := s.ready + 1)
      else s.(child := Closing(false))
    case Selecting =>
      if !ok then s.(child := Closing(false)) else if ReleaseReadable(s) then s.(child := Receiving) else s
    case Receiving =>
      if ok && s.release > 0 then s.(child := Closing(true), release := s.release - 1) else s.(child := Closing(false))
    case Closing(go) => s.(child := if go && ok then Execing else Gone, childHeld := NONE)
    case Execing => if ok then s.(child := Running, execed := true) else s.(child := Gone)
    case _ => s
  }

  function Step(s: State, m: Move): State {
    match m
    case ParentMove(ok) => ParentStep(s, ok)
    case ChildMove(ok) => ChildStep(s, ok)
    case KillChild => if Alive(s) then s.(child := Gone, childHeld := NONE) else s
    case CrashParent => if s.parent.pc.Returned? then s else At(s, Crashed)
  }

  function Run(s: State, moves: seq<Move>): State
    decreases |moves|
  {
    if moves == [] then s else Run(Step(s, moves[0]), moves[1..])
  }

  /** The controller has not yet passed the write of G. */
  predicate BeforeRelease(pc: ParentPc) {
    !(pc.Marking? || pc.Finally? || pc.Returned? || pc.Crashed?)
  }

  predicate Admitted(p: Parent) {
    p.identified && p.piped && p.known && p.handled
  }

  /** What each program point has established, and who may hold the G. */
  ghost predicate Protocol(s: State) {
    var p := s.parent;
    && (p.pc.CheckingPipe? || p.pc.Acquiring? || p.pc.Registering? || p.pc.Releasing? ==> p.identified)
    && (p.pc.Acquiring? || p.pc.Registering? || p.pc.Releasing? ==> p.piped)
    && (p.pc.Releasing? ==> p.known && p.handled)
    && (p.wroteG ==> Admitted(p) && !BeforeRelease(p.pc))
    && (p.pc.Marking? ==> p.wroteG)
    && (p.pc == Finally(true) || p.pc == Returned(true) ==> p.released)
    && (p.released ==> p.wroteG)
    && (s.release == 0 || (s.release == 1 && p.wroteG))
    && (s.child == Closing(true) || s.child.Execing? || s.child.Running? || s.execed ==> p.wroteG && s.release == 0)
    && (p.pc.Forking? ==> s.child.Unborn?)
  }

  /** Descriptor bookkeeping at each program point. */
  ghost predicate Ledger(s: State) {
    var p := s.parent;
    && !p.reclosed
    && (p.pc.Forking? || p.pc.ClosingReadyWrite? ==> p.vars.readyWrite && p.vars.releaseRead)
    && (p.pc.ClosingReleaseRead? ==> p.vars.releaseRead)
    && (BeforeRelease(p.pc) ==> p.vars.releaseWrite)
    && (p.pc.Returned? ==> Empty(p.vars))
  }

  lemma ForkingKeeps(s: State, ok: bool)
    requires Protocol(s) && Ledger(s) && s.parent.pc.Forking?
    ensures Protocol(ParentStep(s, ok)) && Ledger(ParentStep(s, ok))
  {
  }

  lemma WaitingKeeps(s: State, ok: bool)
    requires Protocol(s) && Ledger(s) && s.parent.pc.Waiting?
    ensures Protocol(ParentStep(s, ok)) && Ledger(ParentStep(s, ok))
  {
    hide ReadyReadable;
  }

  lemma ReadingKeeps(s: State, ok: bool)
    requires Protocol(s) && Ledger(s) && s.parent.pc.Reading?
    ensures Protocol(ParentStep(s, ok)) && Ledger(ParentStep(s, ok))
  {
  }

  lemma ClosingKeeps(s: State, ok: bool)
    requires Protocol(s) && Ledger(s) && (s.parent.pc.ClosingReadyWrite? || s.parent.pc.ClosingReleaseRead?)
    ensures Protocol(ParentStep(s, ok)) && Ledger(ParentStep(s, ok))
  {
  }

  lemma CheckingKeeps(s: State, ok: bool)
    requires Protocol(s) && Ledger(s)
    requires s.parent.pc.Identifying? || s.parent.pc.CheckingPipe? || s.parent.pc.Acquiring?
    ensures Protocol(ParentStep(s, ok)) && Ledger(ParentStep(s, ok))
  {
  }

  lemma ReleasingKeeps(s: State, ok: bool)
    requires Protocol(s) && Ledger(s)
    requires s.parent.pc.Registering? || s.parent.pc.Releasing? || s.parent.pc.Marking?
    ensures Protocol(ParentStep(s, ok)) && Ledger(ParentStep(s, ok))
  {
  }

  lemma SweepKeeps(s: State, e: End, good: bool)
    requires Protocol(s) && Ledger(s) && s.parent.pc.Finally? && (good ==> s.parent.pc.ok) && Named(s.parent.vars, e)
    ensures Protocol(Close(s, e, Finally(good))) && Ledger(Close(s, e, Finally(good)))
  {
    match e
    case ReadyRead =>
    case ReadyWrite =>
    case ReleaseRead =>
    case ReleaseWrite =>
  }

  lemma FinallyKeeps(s: State, ok: bool)
    requires Protocol(s) && Ledger(s) && s.parent.pc.Finally?
    ensures Protocol(ParentStep(s, ok)) && Ledger(ParentStep(s, ok))
  {
    if Empty(s.parent.vars) {
      assert ParentStep(s, ok) == At(s, Returned(s.parent.pc.ok));
    } else {
      SweepKeeps(s, NextEnd(s.parent.vars), s.parent.pc.ok && ok);
    }
  }

  lemma ParentKeeps(s: State, ok: bool)
    requires Protocol(s) && Ledger(s)
    ensures Protocol(ParentStep(s, ok)) && Ledger(ParentStep(s, ok))
  {
    hide Protocol, Ledger;
    match s.parent.pc
    case Forking => ForkingKeeps(s, ok);
    case ClosingReadyWrite => ClosingKeeps(s, ok);
    case ClosingReleaseRead => ClosingKeeps(s, ok);
    case Waiting => WaitingKeeps(s, ok);
    case Reading => ReadingKeeps(s, ok);
    case Identifying => CheckingKeeps(s, ok);
    case CheckingPipe => CheckingKeeps(s, ok);
    case Acquiring => CheckingKeeps(s, ok);
    case Registering => ReleasingKeeps(s, ok);
    case Releasing => ReleasingKeeps(s, ok);
    case Marking => ReleasingKeeps(s, ok);
    case Finally(_) => FinallyKeeps(s, ok);
    case Returned(_) =>
    case Crashed =>
  }

  lemma ChildKeeps(s: State, ok: bool)
    requires Protocol(s) && Ledger(s)
    ensures Protocol(ChildStep(s, ok)) && Ledger(ChildStep(s, ok))
  {
    assert ChildStep(s, ok).parent == s.parent;
  }

  lemma StepKeepsInvariants(s: State, m: Move)
    requires Protocol(s) && Ledger(s)
    ensures Protocol(Step(s, m)) && Ledger(Step(s, m))
  {
    match m
    case ParentMove(ok) => ParentKeeps(s, ok);
    case ChildMove(ok) => ChildKeeps(s, ok);
    case KillChild =>
    case CrashParent =>
  }

  lemma {:induction false} RunKeepsInvariants(s: State, moves: seq<Move>)
    requires Protocol(s) && Ledger(s)
    ensures Protocol(Run(s, moves)) && Ledger(Run(s, moves))
    decreases |moves|
  {
    if moves != [] {
      StepKeepsInvariants(s, moves[0]);
      RunKeepsInvariants(Step(s, moves[0]), moves[1..]);
    }
  }

  /** In every interleaving: the product has run only if G was written, and G was written only after the
      lifetime, the pipe and the token were checked and the key registered. A successful spawn has always
      released the gate. No gate descriptor was ever closed twice, and all are closed once spawn has
      returned, whatever failed. */
  lemma GateSafety(argsOk: bool, moves: seq<Move>)
    ensures var s := Run(Init(argsOk), moves);
            && (s.execed ==> s.parent.wroteG)
            && (s.parent.wroteG ==> Admitted(s.parent))
            && (s.parent.pc == Returned(true) ==> s.parent.wroteG && s.parent.released)
            && !s.parent.reclosed
            && (s.parent.pc.Returned? ==> Empty(Held(s)))
  {
    RunKeepsInvariants(Init(argsOk), moves);
  }

  /** The gate's fate is sealed: no G is in flight and none can be written any more. */
  ghost predicate Sealed(s: State) {
    && !s.parent.wroteG && !s.execed && !Held(s).releaseWrite && s.release == 0 && !BeforeRelease(s.parent.pc)
    && !s.parent.pc.Marking? && s.child != Closing(true) && !s.child.Execing? && !s.child.Running?
  }

  lemma SealedParentStep(s: State, ok: bool)
    requires Sealed(s)
    ensures Sealed(ParentStep(s, ok))
  {
    if s.parent.pc.Finally? && !Empty(s.parent.vars) {
      assert ParentStep(s, ok) == Close(s, NextEnd(s.parent.vars), Finally(s.parent.pc.ok && ok));
      match NextEnd(s.parent.vars)
      case ReadyRead =>
      case ReadyWrite =>
      case ReleaseRead =>
      case ReleaseWrite =>
    }
  }

  lemma SealedStep(s: State, m: Move)
    requires Sealed(s)
    ensures Sealed(Step(s, m))
  {
    if m.ParentMove? {
      SealedParentStep(s, m.ok);
    }
  }

  lemma {:induction false} SealedForever(s: State, moves: seq<Move>)
    requires Sealed(s)
    ensures Sealed(Run(s, moves))
    decreases |moves|
  {
    if moves != [] {
      SealedStep(s, moves[0]);
      SealedForever(Step(s, moves[0]), moves[1..]);
    }
  }

  /** If the controller has lost its end of the release pipe, by closing it or by dying, before writing G,
      then no continuation whatsoever runs the product. */
  lemma EofRefuses(argsOk: bool, past: seq<Move>, future: seq<Move>)
    requires var s := Run(Init(argsOk), past); !Held(s).releaseWrite && !s.parent.wroteG
    ensures !Run(Run(Init(argsOk), past), future).execed
  {
    RunKeepsInvariants(Init(argsOk), past);
    SealedForever(Run(Init(argsOk), past), future);
  }

  /** A spawn that failed before the write leaves a gate that refuses. */
  lemma FailedAdmissionNeverExecutes(argsOk: bool, past: seq<Move>, future: seq<Move>)
    requires var s := Run(Init(argsOk), past); s.parent.pc == Returned(false) && !s.parent.wroteG
    ensures !Run(Run(Init(argsOk), past), future).execed
  {
    RunKeepsInvariants(Init(argsOk), past);
    EofRefuses(argsOk, past, future);
  }

  /** How many more of its own calls the gate can make. */
  function Remaining(c: ChildPc): nat {
    match c
    case Announcing => 5
    case Selecting => 4
    case Receiving => 3
    case Closing(_) => 2
    case Execing => 1
    case _ => 0
  }

  /** The gate waits only for a live controller that has neither answered nor let go: otherwise each of
      its calls brings it closer to running the product or to its exit. */
  lemma GateAdvances(s: State, ok: bool)
    requires Remaining(s.child) > 0
    ensures Remaining(ChildStep(s, ok).child) < Remaining(s.child)
            || (s.child.Selecting? && ok && s.release == 0 && Held(s).releaseWrite && ChildStep(s, ok) == s)
  {
  }

  lemma {:induction false} RunLast(s: State, moves: seq<Move>, m: Move)
    ensures Run(s, moves + [m]) == Step(Run(s, moves), m)
    decreases |moves|
  {
    if moves == [] {
      assert moves + [m] == [m] && [m][1..] == [];
    } else {
      RunLast(Step(s, moves[0]), moves[1..], m);
      assert (moves + [m])[1..] == moves[1..] + [m];
    }
  }

  /** The handshake can succeed: some interleaving registers the child, releases it and runs the product. */
  lemma GateCanOpen() returns (moves: seq<Move>)
    ensures var s := Run(Init(true), moves); s.execed && s.parent.released && Admitted(s.parent)
  {
    hide Run, Step, OnTheWay;
    var s := Init(true);
    moves := [];
    Started();
    var n := 0;
    while n < 16
      invariant 0 <= n <= 16 && s == Run(Init(true), moves) && OnTheWay(s, n)
    {
      var m := if n == 1 || n >= 12 then ChildMove(true) else ParentMove(true);
      RunLast(Init(true), moves, m);
      StaysOnTheWay(s, n, m);
      s, moves, n := Step(s, m), moves + [m], n + 1;
    }
    Arrived(s);
  }

  lemma Started()
    ensures Run(Init(true), []) == Init(true) && OnTheWay(Init(true), 0)
  {
  }

  lemma Arrived(s: State)
    requires OnTheWay(s, 16)
    ensures s.execed && s.parent.released && Admitted(s.parent)
  {
  }

  /** Where the successful handshake stands after `n` calls. */
  ghost predicate OnTheWay(s: State, n: nat) {
    && s.argsOk && s.parent.vars.readyRead && s.parent.vars.releaseWrite
    && (1 <= n <= 12 ==> s.childHeld.releaseRead)
    && (n >= 2 ==> s.ready >= 1 || n >= 6)
    && (match n
        case 0 => s.parent.pc.Forking?
        case 1 => s.parent.pc.ClosingReadyWrite? && s.child.Announcing?
        case 2 => s.parent.pc.ClosingReadyWrite? && s.child.Selecting?
        case 3 => s.parent.pc.ClosingReleaseRead? && s.child.Selecting?
        case 4 => s.parent.pc.Waiting? && s.child.Selecting?
        case 5 => s.parent.pc.Reading? && s.child.Selecting?
        case 6 => s.parent.pc.Identifying? && s.child.Selecting?
        case 7 => s.parent.pc.CheckingPipe? && s.child.Selecting? && s.parent.identified
        case 8 => s.parent.pc.Acquiring? && s.child.Selecting? && s.parent.identified && s.parent.piped
        case 9 => s.parent.pc.Registering? && s.child.Selecting? && s.parent.identified && s.parent.piped
        case 10 => s.parent.pc.Releasing? && s.child.Selecting? && Admitted(s.parent)
        case 11 => s.parent.pc.Marking? && s.child.Selecting? && Admitted(s.parent) && s.release >= 1
        case 12 => s.parent.released && s.child.Selecting? && Admitted(s.parent) && s.release >= 1
        case 13 => s.parent.released && s.child.Receiving? && Admitted(s.parent) && s.release >= 1
        case 14 => s.parent.released && s.child == Closing(true) && Admitted(s.parent)
        case 15 => s.parent.released && s.child.Execing? && Admitted(s.parent)
        case _ => s.parent.released && s.execed && Admitted(s.parent))
  }

  lemma StaysOnTheWay(s: State, n: nat, m: Move)
    requires OnTheWay(s, n) && n < 16
    requires m == if n == 1 || n >= 12 then ChildMove(true) else ParentMove(true)
    ensures OnTheWay(Step(s, m), n + 1)
  {
  }
}
