/**
 The start-up handshake of src/namespace.c, as a transition system over every
 interleaving of the manager process (parent) and the cloned child.

 One action is one system call.  The two processes share four pipes; an end of
 a pipe is closed only when both processes have closed their copy, because
 clone() duplicates all eight descriptors.  Any set-up call may fail, the token
 may be written and read piecemeal, an outsider may kill the child at any
 moment, and a pipe read may fail in either process: the last two are recorded in
 the state so that a theorem can say whether it tolerates them.
 */
module Handshake {
  import opened Base

  datatype End =
    | StatusR | StatusW | ExecR | ExecW
    | ContinueR | ContinueW | TriggerR | TriggerW

  const ALL_ENDS: set<End> :=
    {StatusR, StatusW, ExecR, ExecW, ContinueR, ContinueW, TriggerR, TriggerW}

  /** The two ends of the k-th pipe opened. */
  function PipeEnds(k: nat): set<End> {
    if k == 0 then {StatusR, StatusW}
    else if k == 1 then {ExecR, ExecW}
    else if k == 2 then {ContinueR, ContinueW}
    else {TriggerR, TriggerW}
  }

  /** The ends that exist after k successful pipe() calls. */
  function MadeEnds(k: nat): set<End> {
    if k == 0 then {}
    else if k == 1 then {StatusR, StatusW}
    else if k == 2 then {StatusR, StatusW, ExecR, ExecW}
    else if k == 3 then {StatusR, StatusW, ExecR, ExecW, ContinueR, ContinueW}
    else ALL_ENDS
  }

  // ---- Token, status and set-up steps ----

  const TOKEN_SIZE := 49   // one byte `ok` and the 48 bytes of NetConfig
  const OK_BYTE := 49      // '1'

  datatype Status = Status(ready: bool, errno: int)

  datatype SetupStep =
    | BecomeRoot | SetHostname | IsolateRootfs | RemountProc
    | Loopback | BuildArgv | ApplyLimits | SetProcessGroup

  const SETUP: seq<SetupStep> :=
    [BecomeRoot, SetHostname, IsolateRootfs, RemountProc,
     Loopback, BuildArgv, ApplyLimits, SetProcessGroup]

  const EPERM := 1
  const EINVAL := 22
  const EPROTO := 71

  datatype Outcome = Done | Failed(errno: int)

  /** Which results make the child give up: a /proc remount may fail with EINVAL
      and the loopback set-up with EPERM. */
  predicate Fatal(step: SetupStep, o: Outcome) {
    o.Failed? && !(step.RemountProc? && o.errno == EINVAL) && !(step.Loopback? && o.errno == EPERM)
  }

  /** A set-up step and what came of it. */
  datatype Ran = Ran(step: SetupStep, o: Outcome)

  const RESOURCE_ERROR_BASE := 10000

  /** The error number the child reports when it gives up over a step. */
  function Reported(step: SetupStep, errno: int): int {
    if step.ApplyLimits? then RESOURCE_ERROR_BASE + errno else errno
  }

  // ---- Program counters ----

  datatype ParentPc =
    | OpenPipe(made: nat)
    | SetCloexec
    | CloneChild
    | Close(todo: set<End>, next: ParentPc)   // close() calls still to make, in any order
    | WriteMaps
    | SetupNet
    | SendToken
    | AwaitStatus
    | KillChild
    | WaitChild
    | StartFailed
    | Started             // namespace_start_container returned 0
    | ForwardPorts        // RUNNING is set
    | SaveMetadata
    | WriteTrigger        // namespace_trigger_exec entered
    | AwaitExec
    | Triggered(rc: int)  // namespace_trigger_exec returned
    | StopChild
    | ReapChild
    | ManagerFailed

  datatype ChildPc =
    | ReadToken
    | CloseContinue
    | RunSetup(k: nat)
    | ReportFailure(errno: int)
    | CloseStatusFailed
    | SendReady
    | CloseStatus
    | AwaitTrigger
    | CloseTrigger(go: bool)
    | CallExec
    | Payload             // execvp succeeded: the container's command runs
    | SendErrno(errno: int)
    | CloseExec
    | Exiting

  datatype Child = NotCloned | Alive(pc: ChildPc) | Zombie | Reaped

  /** The descriptor tables: what each process holds, every end ever made, and
      every close() the parent has issued. */
  datatype Fds = Fds(parent: set<End>, child: set<End>, created: set<End>, closes: multiset<End>)

  datatype Pipes = Pipes(
    token: seq<int>,             // the ContinueToken of this run
    sent: nat,                   // bytes of it the parent has written
    continuing: seq<int>,
    received: seq<int>,          // bytes of it the child has read
    status: seq<Status>,
    trigger: seq<int>,
    exec: seq<int>)

  /** What has happened so far. */
  datatype History = History(
    mapsWritten: bool,
    netReady: bool,
    outcomes: seq<Ran>,          // of every set-up step the child has run
    failure: Option<int>,        // the errno of a start that failed on the child's status
    readySent: bool,
    markedRunning: bool,
    portsForwarded: bool,
    metadataSaved: bool,
    triggerSent: bool,
    execCalled: bool,
    execSucceeded: bool,
    outsideKill: bool,
    readFault: bool,             // a read of the parent failed
    childFault: bool)            // a read of the child failed

  datatype State = State(parent: ParentPc, child: Child, fds: Fds, pipes: Pipes, log: History)

  function Init(token: seq<int>): State {
    State(OpenPipe(0), NotCloned, Fds({}, {}, {}, multiset{}), Pipes(token, 0, [], [], [], [], []),
          History(false, false, [], None, false, false, false, false, false, false, false, false, false, false))
  }

  /** The parent always sends ok = '1' (src/namespace.c:360-361). */
  ghost predicate IsToken(token: seq<int>) {
    |token| == TOKEN_SIZE && token[0] == OK_BYTE
  }

  predicate IsOpen(s: State, e: End) {
    e in s.fds.parent || e in s.fds.child
  }

  // ---- Actions ----

  datatype Action =
    // parent
    | Attempt(ok: bool)        // the next fallible call succeeds or fails
    | CloseEnd(e: End)
    | Send(n: nat)
    | SendFails
    | TakeStatus
    | StatusEof
    | ReadFails
    | Kill
    | Wait
    | TakeErrno
    | ExecEof
    // child
    | Read(n: nat)
    | ReadEof
    | Proceed                  // the only thing the child can do next
    | Setup(o: Outcome)
    | Exec(o: Outcome)
    // outside
    | OutsideKill

  function After(todo: set<End>, next: ParentPc): ParentPc {
    if todo == {} then next else Close(todo, next)
  }

  const FAIL_KILL: ParentPc := Close({ContinueW, TriggerW, ExecR, StatusR}, KillChild)
  const STATUS_FAILED: ParentPc := Close({StatusR, TriggerW, ExecR}, WaitChild)

  function Goto(s: State, pc: ParentPc): State { s.(parent := pc) }

  function At(s: State, pc: ChildPc): State { s.(child := Alive(pc)) }

  function ChildCloses(s: State, e: End): State { s.(fds := s.fds.(child := s.fds.child - {e})) }

  /** The child's death closes whatever it still held. */
  function Dead(s: State): State {
    s.(child := if s.child.Alive? then Zombie else s.child, fds := s.fds.(child := {}))
  }

  /** The parent gives up over the child's status; 0 stands for no reason known. */
  function StatusFailed(s: State, errno: int): State {
    Goto(s, STATUS_FAILED).(log := s.log.(failure := Some(if errno == 0 then EPROTO else errno)))
  }

  /** namespace_start_container */
  function ParentNext(s: State, a: Action): Option<State> {
    match s.parent
    case OpenPipe(k) =>
      if !a.Attempt? || k >= 4 then None
      else if a.ok then
        Some(Goto(s.(fds := s.fds.(parent := s.fds.parent + PipeEnds(k), created := s.fds.created + PipeEnds(k))),
                  if k == 3 then SetCloexec else OpenPipe(k + 1)))
      else Some(Goto(s, After(MadeEnds(k), StartFailed)))
    case SetCloexec =>
      if !a.Attempt? then None
      else Some(Goto(s, if a.ok then CloneChild else Close(ALL_ENDS, StartFailed)))
    case CloneChild =>
      if !a.Attempt? then None
      else if a.ok then
        Some(Goto(s, Close({ExecW, StatusW, ContinueR, TriggerR}, WriteMaps))
             .(child := Alive(ReadToken), fds := s.fds.(child := s.fds.parent)))
      else Some(Goto(s, Close(ALL_ENDS, StartFailed)))
    case Close(todo, next) =>
      if !a.CloseEnd? || a.e !in todo then None
      else Some(Goto(s, After(todo - {a.e}, next))
                .(fds := s.fds.(parent := s.fds.parent - {a.e}, closes := s.fds.closes + multiset{a.e})))
    case WriteMaps =>
      if !a.Attempt? then None
      else if a.ok then Some(Goto(s, SetupNet).(log := s.log.(mapsWritten := true)))
      else Some(Goto(s, FAIL_KILL))
    case SetupNet =>
      if !a.Attempt? then None
      else if a.ok then Some(Goto(s, SendToken).(log := s.log.(netReady := true)))
      else Some(Goto(s, FAIL_KILL))
    case SendToken =>
      var p := s.pipes;
      if a.Send? && 0 < a.n <= |p.token| - p.sent then
        Some(Goto(s, if p.sent + a.n == |p.token| then Close({ContinueW}, AwaitStatus) else SendToken)
             .(pipes := p.(continuing := p.continuing + p.token[p.sent..p.sent + a.n], sent := p.sent + a.n)))
      else if a.SendFails? then Some(Goto(s, FAIL_KILL))
      else None
    case AwaitStatus =>
      var p := s.pipes;
      if a.TakeStatus? && p.status != [] then
        var t := s.(pipes := p.(status := p.status[1..]));
        if p.status[0].ready then Some(Goto(t, Close({StatusR}, Started)))
        else Some(StatusFailed(t, p.status[0].errno))
      else if a.StatusEof? && p.status == [] && !IsOpen(s, StatusW) then Some(StatusFailed(s, 0))
      else if a.ReadFails? then Some(StatusFailed(s.(log := s.log.(readFault := true)), 0))
      else None
    case KillChild => if a.Kill? then Some(Goto(Dead(s), WaitChild)) else None
    case WaitChild => if a.Wait? && s.child.Zombie? then Some(Goto(s, StartFailed).(child := Reaped)) else None
    case _ => None
  }

  /** start_container_by_id from the moment namespace_start_container returned 0,
      with namespace_trigger_exec and stop_container_process. */
  function ManagerNext(s: State, a: Action): Option<State> {
    match s.parent
    case Started =>
      if a.Proceed? then Some(Goto(s, ForwardPorts).(log := s.log.(markedRunning := true))) else None
    case ForwardPorts =>
      if !a.Attempt? then None
      else if a.ok then Some(Goto(s, SaveMetadata).(log := s.log.(portsForwarded := true)))
      else Some(Goto(s, StopChild))
    case SaveMetadata =>
      if !a.Attempt? then None
      else if a.ok then Some(Goto(s, WriteTrigger).(log := s.log.(metadataSaved := true)))
      else Some(Goto(s, StopChild))
    case WriteTrigger =>
      // with a reader present the one-byte write goes through; without one it fails
      if a.Attempt? && a.ok && IsOpen(s, TriggerR) then
        Some(Goto(s, Close({TriggerW}, AwaitExec))
             .(pipes := s.pipes.(trigger := s.pipes.trigger + [OK_BYTE]), log := s.log.(triggerSent := true)))
      else if a.Attempt? && !a.ok && !IsOpen(s, TriggerR) then
        Some(Goto(s, Close({TriggerW, ExecR}, Triggered(-1))))
      else None
    case AwaitExec =>
      if a.TakeErrno? && s.pipes.exec != [] then
        Some(Goto(s, Close({ExecR}, Triggered(-1))).(pipes := s.pipes.(exec := s.pipes.exec[1..])))
      else if a.ExecEof? && s.pipes.exec == [] && !IsOpen(s, ExecW) then
        Some(Goto(s, Close({ExecR}, Triggered(0))))
      else if a.ReadFails? then
        Some(Goto(s, Close({ExecR}, Triggered(-1))).(log := s.log.(readFault := true)))
      else None
    case Triggered(rc) => if a.Proceed? && rc != 0 then Some(Goto(s, StopChild)) else None
    case StopChild => if a.Kill? then Some(Goto(Dead(s), ReapChild)) else None
    case ReapChild => if a.Wait? && s.child.Zombie? then Some(Goto(s, ManagerFailed).(child := Reaped)) else None
    case _ => None
  }

  /** The k-th set-up step of the child ends in o. */
  function SetupNext(s: State, k: nat, step: SetupStep, o: Outcome): (t: State)
    ensures t == s.(child := t.child, log := s.log.(outcomes := s.log.outcomes + [Ran(step, o)])) && t.child.Alive?
    ensures t.child.pc.ReportFailure? || t.child.pc == RunSetup(k + 1) || t.child.pc.SendReady?
  {
    var t := s.(log := s.log.(outcomes := s.log.outcomes + [Ran(step, o)]));
    if Fatal(step, o) then At(t, ReportFailure(Reported(step, o.errno)))
    else At(t, if k + 1 == |SETUP| then SendReady else RunSetup(k + 1))
  }

  /** namespace_child */
  function ChildNext(s: State, a: Action): Option<State> {
    if !s.child.Alive? then None else
    var p := s.pipes;
    match s.child.pc
    case ReadToken =>
      if a.Read? && 0 < a.n <= |p.continuing| && |p.received| + a.n <= TOKEN_SIZE then
        Some(At(s, if |p.received| + a.n == TOKEN_SIZE then CloseContinue else ReadToken)
             .(pipes := p.(received := p.received + p.continuing[..a.n], continuing := p.continuing[a.n..])))
      else if a.ReadEof? && p.continuing == [] && !IsOpen(s, ContinueW) then Some(At(s, CloseContinue))
      else if a.ReadFails? then Some(At(s, CloseContinue).(log := s.log.(childFault := true)))
      else None
    case CloseContinue =>
      if !a.Proceed? then None
      else Some(At(ChildCloses(s, ContinueR),
                   if |p.received| < TOKEN_SIZE || p.received[0] != OK_BYTE then ReportFailure(EPROTO)
                   else RunSetup(0)))
    case RunSetup(k) =>
      if !a.Setup? || k >= |SETUP| then None
      else Some(SetupNext(s, k, SETUP[k], a.o))
    case ReportFailure(e) =>
      if !a.Proceed? then None
      else Some(At(s, CloseStatusFailed).(pipes := p.(status := p.status + [Status(false, e)])))
    case CloseStatusFailed => if a.Proceed? then Some(At(ChildCloses(s, StatusW), Exiting)) else None
    case SendReady =>
      if !a.Proceed? then None
      else Some(At(s, CloseStatus)
                .(pipes := p.(status := p.status + [Status(true, 0)]), log := s.log.(readySent := true)))
    case CloseStatus => if a.Proceed? then Some(At(ChildCloses(s, StatusW), AwaitTrigger)) else None
    case AwaitTrigger =>
      if a.Read? && a.n == 1 <= |p.trigger| then
        Some(At(s, CloseTrigger(p.trigger[0] == OK_BYTE)).(pipes := p.(trigger := p.trigger[1..])))
      else if a.ReadEof? && p.trigger == [] && !IsOpen(s, TriggerW) then Some(At(s, CloseTrigger(false)))
      else if a.ReadFails? then Some(At(s, CloseTrigger(false)).(log := s.log.(childFault := true)))
      else None
    case CloseTrigger(go) =>
      if a.Proceed? then Some(At(ChildCloses(s, TriggerR), if go then CallExec else Exiting)) else None
    case CallExec =>
      // success closes the close-on-exec end and leaves the other copies open
      if !a.Exec? then None
      else if a.o.Done? then
        Some(At(ChildCloses(s, ExecW), Payload).(log := s.log.(execCalled := true, execSucceeded := true)))
      else Some(At(s, SendErrno(a.o.errno)).(log := s.log.(execCalled := true)))
    case SendErrno(e) =>
      if a.Proceed? then Some(At(s, CloseExec).(pipes := p.(exec := p.exec + [e]))) else None
    case CloseExec => if a.Proceed? then Some(At(ChildCloses(s, ExecW), Exiting)) else None
    case Payload => if a.Proceed? then Some(Dead(s)) else None
    case Exiting => if a.Proceed? then Some(Dead(s)) else None
  }

  /** An outsider may kill the child whenever it lives. */
  function OutsideNext(s: State, a: Action): Option<State> {
    if a.OutsideKill? && s.child.Alive? then Some(Dead(s).(log := s.log.(outsideKill := true))) else None
  }

  datatype Actor = Parent | Manager | ChildProcess | Outsider

  function Next(s: State, who: Actor, a: Action): Option<State> {
    match who
    case Parent => ParentNext(s, a)
    case Manager => ManagerNext(s, a)
    case ChildProcess => ChildNext(s, a)
    case Outsider => OutsideNext(s, a)
  }

  ghost predicate Steps(s: State, t: State) {
    exists who, a :: Next(s, who, a) == Some(t)
  }

  /** A run: any interleaving from the initial state. */
  ghost predicate IsRun(run: seq<State>) {
    && run != []
    && (exists token :: IsToken(token) && run[0] == Init(token))
    && forall i, j :: 0 <= i && j == i + 1 < |run| ==> Steps(run[i], run[j])
  }
}
