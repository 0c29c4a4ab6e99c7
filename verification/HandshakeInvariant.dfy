/**
 What holds throughout every run of the start-up handshake, and that every step
 of manager, child and outsider keeps it.
 */
module HandshakeInvariant {
  import opened Base
  import opened Handshake

  // ---- Invariant ----

  /** The ends the parent holds at a program point. */
  function OpenAt(pc: ParentPc): set<End> {
    match pc
    case OpenPipe(k) => MadeEnds(k)
    case SetCloexec => ALL_ENDS
    case CloneChild => ALL_ENDS
    case Close(todo, next) => todo + OpenAt(next)
    case WriteMaps => {StatusR, ExecR, ContinueW, TriggerW}
    case SetupNet => {StatusR, ExecR, ContinueW, TriggerW}
    case SendToken => {StatusR, ExecR, ContinueW, TriggerW}
    case AwaitStatus => {StatusR, ExecR, TriggerW}
    case Started => {ExecR, TriggerW}
    case ForwardPorts => {ExecR, TriggerW}
    case SaveMetadata => {ExecR, TriggerW}
    case WriteTrigger => {ExecR, TriggerW}
    case AwaitExec => {ExecR}
    case _ => {}
  }

  ghost predicate WellFormed(pc: ParentPc) {
    match pc
    case OpenPipe(k) => k < 4
    case Close(todo, next) =>
      todo != {} && !next.Close? && todo !! OpenAt(next)
      && (next.WriteMaps? || next.AwaitStatus? || next.KillChild? || next.WaitChild? || next.StartFailed?
          || next.Started? || next.AwaitExec? || next == Triggered(0) || next == Triggered(-1))
    case Triggered(rc) => rc == 0 || rc == -1
    case _ => true
  }

  /** Where the parent is once pending closes are done. */
  function Goal(pc: ParentPc): ParentPc { if pc.Close? then pc.next else pc }

  /** StopChild is entered with both ends still open from two of its callers. */
  predicate Stopping(pc: ParentPc) { pc.StopChild? || pc.ReapChild? || pc.ManagerFailed? }

  /** Inside or after namespace_trigger_exec. */
  predicate Triggering(pc: ParentPc) {
    Goal(pc).WriteTrigger? || Goal(pc).AwaitExec? || Goal(pc).Triggered?
  }

  /** The manager holds a started container: everything from a ready status on. */
  predicate ManagerPhase(pc: ParentPc) {
    Goal(pc).Started? || Goal(pc).ForwardPorts? || Goal(pc).SaveMetadata? || Triggering(pc) || Stopping(pc)
  }

  ghost predicate DescriptorInv(s: State) {
    && WellFormed(s.parent)
    && s.fds.parent <= s.fds.created
    && (Stopping(s.parent) ==> s.fds.parent == if s.log.metadataSaved then {} else {ExecR, TriggerW})
    && (Triggering(s.parent) ==> s.log.metadataSaved)
    && (!Triggering(s.parent) && !Stopping(s.parent) ==> !s.log.metadataSaved)
    && (!Stopping(s.parent) ==> s.fds.parent == OpenAt(s.parent))
    && (forall e :: s.fds.closes[e] == if e in s.fds.created && e !in s.fds.parent then 1 else 0)
    && (!s.parent.OpenPipe? && Goal(s.parent) != StartFailed ==> s.fds.created == ALL_ENDS)
    && (s.parent.OpenPipe? ==> s.fds.created == s.fds.parent)
  }

  /** The ends the child has closed itself. */
  function ChildClosed(pc: ChildPc): set<End> {
    match pc
    case ReadToken => {}
    case CloseContinue => {}
    case RunSetup(_) => {ContinueR}
    case ReportFailure(_) => {ContinueR}
    case CloseStatusFailed => {ContinueR}
    case SendReady => {ContinueR}
    case CloseStatus => {ContinueR}
    case AwaitTrigger => {ContinueR, StatusW}
    case CloseTrigger(_) => {ContinueR, StatusW}
    case CallExec => {ContinueR, StatusW, TriggerR}
    case SendErrno(_) => {ContinueR, StatusW, TriggerR}
    case CloseExec => {ContinueR, StatusW, TriggerR}
    case Payload => {ContinueR, StatusW, TriggerR, ExecW}
    case Exiting => {}
  }

  ghost predicate ChildDescriptorInv(s: State) {
    && (!s.child.Alive? ==> s.fds.child == {})
    && (s.child.Alive? && !s.child.pc.Exiting? ==> s.fds.child == ALL_ENDS - ChildClosed(s.child.pc))
    && (s.child.Alive? && s.child.pc.Exiting? ==>
          StatusW !in s.fds.child && (s.log.readySent ==> TriggerR !in s.fds.child))
  }

  predicate BeforeClone(pc: ParentPc) { pc.OpenPipe? || pc.SetCloexec? || pc.CloneChild? }

  predicate SetupPhase(pc: ParentPc) {
    (Goal(pc).WriteMaps? || Goal(pc).SetupNet? || Goal(pc).SendToken? || Goal(pc).KillChild?)
  }

  ghost predicate TokenInv(s: State) {
    && IsToken(s.pipes.token)
    && s.pipes.sent <= |s.pipes.token|
    && s.pipes.received + s.pipes.continuing == s.pipes.token[..s.pipes.sent]
    && (s.pipes.sent > 0 || Goal(s.parent).SendToken? ==> s.log.mapsWritten && s.log.netReady)
    && (s.parent.SetupNet? ==> s.log.mapsWritten)
    && (BeforeClone(s.parent) ==> s.child.NotCloned? && s.pipes.sent == 0)
    && (s.parent.SendToken? ==> s.pipes.sent < |s.pipes.token|)
    && (Goal(s.parent).AwaitStatus? || ManagerPhase(s.parent) ==> s.pipes.sent == |s.pipes.token|)
    && ((Goal(s.parent).WriteMaps? || Goal(s.parent).SetupNet?) ==> s.pipes.sent == 0)
    && (s.child.NotCloned? ==> s.pipes.sent == 0 && (BeforeClone(s.parent) || Goal(s.parent).StartFailed?))
    && (s.child.Alive? && s.child.pc.ReadToken? ==> |s.pipes.received| < TOKEN_SIZE)
    && (s.child.Alive? && s.child.pc.CloseContinue? && !s.log.childFault ==> |s.pipes.received| == TOKEN_SIZE)
  }

  /** What the child has achieved at a program point. */
  ghost predicate ChildInv(s: State) {
    && (s.log.readySent ==> s.pipes.received == s.pipes.token)
    && (s.child.NotCloned? ==> !s.log.readySent && s.pipes.status == [] && s.pipes.exec == [])
    && (s.child.Alive? ==>
          match s.child.pc
          case ReadToken => !s.log.readySent && s.pipes.status == []
          case CloseContinue => !s.log.readySent && s.pipes.status == []
          case RunSetup(k) =>
            s.pipes.received == s.pipes.token && k < |SETUP| && !s.log.readySent && s.pipes.status == []
          case SendReady => s.pipes.received == s.pipes.token && !s.log.readySent && s.pipes.status == []
          case ReportFailure(_) => !s.log.readySent && s.pipes.status == []
          case CloseStatusFailed => !s.log.readySent
          case Exiting => true
          case _ => s.log.readySent)
    && (forall i :: 0 <= i < |s.pipes.status| ==> s.pipes.status[i].ready ==> s.log.readySent)
    && (ManagerPhase(s.parent) ==> s.log.readySent)
    && (SetupPhase(s.parent) || Goal(s.parent).AwaitStatus? || BeforeClone(s.parent) ==> !s.child.Reaped?)
  }

  ghost predicate TriggerInv(s: State) {
    && (s.log.markedRunning ==> ManagerPhase(s.parent))
    && (s.log.metadataSaved ==> s.log.markedRunning && s.log.portsForwarded)
    && (s.parent.SaveMetadata? ==> s.log.portsForwarded)
    && ((Goal(s.parent).ForwardPorts? || Goal(s.parent).SaveMetadata? || Goal(s.parent).WriteTrigger? || Goal(s.parent).AwaitExec?) ==> s.log.markedRunning)
    && ((Goal(s.parent).WriteTrigger? || Goal(s.parent).AwaitExec?) ==> s.log.metadataSaved)
    && (s.log.triggerSent ==> s.log.metadataSaved)
    && (s.parent.WriteTrigger? ==> !s.log.triggerSent)
    && ((Goal(s.parent).Started? || Goal(s.parent).ForwardPorts? || Goal(s.parent).SaveMetadata?) ==> !s.log.triggerSent)
    && (s.pipes.trigger != [] ==> s.pipes.trigger == [OK_BYTE] && s.log.triggerSent)
    && (Goal(s.parent).AwaitExec? || Goal(s.parent) == Triggered(0) ==> s.log.triggerSent)
    && (s.log.execCalled ==> s.log.triggerSent && s.log.readySent)
    && (s.log.execSucceeded ==> s.log.execCalled)
    && (s.child.Alive? ==>
          match s.child.pc
          case CloseTrigger(go) =>
            !s.log.execCalled && if go then s.log.triggerSent && s.pipes.trigger == [] else s.log.childFault
          case CallExec => s.log.triggerSent && s.pipes.trigger == [] && !s.log.execCalled
          case Payload => s.log.execSucceeded
          case SendErrno(_) => s.log.execCalled && !s.log.execSucceeded
          case CloseExec => s.log.execCalled && !s.log.execSucceeded
          case Exiting => s.log.readySent ==> s.log.childFault || (s.log.execCalled && !s.log.execSucceeded)
          case AwaitTrigger => !s.log.execCalled && (s.log.triggerSent ==> s.pipes.trigger == [OK_BYTE])
          case CloseStatus => !s.log.execCalled && (s.log.triggerSent ==> s.pipes.trigger == [OK_BYTE])
          case _ => !s.log.execCalled && !s.log.triggerSent)
  }

  /** What an empty or a filled exec-error pipe tells the manager. */
  ghost predicate ExecInv(s: State) {
    && (s.pipes.exec != [] ==> s.log.execCalled && !s.log.execSucceeded)
    && (Goal(s.parent).AwaitExec? && s.log.execCalled && !s.log.execSucceeded && !s.log.outsideKill ==>
          s.pipes.exec != [] || (s.child.Alive? && s.child.pc.SendErrno?))
    && (s.child.Zombie? && s.log.readySent && !s.parent.WaitChild? && !s.parent.ReapChild? ==>
          s.log.execCalled || s.log.outsideKill || s.log.childFault)
    && (ManagerPhase(s.parent) && !Stopping(s.parent) ==> s.child.Alive? || s.child.Zombie?)
    && (Goal(s.parent) == Triggered(0) && !s.log.outsideKill && !s.log.childFault ==> s.log.execSucceeded)
    && (Goal(s.parent) == Triggered(-1) && !s.log.outsideKill && !s.log.readFault && !s.log.childFault ==>
          s.log.execCalled && !s.log.execSucceeded)
  }

  /** A failed start leaves no child behind. */
  ghost predicate FailureInv(s: State) {
    && (s.parent.WaitChild? || Goal(s.parent).WaitChild? ==> !s.child.NotCloned? && !s.child.Reaped?)
    && (s.parent.StartFailed? && !s.child.NotCloned? ==> s.child.Reaped? && s.fds.created == ALL_ENDS)
    && (Goal(s.parent).StartFailed? && s.parent.Close? ==> s.child.NotCloned?)
    && ((Goal(s.parent).WaitChild? || Goal(s.parent).KillChild? || Goal(s.parent).StartFailed?) ==> !s.log.triggerSent)
    && (s.parent.ManagerFailed? ==> s.child.Reaped?)
    && (s.child.Reaped? ==> (s.parent.StartFailed? || s.parent.ManagerFailed?))
  }

  predicate GivingUp(c: Child) {
    c.Zombie? || c == Alive(CloseStatusFailed) || c == Alive(Exiting)
  }

  /** What keeps the two processes from waiting for each other. */
  ghost predicate ProgressInv(s: State) {
    && (SetupPhase(s.parent) || Goal(s.parent).AwaitStatus? ==>
          && (s.log.readySent ==> s.pipes.status == [Status(true, 0)])
          && (!s.log.readySent && s.pipes.status != [] ==> !s.pipes.status[0].ready && GivingUp(s.child)))
    && (Goal(s.parent).WaitChild? && !s.log.readFault ==> GivingUp(s.child))
    && (Goal(s.parent).WaitChild? && s.child.Alive? ==> s.pipes.sent == |s.pipes.token|)
    && (s.parent.StopChild? ==> s.child.Alive? || s.child.Zombie?)
    && (s.parent.ReapChild? ==> s.child.Zombie?)
    && (BeforeClone(s.parent) ==> s.pipes.status == [])
  }

  ghost predicate Inv(s: State) {
    DescriptorInv(s) && ChildDescriptorInv(s) && TokenInv(s) && ChildInv(s) && TriggerInv(s)
    && ExecInv(s) && FailureInv(s) && ProgressInv(s)
  }

  /** It holds in every state of every run. */
  lemma {:induction false} RunKeeps(run: seq<State>, i: nat)
    requires IsRun(run) && i < |run|
    ensures Inv(run[i])
  {
    if i > 0 {
      hide Inv, Steps;
      RunKeeps(run, i - 1);
      StepKeeps(run[i - 1], run[i]);
    }
  }

  // ---- The invariant is kept, one program point at a time ----

  lemma OpenPipeKeeps(s: State, a: Action, t: State)
    requires Inv(s) && s.parent.OpenPipe? && ParentNext(s, a) == Some(t)
    ensures Inv(t)
  {
    hide DescriptorInv;
    OpenPipeDescriptors(s, a, t);
  }

  lemma OpenPipeDescriptors(s: State, a: Action, t: State)
    requires DescriptorInv(s) && s.parent.OpenPipe? && ParentNext(s, a) == Some(t)
    ensures DescriptorInv(t)
  {
    var k := s.parent.made;
    assert MadeEnds(k) + PipeEnds(k) == MadeEnds(k + 1);
  }

  lemma SetCloexecKeeps(s: State, a: Action, t: State)
    requires Inv(s) && s.parent.SetCloexec? && ParentNext(s, a) == Some(t)
    ensures Inv(t)
  {
  }

  lemma CloneChildKeeps(s: State, a: Action, t: State)
    requires Inv(s) && s.parent.CloneChild? && ParentNext(s, a) == Some(t)
    ensures Inv(t)
  {
    CloneChildDescriptors(s, a, t);
  }

  lemma CloneChildDescriptors(s: State, a: Action, t: State)
    requires DescriptorInv(s) && s.parent.CloneChild? && ParentNext(s, a) == Some(t)
    ensures DescriptorInv(t)
  {
  }

  lemma CloseKeeps(s: State, a: Action, t: State)
    requires Inv(s) && s.parent.Close? && ParentNext(s, a) == Some(t)
    ensures Inv(t)
  {
    CloseDescriptors(s, a, t);
  }

  lemma CloseDescriptors(s: State, a: Action, t: State)
    requires DescriptorInv(s) && s.parent.Close? && ParentNext(s, a) == Some(t)
    ensures DescriptorInv(t)
  {
  }

  lemma WriteMapsKeeps(s: State, a: Action, t: State)
    requires Inv(s) && s.parent.WriteMaps? && ParentNext(s, a) == Some(t)
    ensures Inv(t)
  {
    WriteMapsDescriptors(s, a, t);
  }

  lemma WriteMapsDescriptors(s: State, a: Action, t: State)
    requires DescriptorInv(s) && s.parent.WriteMaps? && ParentNext(s, a) == Some(t)
    ensures DescriptorInv(t)
  {
  }

  lemma SetupNetKeeps(s: State, a: Action, t: State)
    requires Inv(s) && s.parent.SetupNet? && ParentNext(s, a) == Some(t)
    ensures Inv(t)
  {
    SetupNetDescriptors(s, a, t);
  }

  lemma SetupNetDescriptors(s: State, a: Action, t: State)
    requires DescriptorInv(s) && s.parent.SetupNet? && ParentNext(s, a) == Some(t)
    ensures DescriptorInv(t)
  {
  }

  lemma SendTokenKeeps(s: State, a: Action, t: State)
    requires Inv(s) && s.parent.SendToken? && ParentNext(s, a) == Some(t)
    ensures Inv(t)
  {
    SendTokenDescriptors(s, a, t);
  }

  lemma SendTokenDescriptors(s: State, a: Action, t: State)
    requires DescriptorInv(s) && s.parent.SendToken? && ParentNext(s, a) == Some(t)
    ensures DescriptorInv(t)
  {
  }

  lemma AwaitStatusKeeps(s: State, a: Action, t: State)
    requires Inv(s) && s.parent.AwaitStatus? && ParentNext(s, a) == Some(t)
    ensures Inv(t)
  {
    hide DescriptorInv, ChildDescriptorInv, TokenInv, ChildInv, TriggerInv, ExecInv, FailureInv, ProgressInv;
    AwaitStatusDescriptors(s, a, t);
    AwaitStatusChild(s, a, t);
    AwaitStatusRest(s, a, t);
  }

  lemma AwaitStatusChild(s: State, a: Action, t: State)
    requires Inv(s) && s.parent.AwaitStatus? && ParentNext(s, a) == Some(t)
    ensures ChildInv(t)
  {
    hide DescriptorInv, ChildDescriptorInv, TokenInv, TriggerInv, ExecInv, FailureInv, ProgressInv, IsOpen;
  }

  lemma AwaitStatusRest(s: State, a: Action, t: State)
    requires Inv(s) && s.parent.AwaitStatus? && ParentNext(s, a) == Some(t)
    ensures ChildDescriptorInv(t) && TokenInv(t) && TriggerInv(t) && ExecInv(t) && FailureInv(t) && ProgressInv(t)
  {
    hide DescriptorInv;
  }

  lemma AwaitStatusDescriptors(s: State, a: Action, t: State)
    requires DescriptorInv(s) && s.parent.AwaitStatus? && ParentNext(s, a) == Some(t)
    ensures DescriptorInv(t)
  {
  }

  lemma ReapKeeps(s: State, a: Action, t: State)
    requires Inv(s) && (s.parent.KillChild? || s.parent.WaitChild?) && ParentNext(s, a) == Some(t)
    ensures Inv(t)
  {
  }

  lemma PublishKeeps(s: State, a: Action, t: State)
    requires Inv(s) && (s.parent.Started? || s.parent.ForwardPorts?) && ManagerNext(s, a) == Some(t)
    ensures Inv(t)
  {
  }

  lemma SaveMetadataKeeps(s: State, a: Action, t: State)
    requires Inv(s) && s.parent.SaveMetadata? && ManagerNext(s, a) == Some(t)
    ensures Inv(t)
  {
  }

  lemma WriteTriggerKeeps(s: State, a: Action, t: State)
    requires Inv(s) && s.parent.WriteTrigger? && ManagerNext(s, a) == Some(t)
    ensures Inv(t)
  {
    WriteTriggerDescriptors(s, a, t);
  }

  lemma WriteTriggerDescriptors(s: State, a: Action, t: State)
    requires DescriptorInv(s) && s.parent.WriteTrigger? && ManagerNext(s, a) == Some(t)
    ensures DescriptorInv(t)
  {
  }

  lemma AwaitExecKeeps(s: State, a: Action, t: State)
    requires Inv(s) && s.parent.AwaitExec? && ManagerNext(s, a) == Some(t)
    ensures Inv(t)
  {
    AwaitExecDescriptors(s, a, t);
  }

  lemma AwaitExecDescriptors(s: State, a: Action, t: State)
    requires DescriptorInv(s) && s.parent.AwaitExec? && ManagerNext(s, a) == Some(t)
    ensures DescriptorInv(t)
  {
  }

  lemma GiveUpKeeps(s: State, a: Action, t: State)
    requires Inv(s) && (s.parent.Triggered? || s.parent.StopChild? || s.parent.ReapChild?) && ManagerNext(s, a) == Some(t)
    ensures Inv(t)
  {
  }

  lemma ReadTokenKeeps(s: State, a: Action, t: State)
    requires Inv(s) && s.child.Alive? && s.child.pc.ReadToken? && ChildNext(s, a) == Some(t)
    ensures Inv(t)
  {
    hide DescriptorInv;
    ReadTokenDescriptors(s, a, t);
  }

  lemma ReadTokenDescriptors(s: State, a: Action, t: State)
    requires DescriptorInv(s) && ChildDescriptorInv(s)
    requires s.child.Alive? && s.child.pc.ReadToken? && ChildNext(s, a) == Some(t)
    ensures DescriptorInv(t) && ChildDescriptorInv(t)
  {
  }

  lemma CloseContinueKeeps(s: State, a: Action, t: State)
    requires Inv(s) && s.child.Alive? && s.child.pc.CloseContinue? && ChildNext(s, a) == Some(t)
    ensures Inv(t)
  {
  }

  lemma RunSetupKeeps(s: State, a: Action, t: State)
    requires Inv(s) && s.child.Alive? && s.child.pc.RunSetup? && ChildNext(s, a) == Some(t)
    ensures Inv(t)
  {
    hide DescriptorInv, ChildDescriptorInv;
    RunSetupDescriptors(s, a, t);
  }

  lemma RunSetupDescriptors(s: State, a: Action, t: State)
    requires DescriptorInv(s) && ChildDescriptorInv(s)
    requires s.child.Alive? && s.child.pc.RunSetup? && ChildNext(s, a) == Some(t)
    ensures DescriptorInv(t) && ChildDescriptorInv(t)
  {
  }

  lemma ChildReportsKeeps(s: State, a: Action, t: State)
    requires Inv(s) && s.child.Alive? && (s.child.pc.ReportFailure? || s.child.pc.CloseStatusFailed? || s.child.pc.SendReady? || s.child.pc.CloseStatus?) && ChildNext(s, a) == Some(t)
    ensures Inv(t)
  {
  }

  lemma AwaitTriggerKeeps(s: State, a: Action, t: State)
    requires Inv(s) && s.child.Alive? && s.child.pc.AwaitTrigger? && ChildNext(s, a) == Some(t)
    ensures Inv(t)
  {
    hide DescriptorInv;
    AwaitTriggerDescriptors(s, a, t);
  }

  lemma AwaitTriggerDescriptors(s: State, a: Action, t: State)
    requires DescriptorInv(s) && ChildDescriptorInv(s)
    requires s.child.Alive? && s.child.pc.AwaitTrigger? && ChildNext(s, a) == Some(t)
    ensures DescriptorInv(t) && ChildDescriptorInv(t)
  {
  }

  lemma CloseTriggerKeeps(s: State, a: Action, t: State)
    requires Inv(s) && s.child.Alive? && s.child.pc.CloseTrigger? && ChildNext(s, a) == Some(t)
    ensures Inv(t)
  {
  }

  lemma CallExecKeeps(s: State, a: Action, t: State)
    requires Inv(s) && s.child.Alive? && s.child.pc.CallExec? && ChildNext(s, a) == Some(t)
    ensures Inv(t)
  {
    hide DescriptorInv, ChildDescriptorInv;
    CallExecDescriptors(s, a, t);
  }

  lemma CallExecDescriptors(s: State, a: Action, t: State)
    requires DescriptorInv(s) && ChildDescriptorInv(s)
    requires s.child.Alive? && s.child.pc.CallExec? && ChildNext(s, a) == Some(t)
    ensures DescriptorInv(t) && ChildDescriptorInv(t)
  {
  }

  lemma ChildEndsKeeps(s: State, a: Action, t: State)
    requires Inv(s) && s.child.Alive? && (s.child.pc.Payload? || s.child.pc.SendErrno? || s.child.pc.CloseExec? || s.child.pc.Exiting?) && ChildNext(s, a) == Some(t)
    ensures Inv(t)
  {
  }

  lemma OutsideKillKeeps(s: State, a: Action, t: State)
    requires Inv(s) && OutsideNext(s, a) == Some(t)
    ensures Inv(t)
  {
  }

  lemma ParentKeeps(s: State, a: Action, t: State)
    requires Inv(s) && ParentNext(s, a) == Some(t)
    ensures Inv(t)
  {
    match s.parent
    case OpenPipe(_) => OpenPipeKeeps(s, a, t);
    case SetCloexec => SetCloexecKeeps(s, a, t);
    case CloneChild => CloneChildKeeps(s, a, t);
    case Close(_, _) => CloseKeeps(s, a, t);
    case WriteMaps => WriteMapsKeeps(s, a, t);
    case SetupNet => SetupNetKeeps(s, a, t);
    case SendToken => SendTokenKeeps(s, a, t);
    case AwaitStatus => AwaitStatusKeeps(s, a, t);
    case KillChild => ReapKeeps(s, a, t);
    case WaitChild => ReapKeeps(s, a, t);
    case _ =>
  }

  lemma ManagerKeeps(s: State, a: Action, t: State)
    requires Inv(s) && ManagerNext(s, a) == Some(t)
    ensures Inv(t)
  {
    match s.parent
    case Started => PublishKeeps(s, a, t);
    case ForwardPorts => PublishKeeps(s, a, t);
    case SaveMetadata => SaveMetadataKeeps(s, a, t);
    case WriteTrigger => WriteTriggerKeeps(s, a, t);
    case AwaitExec => AwaitExecKeeps(s, a, t);
    case Triggered(_) => GiveUpKeeps(s, a, t);
    case StopChild => GiveUpKeeps(s, a, t);
    case ReapChild => GiveUpKeeps(s, a, t);
    case _ =>
  }

  lemma ChildKeeps(s: State, a: Action, t: State)
    requires Inv(s) && ChildNext(s, a) == Some(t)
    ensures Inv(t)
  {
    match s.child.pc
    case ReadToken => ReadTokenKeeps(s, a, t);
    case CloseContinue => CloseContinueKeeps(s, a, t);
    case RunSetup(_) => RunSetupKeeps(s, a, t);
    case ReportFailure(_) => ChildReportsKeeps(s, a, t);
    case CloseStatusFailed => ChildReportsKeeps(s, a, t);
    case SendReady => ChildReportsKeeps(s, a, t);
    case CloseStatus => ChildReportsKeeps(s, a, t);
    case AwaitTrigger => AwaitTriggerKeeps(s, a, t);
    case CloseTrigger(_) => CloseTriggerKeeps(s, a, t);
    case CallExec => CallExecKeeps(s, a, t);
    case Payload => ChildEndsKeeps(s, a, t);
    case SendErrno(_) => ChildEndsKeeps(s, a, t);
    case CloseExec => ChildEndsKeeps(s, a, t);
    case Exiting => ChildEndsKeeps(s, a, t);
  }

  lemma StepKeeps(s: State, t: State)
    requires Inv(s) && Steps(s, t)
    ensures Inv(t)
  {
    var who, a :| Next(s, who, a) == Some(t);
    match who
    case Parent => ParentKeeps(s, a, t);
    case Manager => ManagerKeeps(s, a, t);
    case ChildProcess => ChildKeeps(s, a, t);
    case Outsider => OutsideKillKeeps(s, a, t);
  }
}
