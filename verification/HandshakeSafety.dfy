/** What the start-up handshake guarantees, read off its invariant. */
module HandshakeSafety {
  import opened Base
  import opened Handshake
  import opened HandshakeInvariant

  // ---- Main results ----

  /** The whole hand-over has happened. */
  ghost predicate FullyPrepared(s: State) {
    && s.log.mapsWritten && s.log.netReady
    && s.pipes.received == s.pipes.token && |s.pipes.token| == TOKEN_SIZE && s.pipes.token[0] == OK_BYTE
    && s.log.readySent && s.log.markedRunning && s.log.portsForwarded && s.log.metadataSaved && s.log.triggerSent
  }

  /** What the child tolerates: success, a /proc that cannot be remounted (EINVAL)
      and a loopback it may not touch (EPERM). */
  predicate Tolerated(r: Ran) {
    r.o.Done? || r == Ran(RemountProc, Failed(22)) || r == Ran(Loopback, Failed(1))
  }

  /** All eight set-up steps were run, in this order, with these results. */
  ghost predicate SetUp(outcomes: seq<Ran>) {
    && |outcomes| == 8
    && outcomes[0] == Ran(BecomeRoot, Done)
    && outcomes[1] == Ran(SetHostname, Done)
    && outcomes[2] == Ran(IsolateRootfs, Done)
    && (outcomes[3] == Ran(RemountProc, Done) || outcomes[3] == Ran(RemountProc, Failed(22)))
    && (outcomes[4] == Ran(Loopback, Done) || outcomes[4] == Ran(Loopback, Failed(1)))
    && outcomes[5] == Ran(BuildArgv, Done)
    && outcomes[6] == Ran(ApplyLimits, Done)
    && outcomes[7] == Ran(SetProcessGroup, Done)
  }

  /** The child stands at execvp, and is past it, only when the whole hand-over has happened. */
  lemma ExecOnlyWhenPrepared(run: seq<State>, i: nat)
    requires IsRun(run) && i < |run|
    requires run[i].child == Alive(CallExec) || run[i].log.execCalled
    ensures FullyPrepared(run[i]) && SetUp(run[i].log.outcomes)
  {
    RunKeeps(run, i);
    RunSetsUp(run, i);
    AllPassed(run[i].log.outcomes);
    hide Passed, SetUp, DescriptorInv, ExecInv, FailureInv, ProgressInv;
    assert run[i].pipes.token[..run[i].pipes.sent] == run[i].pipes.received + run[i].pipes.continuing;
  }

  /** A start that fails on the child's status names the reason: the error number is
      that of the one set-up result the child does not tolerate, which is the
      last one it ran, or EPROTO (71) when there is none to name. */
  lemma FailureNamesTheReason(run: seq<State>, i: nat)
    requires IsRun(run) && i < |run| && run[i].log.failure.Some?
    ensures var e, ran := run[i].log.failure.value, run[i].log.outcomes;
            e == 71 || (ran != [] && !Tolerated(ran[|ran| - 1]) && ran[|ran| - 1].o.Failed?
                        && (forall j :: 0 <= j < |ran| - 1 ==> Tolerated(ran[j]))
                        && e == ran[|ran| - 1].o.errno + if ran[|ran| - 1].step.ApplyLimits? then 10000 else 0)
  {
    RunSetsUp(run, i);
  }

  lemma AllPassed(outcomes: seq<Ran>)
    ensures Passed(outcomes, |SETUP|) ==> SetUp(outcomes)
  {
  }

  // ---- Set-up ----

  /** The first k steps went well. */
  ghost predicate Passed(outcomes: seq<Ran>, k: nat) {
    |outcomes| == k <= |SETUP| && forall i :: 0 <= i < k ==> outcomes[i].step == SETUP[i] && Tolerated(outcomes[i])
  }

  /** Why a child reports error e: the token was no good, or its last step failed. */
  ghost predicate Reason(outcomes: seq<Ran>, e: int) {
    || (outcomes == [] && e == EPROTO)
    || (&& outcomes != [] && !Tolerated(outcomes[|outcomes| - 1]) && outcomes[|outcomes| - 1].o.Failed?
        && (forall i :: 0 <= i < |outcomes| - 1 ==> Tolerated(outcomes[i]))
        && e == Reported(outcomes[|outcomes| - 1].step, outcomes[|outcomes| - 1].o.errno))
  }

  ghost predicate SetupInv(s: State) {
    && (s.log.readySent ==> Passed(s.log.outcomes, |SETUP|))
    && (s.child.NotCloned? || (s.child.Alive? && (s.child.pc.ReadToken? || s.child.pc.CloseContinue?)) ==>
          s.log.outcomes == [])
    && (s.child.NotCloned? || (s.child.Alive? && SettingUp(s.child.pc)) ==>
          s.pipes.status == [] && (s.log.failure.None? || s.log.failure == Some(EPROTO)))
    && (s.child.Alive? && s.child.pc.RunSetup? ==> Passed(s.log.outcomes, s.child.pc.k))
    && (s.child.Alive? && s.child.pc.SendReady? ==> Passed(s.log.outcomes, |SETUP|))
    && (s.child.Alive? && s.child.pc.ReportFailure? ==> Reason(s.log.outcomes, s.child.pc.errno))
    && (forall i :: 0 <= i < |s.pipes.status| && !s.pipes.status[i].ready ==> Reason(s.log.outcomes, s.pipes.status[i].errno))
    && (s.log.failure.Some? ==> s.log.failure == Some(EPROTO) || Reason(s.log.outcomes, s.log.failure.value))
  }

  predicate SettingUp(pc: ChildPc) { pc.ReadToken? || pc.CloseContinue? || pc.RunSetup? }

  /** Nothing that matters here changes, except that the child may get past its report or die. */
  predicate SameSetup(s: State, t: State) {
    && t.log.outcomes == s.log.outcomes && t.log.failure == s.log.failure && t.log.readySent == s.log.readySent
    && t.pipes.status == s.pipes.status
    && (t.child.NotCloned? ==> s.child.NotCloned?)
    && (t.child.Alive? && Early(t.child.pc) ==> t.child == s.child)
  }

  lemma SameSetupKeeps(s: State, t: State)
    requires SetupInv(s) && SameSetup(s, t)
    ensures SetupInv(t)
  {
    hide Passed, Reason;
  }

  lemma ParentSetsUp(s: State, a: Action, t: State)
    requires SetupInv(s) && TokenInv(s) && ParentNext(s, a) == Some(t)
    ensures SetupInv(t)
  {
    hide SetupInv, TokenInv, SameSetup, ParentNext;
    if s.parent.AwaitStatus? || s.parent.CloneChild? {
      StatusSetsUp(s, a, t);
    } else {
      ParentLeavesSetup(s, a, t);
      SameSetupKeeps(s, t);
    }
  }

  lemma ParentLeavesSetup(s: State, a: Action, t: State)
    requires ParentNext(s, a) == Some(t) && !s.parent.AwaitStatus? && !s.parent.CloneChild?
    ensures SameSetup(s, t)
  {
    hide IsOpen, Early;
    match s.parent
    case OpenPipe(_) =>
    case SetCloexec =>
    case Close(_, _) =>
    case WriteMaps =>
    case SetupNet =>
    case SendToken =>
    case KillChild =>
    case WaitChild =>
    case _ =>
  }

  lemma StatusSetsUp(s: State, a: Action, t: State)
    requires SetupInv(s) && TokenInv(s) && ParentNext(s, a) == Some(t) && (s.parent.AwaitStatus? || s.parent.CloneChild?)
    ensures SetupInv(t)
  {
    hide Passed, Reason;
  }

  lemma ManagerSetsUp(s: State, a: Action, t: State)
    requires SetupInv(s) && ManagerNext(s, a) == Some(t)
    ensures SetupInv(t)
  {
    hide SetupInv, SameSetup, ManagerNext;
    ManagerLeavesSetup(s, a, t);
    SameSetupKeeps(s, t);
  }

  lemma ManagerLeavesSetup(s: State, a: Action, t: State)
    requires ManagerNext(s, a) == Some(t)
    ensures SameSetup(s, t)
  {
    hide IsOpen;
    match s.parent
    case Started =>
    case ForwardPorts =>
    case SaveMetadata =>
    case WriteTrigger =>
    case AwaitExec =>
    case Triggered(_) =>
    case StopChild =>
    case ReapChild =>
    case _ =>
  }

  lemma ChildSetsUp(s: State, a: Action, t: State)
    requires SetupInv(s) && ChildInv(s) && ChildNext(s, a) == Some(t)
    ensures SetupInv(t)
  {
    hide SetupInv, ChildInv, ChildNext, SameSetup;
    assert s.child.Alive? by { OnlyTheLivingMove(s, a); }
    if s.child.pc.RunSetup? {
      SetupStepKeeps(s, a, t);
    } else if Early(s.child.pc) {
      EarlyChildSetsUp(s, a, t);
    } else {
      LateChildSetsUp(s, a, t);
      SameSetupKeeps(s, t);
    }
  }

  lemma OnlyTheLivingMove(s: State, a: Action)
    requires ChildNext(s, a).Some?
    ensures s.child.Alive?
  {
  }

  predicate Early(pc: ChildPc) { SettingUp(pc) || pc.SendReady? || pc.ReportFailure? }

  lemma LateChildSetsUp(s: State, a: Action, t: State)
    requires s.child.Alive? && !Early(s.child.pc) && ChildNext(s, a) == Some(t)
    ensures SameSetup(s, t)
  {
    hide SetupNext, IsOpen;
    match s.child.pc
    case CloseStatusFailed =>
    case CloseStatus =>
    case AwaitTrigger =>
    case CloseTrigger(_) =>
    case CallExec =>
    case Payload =>
    case SendErrno(_) =>
    case CloseExec =>
    case Exiting =>
    case _ =>
  }

  lemma EarlyChildSetsUp(s: State, a: Action, t: State)
    requires SetupInv(s) && ChildInv(s) && s.child.Alive? && ChildNext(s, a) == Some(t)
    requires Early(s.child.pc) && !s.child.pc.RunSetup?
    ensures SetupInv(t)
  {
    hide Tolerated, Fatal;
  }

  lemma SetupStepKeeps(s: State, a: Action, t: State)
    requires SetupInv(s) && ChildInv(s) && s.child.Alive? && s.child.pc.RunSetup? && ChildNext(s, a) == Some(t)
    ensures SetupInv(t)
  {
    hide Passed, Reason, Tolerated, Fatal, Reported;
    var k, was, now := s.child.pc.k, s.log.outcomes, t.log.outcomes;
    OneMore(was, k, a.o);
  }

  lemma OneMore(was: seq<Ran>, k: nat, o: Outcome)
    requires Passed(was, k) && k < |SETUP|
    ensures var now := was + [Ran(SETUP[k], o)];
            if Fatal(SETUP[k], o) then Reason(now, Reported(SETUP[k], o.errno)) else Passed(now, k + 1)
  {
    var now := was + [Ran(SETUP[k], o)];
    forall i | 0 <= i < k ensures now[i] == was[i] {
    }
  }

  lemma StepSetsUp(s: State, t: State)
    requires Inv(s) && SetupInv(s) && Steps(s, t)
    ensures SetupInv(t)
  {
    hide SetupInv, TokenInv, ChildInv, TriggerInv, ExecInv;
    var who, a :| Next(s, who, a) == Some(t);
    match who
    case Parent => ParentSetsUp(s, a, t);
    case Manager => ManagerSetsUp(s, a, t);
    case ChildProcess => ChildSetsUp(s, a, t);
    case Outsider => KillSetsUp(s, a, t);
  }

  lemma KillSetsUp(s: State, a: Action, t: State)
    requires SetupInv(s) && OutsideNext(s, a) == Some(t)
    ensures SetupInv(t)
  {
    hide SetupInv;
    SameSetupKeeps(s, t);
  }

  lemma StartSetsUp(run: seq<State>)
    requires IsRun(run)
    ensures SetupInv(run[0])
  {
    hide Steps;
  }

  lemma {:induction false} RunSetsUp(run: seq<State>, i: nat)
    requires IsRun(run) && i < |run|
    ensures SetupInv(run[i])
  {
    hide Inv, SetupInv, Steps;
    if i == 0 {
      StartSetsUp(run);
    } else {
      RunKeeps(run, i - 1);
      RunSetsUp(run, i - 1);
      StepSetsUp(run[i - 1], run[i]);
    }
  }

  lemma AllEnds(e: End)
    ensures e in ALL_ENDS
  {
    match e case StatusR => case StatusW => case ExecR => case ExecW =>
    case ContinueR => case ContinueW => case TriggerR => case TriggerW =>
  }

  /** A start that fails after clone() leaves no process and no descriptor: the
      child is reaped without having called execvp, and the parent has closed
      each of the eight ends exactly once. */
  lemma FailedStartCleansUp(run: seq<State>, i: nat)
    requires IsRun(run) && i < |run|
    requires run[i].parent.StartFailed? && !run[i].child.NotCloned?
    ensures run[i].child.Reaped? && !run[i].log.execCalled
    ensures run[i].fds.parent == {} && forall e :: run[i].fds.closes[e] == 1
  {
    RunKeeps(run, i);
    forall e: End ensures e in ALL_ENDS { AllEnds(e); }
  }

  /** A start that fails before clone() closes exactly the ends it had made, once each. */
  lemma FailedPipesCleanUp(run: seq<State>, i: nat)
    requires IsRun(run) && i < |run|
    requires run[i].parent.StartFailed? && run[i].child.NotCloned?
    ensures run[i].fds.parent == {}
    ensures forall e :: run[i].fds.closes[e] == if e in run[i].fds.created then 1 else 0
  {
    RunKeeps(run, i);
  }

  /** On success exactly the trigger's write end and the error pipe's read end
      stay open; the other six were closed once. */
  lemma StartedHoldsTwoEnds(run: seq<State>, i: nat)
    requires IsRun(run) && i < |run| && run[i].parent.Started?
    ensures run[i].fds.parent == {TriggerW, ExecR}
    ensures forall e :: run[i].fds.closes[e] == if e in {TriggerW, ExecR} then 0 else 1
  {
    RunKeeps(run, i);
    forall e: End ensures e in ALL_ENDS { AllEnds(e); }
  }

  /** namespace_trigger_exec closes both ends on every path, and without an
      outside kill or a failing read it returns 0 exactly when execvp succeeded. */
  lemma TriggerReportsExec(run: seq<State>, i: nat)
    requires IsRun(run) && i < |run| && run[i].parent.Triggered?
    ensures run[i].fds.parent == {} && forall e :: run[i].fds.closes[e] == 1
    ensures !run[i].log.outsideKill && !run[i].log.readFault && !run[i].log.childFault ==>
              (run[i].parent.rc == 0 <==> run[i].log.execSucceeded)
  {
    RunKeeps(run, i);
    forall e: End ensures e in ALL_ENDS { AllEnds(e); }
  }

  // ---- Exactly when the answer is right ----

  /** Between its ready status and the report of a failed execvp the child has the
      manager's answer in its hands. */
  predicate Answering(pc: ChildPc) {
    pc.CloseStatus? || pc.AwaitTrigger? || pc.CloseTrigger? || pc.CallExec? || pc.SendErrno?
  }

  /** An outside kill strikes an answering child after the trigger was written. */
  predicate KilledAnswering(s: State, t: State) {
    s.log.triggerSent && s.child.Alive? && Answering(s.child.pc) && !s.log.outsideKill && t.log.outsideKill
  }

  /** A child that could not read the trigger is leaving, with the trigger in the pipe. */
  predicate Deaf(s: State) { s.log.triggerSent && s.child == Alive(CloseTrigger(false)) }

  /** Up to state i, the child was lost in one of these two ways. */
  ghost predicate AnswerLost(run: seq<State>, i: nat)
    requires i < |run|
  {
    || (exists j, k :: 0 <= j && k == j + 1 <= i && KilledAnswering(run[j], run[k]))
    || (exists j :: 0 <= j <= i && Deaf(run[j]))
  }

  /** What the manager reads, or will read, depending on whether the answer was lost. */
  ghost predicate AnswerInv(s: State, lost: bool) {
    && (s.child.Alive? || s.child.NotCloned? ==> !s.log.outsideKill)
    && (s.child.Alive? && Answering(s.child.pc) ==> s.pipes.exec == [])
    && (lost ==>
          && s.log.triggerSent && !s.log.execSucceeded && s.pipes.exec == []
          && (s.child.Alive? ==> s.child.pc == CloseTrigger(false) || s.child.pc.Exiting?)
          && (Goal(s.parent) == Triggered(-1) ==> s.log.readFault))
    && (!lost ==>
          && !Deaf(s)
          && (Goal(s.parent).AwaitExec? ==>
                s.log.execSucceeded || s.pipes.exec != [] || (s.child.Alive? && Answering(s.child.pc)))
          && (Goal(s.parent) == Triggered(0) ==> s.log.execSucceeded))
    && (Goal(s.parent) == Triggered(-1) && !s.log.readFault ==>
          && !s.log.execSucceeded
          && (s.log.triggerSent ==> s.log.execCalled && !(s.child.Alive? && Answering(s.child.pc))))
  }

  lemma ParentAnswers(s: State, a: Action, t: State, lost: bool)
    requires Inv(s) && AnswerInv(s, lost) && ParentNext(s, a) == Some(t)
    ensures AnswerInv(t, lost || Deaf(t)) && !KilledAnswering(s, t)
  {
    hide DescriptorInv, ProgressInv, ExecInv, ChildDescriptorInv, ChildInv, FailureInv;
    if s.parent.Close? { CloseAnswers(s, a, t, lost); }
  }

  lemma CloseAnswers(s: State, a: Action, t: State, lost: bool)
    requires DescriptorInv(s) && AnswerInv(s, lost) && ParentNext(s, a) == Some(t) && s.parent.Close?
    ensures AnswerInv(t, lost || Deaf(t)) && !KilledAnswering(s, t)
  {
  }

  lemma ManagerAnswers(s: State, a: Action, t: State, lost: bool)
    requires Inv(s) && AnswerInv(s, lost) && ManagerNext(s, a) == Some(t)
    ensures AnswerInv(t, lost || Deaf(t)) && !KilledAnswering(s, t)
  {
    hide Inv, AnswerInv, ManagerNext, Deaf, KilledAnswering;
    if s.parent.WriteTrigger? || s.parent.AwaitExec? {
      TriggerAnswers(s, a, t, lost);
    } else {
      OtherAnswers(s, a, t, lost);
    }
  }

  lemma TriggerAnswers(s: State, a: Action, t: State, lost: bool)
    requires Inv(s) && AnswerInv(s, lost) && ManagerNext(s, a) == Some(t) && (s.parent.WriteTrigger? || s.parent.AwaitExec?)
    ensures AnswerInv(t, lost || Deaf(t)) && !KilledAnswering(s, t)
  {
    hide TokenInv, ProgressInv, FailureInv;
  }

  lemma OtherAnswers(s: State, a: Action, t: State, lost: bool)
    requires Inv(s) && AnswerInv(s, lost) && ManagerNext(s, a) == Some(t) && !s.parent.WriteTrigger? && !s.parent.AwaitExec?
    ensures AnswerInv(t, lost || Deaf(t)) && !KilledAnswering(s, t)
  {
    hide TokenInv, ProgressInv, FailureInv, ExecInv, ChildInv, DescriptorInv, ChildDescriptorInv, IsOpen;
    match s.parent
    case Started =>
    case ForwardPorts =>
    case SaveMetadata =>
    case Triggered(_) =>
    case StopChild =>
    case ReapChild =>
    case _ =>
  }

  lemma ChildAnswers(s: State, a: Action, t: State, lost: bool)
    requires Inv(s) && AnswerInv(s, lost) && ChildNext(s, a) == Some(t)
    ensures AnswerInv(t, lost || Deaf(t)) && !KilledAnswering(s, t)
  {
    hide TokenInv, ProgressInv, ChildInv, FailureInv, DescriptorInv, SetupNext;
    if Answering(s.child.pc) { LateChildAnswers(s, a, t, lost); }
  }

  lemma LateChildAnswers(s: State, a: Action, t: State, lost: bool)
    requires TriggerInv(s) && ExecInv(s) && ChildDescriptorInv(s) && AnswerInv(s, lost)
    requires ChildNext(s, a) == Some(t) && Answering(s.child.pc)
    ensures AnswerInv(t, lost || Deaf(t)) && !KilledAnswering(s, t)
  {
  }

  lemma KillAnswers(s: State, a: Action, t: State, lost: bool)
    requires Inv(s) && AnswerInv(s, lost) && OutsideNext(s, a) == Some(t)
    ensures AnswerInv(t, lost || Deaf(t) || KilledAnswering(s, t))
  {
    hide TokenInv, FailureInv, ProgressInv;
  }

  lemma StepAnswers(s: State, t: State, lost: bool)
    requires Inv(s) && Steps(s, t) && AnswerInv(s, lost)
    ensures AnswerInv(t, lost || Deaf(t) || KilledAnswering(s, t))
  {
    hide Inv, AnswerInv;
    var who, a :| Next(s, who, a) == Some(t);
    match who
    case Parent => ParentAnswers(s, a, t, lost);
    case Manager => ManagerAnswers(s, a, t, lost);
    case ChildProcess => ChildAnswers(s, a, t, lost);
    case Outsider => KillAnswers(s, a, t, lost);
  }

  lemma {:induction false} RunAnswers(run: seq<State>, i: nat)
    requires IsRun(run) && i < |run|
    ensures AnswerInv(run[i], AnswerLost(run, i))
  {
    hide Inv, AnswerInv, AnswerLost, KilledAnswering, Deaf;
    if i == 0 {
      StartAnswers(run);
    } else {
      RunKeeps(run, i - 1);
      RunAnswers(run, i - 1);
      StepAnswers(run[i - 1], run[i], AnswerLost(run, i - 1));
      LostStep(run, i);
    }
  }

  lemma StartAnswers(run: seq<State>)
    requires IsRun(run)
    ensures AnswerInv(run[0], AnswerLost(run, 0))
  {
  }

  lemma LostStep(run: seq<State>, i: nat)
    requires 0 < i < |run|
    ensures AnswerLost(run, i) <==>
              AnswerLost(run, i - 1) || Deaf(run[i]) || KilledAnswering(run[i - 1], run[i])
  {
    hide Deaf, KilledAnswering;
  }

  /** As long as no read of the manager's own fails, the answer of
      namespace_trigger_exec is right exactly when the child was not lost after
      the trigger and before its report; kills at any other time do no harm. */
  lemma AnswerRightExactlyUnlessLost(run: seq<State>, i: nat)
    requires IsRun(run) && i < |run| && run[i].parent.Triggered? && !run[i].log.readFault
    ensures (run[i].parent.rc == 0 <==> run[i].log.execSucceeded) <==> !AnswerLost(run, i)
  {
    RunKeeps(run, i);
    RunAnswers(run, i);
  }

  /** A manager that gives up on a started container has closed the two ends it
      was handed exactly when it got as far as namespace_trigger_exec; giving up
      over a port forward or the metadata leaves both open for good. */
  lemma GivingUpEarlyLeaksTwoEnds(run: seq<State>, i: nat)
    requires IsRun(run) && i < |run| && run[i].parent.ManagerFailed?
    ensures run[i].child.Reaped?
    ensures run[i].fds.parent == if run[i].log.metadataSaved then {} else {ExecR, TriggerW}
  {
    RunKeeps(run, i);
  }

  /** A child waiting for the trigger holds a copy of the write end itself, so
      closing the parent's copy (src/namespace.c:386-387) never wakes it. */
  lemma ChildNeverSeesTriggerEof(run: seq<State>, i: nat)
    requires IsRun(run) && i < |run| && run[i].child == Alive(AwaitTrigger)
    ensures ChildNext(run[i], ReadEof) == None
  {
    RunKeeps(run, i);
  }

  predicate Final(s: State) {
    s.parent.StartFailed? || s.parent.ManagerFailed? || s.parent == Triggered(0)
  }

  /** Parent, manager or child can take a step of its own; being killed or having
      a read fail does not count as one. */
  ghost predicate CanMove(s: State) {
    exists who: Actor, a: Action :: who != Outsider && !a.ReadFails? && Next(s, who, a).Some?
  }

  /** The parent waits for the child to die, the child for a trigger that nobody will write. */
  predicate Hung(s: State) {
    s.parent.WaitChild? && s.child == Alive(AwaitTrigger) && s.pipes.trigger == []
  }

  /** In every run, failing reads included: until the caller has its answer, the
      two processes are stuck exactly when they wait for each other in this way. */
  lemma StuckExactlyWhenHung(run: seq<State>, i: nat)
    requires IsRun(run) && i < |run| && !Final(run[i])
    ensures CanMove(run[i]) <==> !Hung(run[i])
  {
    RunKeeps(run, i);
    var s := run[i];
    if Hung(s) {
      ChildNeverSeesTriggerEof(run, i);
    } else if ChildCanMove(s) {
      var a := ChildMove(s);
      assert Next(s, ChildProcess, a).Some?;
    } else {
      var who, a := ParentMove(s);
      assert Next(s, who, a).Some?;
    }
  }

  /** Unless a read of the status pipe failed, the hand-over never deadlocks. */
  lemma NeverStuck(run: seq<State>, i: nat)
    requires IsRun(run) && i < |run| && !run[i].log.readFault && !Final(run[i])
    ensures CanMove(run[i])
  {
    RunKeeps(run, i);
    StuckExactlyWhenHung(run, i);
  }

  lemma ParentMove(s: State) returns (who: Actor, a: Action)
    requires Inv(s) && !ChildCanMove(s) && !Hung(s) && !Final(s)
    ensures who != Outsider && !a.ReadFails? && Next(s, who, a).Some?
  {
    who := if ManagerPhase(s.parent) && !s.parent.Close? then Manager else Parent;
    match s.parent
    case Close(todo, _) => var e :| e in todo; a := CloseEnd(e);
    case SendToken => a := Send(1);
    case AwaitStatus =>
      assert s.child.Alive? && s.child.pc.ReadToken? ==> s.pipes.received == s.pipes.token;
      a := if s.pipes.status != [] then TakeStatus else StatusEof;
    case KillChild => a := Kill;
    case StopChild => a := Kill;
    case WaitChild => a := Wait;
    case ReapChild => a := Wait;
    case Started => a := Proceed;
    case Triggered(_) => a := Proceed;
    case WriteTrigger => a := Attempt(IsOpen(s, TriggerR));
    case AwaitExec => a := if s.pipes.exec != [] then TakeErrno else ExecEof;
    case _ => a := Attempt(true);
  }

  predicate ChildCanMove(s: State) {
    && s.child.Alive?
    && (s.child.pc.ReadToken? ==> s.pipes.continuing != [])
    && (s.child.pc.AwaitTrigger? ==> s.pipes.trigger != [])
  }

  function ChildMove(s: State): (a: Action)
    requires ChildCanMove(s) && Inv(s)
    ensures !a.ReadFails? && ChildNext(s, a).Some?
  {
    match s.child.pc
    case ReadToken => Read(1)
    case RunSetup(_) => Setup(Done)
    case AwaitTrigger => Read(1)
    case CallExec => Exec(Done)
    case _ => Proceed
  }
}
