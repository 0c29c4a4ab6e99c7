/**
 Runs of the start-up handshake that exist: a start that works, and the ones
 that show why the theorems of module Handshake need their conditions.
 */
module HandshakeRuns {
  import opened Base
  import opened Handshake
  import opened HandshakeInvariant
  import opened HandshakeSafety

  function Last(run: seq<State>): State
    requires run != []
  {
    run[|run| - 1]
  }

  lemma Extend(run: seq<State>, who: Actor, a: Action) returns (more: seq<State>)
    requires IsRun(run) && Next(Last(run), who, a).Some?
    ensures IsRun(more) && Last(more) == Next(Last(run), who, a).value
  {
    var t := Next(Last(run), who, a).value;
    more := run + [t];
    forall i, j | 0 <= i && j == i + 1 < |more| ensures Steps(more[i], more[j]) {
      if j < |run| {
        assert more[i] == run[i] && more[j] == run[j];
      } else {
        assert more[i] == Last(run) && more[j] == t;
        assert Next(more[i], who, a) == Some(more[j]);
      }
    }
  }

  /** The parent closes everything on its list. */
  lemma {:induction false} CloseAll(run: seq<State>) returns (more: seq<State>)
    requires IsRun(run) && Last(run).parent.Close? && WellFormed(Last(run).parent)
    ensures IsRun(more)
    ensures var s := Last(run);
            && Last(more) == s.(parent := s.parent.next,
                                fds := s.fds.(parent := s.fds.parent - s.parent.todo,
                                              closes := s.fds.closes + multiset(s.parent.todo)))
    decreases Last(run).parent.todo
  {
    var s := Last(run);
    var e :| e in s.parent.todo;
    more := Extend(run, Parent, CloseEnd(e));
    var t := Last(more);
    assert multiset(s.parent.todo) == multiset{e} + multiset(s.parent.todo - {e});
    if s.parent.todo == {e} {
      assert t.parent == s.parent.next;
    } else {
      more := CloseAll(more);
      assert s.fds.closes + multiset{e} + multiset(s.parent.todo - {e}) == s.fds.closes + multiset(s.parent.todo);
    }
    assert s.fds.parent - {e} - (s.parent.todo - {e}) == s.fds.parent - s.parent.todo;
  }

  /** A run in which the child has sent its ready status and waits for the
      trigger, while the parent is about to read the status. */
  lemma ReadyRun(token: seq<int>) returns (run: seq<State>)
    requires IsToken(token)
    ensures IsRun(run)
    ensures var s := Last(run);
            && s.parent.AwaitStatus? && s.child == Alive(AwaitTrigger)
            && s.pipes.status == [Status(true, 0)] && s.pipes.trigger == [] && s.pipes.exec == []
            && !s.log.execCalled && !s.log.execSucceeded && !s.log.outsideKill && !s.log.readFault
            && !s.log.metadataSaved
  {
    run := ClonedRun(token);
    run := CloseAll(run);
    run := Extend(run, Parent, Attempt(true));
    run := Extend(run, Parent, Attempt(true));
    run := Extend(run, Parent, Send(TOKEN_SIZE));
    run := CloseAll(run);
    assert Last(run).pipes.continuing == token;
    run := ChildSetsUp(run);
  }

  lemma ChildSetsUp(run0: seq<State>) returns (run: seq<State>)
    requires IsRun(run0)
    requires var s := Last(run0);
             && s.parent.AwaitStatus? && s.child == Alive(ReadToken)
             && IsToken(s.pipes.token) && s.pipes.continuing == s.pipes.token && s.pipes.received == []
             && s.pipes.status == []
    ensures IsRun(run)
    ensures var s, t := Last(run0), Last(run);
            && t.parent.AwaitStatus? && t.child == Alive(AwaitTrigger)
            && t.pipes == s.pipes.(continuing := [], received := s.pipes.token, status := [Status(true, 0)])
            && t.log == s.log.(readySent := true, outcomes := t.log.outcomes)
  {
    var token := Last(run0).pipes.token;
    run := run0;
    run := Extend(run, ChildProcess, Read(TOKEN_SIZE));
    assert Last(run).pipes.received == token;
    run := Extend(run, ChildProcess, Proceed);
    run := SetupRun(run);
    run := Extend(run, ChildProcess, Proceed);
    run := Extend(run, ChildProcess, Proceed);
  }

  lemma ClonedRun(token: seq<int>) returns (run: seq<State>)
    requires IsToken(token)
    ensures IsRun(run)
    ensures var s := Last(run);
            && s.parent == Close({ExecW, StatusW, ContinueR, TriggerR}, WriteMaps)
            && s.child == Alive(ReadToken) && s.pipes == Init(token).pipes && s.log == Init(token).log
  {
    run := [Init(token)];
    run := Extend(run, Parent, Attempt(true));
    run := Extend(run, Parent, Attempt(true));
    run := Extend(run, Parent, Attempt(true));
    run := Extend(run, Parent, Attempt(true));
    run := Extend(run, Parent, Attempt(true));
    run := Extend(run, Parent, Attempt(true));
  }

  /** Every set-up step succeeds. */
  lemma {:induction false} SetupRun(run: seq<State>) returns (more: seq<State>)
    requires IsRun(run) && Last(run).child.Alive? && Last(run).child.pc.RunSetup? && Last(run).child.pc.k < |SETUP|
    ensures IsRun(more)
    ensures Last(more) == Last(run).(child := Alive(SendReady), log := Last(more).log)
    ensures Last(more).log == Last(run).log.(outcomes := Last(more).log.outcomes)
    decreases |SETUP| - Last(run).child.pc.k
  {
    more := Extend(run, ChildProcess, Setup(Done));
    if Last(more).child.pc.RunSetup? {
      more := SetupRun(more);
    }
  }

  /** A run up to the return of namespace_start_container. */
  lemma StartedRun(token: seq<int>) returns (run: seq<State>)
    requires IsToken(token)
    ensures IsRun(run)
    ensures var s := Last(run);
            && s.parent.Started? && s.child == Alive(AwaitTrigger)
            && s.pipes.trigger == [] && s.pipes.exec == []
            && !s.log.execCalled && !s.log.execSucceeded && !s.log.outsideKill && !s.log.readFault
  {
    run := ReadyRun(token);
    run := Extend(run, Parent, TakeStatus);
    run := CloseAll(run);
  }

  /** A run up to the manager's wait for the outcome of execvp. */
  lemma TriggeredRun(token: seq<int>) returns (run: seq<State>)
    requires IsToken(token)
    ensures IsRun(run)
    ensures var s := Last(run);
            && s.parent.AwaitExec? && s.child == Alive(AwaitTrigger)
            && s.pipes.trigger == [OK_BYTE] && s.pipes.exec == []
            && !s.log.execCalled && !s.log.execSucceeded && !s.log.outsideKill && !s.log.readFault
  {
    run := StartedRun(token);
    run := Extend(run, Manager, Proceed);
    run := Extend(run, Manager, Attempt(true));
    run := Extend(run, Manager, Attempt(true));
    RunKeeps(run, |run| - 1);
    run := Extend(run, Manager, Attempt(true));
    run := CloseAll(run);
  }

  /** The handshake can succeed. */
  lemma StartCanSucceed(token: seq<int>) returns (run: seq<State>)
    requires IsToken(token)
    ensures IsRun(run) && Last(run).parent == Triggered(0) && Last(run).log.execSucceeded
    ensures !Last(run).log.outsideKill && !Last(run).log.readFault
  {
    run := TriggeredRun(token);
    run := Extend(run, ChildProcess, Read(1));
    run := Extend(run, ChildProcess, Proceed);
    run := Extend(run, ChildProcess, Exec(Done));
    RunKeeps(run, |run| - 1);
    run := Extend(run, Manager, ExecEof);
    run := CloseAll(run);
  }

  /** An outside kill before execvp is reported as success: the end of file it
      causes is the one a successful execvp would cause. */
  lemma OutsideKillLooksLikeSuccess(token: seq<int>) returns (run: seq<State>)
    requires IsToken(token)
    ensures IsRun(run) && Last(run).parent == Triggered(0) && !Last(run).log.execCalled
    ensures !Last(run).log.readFault
  {
    run := TriggeredRun(token);
    run := Extend(run, Outsider, OutsideKill);
    RunKeeps(run, |run| - 1);
    run := Extend(run, Manager, ExecEof);
    run := CloseAll(run);
  }

  /** So is a child that cannot read its trigger and exits. */
  lemma UnreadTriggerLooksLikeSuccess(token: seq<int>) returns (run: seq<State>)
    requires IsToken(token)
    ensures IsRun(run) && Last(run).parent == Triggered(0) && !Last(run).log.execCalled
    ensures !Last(run).log.readFault && !Last(run).log.outsideKill
  {
    run := TriggeredRun(token);
    run := Extend(run, ChildProcess, ReadFails);
    run := Extend(run, ChildProcess, Proceed);
    run := Extend(run, ChildProcess, Proceed);
    RunKeeps(run, |run| - 1);
    run := Extend(run, Manager, ExecEof);
    run := CloseAll(run);
  }

  /** A failing read of the status leaves parent and child waiting for each
      other: the parent for the child's death, the child for a trigger whose
      write end it holds itself. */
  lemma FailedStatusReadHangs(token: seq<int>) returns (run: seq<State>)
    requires IsToken(token)
    ensures IsRun(run) && Last(run).parent.WaitChild? && !Last(run).log.outsideKill
    ensures !CanMove(Last(run))
  {
    run := ReadyRun(token);
    run := Extend(run, Parent, ReadFails);
    run := CloseAll(run);
    StuckExactlyWhenHung(run, |run| - 1);
  }
}
