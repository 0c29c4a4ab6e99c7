/**
 Runs of the orchestrator that show why the theorems of module
 OrchestratorSafety carry the conditions they do: they exist for every
 configuration in which the condition fails.
 */
module OrchestratorRuns {
  import opened Base
  import opened Orchestrator
  import opened OrchestratorInvariant
  import opened OrchestratorSafety

  function Last(run: seq<State>): State
    requires run != []
  {
    run[|run| - 1]
  }

  lemma Extend(c: Config, run: seq<State>, who: Actor, a: Action) returns (more: seq<State>)
    requires IsRun(c, run) && Next(c, Last(run), who, a).Some?
    ensures IsRun(c, more) && run <= more && |more| == |run| + 1 && Last(more) == Next(c, Last(run), who, a).value
  {
    var t := Next(c, Last(run), who, a).value;
    more := run + [t];
    forall i, j | 0 <= i && j == i + 1 < |more| ensures Steps(c, more[i], more[j]) {
      if j < |run| {
        assert more[i] == run[i] && more[j] == run[j];
      } else {
        assert more[i] == Last(run) && more[j] == t;
        assert Next(c, more[i], who, a) == Some(more[j]);
      }
    }
  }

  /** A delay the monitor may compute. */
  function Delay(restarts: nat): (d: int)
    ensures IsBackoff(restarts, d)
  {
    if ShiftOne(restarts).Some? && ShiftOne(restarts).value <= 30 then ShiftOne(restarts).value else 30
  }

  // ---- The monitor works off its items ----

  /** The monitor stands before or inside its first item. */
  predicate Busy(mon: MonPc) {
    && Work(mon) != []
    && (mon.NextItem? || mon.RunCheck? || mon.ApplyCheck? || mon.Backoff? || mon.DeleteOld? || mon.LaunchNew? || mon.Install?)
  }

  /** The first item is done: no other service and no container but the one it names has changed. */
  ghost predicate ItemDone(s: State, t: State) {
    && Work(s.mon) != [] && Work(s.mon)[0].idx < |s.svcs| == |t.svcs|
    && t.main == s.main && t.running == s.running && t.mon == NextItem(Work(s.mon)[1..]) && s.nextId <= t.nextId
    && (forall j :: 0 <= j < |s.svcs| && j != Work(s.mon)[0].idx ==> t.svcs[j] == s.svcs[j])
    && (forall id :: id in s.boxes && (s.boxes[id].status.Live? || id != Work(s.mon)[0].cid) ==>
          id in t.boxes && t.boxes[id] == s.boxes[id])
  }

  /** A service got a container that was not there before. */
  predicate NewContainer(s: State, t: State, i: nat)
    requires i < |t.svcs|
  {
    && t.svcs[i].cid.Some?
    && (s.nextId <= t.svcs[i].cid.value || (s.mon.Install? && t.svcs[i].cid == s.mon.started))
  }

  /** The first item is a check; its result, if still open, will be a pass. */
  lemma FinishCheck(c: Config, run0: seq<State>) returns (run: seq<State>)
    requires IsRun(c, run0) && Last(run0).running && Busy(Last(run0).mon) && Work(Last(run0).mon)[0].Check?
    ensures IsRun(c, run) && run0 <= run && ItemDone(Last(run0), Last(run)) && Last(run).boxes == Last(run0).boxes
    ensures var v, w, head := Last(run0).svcs[Work(Last(run0).mon)[0].idx], Last(run).svcs[Work(Last(run0).mon)[0].idx],
                              Work(Last(run0).mon)[0];
            && w.cid == v.cid && w.restarts == v.restarts
            && (v.cid == Some(head.cid) && !Spent(c, Last(run0)) ==> Watched(w))
  {
    hide Inv, Steps, IdInv, ScanOne, Risky, IsBackoff;
    InvAtLast(c, run0);
    run := ToResult(c, run0);
    run := Extend(c, run, Monitor, Go);
  }

  lemma ToResult(c: Config, run0: seq<State>) returns (run: seq<State>)
    requires IsRun(c, run0) && Last(run0).running && Busy(Last(run0).mon) && Work(Last(run0).mon)[0].Check?
    ensures IsRun(c, run) && run0 <= run
    ensures var s, t := Last(run0), Last(run);
            && t == s.(mon := t.mon) && t.mon.ApplyCheck? && t.mon.work == Work(s.mon)
            && if s.mon.ApplyCheck? then t.mon == s.mon else t.mon.ok
  {
    hide Inv, Steps, IdInv, WorkShape, ScanOne, Judge, Risky, IsBackoff;
    InvAtLast(c, run0);
    run := run0;
    if Last(run).mon.NextItem? { run := Extend(c, run, Monitor, Go); }
    if Last(run).mon.RunCheck? { run := Extend(c, run, Monitor, Result(true)); }
  }

  /** What the constructions need of the invariant. */
  lemma InvAtLast(c: Config, run: seq<State>)
    requires IsRun(c, run)
    ensures var s := Last(run); Shape(c, s) && IdInv(c, s) && forall id :: id in s.boxes ==> id < s.nextId
  {
    RunKeeps(c, run, |run| - 1);
  }

  /** The monitor gets on with its first item, a relaunch; only the container it replaces may be gone. */
  ghost predicate Toward(s: State, t: State) {
    && Work(s.mon) != [] && Work(t.mon) == Work(s.mon) && Work(s.mon)[0].idx < |s.svcs| == |t.svcs|
    && t.main == s.main && t.running == s.running && s.nextId <= t.nextId
    && (forall j :: 0 <= j < |s.svcs| && j != Work(s.mon)[0].idx ==> t.svcs[j] == s.svcs[j])
    && t.svcs[Work(s.mon)[0].idx].cid == s.svcs[Work(s.mon)[0].idx].cid
    && (forall id :: id in s.boxes && (s.boxes[id].status.Live? || id != Work(s.mon)[0].cid) ==>
          id in t.boxes && t.boxes[id] == s.boxes[id])
    && (s.mon.Install? ==> t.mon == s.mon)
    && (!s.mon.Install? && t.mon.Install? ==> t.mon.started.Some? && s.nextId <= t.mon.started.value)
  }

  ghost predicate Relaunching(s: State) {
    && (forall id :: id in s.boxes ==> id < s.nextId)
    && s.running && Busy(s.mon) && HeadShape(s.mon)
    && Work(s.mon)[0].Relaunch? && Work(s.mon)[0].idx < |s.svcs|
  }

  function StepsToInstall(mon: MonPc): nat {
    match mon
    case Install(_, _) => 0
    case LaunchNew(_) => 1
    case DeleteOld(_) => 2
    case Backoff(_) => 3
    case _ => 4
  }

  function NextAction(mon: MonPc): Action { if mon.LaunchNew? then Result(true) else Go }

  lemma OneStepToward(c: Config, s: State)
    requires Relaunching(s) && !s.mon.Install?
    ensures var t := MonNext(c, s, NextAction(s.mon));
            t.Some? && Toward(s, t.value) && Relaunching(t.value) && StepsToInstall(t.value.mon) < StepsToInstall(s.mon)
  {
    hide ScanOne, Judge, IsBackoff;
  }

  lemma {:induction false} ToInstall(c: Config, run0: seq<State>) returns (run: seq<State>)
    requires IsRun(c, run0) && Relaunching(Last(run0))
    ensures IsRun(c, run) && run0 <= run && Toward(Last(run0), Last(run)) && Last(run).mon.Install?
    decreases StepsToInstall(Last(run0).mon)
  {
    if Last(run0).mon.Install? {
      run := run0;
    } else {
      hide Steps, MonNext, Relaunching;
      OneStepToward(c, Last(run0));
      run := Extend(c, run0, Monitor, NextAction(Last(run0).mon));
      run := ToInstall(c, run);
    }
  }

  lemma FinishRelaunch(c: Config, run0: seq<State>) returns (run: seq<State>)
    requires IsRun(c, run0) && Last(run0).running && Busy(Last(run0).mon) && Work(Last(run0).mon)[0].Relaunch?
    ensures IsRun(c, run) && run0 <= run && ItemDone(Last(run0), Last(run))
    ensures var s, t, i := Last(run0), Last(run), Work(Last(run0).mon)[0].idx;
            if Spent(c, s) then t.svcs[i].cid == s.svcs[i].cid else NewContainer(s, t, i)
  {
    hide Inv, Steps, IdInv, ScanOne, Judge, Risky, IsBackoff;
    InvAtLast(c, run0);
    run := ToInstall(c, run0);
    run := Extend(c, run, Monitor, Go);
  }

  lemma FinishItem(c: Config, run0: seq<State>) returns (run: seq<State>)
    requires IsRun(c, run0) && Last(run0).running && Busy(Last(run0).mon)
    ensures IsRun(c, run) && run0 <= run && ItemDone(Last(run0), Last(run))
    ensures var s, t, i := Last(run0), Last(run), Work(Last(run0).mon)[0].idx;
            t.svcs[i].cid == s.svcs[i].cid || NewContainer(s, t, i)
  {
    hide Steps, Spent, ItemDone;
    if Work(Last(run0).mon)[0].Check? {
      run := FinishCheck(c, run0);
    } else {
      run := FinishRelaunch(c, run0);
    }
  }

  // ---- A pending relaunch overtakes a manual restart ----

  /** Container m lives, and at most service idx knows it. */
  ghost predicate KnownTo(s: State, m: nat, idx: nat) {
    && m in s.boxes && s.boxes[m].status.Live? && m < s.nextId
    && (forall j :: 0 <= j < |s.svcs| && j != idx ==> s.svcs[j].cid != Some(m))
    && !(s.mon.Install? && s.mon.started == Some(m))
  }

  /** Container m lives, and nobody knows it. */
  ghost predicate Orphan(s: State, m: nat) {
    m in s.boxes && s.boxes[m].status.Live? && forall j :: 0 <= j < |s.svcs| ==> s.svcs[j].cid != Some(m)
  }

  lemma {:induction false} Overtake(c: Config, run0: seq<State>, idx: nat, k: nat, m: nat) returns (run: seq<State>)
    requires IsRun(c, run0) && Last(run0).running && Last(run0).main.Up? && Busy(Last(run0).mon)
    requires idx < |Last(run0).svcs| && KnownTo(Last(run0), m, idx)
    requires k < |Work(Last(run0).mon)| && Work(Last(run0).mon)[k].Relaunch? && Work(Last(run0).mon)[k].idx == idx
    requires k == 0 ==> !Spent(c, Last(run0))
    ensures IsRun(c, run) && run0 <= run
    ensures Last(run).main.Up? && Last(run).running && Last(run).mon.NextItem? && Orphan(Last(run), m)
    decreases k
  {
    InvAtLast(c, run0);
    hide IsRun, Inv, IdInv;
    if k == 0 {
      run := FinishRelaunch(c, run0);
    } else {
      run := FinishItem(c, run0);
      run := Overtake(c, run, idx, k - 1, m);
    }
  }

  // ---- orch_down does not find an orphan ----

  lemma DownMisses(c: Config, run0: seq<State>, m: nat) returns (run: seq<State>)
    requires IsRun(c, run0) && Last(run0).running && Last(run0).main.Up? && Last(run0).mon.NextItem?
    requires Orphan(Last(run0), m)
    ensures IsRun(c, run) && run0 <= run && Last(run).main.DownDone? && Orphan(Last(run), m)
  {
    hide Steps, ScanOne, Judge, Risky, Clashes, IsBackoff;
    run := Extend(c, run0, Caller, Down);
    run := Extend(c, run, Monitor, Go);
    run := Extend(c, run, Monitor, Go);
    run := Extend(c, run, Caller, Go);
    run := StopMisses(c, run, m);
  }

  function StepsDown(main: MainPc): nat {
    match main
    case DownClear(left) => 3 * left + 1
    case DownDelete(left) => 3 * left + 2
    case DownStop(left) => 3 * left + 3
    case _ => 0
  }

  function DownAction(s: State, c: Config): Action {
    if s.main.DownStop? && 0 < s.main.left <= |c.order| && c.order[s.main.left - 1] < |s.svcs|
       && s.svcs[c.order[s.main.left - 1]].cid.Some?
    then Ended(0) else Go
  }

  lemma OneStepDown(c: Config, s: State, m: nat)
    requires Shape(c, s) && GoingDown(s.main) && !s.main.DownDone? && Orphan(s, m)
    ensures var t := MainNext(c, s, DownAction(s, c));
            t.Some? && GoingDown(t.value.main) && Orphan(t.value, m) && StepsDown(t.value.main) < StepsDown(s.main)
  {
    hide WorkShape;
  }

  lemma {:induction false} StopMisses(c: Config, run0: seq<State>, m: nat) returns (run: seq<State>)
    requires IsRun(c, run0) && GoingDown(Last(run0).main) && Orphan(Last(run0), m)
    ensures IsRun(c, run) && run0 <= run && Last(run).main.DownDone? && Orphan(Last(run), m)
    decreases StepsDown(Last(run0).main)
  {
    hide Inv, Steps, Shape, IdInv, Orphan, MainNext;
    if Last(run0).main.DownDone? {
      run := run0;
    } else {
      InvAtLast(c, run0);
      OneStepDown(c, Last(run0), m);
      run := Extend(c, run0, Caller, DownAction(Last(run0), c));
      run := StopMisses(c, run, m);
    }
  }

  // ---- Exactly the risky manual restarts can orphan a container ----

  /** A relaunch of service idx is the k-th item, and not spent. */
  ghost predicate RelaunchPending(c: Config, s: State, idx: nat, k: nat) {
    && s.running && !s.mon.Scan? && idx < |s.svcs|
    && k < |Work(s.mon)| && Work(s.mon)[k].Relaunch? && Work(s.mon)[k].idx == idx
    && !(k == 0 && Spent(c, s))
  }

  /** A manual restart that has come to its delete goes on, and the pending relaunch overtakes it. */
  lemma OvertakenRestart(c: Config, run0: seq<State>, idx: nat, k: nat) returns (run: seq<State>, orphan: nat)
    requires IsRun(c, run0) && Last(run0).main.ManualDelete? && Last(run0).main.idx == idx
    requires RelaunchPending(c, Last(run0), idx, k)
    ensures IsRun(c, run) && run0 <= run && Last(run).main.DownDone? && Orphan(Last(run), orphan)
  {
    run := ManualTail(c, run0, idx);
    orphan := Last(run).svcs[idx].cid.value;
    InvAtLast(c, run);
    run := Overtake(c, run, idx, k, orphan);
    run := DownMisses(c, run, orphan);
  }

  lemma ManualTail(c: Config, run0: seq<State>, idx: nat) returns (run: seq<State>)
    requires IsRun(c, run0) && Last(run0).main.ManualDelete? && Last(run0).main.idx == idx
    requires idx < |Last(run0).svcs| && !Last(run0).mon.Scan?
    ensures IsRun(c, run) && run0 <= run
    ensures var s, t := Last(run0), Last(run);
            && t.main.Up? && t.mon == s.mon && t.running == s.running && |t.svcs| == |s.svcs|
            && t.svcs[idx].cid.Some? && KnownTo(t, t.svcs[idx].cid.value, idx)
            && (!s.mon.ApplyCheck? && Spent(c, t) ==> Spent(c, s))
  {
    InvAtLast(c, run0);
    hide Inv, Steps, WorkShape, ScanOne, Judge, Risky, Clashes, IsBackoff;
    run := Extend(c, run0, Caller, Go);
    run := Extend(c, run, Caller, Result(true));
    run := Extend(c, run, Caller, Go);
  }

  /** Service idx is not running any more, the policy wants it back, and the monitor may see to it. */
  ghost predicate Wants(c: Config, s: State, idx: nat) {
    && idx < |s.svcs| && idx < |c.services| && s.running && BudgetLeft(c.services[idx], s.svcs[idx])
    && s.svcs[idx].cid.Some? && s.svcs[idx].cid.value in s.boxes
    && s.boxes[s.svcs[idx].cid.value].status.Exited?
    && Wanted(c.services[idx], s.boxes[s.svcs[idx].cid.value].status.code)
  }

  /** An item for another service changes nothing about that. */
  lemma StillWants(c: Config, s: State, t: State, idx: nat)
    requires IdInv(c, s) && Wants(c, s, idx) && ItemDone(s, t) && Work(s.mon)[0].idx != idx
    ensures Wants(c, t, idx) && t.svcs[idx] == s.svcs[idx]
  {
    assert Work(s.mon)[0] in Work(s.mon);
  }

  /** The monitor applies the pending check and has the service back in view. */
  lemma {:induction false} ApplyPending(c: Config, run0: seq<State>, idx: nat, k: nat) returns (run: seq<State>)
    requires IsRun(c, run0) && Wants(c, Last(run0), idx) && Busy(Last(run0).mon)
    requires k < |Work(Last(run0).mon)| && Work(Last(run0).mon)[k].idx == idx && Work(Last(run0).mon)[k].Check?
    requires Last(run0).svcs[idx].cid == Some(Work(Last(run0).mon)[k].cid) && !(k == 0 && Spent(c, Last(run0)))
    ensures IsRun(c, run) && run0 <= run && Last(run).main == Last(run0).main
    ensures Wants(c, Last(run), idx) && Watched(Last(run).svcs[idx]) && Last(run).mon.NextItem?
    ensures forall item :: item in Work(Last(run).mon) ==> item.idx != idx
    decreases k
  {
    InvAtLast(c, run0);
    hide Inv, Steps;
    if k == 0 {
      run := FinishCheck(c, run0);
      FirstDone(Last(run0).mon, Last(run).mon, |Last(run0).svcs|);
    } else {
      run := FinishItem(c, run0);
      StillWants(c, Last(run0), Last(run), idx);
      run := ApplyPending(c, run, idx, k - 1);
    }
  }

  /** The monitor works off its list, which holds nothing for service idx. */
  lemma {:induction false} WorkOff(c: Config, run0: seq<State>, idx: nat) returns (run: seq<State>)
    requires IsRun(c, run0) && Wants(c, Last(run0), idx) && Watched(Last(run0).svcs[idx]) && Last(run0).mon.NextItem?
    requires forall item :: item in Work(Last(run0).mon) ==> item.idx != idx
    ensures IsRun(c, run) && run0 <= run && Last(run).main == Last(run0).main
    ensures Wants(c, Last(run), idx) && Watched(Last(run).svcs[idx]) && Last(run).mon == NextItem([])
    decreases |Work(Last(run0).mon)|
  {
    InvAtLast(c, run0);
    hide Inv, Steps;
    if Work(Last(run0).mon) == [] {
      run := run0;
    } else {
      run := FinishItem(c, run0);
      StillWants(c, Last(run0), Last(run), idx);
      run := WorkOff(c, run, idx);
    }
  }

  function ScanAction(s: State): Action
    requires s.mon.Scan?
  {
    Due(false, if s.mon.i < |s.svcs| then Delay(s.svcs[s.mon.i].restarts) else 0)
  }

  lemma OneScan(c: Config, s: State)
    requires s.mon.Scan? && s.mon.i < |s.svcs| == |c.services|
    ensures var t, i := MonNext(c, s, ScanAction(s)), s.mon.i;
            && t.Some?
            && t.value == s.(svcs := t.value.svcs, mon := Scan(i + 1, s.mon.found +
                             ScanOne(c.services[i], i, s.svcs[i], s.boxes, ScanAction(s)).1))
            && t.value.svcs == s.svcs[i := ScanOne(c.services[i], i, s.svcs[i], s.boxes, ScanAction(s)).0]
  {
  }

  /** The rest of a scan that has found the service. */
  lemma {:induction false} ScanRest(c: Config, run0: seq<State>, idx: nat, k: nat) returns (run: seq<State>)
    requires IsRun(c, run0) && Last(run0).mon.Scan? && Last(run0).running && idx < |Last(run0).svcs|
    requires k < |Work(Last(run0).mon)| && Work(Last(run0).mon)[k].Relaunch? && Work(Last(run0).mon)[k].idx == idx
    ensures IsRun(c, run) && run0 <= run && Last(run).main == Last(run0).main && RelaunchPending(c, Last(run), idx, k)
    decreases |Last(run0).svcs| - Last(run0).mon.i
  {
    InvAtLast(c, run0);
    hide Inv, IdInv, Steps, ScanOne, WorkShape;
    var s := Last(run0);
    if s.mon.i < |s.svcs| {
      hide MonNext;
      OneScan(c, s);
      run := Extend(c, run0, Monitor, ScanAction(s));
      run := ScanRest(c, run, idx, k);
    } else {
      run := Extend(c, run0, Monitor, Go);
    }
  }

  lemma {:induction false} ScanFinds(c: Config, run0: seq<State>, idx: nat) returns (run: seq<State>, k: nat)
    requires IsRun(c, run0) && Last(run0).mon.Scan? && Last(run0).mon.i <= idx
    requires Wants(c, Last(run0), idx) && Watched(Last(run0).svcs[idx])
    ensures IsRun(c, run) && run0 <= run && Last(run).main == Last(run0).main && RelaunchPending(c, Last(run), idx, k)
    decreases idx - Last(run0).mon.i
  {
    InvAtLast(c, run0);
    hide Inv, IdInv, Steps, WorkShape, MonNext;
    var s := Last(run0);
    OneScan(c, s);
    run := Extend(c, run0, Monitor, ScanAction(s));
    if s.mon.i == idx {
      k := |s.mon.found|;
      run := ScanRest(c, run, idx, k);
    } else {
      hide ScanOne;
      run, k := ScanFinds(c, run, idx);
    }
  }

  /** A pending check of a service that wants to be restarted ends in a pending relaunch. */
  lemma CheckBringsRelaunch(c: Config, run0: seq<State>, idx: nat, k: nat) returns (run: seq<State>, j: nat)
    requires IsRun(c, run0) && Wants(c, Last(run0), idx) && Busy(Last(run0).mon)
    requires k < |Work(Last(run0).mon)| && Work(Last(run0).mon)[k].idx == idx && Work(Last(run0).mon)[k].Check?
    requires Last(run0).svcs[idx].cid == Some(Work(Last(run0).mon)[k].cid) && !(k == 0 && Spent(c, Last(run0)))
    ensures IsRun(c, run) && run0 <= run && Last(run).main == Last(run0).main && RelaunchPending(c, Last(run), idx, j)
  {
    hide Steps, Watched, BudgetLeft, Wanted, ScanOne, Judge, IsBackoff;
    run := ApplyPending(c, run0, idx, k);
    run := WorkOff(c, run, idx);
    run := Extend(c, run, Monitor, Go);
    run := Extend(c, run, Monitor, Go);
    run, j := ScanFinds(c, run, idx);
  }

  /** From every reachable state in which a manual restart would be risky, that
      restart can end in a container that outlives orch_down. */
  lemma RiskyRestartCanOrphan(c: Config, run0: seq<State>, idx: nat) returns (run: seq<State>, orphan: nat)
    requires IsRun(c, run0) && Last(run0).main.Up? && LockFree(Last(run0)) && Risky(c, Last(run0), idx)
    ensures IsRun(c, run) && run0 <= run && |run0| < |run|
    ensures MainNext(c, Last(run0), Restart(idx)) == Some(run[|run0|])
    ensures Last(run).main.DownDone? && orphan in Last(run).boxes && Last(run).boxes[orphan].status.Live?
  {
    InvAtLast(c, run0);
    var item :| item in Work(Last(run0).mon) && item.idx == idx && !(InHand(Last(run0).mon, item) && Spent(c, Last(run0)))
                && Endangers(item, c.services[idx], Last(run0).svcs[idx], Last(run0).boxes);
    var k :| 0 <= k < |Work(Last(run0).mon)| && Work(Last(run0).mon)[k] == item;
    hide Inv, Steps, IdInv, Risky, NoRelaunch, Wants;
    run := StopForRestart(c, run0, idx);
    var j := k;
    if Work(Last(run0).mon)[k].Check? {
      run, j := CheckBringsRelaunch(c, run, idx, k);
    }
    run, orphan := OvertakenRestart(c, run, idx, j);
  }

  lemma StopForRestart(c: Config, run0: seq<State>, idx: nat) returns (run: seq<State>)
    requires IsRun(c, run0) && Last(run0).main.Up? && LockFree(Last(run0)) && idx < |Last(run0).svcs| == |c.services|
    ensures IsRun(c, run) && run0 <= run && |run0| < |run|
    ensures MainNext(c, Last(run0), Restart(idx)) == Some(run[|run0|])
    ensures var s, t := Last(run0), Last(run);
            && t.main.ManualDelete? && t.main.idx == idx && t.mon == s.mon && t.running && |t.svcs| == |s.svcs|
            && t.svcs[idx].cid == s.svcs[idx].cid && (Spent(c, t) ==> Spent(c, s))
            && (!NoRelaunch(c.services[idx], s.svcs[idx], s.boxes) ==> Wants(c, t, idx))
  {
    InvAtLast(c, run0);
    hide Inv, Steps, WorkShape, ScanOne, Judge, Risky, Clashes, IsBackoff;
    run := Extend(c, run0, Caller, Restart(idx));
    run := Extend(c, run, Caller, Ended(1));
  }

  // ---- Runs of any configuration with a single service up ----

  /** Service svc runs in container id; every other service has failed to start. */
  ghost predicate Alone(s: State, svc: nat, id: nat) {
    && svc < |s.svcs| && !s.clash && !s.risky && id < s.nextId
    && s.svcs[svc].cid == Some(id) && Watched(s.svcs[svc]) && id in s.boxes && s.boxes[id] == Box(Live, svc)
    && forall j :: 0 <= j < |s.svcs| && j != svc ==> s.svcs[j].cid.None?
  }

  ghost predicate Idle(s: State, svc: nat, id: nat) {
    Alone(s, svc, id) && s.main.Up? && s.mon.Sleep? && s.running
  }

  /** orch_run from some point of its loop on: only the launch of svc succeeds. */
  lemma {:induction false} LaunchOne(c: Config, run0: seq<State>, svc: nat, p: nat) returns (run: seq<State>, id: nat)
    requires IsRun(c, run0) && Last(run0).main.RunBegin? && p < |c.order| && c.order[p] == svc < |Last(run0).svcs|
    requires Last(run0).svcs[svc].restarts == 0 && !Last(run0).clash && !Last(run0).risky
    requires forall j :: 0 <= j < |Last(run0).svcs| && j != svc ==> Last(run0).svcs[j].cid.None?
    requires p < Last(run0).main.oi ==> Last(run0).svcs[svc].cid.Some? && Alone(Last(run0), svc, Last(run0).svcs[svc].cid.value)
    ensures IsRun(c, run) && Alone(Last(run), svc, id) && Last(run).svcs[svc].restarts == 0
    ensures Last(run).main == RunBegin(|c.order|)
    decreases |c.order| - Last(run0).main.oi
  {
    InvAtLast(c, run0);
    hide Inv, IdInv, Steps, WorkShape, MainNext;
    var oi := Last(run0).main.oi;
    if oi == |c.order| {
      run, id := run0, Last(run0).svcs[svc].cid.value;
    } else {
      run := LaunchStep(c, run0, oi == p);
      run, id := LaunchOne(c, run, svc, p);
    }
  }

  lemma LaunchStep(c: Config, run0: seq<State>, ok: bool) returns (run: seq<State>)
    requires IsRun(c, run0) && Last(run0).main.RunBegin? && Last(run0).main.oi < |c.order|
    requires c.order[Last(run0).main.oi] < |Last(run0).svcs|
    ensures IsRun(c, run)
    ensures var s, t, i := Last(run0), Last(run), c.order[Last(run0).main.oi];
            && t == s.(main := RunBegin(s.main.oi + 1), svcs := t.svcs, boxes := t.boxes, nextId := t.nextId)
            && |t.svcs| == |s.svcs| && t.svcs == s.svcs[i := t.svcs[i]] && t.svcs[i].restarts == s.svcs[i].restarts
            && if ok
               then && t.svcs[i].cid == Some(s.nextId) && t.svcs[i].state.Running?
                    && t.boxes == s.boxes[s.nextId := Box(Live, i)] && t.nextId == s.nextId + 1
               else t.svcs[i].cid == s.svcs[i].cid && t.boxes == s.boxes && t.nextId == s.nextId
  {
    hide Steps, ScanOne, Judge, Risky, Clashes, IsBackoff;
    run := Extend(c, run0, Caller, Go);
    run := Extend(c, run, Caller, Result(ok));
    run := Extend(c, run, Caller, Go);
  }

  lemma UpRun(c: Config, svc: nat) returns (run: seq<State>, id: nat)
    requires ValidConfig(c) && svc < |c.services|
    ensures IsRun(c, run) && Idle(Last(run), svc, id) && Last(run).svcs[svc].restarts == 0
  {
    hide Inv, Steps, ScanOne, Judge, Risky, Clashes, IsBackoff;
    var p := InOrder(c, svc);
    run := [Init(c)];
    run, id := LaunchOne(c, run, svc, p);
    InvAtLast(c, run);
    run := Extend(c, run, Caller, Go);
    run := Extend(c, run, Caller, Go);
    run := Extend(c, run, Caller, Result(true));
  }

  /** The container of svc has failed, and the monitor has looked at the first i services. */
  ghost predicate Scanning(s0: State, s: State, svc: nat, id: nat, i: nat, item: Item) {
    && svc < |s0.svcs| == |s.svcs| && i <= |s.svcs|
    && s == s0.(boxes := s0.boxes[id := Box(Exited(1), svc)], svcs := s.svcs, mon := s.mon)
    && s.mon == Scan(i, if i <= svc then [] else [item])
    && s.svcs == (if i <= svc then s0.svcs else s0.svcs[svc := s0.svcs[svc].(state := Restarting)])
  }

  lemma {:induction false} ScanAlone(c: Config, run0: seq<State>, s0: State, svc: nat, id: nat, i: nat, item: Item)
    returns (run: seq<State>)
    requires IsRun(c, run0) && Alone(s0, svc, id) && |s0.svcs| == |c.services| && Scanning(s0, Last(run0), svc, id, i, item)
    requires !c.services[svc].policy.Never? && BudgetLeft(c.services[svc], s0.svcs[svc])
    requires item == Relaunch(svc, id, 1, Delay(s0.svcs[svc].restarts))
    ensures IsRun(c, run) && Scanning(s0, Last(run), svc, id, |s0.svcs|, item)
    decreases |s0.svcs| - i
  {
    hide Steps, MonNext, IsBackoff, ShiftOne;
    if i < |s0.svcs| {
      var s := Last(run0);
      OneScan(c, s);
      run := Extend(c, run0, Monitor, ScanAction(s));
      var seen := ScanOne(c.services[i], i, s.svcs[i], s.boxes, ScanAction(s));
      if i != svc {
        assert seen == (s.svcs[i], []) && s.svcs[i := s.svcs[i]] == s.svcs;
      } else {
        assert seen.1 == [item];
      }
      run := ScanAlone(c, run, s0, svc, id, i + 1, item);
    } else {
      run := run0;
    }
  }

  /** The container fails and the monitor has its relaunch in hand. */
  lemma PendingRun(c: Config, run0: seq<State>, svc: nat, id: nat) returns (run: seq<State>, item: Item)
    requires IsRun(c, run0) && Idle(Last(run0), svc, id) && svc < |c.services|
    requires !c.services[svc].policy.Never? && BudgetLeft(c.services[svc], Last(run0).svcs[svc])
    ensures IsRun(c, run) && item.Relaunch? && item.idx == svc && item.cid == id
    ensures var s, t := Last(run0), Last(run);
            t == s.(mon := Backoff([item]), svcs := s.svcs[svc := s.svcs[svc].(state := Restarting)],
                    boxes := s.boxes[id := Box(Exited(1), svc)])
  {
    var s := Last(run0);
    InvAtLast(c, run0);
    item := Relaunch(svc, id, 1, Delay(s.svcs[svc].restarts));
    hide Inv, IdInv, Steps, ScanOne, Judge, IsBackoff;
    run := Extend(c, run0, World, Exit(id, 1));
    run := Extend(c, run, Monitor, Go);
    run := ScanAlone(c, run, s, svc, id, 0, item);
    run := Extend(c, run, Monitor, Go);
    run := Extend(c, run, Monitor, Go);
  }

  /** One automatic restart. */
  lemma RestartRun(c: Config, run0: seq<State>, svc: nat, id: nat) returns (run: seq<State>, fresh_id: nat)
    requires IsRun(c, run0) && Idle(Last(run0), svc, id) && svc < |c.services|
    requires !c.services[svc].policy.Never? && BudgetLeft(c.services[svc], Last(run0).svcs[svc])
    ensures IsRun(c, run) && Idle(Last(run), svc, fresh_id)
    ensures Last(run).svcs[svc].restarts == Last(run0).svcs[svc].restarts + 1
  {
    hide Inv, Steps, ScanOne, Judge, IsBackoff;
    var item;
    run, item := PendingRun(c, run0, svc, id);
    fresh_id := Last(run).nextId;
    run := Extend(c, run, Monitor, Go);
    run := Extend(c, run, Monitor, Go);
    run := Extend(c, run, Monitor, Result(true));
    run := Extend(c, run, Monitor, Go);
    run := Extend(c, run, Monitor, Go);
  }

  lemma {:induction false} ManyRestarts(c: Config, svc: nat, n: nat) returns (run: seq<State>, id: nat)
    requires ValidConfig(c) && svc < |c.services| && !c.services[svc].policy.Never?
    requires c.services[svc].maxRestarts == 0 || n <= c.services[svc].maxRestarts
    ensures IsRun(c, run) && Idle(Last(run), svc, id) && Last(run).svcs[svc].restarts == n
  {
    hide Steps;
    if n == 0 {
      run, id := UpRun(c, svc);
    } else {
      run, id := ManyRestarts(c, svc, n - 1);
      run, id := RestartRun(c, run, svc, id);
    }
  }

  /** In every configuration with a restarting service that has no limit, or one
      above 31, the delay of some restart is an undefined shift;
      SmallLimitsKeepShiftDefined is the other half. */
  lemma LargeLimitsOverflowShift(c: Config, svc: nat) returns (run: seq<State>)
    requires ValidConfig(c) && svc < |c.services| && !c.services[svc].policy.Never?
    requires c.services[svc].maxRestarts == 0 || c.services[svc].maxRestarts > 31
    ensures IsRun(c, run) && !Last(run).clash && !Last(run).risky
    ensures Last(run).mon.Backoff? && |Last(run).mon.work| == 1
    ensures Last(run).mon.work[0].Relaunch? && Last(run).mon.work[0].idx == svc < |Last(run).svcs|
    ensures ShiftOne(Last(run).svcs[svc].restarts).None?
  {
    hide Steps;
    var id, item;
    run, id := ManyRestarts(c, svc, 31);
    run, item := PendingRun(c, run, svc, id);
    ShiftDefined(31);
  }

  /** In every configuration with a restarting service, some manual restart leaves
      a container running for good: orch_down does not know it. */
  lemma ManualRestartOrphans(c: Config, svc: nat) returns (run: seq<State>, orphan: nat)
    requires ValidConfig(c) && svc < |c.services| && !c.services[svc].policy.Never?
    ensures IsRun(c, run) && Last(run).main.DownDone?
    ensures orphan in Last(run).boxes && Last(run).boxes[orphan].status.Live?
  {
    hide Steps;
    var id, item;
    run, id := UpRun(c, svc);
    run, item := PendingRun(c, run, svc, id);
    assert item in Work(Last(run).mon);
    run, orphan := RiskyRestartCanOrphan(c, run, svc);
  }
}
