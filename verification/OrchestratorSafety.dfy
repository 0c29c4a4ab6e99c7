/** What the orchestrator guarantees, read off its invariant. */
module OrchestratorSafety {
  import opened Base
  import opened TopoSort
  import opened Orchestrator
  import opened OrchestratorInvariant

  // ---- Main results ----

  lemma InOrder(c: Config, i: nat) returns (p: nat)
    requires ValidConfig(c) && i < |c.services|
    ensures p < |c.order| && c.order[p] == i
  {
    DistinctBounded(c.order, |c.spec|);
    assert i in c.order;
    p :| 0 <= p < |c.order| && c.order[p] == i;
  }

  /** As long as no manual restart was risky, no container that orch_run, the
      monitor or a manual restart launched is still running when orch_down
      returns, whatever the monitor was doing. */
  lemma DownLeavesNothingRunning(c: Config, run: seq<State>, i: nat)
    requires IsRun(c, run) && i < |run| && run[i].main.DownDone? && !run[i].risky
    ensures forall id :: id in run[i].boxes ==> !run[i].boxes[id].status.Live?
  {
    RunKeeps(c, run, i);
    var s := run[i];
    forall id | id in s.boxes ensures !s.boxes[id].status.Live? {
      var p := InOrder(c, s.boxes[id].owner);
    }
  }

  /** What a caller of orch_restart_service can see to: a run in which every
      manual restart found no dangerous item for its service is not risky. */
  lemma {:induction false} CarefulRestartsAreSafe(c: Config, run: seq<State>, i: nat)
    requires IsRun(c, run) && i < |run|
    requires forall j, k :: 0 <= j && k == j + 1 <= i && run[j].main.Up? && run[k].main.ManualStop? ==>
               !Risky(c, run[j], run[k].main.idx)
    ensures !run[i].risky
  {
    if i > 0 {
      CarefulRestartsAreSafe(c, run, i - 1);
      RiskyStep(c, run[i - 1], run[i]);
    }
  }

  lemma RiskyStep(c: Config, s: State, t: State)
    requires Steps(c, s, t)
    ensures t.risky ==> s.risky || (s.main.Up? && t.main.ManualStop? && Risky(c, s, t.main.idx))
  {
    hide MonNext, MainNext;
    var who, a :| Next(c, s, who, a) == Some(t);
    match who
    case Monitor => MonitorTakesNoRisk(c, s, a, t);
    case Caller => CallerRisk(c, s, a, t);
    case World =>
  }

  lemma MonitorTakesNoRisk(c: Config, s: State, a: Action, t: State)
    requires MonNext(c, s, a) == Some(t)
    ensures t.risky == s.risky
  {
    hide ScanOne, Judge, IsBackoff;
  }

  lemma CallerRisk(c: Config, s: State, a: Action, t: State)
    requires MainNext(c, s, a) == Some(t)
    ensures t.risky ==> s.risky || (s.main.Up? && t.main.ManualStop? && Risky(c, s, t.main.idx))
  {
    hide Risky, Clashes;
  }

  /** orch_down reaches a service only after everything that depends on it is gone. */
  lemma DependentsGoFirst(c: Config, run: seq<State>, i: nat, dependent: nat)
    requires IsRun(c, run) && i < |run| && !run[i].risky
    requires run[i].main.DownStop? || run[i].main.DownDelete? || run[i].main.DownClear?
    requires 0 < run[i].main.left <= |c.order|
    requires DependsOn(c.spec, dependent, c.order[run[i].main.left - 1])
    ensures dependent < |run[i].svcs| && run[i].svcs[dependent].cid.None?
    ensures forall id :: id in run[i].boxes && run[i].boxes[id].owner == dependent ==> !run[i].boxes[id].status.Live?
  {
    RunKeeps(c, run, i);
    var left := run[i].main.left;
    var p := InOrder(c, dependent);
    assert c.order[left - 1] in c.order[..p];
    var q :| 0 <= q < p && c.order[q] == c.order[left - 1];
    assert q == left - 1;
  }

  /** In every run, manual restarts included, the health record of a service
      counts its failures since the last pass or (re)start, and its state agrees
      with the retry limit. */
  lemma HealthAgrees(c: Config, run: seq<State>, i: nat, svc: nat)
    requires IsRun(c, run) && i < |run| && svc < |c.services|
    ensures |run[i].svcs| == |c.services|
    ensures var v, cfg := run[i].svcs[svc], c.services[svc];
            && v.fails <= |v.marks| && (forall k :: |v.marks| - v.fails <= k < |v.marks| ==> v.marks[k].Fail?)
            && (v.fails < |v.marks| ==> !v.marks[|v.marks| - v.fails - 1].Fail?)
            && (cfg.healthEnabled && (v.state.Running? || v.state.Healthy?) ==> v.fails < cfg.retries)
            && (cfg.healthEnabled && v.state.Unhealthy? ==> v.fails >= cfg.retries)
  {
    RunKeeps(c, run, i);
    FailsAreTrailing(run[i].svcs[svc].marks);
  }

  lemma {:induction false} FailsAreTrailing(marks: seq<Mark>)
    ensures var f := TrailingFails(marks);
            && f <= |marks| && (forall k :: |marks| - f <= k < |marks| ==> marks[k].Fail?)
            && (f < |marks| ==> !marks[|marks| - f - 1].Fail?)
  {
    if marks != [] && marks[|marks| - 1].Fail? { FailsAreTrailing(marks[..|marks| - 1]); }
  }

  // ---- What the monitor's decisions are ----

  /** The scan looks at one service and leaves the others alone.  For a watched
      service whose container has exited: a relaunch is asked for exactly when
      the policy is always, or on-failure with a nonzero code, and the limit is
      not used up; otherwise the service becomes STOPPED or FAILED by its code. */
  lemma ScanDecides(c: Config, s: State, a: Action, t: State, i: nat)
    requires s.mon.Scan? && i == s.mon.i < |s.svcs| == |c.services| && MonNext(c, s, a) == Some(t)
    requires Watched(s.svcs[i]) && s.svcs[i].cid.Some? && s.svcs[i].cid.value in s.boxes
    requires s.boxes[s.svcs[i].cid.value].status.Exited?
    ensures var cfg, v, id := c.services[i], s.svcs[i], s.svcs[i].cid.value;
            var code := s.boxes[id].status.code;
            && t.mon.Scan? && t == s.(svcs := s.svcs[i := v.(state := t.svcs[i].state)], mon := t.mon) && |t.svcs| == |s.svcs|
            && if (cfg.policy.Always? || (cfg.policy.OnFailure? && code != 0))
                  && (cfg.maxRestarts == 0 || v.restarts < cfg.maxRestarts)
               then && t.svcs[i].state.Restarting? && t.mon == Scan(i + 1, s.mon.found + [Relaunch(i, id, code, a.backoff)])
                    && (v.restarts <= 30 ==> a.backoff == Min(Pow2(v.restarts), 30))
               else && t.svcs[i].state == (if code == 0 then ServiceState.Stopped else ServiceState.Failed)
                    && t.mon == Scan(i + 1, s.mon.found)
  {
    ShiftDefined(s.svcs[i].restarts);
    assert s.mon.found + [] == s.mon.found;
  }

  /** A service that is not watched, or whose container is unknown, is passed over. */
  lemma ScanPassesOver(c: Config, s: State, a: Action, t: State, i: nat)
    requires s.mon.Scan? && i == s.mon.i < |s.svcs| == |c.services| && MonNext(c, s, a) == Some(t)
    requires !Watched(s.svcs[i]) || s.svcs[i].cid.None? || s.svcs[i].cid.value !in s.boxes
    ensures t == s.(mon := Scan(i + 1, s.mon.found))
  {
    assert s.svcs[i := s.svcs[i]] == s.svcs;
    assert s.mon.found + [] == s.mon.found;
  }

  /** A watched service whose container runs: with a health check, a check is asked
      for when it is due; without one, it counts as healthy. */
  lemma ScanOfRunning(c: Config, s: State, a: Action, t: State, i: nat)
    requires s.mon.Scan? && i == s.mon.i < |s.svcs| == |c.services| && MonNext(c, s, a) == Some(t)
    requires Watched(s.svcs[i]) && s.svcs[i].cid.Some? && s.svcs[i].cid.value in s.boxes
    requires s.boxes[s.svcs[i].cid.value].status.Live?
    ensures a.Due?
    ensures c.services[i].healthEnabled ==>
              t == s.(mon := Scan(i + 1, s.mon.found + if a.due then [Check(i, s.svcs[i].cid.value)] else []))
    ensures !c.services[i].healthEnabled ==>
              t == s.(mon := Scan(i + 1, s.mon.found),
                      svcs := s.svcs[i := s.svcs[i].(state := if s.svcs[i].state.Running? then Healthy else s.svcs[i].state)])
  {
    assert s.svcs[i := s.svcs[i]] == s.svcs;
    assert s.mon.found + [] == s.mon.found;
  }

  /** A health result counts exactly when the spec is up and the service still has
      the container that was checked: a pass makes it HEALTHY with no failures, a
      failure adds one and makes it UNHEALTHY from the retry limit on. */
  lemma CheckTakesEffect(c: Config, s: State, a: Action, t: State)
    requires Shape(c, s) && s.mon.ApplyCheck? && MonNext(c, s, a) == Some(t)
    ensures s.mon.work != [] && s.mon.work[0].idx < |s.svcs| == |t.svcs|
    ensures var i := s.mon.work[0].idx;
            var v, w := s.svcs[i], t.svcs[i];
            && t == s.(mon := NextItem(s.mon.work[1..]), svcs := s.svcs[i := w])
            && if !s.running || v.cid != Some(s.mon.work[0].cid) then w == v
               else if s.mon.ok then w == v.(fails := 0, state := Healthy, marks := v.marks + [Pass])
               else w == v.(fails := v.fails + 1, marks := v.marks + [Fail],
                            state := if v.fails + 1 >= c.services[i].retries then Unhealthy else v.state)
  {
    var i := s.mon.work[0].idx;
    assert s.mon.work[0] in Work(s.mon);
    assert s.svcs[i := s.svcs[i]] == s.svcs;
  }

  /** The history in a record is true: `attempts` goes up exactly when the monitor
      launches, and with it the number of containers if that succeeds; `manuals`
      exactly when a manual restart installs its container; and a start is
      marked exactly when a thread installs a container it has launched. */
  lemma HistoryIsTrue(c: Config, s: State, who: Actor, a: Action, t: State, j: nat)
    requires Shape(c, s) && Next(c, s, who, a) == Some(t) && j < |s.svcs| == |t.svcs|
    ensures t.svcs[j].attempts == s.svcs[j].attempts + if who == Monitor && s.mon.LaunchNew? && s.mon.work[0].idx == j then 1 else 0
    ensures t.svcs[j].manuals == s.svcs[j].manuals +
              if who == Caller && s.main.ManualInstall? && s.main.started.Some? && s.main.idx == j then 1 else 0
    ensures t.nextId == s.nextId +
              if a == Result(true) && ((who == Monitor && s.mon.LaunchNew?)
                                       || (who == Caller && (s.main.RunLaunch? || s.main.ManualLaunch?))) then 1 else 0
    ensures !(who == Monitor && s.mon.ApplyCheck?) ==>
              t.svcs[j].marks == s.svcs[j].marks + if Installs(c, s, who, j) then [Start] else []
  {
    hide MonNext, MainNext;
    match who
    case Monitor => MonitorHistory(c, s, a, t, j);
    case Caller => CallerHistory(c, s, a, t, j);
    case World => assert s.svcs[j].marks + [] == s.svcs[j].marks;
  }

  /** The next step of this thread makes a container it has launched the one of service j. */
  predicate Installs(c: Config, s: State, who: Actor, j: nat) {
    match who
    case Monitor => s.mon.Install? && s.running && s.mon.started.Some? && s.mon.work != [] && s.mon.work[0].idx == j
    case Caller =>
      || (s.main.RunInstall? && s.main.started.Some? && s.main.oi < |c.order| && c.order[s.main.oi] == j)
      || (s.main.ManualInstall? && s.main.started.Some? && s.main.idx == j)
    case World => false
  }

  lemma MonitorHistory(c: Config, s: State, a: Action, t: State, j: nat)
    requires Shape(c, s) && MonNext(c, s, a) == Some(t) && j < |s.svcs| == |t.svcs|
    ensures t.svcs[j].attempts == s.svcs[j].attempts + if s.mon.LaunchNew? && s.mon.work[0].idx == j then 1 else 0
    ensures t.svcs[j].manuals == s.svcs[j].manuals
    ensures t.nextId == s.nextId + if a == Result(true) && s.mon.LaunchNew? then 1 else 0
    ensures !s.mon.ApplyCheck? ==>
              t.svcs[j].marks == s.svcs[j].marks + if Installs(c, s, Monitor, j) then [Start] else []
  {
    hide MonNext;
    assert s.svcs[j].marks + [] == s.svcs[j].marks;
    if s.mon.Scan? || s.mon.ApplyCheck? || s.mon.LaunchNew? || s.mon.Install? {
      MonitorHistoryAtChange(c, s, a, t, j);
    } else {
      MonitorQuiet(c, s, a, t);
    }
  }

  lemma MonitorQuiet(c: Config, s: State, a: Action, t: State)
    requires MonNext(c, s, a) == Some(t) && !(s.mon.Scan? || s.mon.ApplyCheck? || s.mon.LaunchNew? || s.mon.Install?)
    ensures t.svcs == s.svcs && t.nextId == s.nextId
  {
  }

  lemma MonitorHistoryAtChange(c: Config, s: State, a: Action, t: State, j: nat)
    requires Shape(c, s) && MonNext(c, s, a) == Some(t) && j < |s.svcs| == |t.svcs|
    requires s.mon.Scan? || s.mon.ApplyCheck? || s.mon.LaunchNew? || s.mon.Install?
    ensures t.svcs[j].attempts == s.svcs[j].attempts + if s.mon.LaunchNew? && s.mon.work[0].idx == j then 1 else 0
    ensures t.svcs[j].manuals == s.svcs[j].manuals
    ensures t.nextId == s.nextId + if a == Result(true) && s.mon.LaunchNew? then 1 else 0
    ensures !s.mon.ApplyCheck? ==>
              t.svcs[j].marks == s.svcs[j].marks + if Installs(c, s, Monitor, j) then [Start] else []
  {
    hide WorkShape, IsBackoff, ScanOne, Judge;
    assert s.svcs[j].marks + [] == s.svcs[j].marks;
  }

  lemma CallerHistory(c: Config, s: State, a: Action, t: State, j: nat)
    requires Shape(c, s) && MainNext(c, s, a) == Some(t) && j < |s.svcs| == |t.svcs|
    ensures t.svcs[j].attempts == s.svcs[j].attempts
    ensures t.svcs[j].manuals == s.svcs[j].manuals +
              if s.main.ManualInstall? && s.main.started.Some? && s.main.idx == j then 1 else 0
    ensures t.nextId == s.nextId + if a == Result(true) && (s.main.RunLaunch? || s.main.ManualLaunch?) then 1 else 0
    ensures t.svcs[j].marks == s.svcs[j].marks + if Installs(c, s, Caller, j) then [Start] else []
  {
    hide MainNext;
    assert s.svcs[j].marks + [] == s.svcs[j].marks;
    if s.main.RunBegin? || s.main.RunLaunch? || s.main.RunInstall? || s.main.Up? || s.main.ManualLaunch? || s.main.ManualInstall? || s.main.DownClear? {
      CallerHistoryAtChange(c, s, a, t, j);
    } else {
      CallerQuiet(c, s, a, t);
    }
  }

  lemma CallerQuiet(c: Config, s: State, a: Action, t: State)
    requires MainNext(c, s, a) == Some(t) && !(s.main.RunBegin? || s.main.RunLaunch? || s.main.RunInstall? || s.main.Up? || s.main.ManualLaunch? || s.main.ManualInstall? || s.main.DownClear?)
    ensures t.svcs == s.svcs && t.nextId == s.nextId
  {
  }

  lemma CallerHistoryAtChange(c: Config, s: State, a: Action, t: State, j: nat)
    requires Shape(c, s) && MainNext(c, s, a) == Some(t) && j < |s.svcs| == |t.svcs|
    requires s.main.RunBegin? || s.main.RunLaunch? || s.main.RunInstall? || s.main.Up? || s.main.ManualLaunch? || s.main.ManualInstall? || s.main.DownClear?
    ensures t.svcs[j].attempts == s.svcs[j].attempts
    ensures t.svcs[j].manuals == s.svcs[j].manuals +
              if s.main.ManualInstall? && s.main.started.Some? && s.main.idx == j then 1 else 0
    ensures t.nextId == s.nextId + if a == Result(true) && (s.main.RunLaunch? || s.main.ManualLaunch?) then 1 else 0
    ensures t.svcs[j].marks == s.svcs[j].marks + if Installs(c, s, Caller, j) then [Start] else []
  {
    hide WorkShape, Risky, Clashes;
    assert s.svcs[j].marks + [] == s.svcs[j].marks;
  }

  // ---- Services start in order ----

  /** While orch_run works through its order, everything before its place has been tried. */
  ghost predicate Tried(c: Config, s: State) {
    Launching(s.main) ==>
      forall p :: 0 <= p < s.main.oi && p < |c.order| && c.order[p] < |s.svcs| ==>
        s.svcs[c.order[p]].state.Running? || s.svcs[c.order[p]].state.Failed?
  }

  lemma TriedStep(c: Config, s: State, t: State)
    requires Shape(c, s) && Tried(c, s) && Steps(c, s, t)
    ensures Tried(c, t)
  {
    hide MonNext, MainNext, Tried;
    var who, a :| Next(c, s, who, a) == Some(t);
    match who
    case Monitor =>
      if Launching(s.main) { NoThreadNoStep(c, s, a); } else { MonitorKeepsMain(c, s, a, t); NotLaunching(c, t); }
    case Caller => if Launching(s.main) { LaunchTries(c, s, a, t); } else { StillUp(c, s, a, t); NotLaunching(c, t); }
    case World => WorldTries(c, s, a, t);
  }

  lemma NotLaunching(c: Config, t: State)
    requires !Launching(t.main)
    ensures Tried(c, t)
  {
  }

  lemma StillUp(c: Config, s: State, a: Action, t: State)
    requires MainNext(c, s, a) == Some(t) && !Launching(s.main)
    ensures !Launching(t.main)
  {
    hide Risky, Clashes;
  }

  lemma WorldTries(c: Config, s: State, a: Action, t: State)
    requires Tried(c, s) && WorldNext(s, a) == Some(t)
    ensures Tried(c, t)
  {
  }

  lemma LaunchTries(c: Config, s: State, a: Action, t: State)
    requires Shape(c, s) && Tried(c, s) && Launching(s.main) && MainNext(c, s, a) == Some(t)
    ensures Tried(c, t)
  {
    hide WorkShape, Risky, Clashes;
  }

  lemma NoThreadNoStep(c: Config, s: State, a: Action)
    requires s.mon.NoThread?
    ensures MonNext(c, s, a) == None
  {
  }

  lemma MonitorKeepsMain(c: Config, s: State, a: Action, t: State)
    requires MonNext(c, s, a) == Some(t)
    ensures t.main == s.main
  {
    hide ScanOne, Judge, IsBackoff;
  }

  lemma {:induction false} RunTries(c: Config, run: seq<State>, i: nat)
    requires IsRun(c, run) && i < |run|
    ensures Tried(c, run[i])
  {
    if i > 0 {
      hide Steps, Inv, Tried;
      RunTries(c, run, i - 1);
      ShapeAt(c, run, i - 1);
      TriedStep(c, run[i - 1], run[i]);
    }
  }

  lemma ShapeAt(c: Config, run: seq<State>, i: nat)
    requires IsRun(c, run) && i < |run|
    ensures Shape(c, run[i])
  {
    RunKeeps(c, run, i);
  }

  /** When orch_run launches a service, every service it depends on has been
      launched, or has been tried and failed. */
  lemma DependenciesGoFirst(c: Config, run: seq<State>, i: nat, dep: nat)
    requires IsRun(c, run) && i < |run| && run[i].main.RunLaunch? && run[i].main.oi < |c.order|
    requires DependsOn(c.spec, c.order[run[i].main.oi], dep)
    ensures dep < |run[i].svcs| && (run[i].svcs[dep].state.Running? || run[i].svcs[dep].state.Failed?)
  {
    RunTries(c, run, i);
    ShapeAt(c, run, i);
    var oi := run[i].main.oi;
    assert dep in c.order[..oi];
    var p :| 0 <= p < oi && c.order[p] == dep;
  }


  /** In every run, manual restarts included, the monitor launches a service with a
      limit at most that often and a never-restart service not at all; the
      counter exceeds the limit by manual restarts only. */
  lemma RestartsBounded(c: Config, run: seq<State>, i: nat, svc: nat)
    requires IsRun(c, run) && i < |run| && svc < |c.services|
    ensures |run[i].svcs| == |c.services|
    ensures var v, cfg := run[i].svcs[svc], c.services[svc];
            && (cfg.maxRestarts > 0 ==> v.attempts <= cfg.maxRestarts && v.restarts <= cfg.maxRestarts + v.manuals)
            && (cfg.policy.Never? ==> v.attempts == 0)
  {
    RunKeeps(c, run, i);
  }

  /** The monitor is about to replace a container only if it has exited, with a
      code the policy restarts after, within the limit and after the right delay. */
  lemma RelaunchIsDue(c: Config, run: seq<State>, i: nat)
    requires IsRun(c, run) && i < |run| && !run[i].risky && run[i].mon.DeleteOld?
    ensures run[i].mon.work != [] && |run[i].svcs| == |c.services|
    ensures var item := run[i].mon.work[0];
            && item.Relaunch? && item.idx < |c.services|
            && run[i].svcs[item.idx].cid == Some(item.cid)
            && (item.cid in run[i].boxes ==> run[i].boxes[item.cid].status == Exited(item.code))
            && (c.services[item.idx].policy.Always? || (c.services[item.idx].policy.OnFailure? && item.code != 0))
            && (c.services[item.idx].maxRestarts == 0 || run[i].svcs[item.idx].restarts < c.services[item.idx].maxRestarts)
            && (run[i].svcs[item.idx].restarts <= 30 ==> item.backoff == Min(Pow2(run[i].svcs[item.idx].restarts), 30))
  {
    RunKeeps(c, run, i);
    var item := run[i].mon.work[0];
    assert item in Work(run[i].mon);
    ShiftDefined(run[i].svcs[item.idx].restarts);
  }

  /** As long as no manual restart met pending work for its service, the monitor
      never moves a service out of STOPPED or FAILED. */
  lemma MonitorLeavesTerminal(c: Config, run: seq<State>, i: nat, a: Action, svc: nat)
    requires IsRun(c, run) && i + 1 < |run| && !run[i].clash && svc < |c.services|
    requires MonNext(c, run[i], a) == Some(run[i + 1])
    ensures |run[i].svcs| == |run[i + 1].svcs| == |c.services|
    ensures run[i].svcs[svc].state.Stopped? || run[i].svcs[svc].state.Failed? ==>
              run[i + 1].svcs[svc].state == run[i].svcs[svc].state
  {
    RunKeeps(c, run, i);
    RunKeeps(c, run, i + 1);
    TerminalStep(c, run[i], a, run[i + 1], svc);
  }

  lemma TerminalStep(c: Config, s: State, a: Action, t: State, svc: nat)
    requires Shape(c, s) && CheckInv(s) && MonNext(c, s, a) == Some(t) && svc < |s.svcs| == |t.svcs|
    ensures s.svcs[svc].state.Stopped? || s.svcs[svc].state.Failed? ==> t.svcs[svc].state == s.svcs[svc].state
  {
    hide Wanted, BudgetLeft, IsBackoff, WorkShape;
    if s.mon.ApplyCheck? && s.mon.work != [] {
      assert s.mon.work[0] in Work(s.mon);
    }
  }

  lemma {:induction false} Pow2Monotone(m: nat, n: nat)
    requires m <= n
    ensures Pow2(m) <= Pow2(n)
    decreases n - m
  {
    if m < n { Pow2Monotone(m + 1, n); }
  }

  /** The 32-bit shift is defined up to 30 and nowhere else. */
  lemma ShiftDefined(n: nat)
    ensures ShiftOne(n) == if n <= 30 then Some(Pow2(n)) else None
  {
    assert Pow2(8) == 256;
    assert Pow2(16) == 65536;
    assert Pow2(24) == 16777216;
    assert Pow2(30) == 1073741824;
    if n <= 30 { Pow2Monotone(n, 30); } else { Pow2Monotone(31, n); }
  }

  /** In every run, manual restarts included: where the monitor decides on a
      restart of a service with a limit of 1 to 31, the delay is defined. */
  lemma SmallLimitsKeepShiftDefined(c: Config, s: State, a: Action, t: State)
    requires s.mon.Scan? && s.mon.i < |s.svcs| == |c.services| && MonNext(c, s, a) == Some(t)
    requires t.mon.Scan? && |t.mon.found| > |s.mon.found| && t.mon.found[|s.mon.found|].Relaunch?
    requires 1 <= c.services[s.mon.i].maxRestarts <= 31
    ensures ShiftOne(s.svcs[s.mon.i].restarts).Some?
  {
    ShiftDefined(s.svcs[s.mon.i].restarts);
  }
}
