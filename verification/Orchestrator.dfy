/**
 The running orchestrator of src/orchestrator.c as a transition system: the
 thread that calls orch_run, orch_restart_service and orch_down, the monitor
 thread, and containers that exit when they please.

 One action is one locked section of g_lock or one container_* call made
 without the lock.  The monitor scans the services one at a time while it holds
 the lock, so no other locked section runs during a scan.  Whether a health
 check is due is left open, since it depends on the clock only.
 */
module Orchestrator {
  import opened Base
  import opened TopoSort

  datatype Policy = Never | OnFailure | Always

  datatype ServiceConfig = ServiceConfig(policy: Policy, maxRestarts: nat, healthEnabled: bool, retries: nat)

  /** What orch_run was given: the service settings, the dependency spec and the
      order topo_sort produced for it. */
  datatype Config = Config(services: seq<ServiceConfig>, spec: Spec, order: seq<nat>)

  ghost predicate ValidConfig(c: Config) {
    && |c.services| == |c.spec|
    && IsStartupOrder(c.spec, c.order)
    && forall i :: 0 <= i < |c.services| ==> c.services[i].healthEnabled ==> c.services[i].retries >= 1
  }

  // ---- parse_service clamps ----

  /** The admissible limit closest to the one given. */
  function ClampMaxRestarts(mr: int): (r: nat)
    ensures r <= 1000 && forall x :: 0 <= x <= 1000 ==> Distance(mr, r) <= Distance(mr, x)
  {
    if mr < 0 then 0 else if mr > 1000 then 1000 else mr
  }

  /** The admissible number of retries closest to the one given. */
  function ClampRetries(rt: int): (r: nat)
    ensures 1 <= r <= 100 && forall x :: 1 <= x <= 100 ==> Distance(rt, r) <= Distance(rt, x)
  {
    if rt < 1 then 1 else if rt > 100 then 100 else rt
  }

  /** The settings parse_service makes of the numbers in a spec; `hasCheck` when it
      names a health check. */
  function ParsedService(policy: Policy, mr: int, hasCheck: bool, rt: int): ServiceConfig {
    ServiceConfig(policy, ClampMaxRestarts(mr), hasCheck, if hasCheck then ClampRetries(rt) else 0)
  }

  /** A service as its spec gives it. */
  datatype Given = Given(policy: Policy, mr: int, hasCheck: bool, rt: int)

  function ParsedServices(given: seq<Given>): seq<ServiceConfig> {
    seq(|given|, i requires 0 <= i < |given| =>
      ParsedService(given[i].policy, given[i].mr, given[i].hasCheck, given[i].rt))
  }

  /** Whatever numbers a spec holds, its services and the order topo_sort found for
      them make a valid configuration, with every limit at most 1000. */
  lemma ParsedConfigIsValid(given: seq<Given>, spec: Spec, order: seq<nat>)
    requires |given| == |spec| && IsStartupOrder(spec, order)
    ensures var c := Config(ParsedServices(given), spec, order);
            ValidConfig(c) && forall i :: 0 <= i < |c.services| ==> c.services[i].maxRestarts <= 1000
  {
  }

  // ---- Back-off ----

  function Pow2(n: nat): (r: nat)
    ensures r >= 1 && r > n
  {
    if n == 0 then 1 else 2 * Pow2(n - 1)
  }

  /** `1 << n` on a 32-bit int, where it is defined. */
  function ShiftOne(n: nat): Option<nat> {
    if Pow2(n) <= INT_MAX then Some(Pow2(n)) else None
  }

  /** The delay before a restart; any value once the shift is undefined. */
  predicate IsBackoff(restarts: nat, seconds: int) {
    var shifted := ShiftOne(restarts);
    shifted.Some? ==> seconds == if shifted.value > 30 then 30 else shifted.value
  }

  // ---- State ----

  datatype ServiceState = Pending | Starting | Running | Healthy | Unhealthy | Stopped | Failed | Restarting

  /** What happened to a service's health record: a (re)start, or an accepted check. */
  datatype Mark = Start | Pass | Fail

  datatype Svc = Svc(
    cid: Option<nat>,
    state: ServiceState,
    restarts: nat,        // restart_count
    fails: nat,           // health_fail_count
    marks: seq<Mark>,     // history
    attempts: nat,        // history: launches the monitor has tried
    manuals: nat)         // history: manual restarts that succeeded

  datatype BoxStatus = Live | Exited(code: int)

  /** A container and the service it was launched for. */
  datatype Box = Box(status: BoxStatus, owner: nat)

  datatype Item =
    | Check(idx: nat, cid: nat)
    | Relaunch(idx: nat, cid: nat, code: int, backoff: int)

  datatype MonPc =
    | NoThread
    | Sleep
    | Scan(i: nat, found: seq<Item>)
    | NextItem(work: seq<Item>)
    | RunCheck(work: seq<Item>)
    | ApplyCheck(work: seq<Item>, ok: bool)
    | Backoff(work: seq<Item>)
    | DeleteOld(work: seq<Item>)
    | LaunchNew(work: seq<Item>)
    | Install(work: seq<Item>, started: Option<nat>)
    | AbortStop(work: seq<Item>, id: nat)
    | AbortDelete(work: seq<Item>, id: nat)
    | MonExited

  datatype MainPc =
    | RunBegin(oi: nat)
    | RunLaunch(oi: nat)
    | RunInstall(oi: nat, started: Option<nat>)
    | SetRunning
    | CreateThread
    | Up
    | ManualStop(idx: nat, old_id: Option<nat>)
    | ManualDelete(idx: nat, old_id: Option<nat>)
    | ManualLaunch(idx: nat)
    | ManualInstall(idx: nat, started: Option<nat>)
    | Join
    | DownStop(left: nat)
    | DownDelete(left: nat)
    | DownClear(left: nat)
    | DownDone

  datatype State = State(
    main: MainPc,
    mon: MonPc,
    running: bool,
    svcs: seq<Svc>,
    boxes: map<nat, Box>,
    nextId: nat,
    clash: bool,          // history: a manual restart met pending work for its service
    risky: bool)          // history: a manual restart met work that can orphan a container

  function Init(c: Config): State {
    State(RunBegin(0), NoThread, false, seq(|c.services|, _ => Svc(None, Pending, 0, 0, [], 0, 0)), map[], 0, false, false)
  }

  datatype Action =
    | Go                                   // the only continuation, or a lock taken
    | Ended(code: int)                     // container_stop, with the exit code it reaps
    | Due(due: bool, backoff: int)         // scan of one service
    | Result(ok: bool)                     // of a launch, a check or pthread_create
    | Restart(idx: nat)                    // orch_restart_service
    | Down                                 // orch_down
    | Exit(id: nat, code: int)             // a container ends by itself

  // ---- Container calls ----

  /** container_run_background for service `owner`; a failed launch leaves nothing running. */
  function Launch(s: State, owner: nat, ok: bool): (r: (State, Option<nat>)) {
    if ok then (s.(boxes := s.boxes[s.nextId := Box(Live, owner)], nextId := s.nextId + 1), Some(s.nextId))
    else (s, None)
  }

  /** container_stop: a live container is brought down. */
  function StopBox(s: State, id: Option<nat>, code: int): State {
    if id.Some? && id.value in s.boxes && s.boxes[id.value].status.Live? then
      s.(boxes := s.boxes[id.value := s.boxes[id.value].(status := Exited(code))])
    else s
  }

  /** container_delete: refuses a live container and an unknown one. */
  function DeleteBox(s: State, id: Option<nat>): State {
    if id.Some? && id.value in s.boxes && !s.boxes[id.value].status.Live? then
      s.(boxes := s.boxes - {id.value})
    else s
  }

  function SetSvc(s: State, i: nat, v: Svc): State
    requires i < |s.svcs|
  {
    s.(svcs := s.svcs[i := v])
  }

  predicate LockFree(s: State) { !s.mon.Scan? }

  // ---- The monitor ----

  /** One service of the scan (src/orchestrator.c:398-455): its new record and
      the work item it produces. */
  function ScanOne(cfg: ServiceConfig, i: nat, v: Svc, boxes: map<nat, Box>, a: Action): (r: (Svc, seq<Item>))
    requires a.Due?
    ensures r.0 == v.(state := r.0.state)
    ensures r.1 != [] ==> |r.1| == 1 && r.1[0].idx == i && v.cid == Some(r.1[0].cid)
  {
    if v.cid.None? || v.state.Pending? || v.state.Starting? || v.state.Restarting? then (v, [])
    else if v.cid.value !in boxes then (v, [])
    else
      var id := v.cid.value;
      var status := boxes[id].status;
      if status.Exited? && !v.state.Stopped? && !v.state.Failed? then
        if Wanted(cfg, status.code) && BudgetLeft(cfg, v) then
          (v.(state := Restarting), [Relaunch(i, id, status.code, a.backoff)])
        else
          (v.(state := if status.code == 0 then Stopped else Failed), [])
      else if status.Live? && cfg.healthEnabled && (v.state.Running? || v.state.Healthy? || v.state.Unhealthy?) then
        (v, if a.due then [Check(i, id)] else [])
      else if status.Live? && !cfg.healthEnabled && v.state.Running? then
        (v.(state := Healthy), [])
      else (v, [])
  }

  /** The effect of an accepted health result (src/orchestrator.c:479-492). */
  function Judge(cfg: ServiceConfig, v: Svc, ok: bool): (r: Svc)
    ensures r == v.(state := r.state, fails := r.fails, marks := r.marks)
    ensures r.state == v.state || r.state.Healthy? || r.state.Unhealthy?
  {
    if ok then v.(fails := 0, state := Healthy, marks := v.marks + [Pass])
    else
      var w := v.(fails := v.fails + 1, marks := v.marks + [Fail]);
      if w.fails >= cfg.retries then w.(state := Unhealthy) else w
  }

  function MonNext(c: Config, s: State, a: Action): Option<State> {
    match s.mon
    case Sleep =>
      if !a.Go? then None
      else Some(s.(mon := if s.running then Scan(0, []) else MonExited))
    case Scan(i, found) =>
      if i >= |s.svcs| || i >= |c.services| then
        if a.Go? then Some(s.(mon := NextItem(found))) else None
      else if !a.Due? || !IsBackoff(s.svcs[i].restarts, a.backoff) then None
      else
        var (v, items) := ScanOne(c.services[i], i, s.svcs[i], s.boxes, a);
        Some(SetSvc(s, i, v).(mon := Scan(i + 1, found + items)))
    case NextItem(work) =>
      if !a.Go? then None
      else if work == [] || !s.running then Some(s.(mon := Sleep))
      else Some(s.(mon := if work[0].Check? then RunCheck(work) else Backoff(work)))
    case RunCheck(work) =>
      if a.Result? then Some(s.(mon := ApplyCheck(work, a.ok))) else None
    case ApplyCheck(work, ok) =>
      if !a.Go? || work == [] || !work[0].Check? || work[0].idx >= |s.svcs| || work[0].idx >= |c.services| then None
      else
        var i := work[0].idx;
        var t := s.(mon := NextItem(work[1..]));
        if !s.running || s.svcs[i].cid != Some(work[0].cid) then Some(t)
        else Some(SetSvc(t, i, Judge(c.services[i], s.svcs[i], ok)))
    case Backoff(work) =>
      if !a.Go? || work == [] then None
      else Some(s.(mon := if s.running then DeleteOld(work) else NextItem(work[1..])))
    case DeleteOld(work) =>
      if !a.Go? || work == [] then None
      else Some(DeleteBox(s, Some(work[0].cid)).(mon := LaunchNew(work)))
    case LaunchNew(work) =>
      if !a.Result? || work == [] || work[0].idx >= |s.svcs| then None
      else
        var i := work[0].idx;
        var (t, id) := Launch(s, i, a.ok);
        Some(SetSvc(t, i, s.svcs[i].(attempts := s.svcs[i].attempts + 1)).(mon := Install(work, id)))
    case Install(work, started) =>
      if !a.Go? || work == [] || work[0].idx >= |s.svcs| then None
      else
        var i := work[0].idx;
        if !s.running then
          Some(s.(mon := if started.Some? then AbortStop(work[1..], started.value) else NextItem(work[1..])))
        else if started.Some? then
          var v := s.svcs[i];
          Some(SetSvc(s, i, v.(cid := started, state := Running, fails := 0, restarts := v.restarts + 1,
                               marks := v.marks + [Start])).(mon := NextItem(work[1..])))
        else Some(SetSvc(s, i, s.svcs[i].(state := Failed)).(mon := NextItem(work[1..])))
    case AbortStop(work, id) =>
      if a.Ended? then Some(StopBox(s, Some(id), a.code).(mon := AbortDelete(work, id))) else None
    case AbortDelete(work, id) => if a.Go? then Some(DeleteBox(s, Some(id)).(mon := NextItem(work))) else None
    case _ => None
  }

  // ---- Manual restarts and pending work ----

  /** The items the monitor has not finished. */
  function Work(mon: MonPc): seq<Item> {
    match mon
    case Scan(_, found) => found
    case NextItem(work) => work
    case RunCheck(work) => work
    case ApplyCheck(work, _) => work
    case Backoff(work) => work
    case DeleteOld(work) => work
    case LaunchNew(work) => work
    case Install(work, _) => work
    case AbortStop(work, _) => work
    case AbortDelete(work, _) => work
    case _ => []
  }

  /** Whether the policy asks for a restart after this exit code. */
  predicate Wanted(cfg: ServiceConfig, code: int) {
    cfg.policy.Always? || (cfg.policy.OnFailure? && code != 0)
  }

  predicate BudgetLeft(cfg: ServiceConfig, v: Svc) {
    cfg.maxRestarts == 0 || v.restarts < cfg.maxRestarts
  }

  /** No scan will ask for a relaunch of the service's current container. */
  predicate NoRelaunch(cfg: ServiceConfig, v: Svc, boxes: map<nat, Box>) {
    || cfg.policy.Never? || !BudgetLeft(cfg, v) || v.cid.None? || v.cid.value !in boxes
    || (boxes[v.cid.value].status.Exited? && !Wanted(cfg, boxes[v.cid.value].status.code))
  }

  /** The monitor has an item for this service in hand. */
  predicate Clashes(s: State, idx: nat) {
    exists item :: item in Work(s.mon) && item.idx == idx
  }

  /** The monitor stands at or inside this item. */
  predicate InHand(mon: MonPc, item: Item) { Work(mon) != [] && item == Work(mon)[0] }

  /** The item in hand can no longer bring its service up: the launch has failed, or
      the check has, with failures to spare. */
  predicate Spent(c: Config, s: State) {
    || (s.mon.Install? && s.mon.started.None?)
    || (s.mon.ApplyCheck? && !s.mon.ok && s.mon.work != []
        && s.mon.work[0].idx < |s.svcs| && s.mon.work[0].idx < |c.services|
        && s.svcs[s.mon.work[0].idx].fails + 1 < c.services[s.mon.work[0].idx].retries)
  }

  /** An item that makes a manual restart dangerous: it is a relaunch, or a check of
      the current container that can put a service which is being restarted back
      under the monitor's eyes, with a relaunch to follow. */
  predicate Endangers(item: Item, cfg: ServiceConfig, v: Svc, boxes: map<nat, Box>) {
    item.Relaunch? || (v.cid == Some(item.cid) && !NoRelaunch(cfg, v, boxes))
  }

  predicate Risky(c: Config, s: State, idx: nat) {
    && idx < |s.svcs| && idx < |c.services|
    && exists item :: item in Work(s.mon) && item.idx == idx && !(InHand(s.mon, item) && Spent(c, s)) &&
                      Endangers(item, c.services[idx], s.svcs[idx], s.boxes)
  }

  // ---- The calling thread ----

  function MainNext(c: Config, s: State, a: Action): Option<State> {
    match s.main
    case RunBegin(oi) =>
      if !a.Go? then None
      else if oi >= |c.order| then Some(s.(main := SetRunning))
      else if c.order[oi] >= |s.svcs| then None
      else Some(SetSvc(s, c.order[oi], s.svcs[c.order[oi]].(state := Starting)).(main := RunLaunch(oi)))
    case RunLaunch(oi) =>
      if !a.Result? || oi >= |c.order| then None
      else
        var (t, id) := Launch(s, c.order[oi], a.ok);
        Some(t.(main := RunInstall(oi, id)))
    case RunInstall(oi, started) =>
      if !a.Go? || oi >= |c.order| || c.order[oi] >= |s.svcs| then None
      else
        var i := c.order[oi];
        var v := s.svcs[i];
        Some(SetSvc(s, i, if started.Some? then v.(cid := started, state := Running, marks := v.marks + [Start])
                          else v.(state := Failed)).(main := RunBegin(oi + 1)))
    case SetRunning => if a.Go? then Some(s.(running := true, main := CreateThread)) else None
    case CreateThread =>
      if a.Result? then Some(s.(main := Up, mon := if a.ok then Sleep else NoThread)) else None
    case Up =>
      if !LockFree(s) then None
      else if a.Down? then Some(s.(running := false, main := Join))
      else if a.Restart? && a.idx < |s.svcs| then
        Some(SetSvc(s, a.idx, s.svcs[a.idx].(state := Restarting))
             .(main := ManualStop(a.idx, s.svcs[a.idx].cid),
               clash := s.clash || Clashes(s, a.idx), risky := s.risky || Risky(c, s, a.idx)))
      else None
    case ManualStop(i, id) => if a.Ended? then Some(StopBox(s, id, a.code).(main := ManualDelete(i, id))) else None
    case ManualDelete(i, id) => if a.Go? then Some(DeleteBox(s, id).(main := ManualLaunch(i))) else None
    case ManualLaunch(i) =>
      if !a.Result? then None
      else
        var (t, id) := Launch(s, i, a.ok);
        Some(t.(main := ManualInstall(i, id)))
    case ManualInstall(i, started) =>
      if !a.Go? || i >= |s.svcs| || !LockFree(s) then None
      else
        var v := s.svcs[i];
        Some(SetSvc(s, i, if started.Some?
                          then v.(cid := started, state := Running, fails := 0, restarts := v.restarts + 1,
                                  marks := v.marks + [Start], manuals := v.manuals + 1)
                          else v.(state := Failed)).(main := Up))
    case Join =>
      if a.Go? && (s.mon.NoThread? || s.mon.MonExited?) then Some(s.(main := DownStop(|c.order|))) else None
    case DownStop(left) =>
      if left == 0 then if a.Go? then Some(s.(main := DownDone)) else None
      else if left > |c.order| || c.order[left - 1] >= |s.svcs| then None
      else
        var id := s.svcs[c.order[left - 1]].cid;
        if id.None? then if a.Go? then Some(s.(main := DownStop(left - 1))) else None
        else if a.Ended? then Some(StopBox(s, id, a.code).(main := DownDelete(left)))
        else None
    case DownDelete(left) =>
      if !a.Go? || left == 0 || left > |c.order| || c.order[left - 1] >= |s.svcs| then None
      else Some(DeleteBox(s, s.svcs[c.order[left - 1]].cid).(main := DownClear(left)))
    case DownClear(left) =>
      if !a.Go? || left == 0 || left > |c.order| || c.order[left - 1] >= |s.svcs| then None
      else
        var i := c.order[left - 1];
        Some(SetSvc(s, i, s.svcs[i].(state := Stopped, cid := None)).(main := DownStop(left - 1)))
    case DownDone => None
  }

  /** A live container may end at any time. */
  function WorldNext(s: State, a: Action): Option<State> {
    if a.Exit? && a.id in s.boxes && s.boxes[a.id].status.Live? then
      Some(s.(boxes := s.boxes[a.id := s.boxes[a.id].(status := Exited(a.code))]))
    else None
  }

  datatype Actor = Monitor | Caller | World

  function Next(c: Config, s: State, who: Actor, a: Action): Option<State> {
    match who
    case Monitor => MonNext(c, s, a)
    case Caller => MainNext(c, s, a)
    case World => WorldNext(s, a)
  }

  ghost predicate Steps(c: Config, s: State, t: State) {
    exists who, a :: Next(c, s, who, a) == Some(t)
  }

  ghost predicate IsRun(c: Config, run: seq<State>) {
    && ValidConfig(c) && run != [] && run[0] == Init(c)
    && forall i, j :: 0 <= i && j == i + 1 < |run| ==> Steps(c, run[i], run[j])
  }
}
