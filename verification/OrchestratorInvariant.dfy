/**
 What holds throughout every run of the orchestrator, and that every step of
 monitor, caller and containers keeps it.
 */
module OrchestratorInvariant {
  import opened Base
  import opened TopoSort
  import opened Orchestrator

  // ---- Invariant ----

  ghost predicate WorkShape(mon: MonPc, n: nat) {
    var w := Work(mon);
    && (forall item :: item in w ==> item.idx < n)
    && (forall j, k :: 0 <= j < k < |w| ==> w[j].idx != w[k].idx)
    && (mon.Scan? ==> mon.i <= n && forall item :: item in w ==> item.idx < mon.i)
  }

  /** The item in hand is of the kind the monitor is working on. */
  predicate HeadShape(mon: MonPc) {
    && (mon.RunCheck? || mon.ApplyCheck? ==> mon.work != [] && mon.work[0].Check?)
    && (mon.Backoff? || mon.DeleteOld? || mon.LaunchNew? || mon.Install? ==> mon.work != [] && mon.work[0].Relaunch?)
  }

  predicate Launching(main: MainPc) { main.RunBegin? || main.RunLaunch? || main.RunInstall? }

  predicate Manual(main: MainPc) {
    main.ManualStop? || main.ManualDelete? || main.ManualLaunch? || main.ManualInstall?
  }

  predicate GoingDown(main: MainPc) {
    main.DownStop? || main.DownDelete? || main.DownClear? || main.DownDone?
  }

  ghost predicate Shape(c: Config, s: State) {
    && ValidConfig(c) && |s.svcs| == |c.services|
    && WorkShape(s.mon, |s.svcs|) && HeadShape(s.mon)
    && (Launching(s.main) || s.main.SetRunning? || s.main.CreateThread? ==> s.mon.NoThread?)
    && (Launching(s.main) ==> s.main.oi <= |c.order|)
    && (s.main.RunLaunch? || s.main.RunInstall? ==> s.main.oi < |c.order|)
    && (s.main.CreateThread? || s.main.Up? || Manual(s.main) ==> s.running)
    && (s.main.Join? || GoingDown(s.main) ==> !s.running)
    && (s.mon.AbortStop? || s.mon.AbortDelete? ==> !s.running)
    && (GoingDown(s.main) ==> s.mon.NoThread? || s.mon.MonExited?)
    && (Manual(s.main) ==> s.main.idx < |s.svcs|)
    && (s.main.DownStop? || s.main.DownDelete? || s.main.DownClear? ==> s.main.left <= |c.order|)
    && (s.main.DownDelete? || s.main.DownClear? ==> s.main.left > 0)
  }

  /** A container id in use was handed out, and if it exists it was launched for this service. */
  predicate Issued(s: State, id: nat, owner: nat) {
    id < s.nextId && (id in s.boxes ==> s.boxes[id].owner == owner)
  }

  /** Every id anyone holds is known. */
  ghost predicate IdInv(c: Config, s: State) {
    && (forall id :: id in s.boxes ==> id < s.nextId && s.boxes[id].owner < |s.svcs|)
    && (forall i :: 0 <= i < |s.svcs| && s.svcs[i].cid.Some? ==> Issued(s, s.svcs[i].cid.value, i))
    && (forall item :: item in Work(s.mon) ==> Issued(s, item.cid, item.idx))
    && (s.mon.Install? && s.mon.started.Some? && s.mon.work != [] ==> Issued(s, s.mon.started.value, s.mon.work[0].idx))
    && (s.main.RunInstall? && s.main.started.Some? && s.main.oi < |c.order| ==>
          Issued(s, s.main.started.value, c.order[s.main.oi]))
    && (s.main.ManualInstall? && s.main.started.Some? ==> Issued(s, s.main.started.value, s.main.idx))
  }

  /** How many checks failed since the last pass or (re)start. */
  function TrailingFails(marks: seq<Mark>): nat {
    if marks == [] || !marks[|marks| - 1].Fail? then 0 else 1 + TrailingFails(marks[..|marks| - 1])
  }

  ghost predicate HealthOf(cfg: ServiceConfig, v: Svc) {
    && v.fails == TrailingFails(v.marks)
    && (cfg.healthEnabled && (v.state.Running? || v.state.Healthy?) ==> v.fails < cfg.retries)
    && (cfg.healthEnabled && v.state.Unhealthy? ==> v.fails >= cfg.retries)
  }

  ghost predicate HealthInv(c: Config, s: State)
    requires |s.svcs| == |c.services|
  {
    && (forall i :: 0 <= i < |s.svcs| ==> HealthOf(c.services[i], s.svcs[i]))
    && (forall item :: item in Work(s.mon) && item.Check? && item.idx < |s.svcs| ==> c.services[item.idx].healthEnabled)
    && (Launching(s.main) ==> forall i :: 0 <= i < |s.svcs| ==> s.svcs[i].fails == 0)
  }

  /** A service that the monitor looks after. */
  predicate Watched(v: Svc) { v.state.Running? || v.state.Healthy? || v.state.Unhealthy? }

  /** How the monitor's launches, its successes and the manual restarts add up. */
  ghost predicate CountOk(cfg: ServiceConfig, v: Svc) {
    && (cfg.maxRestarts > 0 ==> v.attempts <= cfg.maxRestarts)
    && (v.attempts > 0 ==> !cfg.policy.Never?)
    && v.restarts <= v.attempts + v.manuals && v.attempts <= v.restarts + 1
    && (Watched(v) ==> v.attempts <= v.restarts)
  }

  /** The same for a service with an item in hand; `launched` once its relaunch is under way. */
  ghost predicate ItemCountOk(cfg: ServiceConfig, v: Svc, item: Item, launched: bool) {
    if launched then v.restarts < v.attempts + v.manuals
    else
      && v.attempts <= v.restarts
      && (item.Relaunch? ==>
            && !cfg.policy.Never? && (cfg.maxRestarts > 0 ==> v.attempts < cfg.maxRestarts)
            && (Watched(v) ==> v.attempts < v.restarts))
  }

  ghost predicate RestartInv(c: Config, s: State)
    requires |s.svcs| == |c.services|
  {
    && (forall i :: 0 <= i < |s.svcs| ==> CountOk(c.services[i], s.svcs[i]))
    && (forall item :: item in Work(s.mon) && item.idx < |s.svcs| ==>
          ItemCountOk(c.services[item.idx], s.svcs[item.idx], item, s.mon.Install? && InHand(s.mon, item)))
    && (Launching(s.main) ==> forall i :: 0 <= i < |s.svcs| ==> s.svcs[i].attempts == 0)
  }

  /** A live container is the current one of its service, or in the hands of a
      thread that is about to install or remove it. */
  predicate Held(c: Config, s: State, id: nat, owner: nat) {
    || (owner < |s.svcs| && s.svcs[owner].cid == Some(id))
    || (s.mon.Install? && s.mon.started == Some(id) && s.mon.work != [] && s.mon.work[0].idx == owner)
    || (s.mon.AbortStop? && s.mon.id == id)
    || (s.main.RunInstall? && s.main.started == Some(id) && s.main.oi < |c.order| && c.order[s.main.oi] == owner)
    || (s.main.ManualInstall? && s.main.started == Some(id) && s.main.idx == owner)
  }

  ghost predicate OwnInv(c: Config, s: State) {
    && (forall id :: id in s.boxes && s.boxes[id].status.Live? ==> Held(c, s, id, s.boxes[id].owner))
    && (Launching(s.main) ==> forall p :: s.main.oi <= p < |c.order| && c.order[p] < |s.svcs| ==>
          s.svcs[c.order[p]].cid.None?)
    && (s.main.DownStop? || s.main.DownDelete? || s.main.DownClear? ==>
          forall p :: s.main.left <= p < |c.order| && c.order[p] < |s.svcs| ==> s.svcs[c.order[p]].cid.None?)
    && (s.main.DownDone? ==> forall p :: 0 <= p < |c.order| && c.order[p] < |s.svcs| ==> s.svcs[c.order[p]].cid.None?)
    && ((s.main.DownDelete? || s.main.DownClear?) && 0 < s.main.left <= |c.order| ==>
          forall id :: id in s.boxes && s.boxes[id].owner == c.order[s.main.left - 1] ==> !s.boxes[id].status.Live?)
  }

  /** A pending relaunch and the service it is about. */
  ghost predicate RelaunchOk(cfg: ServiceConfig, v: Svc, boxes: map<nat, Box>, item: Item) {
    item.Relaunch? ==>
      && v.cid == Some(item.cid) && v.state.Restarting?
      && (item.cid in boxes ==> boxes[item.cid].status == Exited(item.code))
      && Wanted(cfg, item.code) && BudgetLeft(cfg, v) && IsBackoff(v.restarts, item.backoff)
  }

  ghost predicate RelaunchInv(c: Config, s: State)
    requires |s.svcs| == |c.services|
  {
    forall item :: item in Work(s.mon) && item.idx < |s.svcs| && !(InHand(s.mon, item) && Spent(c, s)) ==>
      RelaunchOk(c.services[item.idx], s.svcs[item.idx], s.boxes, item)
  }

  /** No item in hand and no scan to come can touch a service that is being restarted by hand. */
  ghost predicate LeftAlone(c: Config, s: State, idx: nat)
    requires idx < |s.svcs| == |c.services|
  {
    var cfg, v := c.services[idx], s.svcs[idx];
    && (Watched(v) ==> NoRelaunch(cfg, v, s.boxes))
    && forall item :: item in Work(s.mon) && item.idx == idx && !(InHand(s.mon, item) && Spent(c, s)) ==>
         !Endangers(item, cfg, v, s.boxes)
  }

  ghost predicate ManualInv(c: Config, s: State)
    requires |s.svcs| == |c.services|
  {
    Manual(s.main) && s.main.idx < |s.svcs| ==>
      var id := s.svcs[s.main.idx].cid;
      && LeftAlone(c, s, s.main.idx)
      && (s.main.ManualStop? || s.main.ManualDelete? ==> s.main.old_id == id)
      && (!s.main.ManualStop? && id.Some? && id.value in s.boxes ==> !s.boxes[id.value].status.Live?)
  }

  /** Without clashes every service with a pending check is watched, and none is
      pending for a service that is being restarted by hand. */
  ghost predicate CheckInv(s: State) {
    && (forall item :: item in Work(s.mon) && item.Check? && item.idx < |s.svcs| ==> Watched(s.svcs[item.idx]))
    && (s.mon.Install? && s.mon.work != [] && s.mon.work[0].idx < |s.svcs| ==>
          s.svcs[s.mon.work[0].idx].state.Restarting?)
    && (Manual(s.main) && s.main.idx < |s.svcs| ==> s.svcs[s.main.idx].state.Restarting? && !Clashes(s, s.main.idx))
  }

  ghost predicate Inv(c: Config, s: State) {
    && Shape(c, s) && IdInv(c, s) && HealthInv(c, s) && RestartInv(c, s)
    && (!s.risky ==> OwnInv(c, s) && RelaunchInv(c, s) && ManualInv(c, s))
    && (!s.clash ==> !s.risky && CheckInv(s))
  }

  // ---- Steps that leave the services alone ----

  /** The monitor goes on with what it has, with its first item done, or with nothing. */
  predicate Fewer(m: MonPc, m': MonPc) {
    Work(m') == Work(m) || Work(m') == [] || (Work(m) != [] && Work(m') == Work(m)[1..])
  }

  lemma FewerShape(m: MonPc, m': MonPc, n: nat)
    requires WorkShape(m, n) && Fewer(m, m') && (m'.Scan? ==> m' == m || m' == Scan(0, []))
    ensures WorkShape(m', n)
  {
  }

  ghost predicate SameServices(s: State, t: State) {
    && t.svcs == s.svcs && t.clash == s.clash && t.risky == s.risky
    && Fewer(s.mon, t.mon) && (s.mon.Install? || t.mon.Install? || s.mon.ApplyCheck? ==> t.mon == s.mon)
    && (Launching(t.main) ==> Launching(s.main))
    && (Manual(t.main) ==> Manual(s.main) && t.main.idx == s.main.idx)
  }

  lemma SameServicesKeep(c: Config, s: State, t: State)
    requires SameServices(s, t) && |s.svcs| == |c.services|
    ensures HealthInv(c, s) ==> HealthInv(c, t)
    ensures RestartInv(c, s) ==> RestartInv(c, t)
    ensures CheckInv(s) ==> CheckInv(t)
  {
    hide HealthOf, CountOk, ItemCountOk;
  }

  /** Containers that existed keep their owner and may end; others are new. */
  ghost predicate Aged(s: State, t: State) {
    && s.nextId <= t.nextId
    && (forall id :: id in t.boxes && id < s.nextId ==>
          && id in s.boxes && t.boxes[id].owner == s.boxes[id].owner
          && (t.boxes[id].status == s.boxes[id].status || (s.boxes[id].status.Live? && !t.boxes[id].status.Live?)))
    && (forall id :: id in t.boxes && s.nextId <= id ==> id < t.nextId && t.boxes[id].owner < |s.svcs|)
  }

  lemma AgedKeeps(c: Config, s: State, t: State)
    requires IdInv(c, s) && SameServices(s, t) && Aged(s, t) && |s.svcs| == |c.services|
    requires s.main.RunInstall? ==> t.main == s.main
    requires t.main.RunInstall? && t.main.started.Some? && t.main.oi < |c.order| ==>
               Issued(t, t.main.started.value, c.order[t.main.oi])
    requires t.main.ManualInstall? && t.main.started.Some? ==> Issued(t, t.main.started.value, t.main.idx)
    ensures IdInv(c, t)
    ensures RelaunchInv(c, s) ==> RelaunchInv(c, t)
  {
    hide IsBackoff;
  }

  lemma AgedLeavesAlone(c: Config, s: State, t: State)
    requires IdInv(c, s) && SameServices(s, t) && Aged(s, t) && |s.svcs| == |c.services|
    requires Manual(t.main) && t.main.idx < |s.svcs| && LeftAlone(c, s, t.main.idx)
    ensures LeftAlone(c, t, t.main.idx)
  {
    hide Wanted, BudgetLeft;
  }

  /** Only program counters change, and nothing is handed over. */
  ghost predicate SameContainers(c: Config, s: State, t: State) {
    && SameServices(s, t) && t.boxes == s.boxes && t.nextId == s.nextId
    && (s.mon.AbortStop? || t.mon.AbortStop? ==> t.mon == s.mon)
    && (t.main != s.main ==>
          && !s.main.RunInstall? && !Manual(s.main) && !Manual(t.main) && !Launching(t.main)
          && (GoingDown(t.main) ==> t.main == DownStop(|c.order|)))
  }

  lemma SameContainersKeep(c: Config, s: State, t: State)
    requires Inv(c, s) && Shape(c, t) && SameContainers(c, s, t)
    ensures Inv(c, t)
  {
    hide HealthInv, RestartInv, CheckInv, RelaunchOk, Endangers, NoRelaunch, WorkShape;
    SameServicesKeep(c, s, t);
  }

  // ---- Steps that move a program counter ----

  lemma MonitorMoves(c: Config, s: State, a: Action, t: State)
    requires Inv(c, s) && (s.mon.Sleep? || s.mon.NextItem? || s.mon.RunCheck? || s.mon.Backoff?) && MonNext(c, s, a) == Some(t)
    ensures Inv(c, t)
  {
    hide IdInv, HealthInv, RestartInv, OwnInv, RelaunchInv, ManualInv, CheckInv, WorkShape;
    FewerShape(s.mon, t.mon, |s.svcs|);
    SameContainersKeep(c, s, t);
  }

  lemma CallerMoves(c: Config, s: State, a: Action, t: State)
    requires Inv(c, s) && (s.main.SetRunning? || s.main.CreateThread? || (s.main.Up? && a.Down?) || s.main.Join?) && MainNext(c, s, a) == Some(t)
    ensures Inv(c, t)
  {
    hide IdInv, HealthInv, RestartInv, OwnInv, RelaunchInv, ManualInv, CheckInv, WorkShape;
    FewerShape(s.mon, t.mon, |s.svcs|);
    SameContainersKeep(c, s, t);
  }

  // ---- Steps that change containers ----

  lemma MonitorEndsIds(c: Config, s: State, a: Action, t: State)
    requires Shape(c, s) && IdInv(c, s) && (s.mon.DeleteOld? || s.mon.AbortStop? || s.mon.AbortDelete?) && MonNext(c, s, a) == Some(t)
    ensures Shape(c, t) && SameServices(s, t) && Aged(s, t) && IdInv(c, t)
    ensures RelaunchInv(c, s) ==> RelaunchInv(c, t)
  {
    hide WorkShape, RelaunchInv;
    FewerShape(s.mon, t.mon, |s.svcs|);
    AgedKeeps(c, s, t);
  }

  lemma MonitorEndsOwn(c: Config, s: State, a: Action, t: State)
    requires Shape(c, s) && IdInv(c, s) && OwnInv(c, s) && ManualInv(c, s)
    requires SameServices(s, t) && Aged(s, t) && (s.mon.DeleteOld? || s.mon.AbortStop? || s.mon.AbortDelete?) && MonNext(c, s, a) == Some(t)
    ensures OwnInv(c, t) && ManualInv(c, t)
  {
    hide NoRelaunch, Endangers, WorkShape;
    if Manual(t.main) { AgedLeavesAlone(c, s, t); }
  }

  lemma LaunchIds(c: Config, s: State, a: Action, t: State)
    requires Shape(c, s) && IdInv(c, s) && (s.main.RunLaunch? || s.main.ManualLaunch?) && MainNext(c, s, a) == Some(t)
    ensures Shape(c, t) && SameServices(s, t) && Aged(s, t) && IdInv(c, t)
    ensures RelaunchInv(c, s) ==> RelaunchInv(c, t)
  {
    hide WorkShape, RelaunchInv;
    FewerShape(s.mon, t.mon, |s.svcs|);
    AgedKeeps(c, s, t);
  }

  lemma LaunchOwn(c: Config, s: State, a: Action, t: State)
    requires Shape(c, s) && IdInv(c, s) && OwnInv(c, s) && ManualInv(c, s)
    requires SameServices(s, t) && Aged(s, t) && (s.main.RunLaunch? || s.main.ManualLaunch?) && MainNext(c, s, a) == Some(t)
    ensures OwnInv(c, t) && ManualInv(c, t)
  {
    hide NoRelaunch, Endangers, WorkShape;
    if Manual(t.main) { AgedLeavesAlone(c, s, t); }
  }

  lemma StopIds(c: Config, s: State, a: Action, t: State)
    requires Shape(c, s) && IdInv(c, s) && (s.main.ManualStop? || s.main.DownStop?) && MainNext(c, s, a) == Some(t)
    ensures Shape(c, t) && SameServices(s, t) && Aged(s, t) && IdInv(c, t)
    ensures RelaunchInv(c, s) ==> RelaunchInv(c, t)
  {
    hide WorkShape, RelaunchInv;
    FewerShape(s.mon, t.mon, |s.svcs|);
    AgedKeeps(c, s, t);
  }

  lemma StopOwn(c: Config, s: State, a: Action, t: State)
    requires Shape(c, s) && IdInv(c, s) && OwnInv(c, s) && ManualInv(c, s)
    requires SameServices(s, t) && Aged(s, t) && (s.main.ManualStop? || s.main.DownStop?) && MainNext(c, s, a) == Some(t)
    ensures OwnInv(c, t) && ManualInv(c, t)
  {
    hide NoRelaunch, Endangers, WorkShape;
    if Manual(t.main) { AgedLeavesAlone(c, s, t); }
  }

  lemma DeleteIds(c: Config, s: State, a: Action, t: State)
    requires Shape(c, s) && IdInv(c, s) && (s.main.ManualDelete? || s.main.DownDelete?) && MainNext(c, s, a) == Some(t)
    ensures Shape(c, t) && SameServices(s, t) && Aged(s, t) && IdInv(c, t)
    ensures RelaunchInv(c, s) ==> RelaunchInv(c, t)
  {
    hide WorkShape, RelaunchInv;
    FewerShape(s.mon, t.mon, |s.svcs|);
    AgedKeeps(c, s, t);
  }

  lemma DeleteOwn(c: Config, s: State, a: Action, t: State)
    requires Shape(c, s) && IdInv(c, s) && OwnInv(c, s) && ManualInv(c, s)
    requires SameServices(s, t) && Aged(s, t) && (s.main.ManualDelete? || s.main.DownDelete?) && MainNext(c, s, a) == Some(t)
    ensures OwnInv(c, t) && ManualInv(c, t)
  {
    hide NoRelaunch, Endangers, WorkShape;
    if Manual(t.main) { AgedLeavesAlone(c, s, t); }
  }

  lemma WorldIds(c: Config, s: State, a: Action, t: State)
    requires Shape(c, s) && IdInv(c, s) && WorldNext(s, a) == Some(t)
    ensures Shape(c, t) && SameServices(s, t) && Aged(s, t) && IdInv(c, t)
    ensures RelaunchInv(c, s) ==> RelaunchInv(c, t)
  {
    hide WorkShape, RelaunchInv;
    FewerShape(s.mon, t.mon, |s.svcs|);
    AgedKeeps(c, s, t);
  }

  lemma WorldOwn(c: Config, s: State, a: Action, t: State)
    requires Shape(c, s) && IdInv(c, s) && OwnInv(c, s) && ManualInv(c, s)
    requires SameServices(s, t) && Aged(s, t) && WorldNext(s, a) == Some(t)
    ensures OwnInv(c, t) && ManualInv(c, t)
  {
    hide NoRelaunch, Endangers, WorkShape;
    if Manual(t.main) { AgedLeavesAlone(c, s, t); }
  }

  // ---- Steps that change a service ----

  /** At most the record of service i changes; an item for it may be finished or under way. */
  ghost predicate OneChanged(s: State, t: State, i: nat) {
    && i < |s.svcs| == |t.svcs| && t.svcs == s.svcs[i := t.svcs[i]]
    && Fewer(s.mon, t.mon) && (Launching(t.main) ==> Launching(s.main))
    && (t.mon != s.mon ==>
          && (s.mon.Install? ==> Work(s.mon) != [] && Work(s.mon)[0].idx == i && Work(t.mon) == Work(s.mon)[1..])
          && (t.mon.Install? ==> Work(t.mon) == Work(s.mon) && Work(t.mon) != [] && Work(t.mon)[0].idx == i))
  }

  lemma OneChangedCounts(c: Config, s: State, t: State, i: nat)
    requires Shape(c, s) && HealthInv(c, s) && RestartInv(c, s) && OneChanged(s, t, i)
    requires HealthOf(c.services[i], t.svcs[i]) && CountOk(c.services[i], t.svcs[i])
    requires Launching(t.main) ==> t.svcs[i].fails == 0 && t.svcs[i].attempts == 0
    requires forall item :: item in Work(t.mon) && item.idx == i ==>
               ItemCountOk(c.services[i], t.svcs[i], item, t.mon.Install? && InHand(t.mon, item))
    ensures HealthInv(c, t) && RestartInv(c, t)
  {
    hide HealthOf, CountOk, ItemCountOk;
  }

  /** An item that is done was the only one for its service. */
  lemma FirstDone(m: MonPc, m': MonPc, n: nat)
    requires WorkShape(m, n) && Work(m) != [] && Work(m') == Work(m)[1..]
    ensures forall item :: item in Work(m') ==> item in Work(m) && item.idx != Work(m)[0].idx
  {
  }

  lemma InstalledCounts(cfg: ServiceConfig, v: Svc, w: Svc)
    requires HealthOf(cfg, v) && CountOk(cfg, v) && v.restarts < v.attempts + v.manuals
    requires cfg.healthEnabled ==> cfg.retries >= 1
    requires w == v || w == v.(state := Failed) ||
             w == v.(cid := w.cid, state := Running, fails := 0, restarts := v.restarts + 1, marks := v.marks + [Start])
    ensures HealthOf(cfg, w) && CountOk(cfg, w)
  {
  }

  lemma CheckedHasHealth(c: Config, s: State)
    requires Shape(c, s) && HealthInv(c, s) && s.mon.ApplyCheck?
    ensures c.services[s.mon.work[0].idx].healthEnabled
  {
    assert s.mon.work[0] in Work(s.mon);
  }

  lemma JudgedCounts(cfg: ServiceConfig, v: Svc, ok: bool)
    requires HealthOf(cfg, v) && CountOk(cfg, v) && v.attempts <= v.restarts
    requires cfg.healthEnabled && cfg.retries >= 1
    ensures HealthOf(cfg, Judge(cfg, v, ok)) && CountOk(cfg, Judge(cfg, v, ok))
  {
    assert (v.marks + [Fail])[..|v.marks|] == v.marks;
  }

  lemma CountsAt(c: Config, s: State, i: nat)
    requires Shape(c, s) && HealthInv(c, s) && RestartInv(c, s) && i < |s.svcs|
    ensures HealthOf(c.services[i], s.svcs[i]) && CountOk(c.services[i], s.svcs[i])
    ensures Launching(s.main) ==> s.svcs[i].fails == 0 && s.svcs[i].attempts == 0
    ensures forall item :: item in Work(s.mon) && item.idx == i ==>
              ItemCountOk(c.services[i], s.svcs[i], item, s.mon.Install? && InHand(s.mon, item))
  {
    hide HealthOf, CountOk, ItemCountOk;
  }

  lemma ScanShape(c: Config, s: State, a: Action, t: State)
    requires Shape(c, s) && s.mon.Scan? && MonNext(c, s, a) == Some(t)
    ensures Shape(c, t) && |t.svcs| == |s.svcs|
    ensures t.risky == s.risky && t.clash == s.clash
  {
    hide WorkShape, ScanOne;
    if s.mon.i < |s.svcs| {
      var items := ScanOne(c.services[s.mon.i], s.mon.i, s.svcs[s.mon.i], s.boxes, a).1;
      ScanWork(s.mon.i, s.mon.found, items, |s.svcs|);
    } else {
      FewerShape(s.mon, t.mon, |s.svcs|);
    }
  }

  lemma ScanWork(i: nat, found: seq<Item>, items: seq<Item>, n: nat)
    requires WorkShape(Scan(i, found), n) && i < n
    requires items != [] ==> |items| == 1 && items[0].idx == i
    ensures WorkShape(Scan(i + 1, found + items), n)
  {
    var m, m' := Scan(i, found), Scan(i + 1, found + items);
    forall j, k | 0 <= j < k < |found + items| ensures (found + items)[j].idx != (found + items)[k].idx {
      assert (found + items)[j] == found[j] && found[j] in Work(m);
      if k < |found| { assert Work(m)[j].idx != Work(m)[k].idx; }
    }
    assert Work(m') == found + items;
  }

  /** What the scan of one service does. */
  lemma ScanFound(c: Config, s: State, a: Action, t: State)
    requires Shape(c, s) && s.mon.Scan? && MonNext(c, s, a) == Some(t)
    ensures s.mon.i >= |s.svcs| ==> Work(t.mon) == Work(s.mon) && t == s.(mon := t.mon) && t.mon.NextItem?
    ensures s.mon.i < |s.svcs| ==>
              a.Due? && IsBackoff(s.svcs[s.mon.i].restarts, a.backoff) &&
              var seen := ScanOne(c.services[s.mon.i], s.mon.i, s.svcs[s.mon.i], s.boxes, a);
              && t == s.(svcs := s.svcs[s.mon.i := seen.0], mon := Scan(s.mon.i + 1, s.mon.found + seen.1))
              && forall item :: item in Work(t.mon) ==> item in Work(s.mon) || (seen.1 != [] && item == seen.1[0])
  {
    hide ScanOne, WorkShape;
  }

  lemma ScanIds(c: Config, s: State, a: Action, t: State)
    requires Shape(c, s) && IdInv(c, s) && s.mon.Scan? && MonNext(c, s, a) == Some(t)
    ensures IdInv(c, t)
  {
    hide MonNext;
    ScanFound(c, s, a, t);
  }

  lemma ScanCounts(c: Config, s: State, a: Action, t: State)
    requires Shape(c, s) && HealthInv(c, s) && RestartInv(c, s) && |t.svcs| == |s.svcs| && s.mon.Scan? && MonNext(c, s, a) == Some(t)
    ensures HealthInv(c, t) && RestartInv(c, t)
  {
    ScanHealth(c, s, a, t);
    ScanRestarts(c, s, a, t);
  }

  lemma ScanHealth(c: Config, s: State, a: Action, t: State)
    requires Shape(c, s) && HealthInv(c, s) && |t.svcs| == |s.svcs| && s.mon.Scan? && MonNext(c, s, a) == Some(t)
    ensures HealthInv(c, t)
  {
    hide MonNext;
    ScanFound(c, s, a, t);
  }

  lemma ScanRestarts(c: Config, s: State, a: Action, t: State)
    requires Shape(c, s) && RestartInv(c, s) && |t.svcs| == |s.svcs| && s.mon.Scan? && MonNext(c, s, a) == Some(t)
    ensures RestartInv(c, t)
  {
    hide MonNext;
    ScanFound(c, s, a, t);
  }

  lemma ScanOwn(c: Config, s: State, a: Action, t: State)
    requires Shape(c, s) && IdInv(c, s) && OwnInv(c, s) && RelaunchInv(c, s) && ManualInv(c, s)
    requires |t.svcs| == |s.svcs| && !t.risky && s.mon.Scan? && MonNext(c, s, a) == Some(t)
    ensures OwnInv(c, t)
  {
    hide MonNext;
    ScanFound(c, s, a, t);
  }

  lemma ScanRelaunch(c: Config, s: State, a: Action, t: State)
    requires Shape(c, s) && IdInv(c, s) && RelaunchInv(c, s) && ManualInv(c, s)
    requires |t.svcs| == |s.svcs| && !t.risky && s.mon.Scan? && MonNext(c, s, a) == Some(t)
    ensures RelaunchInv(c, t) && ManualInv(c, t)
  {
    hide MonNext;
    ScanFound(c, s, a, t);
  }

  lemma ScanChecks(c: Config, s: State, a: Action, t: State)
    requires Shape(c, s) && RelaunchInv(c, s) && CheckInv(s) && !t.clash && s.mon.Scan? && MonNext(c, s, a) == Some(t)
    ensures CheckInv(t)
  {
    hide MonNext;
    ScanFound(c, s, a, t);
  }

  lemma MonitorShape(c: Config, s: State, a: Action, t: State)
    requires Shape(c, s) && (s.mon.ApplyCheck? || s.mon.LaunchNew? || s.mon.Install?) && MonNext(c, s, a) == Some(t)
    ensures Shape(c, t) && |t.svcs| == |s.svcs|
    ensures t.risky == s.risky && t.clash == s.clash
  {
    hide WorkShape;
    FewerShape(s.mon, t.mon, |s.svcs|);
  }

  lemma ApplyCheckIds(c: Config, s: State, a: Action, t: State)
    requires Shape(c, s) && IdInv(c, s) && s.mon.ApplyCheck? && MonNext(c, s, a) == Some(t)
    ensures IdInv(c, t)
  {
    hide Judge, IsBackoff;
  }

  lemma ApplyCheckCounts(c: Config, s: State, a: Action, t: State)
    requires Shape(c, s) && HealthInv(c, s) && RestartInv(c, s) && |t.svcs| == |s.svcs| && s.mon.ApplyCheck? && MonNext(c, s, a) == Some(t)
    ensures HealthInv(c, t) && RestartInv(c, t)
  {
    hide HealthInv, RestartInv, HealthOf, CountOk, WorkShape, Judge;
    var i := s.mon.work[0].idx;
    CountsAt(c, s, i);
    assert c.services[i].healthEnabled by { CheckedHasHealth(c, s); }
    FirstDone(s.mon, t.mon, |s.svcs|);
    JudgedCounts(c.services[i], s.svcs[i], s.mon.ok);
    OneChangedCounts(c, s, t, i);
  }

  lemma ApplyCheckOwn(c: Config, s: State, a: Action, t: State)
    requires Shape(c, s) && IdInv(c, s) && OwnInv(c, s) && RelaunchInv(c, s) && ManualInv(c, s)
    requires |t.svcs| == |s.svcs| && !t.risky && s.mon.ApplyCheck? && MonNext(c, s, a) == Some(t)
    ensures OwnInv(c, t)
  {
    hide Judge, IsBackoff;
  }

  lemma ApplyCheckRelaunch(c: Config, s: State, a: Action, t: State)
    requires Shape(c, s) && IdInv(c, s) && RelaunchInv(c, s) && ManualInv(c, s)
    requires |t.svcs| == |s.svcs| && !t.risky && s.mon.ApplyCheck? && MonNext(c, s, a) == Some(t)
    ensures RelaunchInv(c, t) && ManualInv(c, t)
  {
    ApplyCheckItems(c, s, a, t);
    ApplyCheckManual(c, s, a, t);
  }

  lemma ApplyCheckItems(c: Config, s: State, a: Action, t: State)
    requires Shape(c, s) && IdInv(c, s) && RelaunchInv(c, s) && |t.svcs| == |s.svcs| && s.mon.ApplyCheck? && MonNext(c, s, a) == Some(t)
    ensures RelaunchInv(c, t)
  {
    hide Judge, IsBackoff;
  }

  lemma SameCid(cfg: ServiceConfig, v: Svc, w: Svc, boxes: map<nat, Box>)
    requires w.cid == v.cid && w.restarts == v.restarts
    ensures NoRelaunch(cfg, w, boxes) == NoRelaunch(cfg, v, boxes)
  {
  }

  lemma ApplyCheckManual(c: Config, s: State, a: Action, t: State)
    requires Shape(c, s) && IdInv(c, s) && ManualInv(c, s) && |t.svcs| == |s.svcs| && s.mon.ApplyCheck? && MonNext(c, s, a) == Some(t)
    ensures ManualInv(c, t)
  {
    hide NoRelaunch, WorkShape, IdInv, Wanted, IsBackoff;
    FirstDone(s.mon, t.mon, |s.svcs|);
    assert s.mon.work[0] in Work(s.mon);
    if Manual(s.main) { SameCid(c.services[s.main.idx], s.svcs[s.main.idx], t.svcs[s.main.idx], s.boxes); }
  }

  lemma ApplyCheckChecks(c: Config, s: State, a: Action, t: State)
    requires Shape(c, s) && RelaunchInv(c, s) && CheckInv(s) && !t.clash && s.mon.ApplyCheck? && MonNext(c, s, a) == Some(t)
    ensures CheckInv(t)
  {
  }

  lemma LaunchNewIds(c: Config, s: State, a: Action, t: State)
    requires Shape(c, s) && IdInv(c, s) && s.mon.LaunchNew? && MonNext(c, s, a) == Some(t)
    ensures IdInv(c, t)
  {
    hide WorkShape, IsBackoff;
  }

  lemma LaunchNewCounts(c: Config, s: State, a: Action, t: State)
    requires Shape(c, s) && HealthInv(c, s) && RestartInv(c, s) && |t.svcs| == |s.svcs| && s.mon.LaunchNew? && MonNext(c, s, a) == Some(t)
    ensures HealthInv(c, t) && RestartInv(c, t)
  {
    hide HealthInv, RestartInv;
    CountsAt(c, s, s.mon.work[0].idx);
    OneChangedCounts(c, s, t, s.mon.work[0].idx);
  }

  lemma LaunchNewOwn(c: Config, s: State, a: Action, t: State)
    requires Shape(c, s) && IdInv(c, s) && OwnInv(c, s) && RelaunchInv(c, s) && ManualInv(c, s)
    requires |t.svcs| == |s.svcs| && !t.risky && s.mon.LaunchNew? && MonNext(c, s, a) == Some(t)
    ensures OwnInv(c, t)
  {
  }

  lemma LaunchNewRelaunch(c: Config, s: State, a: Action, t: State)
    requires Shape(c, s) && IdInv(c, s) && RelaunchInv(c, s) && ManualInv(c, s)
    requires |t.svcs| == |s.svcs| && !t.risky && s.mon.LaunchNew? && MonNext(c, s, a) == Some(t)
    ensures RelaunchInv(c, t) && ManualInv(c, t)
  {
    LaunchNewItems(c, s, a, t);
    LaunchNewManual(c, s, a, t);
  }

  lemma LaunchNewItems(c: Config, s: State, a: Action, t: State)
    requires Shape(c, s) && IdInv(c, s) && RelaunchInv(c, s) && |t.svcs| == |s.svcs| && s.mon.LaunchNew? && MonNext(c, s, a) == Some(t)
    ensures RelaunchInv(c, t)
  {
  }

  lemma LaunchNewManual(c: Config, s: State, a: Action, t: State)
    requires Shape(c, s) && IdInv(c, s) && ManualInv(c, s) && |t.svcs| == |s.svcs| && s.mon.LaunchNew? && MonNext(c, s, a) == Some(t)
    ensures ManualInv(c, t)
  {
  }

  lemma LaunchNewChecks(c: Config, s: State, a: Action, t: State)
    requires Shape(c, s) && RelaunchInv(c, s) && CheckInv(s) && !t.clash && s.mon.LaunchNew? && MonNext(c, s, a) == Some(t)
    ensures CheckInv(t)
  {
  }

  /** The id a launch returned becomes the service's. */
  lemma OneChangedIds(c: Config, s: State, t: State, i: nat)
    requires IdInv(c, s) && OneChanged(s, t, i) && t.boxes == s.boxes && t.nextId == s.nextId && t.main == s.main
    requires t.svcs[i].cid.Some? ==> Issued(s, t.svcs[i].cid.value, i)
    requires !t.mon.Install?
    ensures IdInv(c, t)
  {
  }

  lemma IdsAt(c: Config, s: State)
    requires Shape(c, s) && IdInv(c, s) && s.mon.Install?
    ensures s.mon.started.Some? ==> Issued(s, s.mon.started.value, s.mon.work[0].idx)
    ensures var id := s.svcs[s.mon.work[0].idx].cid; id.Some? ==> Issued(s, id.value, s.mon.work[0].idx)
    ensures s.mon.work[0].idx < |s.svcs|
  {
    assert s.mon.work[0] in Work(s.mon);
  }

  lemma InstallIds(c: Config, s: State, a: Action, t: State)
    requires Shape(c, s) && IdInv(c, s) && s.mon.Install? && MonNext(c, s, a) == Some(t)
    ensures IdInv(c, t)
  {
    hide WorkShape, IdInv;
    IdsAt(c, s);
    OneChangedIds(c, s, t, s.mon.work[0].idx);
  }

  lemma InstallCounts(c: Config, s: State, a: Action, t: State)
    requires Shape(c, s) && HealthInv(c, s) && RestartInv(c, s) && |t.svcs| == |s.svcs| && s.mon.Install? && MonNext(c, s, a) == Some(t)
    ensures HealthInv(c, t) && RestartInv(c, t)
  {
    hide HealthInv, RestartInv, HealthOf, CountOk, WorkShape;
    var i := s.mon.work[0].idx;
    CountsAt(c, s, i);
    FirstDone(s.mon, t.mon, |s.svcs|);
    InstalledCounts(c.services[i], s.svcs[i], t.svcs[i]);
    OneChangedCounts(c, s, t, i);
  }

  lemma InstallOwn(c: Config, s: State, a: Action, t: State)
    requires Shape(c, s) && IdInv(c, s) && OwnInv(c, s) && RelaunchInv(c, s) && ManualInv(c, s)
    requires |t.svcs| == |s.svcs| && !t.risky && s.mon.Install? && MonNext(c, s, a) == Some(t)
    ensures OwnInv(c, t)
  {
  }

  lemma InstallRelaunch(c: Config, s: State, a: Action, t: State)
    requires Shape(c, s) && IdInv(c, s) && RelaunchInv(c, s) && ManualInv(c, s)
    requires |t.svcs| == |s.svcs| && !t.risky && s.mon.Install? && MonNext(c, s, a) == Some(t)
    ensures RelaunchInv(c, t) && ManualInv(c, t)
  {
    InstallItems(c, s, a, t);
    InstallManual(c, s, a, t);
  }

  lemma InstallItems(c: Config, s: State, a: Action, t: State)
    requires Shape(c, s) && RelaunchInv(c, s) && |t.svcs| == |s.svcs| && s.mon.Install? && MonNext(c, s, a) == Some(t)
    ensures RelaunchInv(c, t)
  {
    hide WorkShape, RelaunchOk, IsBackoff;
    FirstDone(s.mon, t.mon, |s.svcs|);
  }

  lemma InstallManual(c: Config, s: State, a: Action, t: State)
    requires Shape(c, s) && ManualInv(c, s) && |t.svcs| == |s.svcs| && s.mon.Install? && MonNext(c, s, a) == Some(t)
    ensures ManualInv(c, t)
  {
    hide WorkShape, NoRelaunch, IsBackoff;
    assert s.mon.work[0] in Work(s.mon) && s.mon.work[0].Relaunch?;
    assert Manual(s.main) && s.main.idx == s.mon.work[0].idx ==> s.mon.started.None?;
    FirstDone(s.mon, t.mon, |s.svcs|);
  }

  lemma InstallChecks(c: Config, s: State, a: Action, t: State)
    requires Shape(c, s) && RelaunchInv(c, s) && CheckInv(s) && !t.clash && s.mon.Install? && MonNext(c, s, a) == Some(t)
    ensures CheckInv(t)
  {
  }

  lemma CallerShape(c: Config, s: State, a: Action, t: State)
    requires Shape(c, s) && (s.main.RunBegin? || s.main.RunInstall? || s.main.ManualInstall? || s.main.DownClear?) && MainNext(c, s, a) == Some(t)
    ensures Shape(c, t) && |t.svcs| == |s.svcs|
    ensures t.risky == s.risky && t.clash == s.clash
  {
    hide WorkShape;
    FewerShape(s.mon, t.mon, |s.svcs|);
  }

  lemma CallerIds(c: Config, s: State, a: Action, t: State)
    requires Shape(c, s) && IdInv(c, s) && (s.main.RunBegin? || s.main.RunInstall? || s.main.ManualInstall? || s.main.DownClear? || (s.main.Up? && a.Restart?)) && MainNext(c, s, a) == Some(t)
    ensures IdInv(c, t)
  {
  }

  lemma RunBeginCounts(c: Config, s: State, a: Action, t: State)
    requires Shape(c, s) && HealthInv(c, s) && RestartInv(c, s) && |t.svcs| == |s.svcs| && s.main.RunBegin? && MainNext(c, s, a) == Some(t)
    ensures HealthInv(c, t) && RestartInv(c, t)
  {
    hide HealthInv, RestartInv;
    if s.main.oi < |c.order| {
      CountsAt(c, s, c.order[s.main.oi]);
      OneChangedCounts(c, s, t, c.order[s.main.oi]);
    } else {
      SameServicesKeep(c, s, t);
    }
  }

  lemma RunBeginOwn(c: Config, s: State, a: Action, t: State)
    requires Shape(c, s) && IdInv(c, s) && OwnInv(c, s) && RelaunchInv(c, s) && ManualInv(c, s)
    requires |t.svcs| == |s.svcs| && !t.risky && s.main.RunBegin? && MainNext(c, s, a) == Some(t)
    ensures OwnInv(c, t)
  {
  }

  lemma RunBeginRelaunch(c: Config, s: State, a: Action, t: State)
    requires Shape(c, s) && IdInv(c, s) && RelaunchInv(c, s) && ManualInv(c, s)
    requires |t.svcs| == |s.svcs| && !t.risky && s.main.RunBegin? && MainNext(c, s, a) == Some(t)
    ensures RelaunchInv(c, t) && ManualInv(c, t)
  {
  }

  lemma CallerChecks(c: Config, s: State, a: Action, t: State)
    requires Shape(c, s) && RelaunchInv(c, s) && CheckInv(s) && !t.clash && (s.main.RunBegin? || s.main.RunInstall? || s.main.ManualInstall? || s.main.DownClear?) && MainNext(c, s, a) == Some(t)
    ensures CheckInv(t)
  {
  }

  lemma RunInstallCounts(c: Config, s: State, a: Action, t: State)
    requires Shape(c, s) && HealthInv(c, s) && RestartInv(c, s) && |t.svcs| == |s.svcs| && s.main.RunInstall? && MainNext(c, s, a) == Some(t)
    ensures HealthInv(c, t) && RestartInv(c, t)
  {
    hide HealthInv, RestartInv;
    CountsAt(c, s, c.order[s.main.oi]);
    OneChangedCounts(c, s, t, c.order[s.main.oi]);
  }

  lemma InstallingOwn(c: Config, s: State, a: Action, t: State)
    requires Shape(c, s) && IdInv(c, s) && OwnInv(c, s) && RelaunchInv(c, s) && ManualInv(c, s)
    requires |t.svcs| == |s.svcs| && !t.risky && (s.main.RunInstall? || s.main.ManualInstall?) && MainNext(c, s, a) == Some(t)
    ensures OwnInv(c, t) && RelaunchInv(c, t) && ManualInv(c, t)
  {
  }

  lemma RestartShape(c: Config, s: State, a: Action, t: State)
    requires Shape(c, s) && s.main.Up? && a.Restart? && MainNext(c, s, a) == Some(t)
    ensures Shape(c, t) && |t.svcs| == |s.svcs|
    ensures (!t.risky ==> !s.risky) && (!t.clash ==> !s.clash && (!s.risky ==> !t.risky))
  {
    hide WorkShape;
    FewerShape(s.mon, t.mon, |s.svcs|);
  }

  lemma RestartCounts(c: Config, s: State, a: Action, t: State)
    requires Shape(c, s) && HealthInv(c, s) && RestartInv(c, s) && |t.svcs| == |s.svcs| && s.main.Up? && a.Restart? && MainNext(c, s, a) == Some(t)
    ensures HealthInv(c, t) && RestartInv(c, t)
  {
    hide HealthInv, RestartInv;
    CountsAt(c, s, a.idx);
    OneChangedCounts(c, s, t, a.idx);
  }

  lemma RestartOwn(c: Config, s: State, a: Action, t: State)
    requires Shape(c, s) && IdInv(c, s) && OwnInv(c, s) && RelaunchInv(c, s) && ManualInv(c, s)
    requires |t.svcs| == |s.svcs| && !t.risky && s.main.Up? && a.Restart? && MainNext(c, s, a) == Some(t)
    ensures OwnInv(c, t) && RelaunchInv(c, t) && ManualInv(c, t)
  {
  }

  lemma RestartChecks(c: Config, s: State, a: Action, t: State)
    requires Shape(c, s) && RelaunchInv(c, s) && CheckInv(s) && !t.clash && s.main.Up? && a.Restart? && MainNext(c, s, a) == Some(t)
    ensures CheckInv(t)
  {
  }

  lemma ManualInstallCounts(c: Config, s: State, a: Action, t: State)
    requires Shape(c, s) && HealthInv(c, s) && RestartInv(c, s) && |t.svcs| == |s.svcs| && s.main.ManualInstall? && MainNext(c, s, a) == Some(t)
    ensures HealthInv(c, t) && RestartInv(c, t)
  {
    hide HealthInv, RestartInv;
    CountsAt(c, s, s.main.idx);
    OneChangedCounts(c, s, t, s.main.idx);
  }

  lemma DownClearCounts(c: Config, s: State, a: Action, t: State)
    requires Shape(c, s) && HealthInv(c, s) && RestartInv(c, s) && |t.svcs| == |s.svcs| && s.main.DownClear? && MainNext(c, s, a) == Some(t)
    ensures HealthInv(c, t) && RestartInv(c, t)
  {
    hide HealthInv, RestartInv;
    CountsAt(c, s, c.order[s.main.left - 1]);
    OneChangedCounts(c, s, t, c.order[s.main.left - 1]);
  }

  lemma DownClearOwn(c: Config, s: State, a: Action, t: State)
    requires Shape(c, s) && IdInv(c, s) && OwnInv(c, s) && RelaunchInv(c, s) && ManualInv(c, s)
    requires |t.svcs| == |s.svcs| && !t.risky && s.main.DownClear? && MainNext(c, s, a) == Some(t)
    ensures OwnInv(c, t) && RelaunchInv(c, t) && ManualInv(c, t)
  {
  }

  // ---- Every step, every run ----

  lemma MonitorKeeps(c: Config, s: State, a: Action, t: State)
    requires Inv(c, s) && MonNext(c, s, a) == Some(t)
    ensures Inv(c, t)
  {
    hide IdInv, HealthInv, RestartInv, OwnInv, RelaunchInv, ManualInv, CheckInv, WorkShape, ScanOne, Judge, Risky, Clashes, IsBackoff;
    match s.mon
    case Sleep => MonitorMoves(c, s, a, t);
    case Scan(_, _) =>
      ScanShape(c, s, a, t);
      ScanIds(c, s, a, t);
      ScanCounts(c, s, a, t);
      if !t.risky {
        ScanOwn(c, s, a, t);
        ScanRelaunch(c, s, a, t);
      }
      if !t.clash { ScanChecks(c, s, a, t); }
    case NextItem(_) => MonitorMoves(c, s, a, t);
    case RunCheck(_) => MonitorMoves(c, s, a, t);
    case ApplyCheck(_, _) =>
      MonitorShape(c, s, a, t);
      ApplyCheckIds(c, s, a, t);
      ApplyCheckCounts(c, s, a, t);
      if !t.risky {
        ApplyCheckOwn(c, s, a, t);
        ApplyCheckRelaunch(c, s, a, t);
      }
      if !t.clash { ApplyCheckChecks(c, s, a, t); }
    case Backoff(_) => MonitorMoves(c, s, a, t);
    case DeleteOld(_) =>
      MonitorEndsIds(c, s, a, t);
      SameServicesKeep(c, s, t);
      if !s.risky { MonitorEndsOwn(c, s, a, t); }
    case LaunchNew(_) =>
      MonitorShape(c, s, a, t);
      LaunchNewIds(c, s, a, t);
      LaunchNewCounts(c, s, a, t);
      if !t.risky {
        LaunchNewOwn(c, s, a, t);
        LaunchNewRelaunch(c, s, a, t);
      }
      if !t.clash { LaunchNewChecks(c, s, a, t); }
    case Install(_, _) =>
      MonitorShape(c, s, a, t);
      InstallIds(c, s, a, t);
      InstallCounts(c, s, a, t);
      if !t.risky {
        InstallOwn(c, s, a, t);
        InstallRelaunch(c, s, a, t);
      }
      if !t.clash { InstallChecks(c, s, a, t); }
    case AbortStop(_, _) =>
      MonitorEndsIds(c, s, a, t);
      SameServicesKeep(c, s, t);
      if !s.risky { MonitorEndsOwn(c, s, a, t); }
    case AbortDelete(_, _) =>
      MonitorEndsIds(c, s, a, t);
      SameServicesKeep(c, s, t);
      if !s.risky { MonitorEndsOwn(c, s, a, t); }
    case _ =>
  }

  lemma CallerKeeps(c: Config, s: State, a: Action, t: State)
    requires Inv(c, s) && MainNext(c, s, a) == Some(t)
    ensures Inv(c, t)
  {
    hide IdInv, HealthInv, RestartInv, OwnInv, RelaunchInv, ManualInv, CheckInv, WorkShape, ScanOne, Judge, Risky, Clashes, IsBackoff;
    match s.main
    case RunBegin(_) =>
      CallerShape(c, s, a, t);
      CallerIds(c, s, a, t);
      RunBeginCounts(c, s, a, t);
      if !t.risky {
        RunBeginOwn(c, s, a, t);
        RunBeginRelaunch(c, s, a, t);
      }
      if !t.clash { CallerChecks(c, s, a, t); }
    case RunLaunch(_) =>
      LaunchIds(c, s, a, t);
      SameServicesKeep(c, s, t);
      if !s.risky { LaunchOwn(c, s, a, t); }
    case RunInstall(_, _) =>
      CallerShape(c, s, a, t);
      CallerIds(c, s, a, t);
      RunInstallCounts(c, s, a, t);
      if !t.risky { InstallingOwn(c, s, a, t); }
      if !t.clash { CallerChecks(c, s, a, t); }
    case SetRunning => CallerMoves(c, s, a, t);
    case CreateThread => CallerMoves(c, s, a, t);
    case Up =>
      if a.Down? {
        CallerMoves(c, s, a, t);
      } else {
        RestartShape(c, s, a, t);
        CallerIds(c, s, a, t);
        RestartCounts(c, s, a, t);
        if !t.risky { RestartOwn(c, s, a, t); }
        if !t.clash { RestartChecks(c, s, a, t); }
      }
    case ManualStop(_, _) =>
      StopIds(c, s, a, t);
      SameServicesKeep(c, s, t);
      if !s.risky { StopOwn(c, s, a, t); }
    case ManualDelete(_, _) =>
      DeleteIds(c, s, a, t);
      SameServicesKeep(c, s, t);
      if !s.risky { DeleteOwn(c, s, a, t); }
    case ManualLaunch(_) =>
      LaunchIds(c, s, a, t);
      SameServicesKeep(c, s, t);
      if !s.risky { LaunchOwn(c, s, a, t); }
    case ManualInstall(_, _) =>
      CallerShape(c, s, a, t);
      CallerIds(c, s, a, t);
      ManualInstallCounts(c, s, a, t);
      if !t.risky { InstallingOwn(c, s, a, t); }
      if !t.clash { CallerChecks(c, s, a, t); }
    case Join => CallerMoves(c, s, a, t);
    case DownStop(_) =>
      StopIds(c, s, a, t);
      SameServicesKeep(c, s, t);
      if !s.risky { StopOwn(c, s, a, t); }
    case DownDelete(_) =>
      DeleteIds(c, s, a, t);
      SameServicesKeep(c, s, t);
      if !s.risky { DeleteOwn(c, s, a, t); }
    case DownClear(_) =>
      CallerShape(c, s, a, t);
      CallerIds(c, s, a, t);
      DownClearCounts(c, s, a, t);
      if !t.risky { DownClearOwn(c, s, a, t); }
      if !t.clash { CallerChecks(c, s, a, t); }
    case _ =>
  }

  lemma WorldKeeps(c: Config, s: State, a: Action, t: State)
    requires Inv(c, s) && WorldNext(s, a) == Some(t)
    ensures Inv(c, t)
  {
    hide IdInv, HealthInv, RestartInv, OwnInv, RelaunchInv, ManualInv, CheckInv, WorkShape;
    WorldIds(c, s, a, t);
    SameServicesKeep(c, s, t);
    if !s.risky { WorldOwn(c, s, a, t); }
  }

  lemma StepKeeps(c: Config, s: State, t: State)
    requires Inv(c, s) && Steps(c, s, t)
    ensures Inv(c, t)
  {
    hide Inv;
    var who, a :| Next(c, s, who, a) == Some(t);
    match who
    case Monitor => MonitorKeeps(c, s, a, t);
    case Caller => CallerKeeps(c, s, a, t);
    case World => WorldKeeps(c, s, a, t);
  }

  lemma StartsInvariant(c: Config)
    requires ValidConfig(c)
    ensures Inv(c, Init(c))
  {
  }

  lemma {:induction false} RunKeeps(c: Config, run: seq<State>, i: nat)
    requires IsRun(c, run) && i < |run|
    ensures Inv(c, run[i])
  {
    hide Inv;
    if i == 0 {
      StartsInvariant(c);
    } else {
      RunKeeps(c, run, i - 1);
      StepKeeps(c, run[i - 1], run[i]);
    }
  }
}
