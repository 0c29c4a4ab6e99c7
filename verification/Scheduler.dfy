/**
 The round-robin scheduler of src/scheduler.c.

 The first half is the target table: a growable array that is searched,
 compacted and swap-removed in place, proved against functions on its contents.
 The second half is the protocol: the scheduler thread, which chooses a victim
 under the lock and signals outside it, against a caller that switches
 scheduling on and off and refreshes the targets.  Pausing a container is not
 part of this model.
 */
module Scheduler {
  import opened Base

  type Pid = int

  // ---- The table as a value ----

  datatype Table = Table(enabled: bool, targets: seq<Pid>, index: nat)

  ghost predicate ValidTable(t: Table) {
    NoDup(t.targets) && (t.index < |t.targets| || t.index == 0)
  }

  function WrapIndex(index: nat, count: nat): nat { if index >= count then 0 else index }

  /** The live entries, in order. */
  function Living(targets: seq<Pid>, alive: set<Pid>): seq<Pid> {
    if targets == [] then []
    else
      var rest := Living(targets[..|targets| - 1], alive);
      var last := targets[|targets| - 1];
      if last > 0 && last in alive then rest + [last] else rest
  }

  lemma LivingStep(s: seq<Pid>, i: nat, alive: set<Pid>)
    requires i < |s|
    ensures Living(s[..i + 1], alive) == Living(s[..i], alive) + if s[i] > 0 && s[i] in alive then [s[i]] else []
  {
    assert s[..i + 1][..i] == s[..i];
  }

  lemma LivingOfNone(s: seq<Pid>, alive: set<Pid>)
    requires s == []
    ensures Living(s, alive) == []
  {
  }

  /** prune_dead_locked */
  function Prune(t: Table, alive: set<Pid>): Table {
    var kept := Living(t.targets, alive);
    t.(targets := kept, index := WrapIndex(t.index, |kept|))
  }

  /** scheduler_add_target; the array may fail to grow. */
  function AddTarget(t: Table, pid: Pid, grows: bool): Table {
    if pid in t.targets || !grows then t else t.(targets := t.targets + [pid])
  }

  function IndexOf(s: seq<Pid>, pid: Pid): (k: nat)
    ensures k <= |s| && (k < |s| ==> s[k] == pid) && forall j :: 0 <= j < k ==> s[j] != pid
    ensures k < |s| <==> pid in s
  {
    if s == [] || s[0] == pid then 0
    else
      var k := IndexOf(s[1..], pid) + 1;
      assert forall j :: 0 < j < |s| ==> s[j] == s[1..][j - 1];
      k
  }

  /** The last entry takes the place of the one removed. */
  function SwapRemove(s: seq<Pid>, k: nat): seq<Pid>
    requires k < |s|
  {
    s[k := s[|s| - 1]][..|s| - 1]
  }

  /** scheduler_remove_target */
  function RemoveTarget(t: Table, pid: Pid): Table {
    var k := IndexOf(t.targets, pid);
    var kept := if k < |t.targets| then SwapRemove(t.targets, k) else t.targets;
    t.(targets := kept, index := WrapIndex(t.index, |kept|))
  }

  function ClearTargets(t: Table): Table { t.(targets := [], index := 0) }

  /** Removing by swap keeps every other target, once. */
  lemma SwapRemoveKeepsOthers(s: seq<Pid>, k: nat)
    requires k < |s| && NoDup(s)
    ensures NoDup(SwapRemove(s, k)) && Elems(SwapRemove(s, k)) == Elems(s) - {s[k]}
    ensures |SwapRemove(s, k)| == |s| - 1
    ensures forall j :: 0 <= j < |s| - 1 ==> SwapRemove(s, k)[j] == if j == k then s[|s| - 1] else s[j]
  {
    var r, last := SwapRemove(s, k), |s| - 1;
    assert forall j :: 0 <= j < |r| ==> r[j] == if j == k then s[last] else s[j];
    forall j | 0 <= j < |r| ensures r[j] in s && r[j] != s[k] {
      assert r[j] == s[if j == k then last else j];
    }
    forall p | p in s && p != s[k] ensures p in r {
      var j :| 0 <= j < |s| && s[j] == p;
      assert r[if j == last then k else j] == p;
    }
  }

  lemma {:induction false} LivingProperties(s: seq<Pid>, alive: set<Pid>)
    requires NoDup(s)
    ensures NoDup(Living(s, alive)) && |Living(s, alive)| <= |s|
    ensures forall p :: p in Living(s, alive) <==> p in s && p > 0 && p in alive
  {
    if s != [] {
      LivingProperties(s[..|s| - 1], alive);
      assert s == s[..|s| - 1] + [s[|s| - 1]];
    }
  }

  /** Pruning looks at each target by itself and keeps the order. */
  lemma {:induction false} LivingInOrder(s: seq<Pid>, t: seq<Pid>, alive: set<Pid>)
    ensures Living(s + t, alive) == Living(s, alive) + Living(t, alive)
    ensures |s| == 1 ==> Living(s, alive) == if s[0] > 0 && s[0] in alive then s else []
  {
    if |s| == 1 { assert s[..0] == []; }
    if t == [] {
      assert s + t == s;
    } else {
      assert (s + t)[..|s + t| - 1] == s + t[..|t| - 1];
      LivingInOrder(s, t[..|t| - 1], alive);
    }
  }

  lemma {:induction false} AllLiving(s: seq<Pid>, alive: set<Pid>)
    requires forall i :: 0 <= i < |s| ==> s[i] > 0 && s[i] in alive
    ensures Living(s, alive) == s
  {
    if s != [] {
      AllLiving(s[..|s| - 1], alive);
    }
  }

  lemma TableKept(t: Table, alive: set<Pid>, pid: Pid, grows: bool)
    requires ValidTable(t)
    ensures ValidTable(Prune(t, alive)) && ValidTable(AddTarget(t, pid, grows))
    ensures ValidTable(RemoveTarget(t, pid)) && ValidTable(ClearTargets(t))
    ensures Elems(RemoveTarget(t, pid).targets) == Elems(t.targets) - {pid}
    ensures var p, r := Prune(t, alive), RemoveTarget(t, pid);
            && p.enabled == r.enabled == t.enabled
            && p.index == (if t.index < |p.targets| then t.index else 0)
            && r.index == (if t.index < |r.targets| then t.index else 0)
  {
    LivingProperties(t.targets, alive);
    var k := IndexOf(t.targets, pid);
    if k < |t.targets| { SwapRemoveKeepsOthers(t.targets, k); }
  }

  // ---- The table in memory ----

  class SchedulerState {
    var enabled: bool
    var targets: array<Pid>
    var count: nat
    var index: nat

    ghost predicate Valid()
      reads this, targets
    {
      count <= targets.Length && ValidTable(Abs())
    }

    ghost function Abs(): Table
      reads this, targets
    {
      Table(enabled, targets[..if count <= targets.Length then count else 0], index)
    }

    constructor ()
      ensures Valid() && fresh(targets) && Abs() == Table(false, [], 0)
    {
      enabled, count, index := false, 0, 0;
      targets := new Pid[0];
    }

    /** ensure_capacity_locked: doubles from 8 until it fits; realloc may fail. */
    method EnsureCapacity(desired: nat, allocOk: bool) returns (ok: bool)
      requires Valid()
      modifies this`targets
      ensures Valid() && Abs() == old(Abs()) && (targets == old(targets) || fresh(targets))
      ensures ok <==> desired <= old(targets.Length) || allocOk
      ensures ok ==> desired <= targets.Length
      ensures targets != old(targets) ==> targets.Length == 8 || targets.Length < 2 * desired
    {
      if desired <= targets.Length { return true; }
      var next := if targets.Length == 0 then 8 else targets.Length;
      while next < desired
        invariant targets.Length <= next && 0 < next && (next == 8 || next < 2 * desired)
        decreases desired - next
      {
        next := next * 2;
      }
      if !allocOk { return false; }
      var moved := new Pid[next];
      for i := 0 to count
        invariant targets == old(targets) && targets[..] == old(targets[..])
        invariant moved[..i] == targets[..i]
      {
        moved[i] := targets[i];
      }
      assert moved[..count] == targets[..count];
      targets := moved;
      return true;
    }

    /** prune_dead_locked: compacts the array in place. */
    method PruneDead(alive: set<Pid>)
      requires Valid()
      modifies this`count, this`index, targets
      ensures Valid() && Abs() == Prune(old(Abs()), alive)
    {
      hide Living, ValidTable;
      ghost var was := targets[..count];
      TableKept(Abs(), alive, 0, true);
      LivingOfNone(was[..0], alive);
      var write := 0;
      for i := 0 to count
        invariant count == old(count) && index == old(index)
        invariant write <= i && targets[..write] == Living(was[..i], alive)
        invariant targets[i..count] == was[i..]
      {
        var pid := targets[i];
        assert pid == targets[i..count][0] == was[i];
        LivingStep(was, i, alive);
        assert targets[i + 1..count] == targets[i..count][1..] == was[i + 1..];
        if pid > 0 && pid in alive {
          targets[write] := pid;
          write := write + 1;
        }
      }
      assert was[..count] == was;
      count := write;
      if index >= count { index := 0; }
    }

    /** scheduler_add_target */
    method Add(pid: Pid, allocOk: bool) returns (rc: int)
      requires Valid()
      modifies this`targets, this`count, targets
      ensures Valid() && (targets == old(targets) || fresh(targets))
      ensures rc == 0 ==> exists grows :: Abs() == AddTarget(old(Abs()), pid, grows) && pid in Abs().targets
      ensures rc == 0 ==> Abs() == old(Abs()).(targets := old(Abs()).targets + if pid in old(Abs()).targets then [] else [pid])
      ensures rc != 0 ==> rc == -1 && !allocOk && Abs() == old(Abs())
    {
      TableKept(Abs(), {}, pid, true);
      for i := 0 to count
        invariant unchanged(this) && unchanged(targets) && pid !in targets[..i]
      {
        if targets[i] == pid {
          assert pid in targets[..count];
          assert Abs() == AddTarget(old(Abs()), pid, true);
          return 0;
        }
      }
      var ok := EnsureCapacity(count + 1, allocOk);
      if !ok { return -1; }
      ghost var was := targets[..count];
      targets[count] := pid;
      count := count + 1;
      assert targets[..count] == was + [pid];
      assert Abs() == AddTarget(old(Abs()), pid, true);
      return 0;
    }

    /** scheduler_remove_target */
    method Remove(pid: Pid) returns (rc: int)
      requires Valid()
      modifies this`count, this`index, targets
      ensures Valid() && Abs() == RemoveTarget(old(Abs()), pid)
      ensures rc == if pid in old(Abs()).targets then 0 else -1
    {
      hide ValidTable, IndexOf;
      ghost var was := targets[..count];
      TableKept(Abs(), {}, pid, true);
      rc := -1;
      var i := 0;
      while i < count
        invariant unchanged(this) && unchanged(targets)
        invariant i <= count && forall j :: 0 <= j < i ==> was[j] != pid
      {
        if targets[i] == pid {
          assert IndexOf(was, pid) == i;
          targets[i] := targets[count - 1];
          count := count - 1;
          assert targets[..count] == SwapRemove(was, i);
          rc := 0;
          break;
        }
        i := i + 1;
      }
      if index >= count { index := 0; }
    }

    /** scheduler_clear_targets */
    method Clear()
      requires Valid()
      modifies this`count, this`index
      ensures Valid() && Abs() == ClearTargets(old(Abs()))
    {
      count, index := 0, 0;
    }
  }

  // ---- The protocol ----

  /** The scheduler thread: between ticks, or outside the lock with signals to send. */
  datatype ThreadPc = Idle | StopVictim(current: Pid, next: Pid) | ResumeNext(next: Pid)

  /** The thread that runs commands; a refresh carries what it read of `enabled`
      and the running containers it walks. */
  datatype CallerPc =
    | Free
    | ReadEnabled(boxes: seq<Pid>)
    | ClearAll(on: bool, boxes: seq<Pid>)
    | AddEach(on: bool, boxes: seq<Pid>, todo: seq<Pid>)
    | StopOthers(first: Pid, todo: seq<Pid>)
    | ResumeFirst(first: Pid)
    | ResumeAll(todo: seq<Pid>)

  datatype State = State(
    table: Table,
    thread: ThreadPc,
    caller: CallerPc,
    alive: set<Pid>,
    stopped: set<Pid>)      // processes that SIGSTOP has frozen

  datatype Action =
    | Step                                   // the thread's or the caller's next action
    | Toggle(on: bool, boxes: seq<Pid>)      // scheduler_set_enabled, then a refresh
    | Add(pid: Pid, grows: bool)
    | Remove(pid: Pid)
    | Clear
    | Die(pid: Pid)
    | Fork(pid: Pid)

  function Stop(s: State, p: Pid): State {
    if p > 0 && p in s.alive then s.(stopped := s.stopped + {p}) else s
  }

  function Cont(s: State, p: Pid): State {
    if p > 0 then s.(stopped := s.stopped - {p}) else s
  }

  /** The locked section of a tick that finds scheduling off or fewer than two
      targets: every target is resumed before the lock is released. */
  predicate Inactive(t: Table) { !t.enabled || |t.targets| < 2 }

  function ContAll(s: State, ps: seq<Pid>): State {
    s.(stopped := set p | p in s.stopped && !(p > 0 && p in ps))
  }

  /** scheduler_thread_main, one locked section or one signal at a time. */
  function ThreadStep(s: State): State {
    match s.thread
    case Idle =>
      var t := Prune(s.table, s.alive);
      if Inactive(t) then ContAll(s.(table := t), t.targets)
      else
        var n := |t.targets|;
        var next := (t.index + 1) % n;
        s.(table := t.(index := next), thread := StopVictim(t.targets[t.index % n], t.targets[next % n]))
    case StopVictim(current, next) => Stop(s, current).(thread := ResumeNext(next))
    case ResumeNext(next) => Cont(s, next).(thread := Idle)
  }

  /** Commands of the calling thread, and container_scheduler_refresh_targets. */
  function CallerStep(s: State, a: Action): Option<State> {
    match s.caller
    case Free =>
      (match a
       case Toggle(on, boxes) => Some(s.(table := s.table.(enabled := on), caller := ReadEnabled(boxes)))
       case Add(pid, grows) => Some(s.(table := AddTarget(s.table, pid, grows)))
       case Remove(pid) => Some(s.(table := RemoveTarget(s.table, pid)))
       case Clear => Some(s.(table := ClearTargets(s.table)))
       case _ => None)
    case ReadEnabled(boxes) => if a.Step? then Some(s.(caller := ClearAll(s.table.enabled, boxes))) else None
    case ClearAll(on, boxes) =>
      if a.Step? then Some(s.(table := ClearTargets(s.table), caller := AddEach(on, boxes, boxes))) else None
    case AddEach(on, boxes, todo) =>
      if todo != [] then
        if a.Add? && a.pid == todo[0] then
          Some(s.(table := AddTarget(s.table, a.pid, a.grows), caller := AddEach(on, boxes, todo[1..])))
        else None
      else if !a.Step? then None
      else if on && boxes != [] then Some(s.(caller := StopOthers(boxes[0], boxes[1..])))
      else if on then Some(s.(caller := Free))
      else Some(s.(caller := ResumeAll(boxes)))
    case StopOthers(first, todo) =>
      if !a.Step? then None
      else if todo == [] then Some(s.(caller := ResumeFirst(first)))
      else Some((if todo[0] != first then Stop(s, todo[0]) else s).(caller := StopOthers(first, todo[1..])))
    case ResumeFirst(first) => if a.Step? then Some(Cont(s, first).(caller := Free)) else None
    case ResumeAll(todo) =>
      if !a.Step? then None
      else if todo == [] then Some(s.(caller := Free))
      else Some(Cont(s, todo[0]).(caller := ResumeAll(todo[1..])))
  }

  function WorldStep(s: State, a: Action): Option<State> {
    if a.Die? && a.pid in s.alive then Some(s.(alive := s.alive - {a.pid}, stopped := s.stopped - {a.pid}))
    else if a.Fork? && a.pid > 0 && a.pid !in s.alive then Some(s.(alive := s.alive + {a.pid}))
    else None
  }

  ghost predicate Steps(s: State, t: State) {
    || t == ThreadStep(s)
    || (exists a :: CallerStep(s, a) == Some(t))
    || (exists a :: WorldStep(s, a) == Some(t))
  }

  ghost predicate IsInit(s: State) {
    && ValidTable(s.table) && s.thread.Idle? && s.caller.Free?
    && s.stopped <= s.alive && forall p :: p in s.alive ==> p > 0
  }

  /** Any interleaving, from any table and any mix of stopped and running processes. */
  ghost predicate IsRun(run: seq<State>) {
    && run != [] && IsInit(run[0])
    && forall i, j :: 0 <= i && j == i + 1 < |run| ==> Steps(run[i], run[j])
  }

  ghost predicate Inv(s: State) {
    && ValidTable(s.table) && s.stopped <= s.alive && (forall p :: p in s.alive ==> p > 0)
    && (s.caller.ClearAll? || s.caller.AddEach? ==> s.caller.on == s.table.enabled)
    && (s.caller.StopOthers? || s.caller.ResumeFirst? ==> s.table.enabled)
  }

  lemma ThreadKeeps(s: State)
    requires Inv(s)
    ensures Inv(ThreadStep(s))
  {
    TableKept(s.table, s.alive, 0, true);
  }

  lemma CallerKeeps(s: State, a: Action, t: State)
    requires Inv(s) && CallerStep(s, a) == Some(t)
    ensures Inv(t)
  {
    hide IndexOf, SwapRemove;
    match a
    case Add(pid, grows) => TableKept(s.table, s.alive, pid, grows);
    case Remove(pid) => TableKept(s.table, s.alive, pid, true);
    case _ =>
  }

  lemma StepKeeps(s: State, t: State)
    requires Inv(s) && Steps(s, t)
    ensures Inv(t)
  {
    if t == ThreadStep(s) {
      ThreadKeeps(s);
    } else if a :| CallerStep(s, a) == Some(t) {
      CallerKeeps(s, a, t);
    }
  }

  lemma {:induction false} RunKeeps(run: seq<State>, i: nat)
    requires IsRun(run) && i < |run|
    ensures Inv(run[i])
  {
    if i > 0 {
      RunKeeps(run, i - 1);
      StepKeeps(run[i - 1], run[i]);
    }
  }

  // ---- Switching off ----

  /** Scheduling is off and nobody has a stop signal left to send. */
  predicate Quiet(s: State) { !s.table.enabled && s.thread.Idle? }

  lemma QuietStep(s: State, t: State)
    requires Inv(s) && Quiet(s) && Steps(s, t) && !t.table.enabled
    ensures Quiet(t) && t.stopped <= s.stopped
  {
    if t == ThreadStep(s) {
    } else if a :| CallerStep(s, a) == Some(t) {
    }
  }

  /** Scheduling is off from step `off` on.  However far the thread had got, the
      first tick that then starts leaves every target running, and after that
      tick nothing is stopped any more. */
  lemma DisableResumesAll(run: seq<State>, off: nat, tick: nat, done: nat, later: nat)
    requires IsRun(run) && off <= tick && done == tick + 1 <= later < |run|
    requires forall k :: off <= k < |run| ==> !run[k].table.enabled
    requires run[tick].thread.Idle? && run[done] == ThreadStep(run[tick])
    ensures forall p :: p in run[done].table.targets ==> p !in run[done].stopped
    ensures run[later].stopped <= run[done].stopped
    ensures run[later].thread.Idle?
  {
    RunKeeps(run, tick);
    var t := Prune(run[tick].table, run[tick].alive);
    assert Inactive(t);
    StaysQuiet(run, done, later);
  }

  lemma {:induction false} StaysQuiet(run: seq<State>, from: nat, to: nat)
    requires IsRun(run) && from <= to < |run| && Quiet(run[from])
    requires forall k :: from <= k <= to ==> !run[k].table.enabled
    ensures Quiet(run[to]) && run[to].stopped <= run[from].stopped
  {
    hide Quiet, Steps, Inv;
    if from < to {
      StaysQuiet(run, from, to - 1);
      RunKeeps(run, to - 1);
      QuietStep(run[to - 1], run[to]);
    }
  }

  /** A tick that finds scheduling off, or fewer than two live targets, leaves every
      target running and has no signal left to send. */
  lemma InactiveTickResumes(s: State)
    requires s.thread.Idle? && ValidTable(s.table)
    requires !s.table.enabled || |Prune(s.table, s.alive).targets| < 2
    ensures ThreadStep(s).thread.Idle? && ThreadStep(s).stopped <= s.stopped
    ensures forall p :: p in ThreadStep(s).table.targets ==> p !in ThreadStep(s).stopped
  {
    LivingProperties(s.table.targets, s.alive);
  }

  // ---- Switching on and off ----

  /** The caller's next action while a refresh is under way; additions succeed. */
  function RefreshAction(s: State): Action {
    if s.caller.AddEach? && s.caller.todo != [] then Add(s.caller.todo[0], true) else Step
  }

  function RefreshSteps(c: CallerPc): nat {
    match c
    case Free => 0
    case ReadEnabled(boxes) => 2 * |boxes| + 5
    case ClearAll(_, boxes) => 2 * |boxes| + 4
    case AddEach(_, boxes, todo) => |boxes| + |todo| + 3
    case StopOthers(_, todo) => |todo| + 2
    case ResumeFirst(_) => 1
    case ResumeAll(todo) => |todo| + 1
  }

  /** A refresh run to its end with nobody else acting. */
  function Refreshed(s: State): State
    decreases RefreshSteps(s.caller)
  {
    if s.caller.Free? then s
    else
      var t := CallerStep(s, RefreshAction(s));
      if t.None? || RefreshSteps(t.value.caller) >= RefreshSteps(s.caller) then s else Refreshed(t.value)
  }

  lemma {:induction false} RefreshResumes(s: State)
    requires s.caller.ResumeAll?
    ensures var t := Refreshed(s);
            t == s.(caller := Free, stopped := t.stopped)
            && forall p :: p in t.stopped <==> p in s.stopped && !(p > 0 && p in s.caller.todo)
    decreases |s.caller.todo|
  {
    if s.caller.todo != [] { RefreshResumes(CallerStep(s, Step).value); }
  }

  lemma {:induction false} RefreshStops(s: State)
    requires s.caller.StopOthers? && s.caller.first > 0
    ensures var t := Refreshed(s);
            t == s.(caller := Free, stopped := t.stopped)
            && forall p :: p in t.stopped <==>
                 p != s.caller.first && (p in s.stopped || (p > 0 && p in s.alive && p in s.caller.todo))
    decreases |s.caller.todo|
  {
    var u := CallerStep(s, Step).value;
    if s.caller.todo != [] {
      RefreshStops(u);
      assert s.caller.todo == [s.caller.todo[0]] + s.caller.todo[1..];
    } else {
      assert Refreshed(u) == CallerStep(u, Step).value;
    }
  }

  lemma {:induction false} RefreshAdds(s: State)
    requires s.caller.AddEach? && (s.caller.boxes == [] || s.caller.boxes[0] > 0)
    ensures var t, boxes, on := Refreshed(s), s.caller.boxes, s.caller.on;
            && t == s.(caller := Free, stopped := t.stopped, table := s.table.(targets := t.table.targets))
            && Elems(t.table.targets) == Elems(s.table.targets) + Elems(s.caller.todo)
            && (forall p :: p in t.stopped <==>
                  if !on then p in s.stopped && !(p > 0 && p in boxes)
                  else if boxes == [] then p in s.stopped
                  else p != boxes[0] && (p in s.stopped || (p > 0 && p in s.alive && p in boxes[1..])))
    decreases |s.caller.todo|
  {
    var u := CallerStep(s, RefreshAction(s)).value;
    assert Refreshed(s) == Refreshed(u);
    if s.caller.todo != [] {
      RefreshAdds(u);
      assert s.caller.todo == [s.caller.todo[0]] + s.caller.todo[1..];
      assert Elems(u.table.targets) == Elems(s.table.targets) + {s.caller.todo[0]};
    } else if s.caller.on && s.caller.boxes != [] {
      RefreshStops(u);
    } else if !s.caller.on {
      RefreshResumes(u);
    }
  }

  /** After switching, scheduling is on exactly when that was asked for, the running
      containers are the targets, and of these: none is stopped when it is off,
      and all living ones but the first when it is on. */
  lemma SwitchingTakesEffect(s: State, on: bool, boxes: seq<Pid>)
    requires s.caller.Free? && forall i :: 0 <= i < |boxes| ==> boxes[i] > 0
    ensures CallerStep(s, Toggle(on, boxes)).Some?
    ensures var t := Refreshed(CallerStep(s, Toggle(on, boxes)).value);
            && t.table.enabled == on && t.caller.Free? && Elems(t.table.targets) == Elems(boxes)
            && (!on ==> forall p :: p in boxes ==> p !in t.stopped)
            && (on && boxes != [] ==> boxes[0] !in t.stopped)
            && (on ==> forall p :: p in boxes && p in s.alive && p != boxes[0] ==> p in t.stopped)
  {
    var u := CallerStep(s, Toggle(on, boxes)).value;
    var v := CallerStep(u, Step).value;
    var w := CallerStep(v, Step).value;
    assert Refreshed(u) == Refreshed(v) == Refreshed(w);
    assert w.caller == AddEach(on, boxes, boxes) && w.table.targets == [] && w.table.enabled == on;
    RefreshAdds(w);
  }

  // ---- Round robin ----

  /** The targets in the order in which they get their turn. */
  function Turns(t: Table): seq<Pid>
    requires t.index <= |t.targets|
  {
    t.targets[t.index..] + t.targets[..t.index]
  }

  /** A settled scheduler: on, at least two targets, all alive, thread between ticks. */
  ghost predicate Active(s: State) {
    && Inv(s) && s.table.enabled && s.thread.Idle? && |s.table.targets| >= 2
    && forall i :: 0 <= i < |s.table.targets| ==> s.table.targets[i] in s.alive
  }

  function Following(i: nat, n: nat): nat { if i + 1 == n then 0 else i + 1 }

  /** What one complete tick amounts to: the target whose turn it is stops, the
      one after it resumes, and the index moves on. */
  function Advance(s: State): State {
    var t := s.table;
    var next := Following(t.index, |t.targets|);
    if t.index >= |t.targets| || next >= |t.targets| then s
    else s.(table := t.(index := next), stopped := s.stopped + {t.targets[t.index]} - {t.targets[next]})
  }

  function Rounds(s: State, k: nat): State {
    if k == 0 then s else Advance(Rounds(s, k - 1))
  }

  /** Steps of the thread alone; a complete tick is three of them: choose, stop
      the victim, resume the next. */
  ghost predicate IsThreadRun(run: seq<State>) {
    forall i, j :: 0 <= i && j == i + 1 < |run| ==> run[j] == ThreadStep(run[i])
  }

  lemma WrapsAround(i: nat, n: nat)
    requires i < n
    ensures (i + 1) % n == Following(i, n) && i % n == i
  {
  }

  lemma PruneNothing(t: Table, alive: set<Pid>)
    requires ValidTable(t) && forall i :: 0 <= i < |t.targets| ==> t.targets[i] > 0 && t.targets[i] in alive
    ensures Prune(t, alive) == t
  {
    AllLiving(t.targets, alive);
  }

  /** The locked section of an active tick. */
  lemma Chooses(s: State)
    requires Active(s)
    ensures var t, n := s.table, |s.table.targets|;
            && t.index < n
            && ThreadStep(s) == s.(table := t.(index := Following(t.index, n)),
                                   thread := StopVictim(t.targets[t.index], t.targets[Following(t.index, n)]))
  {
    PruneNothing(s.table, s.alive);
    WrapsAround(s.table.index, |s.table.targets|);
    WrapsAround(Following(s.table.index, |s.table.targets|), |s.table.targets|);
  }

  /** The target whose turn comes next. */
  function Second(t: Table): Pid {
    var next := Following(t.index, |t.targets|);
    if next < |t.targets| then t.targets[next] else 0
  }

  /** One complete tick. */
  lemma TickAdvances(run: seq<State>, i: nat)
    requires IsThreadRun(run) && i + 3 < |run| && Active(run[i])
    ensures run[i + 3] == Advance(run[i])
    ensures run[i + 2].thread == ResumeNext(Second(run[i].table))
  {
    var s, u, v, t := run[i], run[i + 1], run[i + 2], run[i + 3];
    Chooses(s);
    assert u == ThreadStep(s) && v == ThreadStep(u) && t == ThreadStep(v);
    assert v == Stop(u, u.thread.current).(thread := ResumeNext(u.thread.next));
    assert t == Cont(v, v.thread.next).(thread := Idle);
  }

  lemma AdvanceKeeps(s: State)
    requires Active(s)
    ensures Active(Advance(s)) && Advance(s).table.targets == s.table.targets && Advance(s).alive == s.alive
  {
  }

  /** Running the thread for k complete ticks is advancing k times. */
  lemma {:induction false} TicksAdvance(run: seq<State>, k: nat)
    requires IsThreadRun(run) && 3 * k < |run| && Active(run[0])
    ensures run[3 * k] == Rounds(run[0], k)
    ensures Active(Rounds(run[0], k)) && Rounds(run[0], k).table.targets == run[0].table.targets
  {
    if k > 0 {
      TicksAdvance(run, k - 1);
      var i := 3 * (k - 1);
      TickAdvances(run, i);
      AdvanceKeeps(run[i]);
    }
  }

  lemma TurnsRotate(s: State)
    requires Active(s)
    ensures s.table.index < |s.table.targets|
    ensures var v := Turns(s.table);
            && Turns(Advance(s).table) == v[1..] + [v[0]] && v[1] == Second(s.table)
            && Advance(s).stopped == s.stopped + {v[0]} - {v[1]}
  {
    var t, v, n := s.table, Turns(s.table), |s.table.targets|;
    assert v[0] == t.targets[t.index] && v[1] == t.targets[Following(t.index, n)];
    assert Turns(t.(index := Following(t.index, n))) == v[1..] + [v[0]];
  }

  lemma TurnsDistinct(t: Table)
    requires ValidTable(t)
    ensures NoDup(Turns(t)) && Elems(Turns(t)) == Elems(t.targets)
    ensures multiset(Turns(t)) == multiset(t.targets)
  {
    assert t.targets == t.targets[..t.index] + t.targets[t.index..];
  }

  lemma Rotation(v: seq<Pid>, k: nat)
    requires 0 < k <= |v| && |v| >= 2
    ensures var w := v[k - 1..] + v[..k - 1];
            w[1..] + [w[0]] == v[k..] + v[..k] && w[0] == v[k - 1] && w[1] == if k < |v| then v[k] else v[0]
  {
  }

  /** The turns after k of n ticks. */
  lemma {:induction false} AfterRounds(s: State, k: nat)
    requires Active(s) && k <= |s.table.targets|
    ensures Active(Rounds(s, k)) && Rounds(s, k).table.targets == s.table.targets
    ensures var v := Turns(s.table);
            && Turns(Rounds(s, k).table) == v[k..] + v[..k]
            && (forall j :: 0 < j < k ==> v[j] in Rounds(s, k).stopped)
            && (0 < k < |v| ==> v[0] in Rounds(s, k).stopped)
            && (k == |v| ==> v[0] !in Rounds(s, k).stopped)
  {
    if k > 0 {
      AfterRounds(s, k - 1);
      var v, u := Turns(s.table), Rounds(s, k - 1);
      AdvanceKeeps(u);
      TurnsRotate(u);
      TurnsDistinct(s.table);
      Rotation(v, k);
    }
  }

  lemma ThreadRoundStabilises(run: seq<State>)
    requires run != [] && IsThreadRun(run) && Active(run[0]) && |run| == 3 * |run[0].table.targets| + 1
    ensures var n, t := |run[0].table.targets|, run[|run| - 1];
            && t.table.targets == run[0].table.targets && t.table.index < n
            && forall j :: 0 <= j < n ==> (t.table.targets[j] !in t.stopped <==> j == t.table.index)
  {
    var s, n := run[0], |run[0].table.targets|;
    TicksAdvance(run, n);
    var t, v := Rounds(s, n), Turns(s.table);
    AfterRounds(s, n);
    assert v[n..] + v[..n] == v;
    TurnsDistinct(s.table);
    assert t.table.targets[t.table.index] == Turns(t.table)[0] == v[0];
    forall j | 0 <= j < n && j != t.table.index ensures t.table.targets[j] in t.stopped {
      assert t.table.targets[j] in Elems(v);
      var k :| 0 <= k < n && v[k] == t.table.targets[j];
      assert k != 0;
    }
  }

  /** The targets that the first k ticks resume, in order. */
  function Resumed(run: seq<State>, k: nat): seq<Pid>
    requires 3 * k < |run|
  {
    if k == 0 then []
    else Resumed(run, k - 1) + if run[3 * k - 1].thread.ResumeNext? then [run[3 * k - 1].thread.next] else []
  }

  lemma {:induction false} ResumesInTurn(run: seq<State>, k: nat)
    requires IsThreadRun(run) && 3 * k < |run| && Active(run[0]) && k <= |run[0].table.targets|
    ensures var v := Turns(run[0].table); Resumed(run, k) == (v[1..] + [v[0]])[..k]
  {
    var v := Turns(run[0].table);
    var w := v[1..] + [v[0]];
    if k > 0 {
      ResumesInTurn(run, k - 1);
      KthResume(run, k);
      assert w[..k] == w[..k - 1] + [w[k - 1]];
    }
  }

  lemma KthResume(run: seq<State>, k: nat)
    requires IsThreadRun(run) && 3 * k < |run| && Active(run[0]) && 0 < k <= |run[0].table.targets|
    ensures var v := Turns(run[0].table); run[3 * k - 1].thread == ResumeNext((v[1..] + [v[0]])[k - 1])
  {
    TicksAdvance(run, k - 1);
    TickAdvances(run, 3 * (k - 1));
    SecondAfter(run[0], k);
  }

  lemma SecondAfter(s: State, k: nat)
    requires Active(s) && 0 < k <= |s.table.targets|
    ensures var v := Turns(s.table); Second(Rounds(s, k - 1).table) == (v[1..] + [v[0]])[k - 1]
  {
    AfterRounds(s, k - 1);
    TurnsRotate(Rounds(s, k - 1));
    Rotation(Turns(s.table), k);
  }

  lemma ThreadRoundIsFair(run: seq<State>)
    requires run != [] && IsThreadRun(run) && Active(run[0]) && |run| > 3 * |run[0].table.targets|
    ensures multiset(Resumed(run, |run[0].table.targets|)) == multiset(run[0].table.targets)
  {
    var n, v := |run[0].table.targets|, Turns(run[0].table);
    ResumesInTurn(run, n);
    TurnsDistinct(run[0].table);
    assert (v[1..] + [v[0]])[..n] == v[1..] + [v[0]];
    assert v == [v[0]] + v[1..];
  }

  // ---- Rounds amid other activity ----

  /** What a round depends on: the table, the thread, and which targets are stopped. */
  function View(s: State): State {
    var ps := Elems(s.table.targets);
    s.(caller := Free, alive := ps, stopped := s.stopped * ps)
  }

  /** A step of somebody else that leaves the targets and what they do alone. */
  ghost predicate Aside(s: State, t: State) {
    && Steps(s, t) && t.table == s.table && t.thread == s.thread
    && forall p :: p in s.table.targets ==> (p in t.alive <==> p in s.alive) && (p in t.stopped <==> p in s.stopped)
  }

  /** Steps of the thread, with any such steps of commands, containers and other processes in between. */
  ghost predicate IsRoundRun(run: seq<State>) {
    && run != [] && Active(run[0])
    && forall i, j :: 0 <= i && j == i + 1 < |run| ==> run[j] == ThreadStep(run[i]) || Aside(run[i], run[j])
  }

  /** The views of a run, each as long as it lasts once: one per step of the thread, three per tick. */
  function Trace(run: seq<State>): (r: seq<State>)
    requires run != []
    ensures r != []
  {
    if |run| == 1 then [View(run[0])]
    else
      var before := Trace(run[..|run| - 1]);
      var last := View(run[|run| - 1]);
      if last == before[|before| - 1] then before else before + [last]
  }

  /** Active, at any point of a tick. */
  ghost predicate Steady(s: State) {
    && Inv(s) && s.table.enabled && |s.table.targets| >= 2
    && Elems(s.table.targets) <= s.alive
    && (s.thread.StopVictim? ==> s.thread.current in s.table.targets && s.thread.next in s.table.targets)
    && (s.thread.ResumeNext? ==> s.thread.next in s.table.targets)
  }

  lemma ViewIsSteady(s: State)
    requires Steady(s)
    ensures Steady(View(s)) && (s.thread.Idle? ==> Active(s) && Active(View(s)))
  {
    forall i | 0 <= i < |s.table.targets| ensures s.table.targets[i] in s.alive && s.table.targets[i] in View(s).alive {
      assert s.table.targets[i] in Elems(s.table.targets);
    }
  }

  lemma ThreadStaysSteady(s: State)
    requires Steady(s)
    ensures Steady(ThreadStep(s)) && View(ThreadStep(s)) == ThreadStep(View(s)) && ThreadStep(s).thread != s.thread
  {
    ViewIsSteady(s);
    ThreadKeeps(s);
    if s.thread.Idle? {
      Chooses(s);
      Chooses(View(s));
    } else if s.thread.StopVictim? {
      assert View(Stop(s, s.thread.current)) == Stop(View(s), s.thread.current);
    } else {
      assert View(Cont(s, s.thread.next)) == Cont(View(s), s.thread.next);
    }
  }

  lemma AsideStaysSteady(s: State, t: State)
    requires Steady(s) && Aside(s, t)
    ensures Steady(t) && View(t) == View(s)
  {
    StepKeeps(s, t);
  }

  lemma {:induction false} TraceIsThreadRun(run: seq<State>)
    requires IsRoundRun(run)
    ensures var r, last := Trace(run), run[|run| - 1];
            r[0] == View(run[0]) && IsThreadRun(r) && r[|r| - 1] == View(last) && Steady(last)
  {
    hide Steady, Aside, ThreadStep, View;
    if |run| == 1 {
      ActiveIsSteady(run[0]);
    } else {
      var before, s, t := run[..|run| - 1], run[|run| - 2], run[|run| - 1];
      TraceIsThreadRun(before);
      if t == ThreadStep(s) {
        ThreadStaysSteady(s);
      } else {
        AsideStaysSteady(s, t);
      }
    }
  }

  lemma ActiveIsSteady(s: State)
    requires Active(s)
    ensures Steady(s) && Active(View(s)) && View(s).table == s.table
  {
    forall i | 0 <= i < |s.table.targets| ensures s.table.targets[i] in s.alive && s.table.targets[i] in View(s).alive {
      assert s.table.targets[i] in Elems(s.table.targets);
    }
  }

  /** From any mix of stopped and running targets, whatever else happens meanwhile
      that leaves the targets alone: after one round of ticks exactly the target
      at the current index is running. */
  lemma RoundStabilises(run: seq<State>)
    requires IsRoundRun(run) && |Trace(run)| == 3 * |run[0].table.targets| + 1
    ensures var n, t := |run[0].table.targets|, run[|run| - 1];
            && t.table.targets == run[0].table.targets && t.table.index < n
            && forall j :: 0 <= j < n ==> (t.table.targets[j] !in t.stopped <==> j == t.table.index)
  {
    TraceIsThreadRun(run);
    ActiveIsSteady(run[0]);
    ThreadRoundStabilises(Trace(run));
  }

  /** Under the same conditions a round resumes every target exactly once. */
  lemma RoundIsFair(run: seq<State>)
    requires IsRoundRun(run) && |Trace(run)| > 3 * |run[0].table.targets|
    ensures multiset(Resumed(Trace(run), |run[0].table.targets|)) == multiset(run[0].table.targets)
  {
    TraceIsThreadRun(run);
    ActiveIsSteady(run[0]);
    ThreadRoundIsFair(Trace(run));
  }
}
