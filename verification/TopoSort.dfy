/**
 Dependency order of the orchestrator: find_svc, topo_sort and orch_validate of
 src/orchestrator.c.

 A service list is turned into a graph by resolving each dependency name to the
 first service of that name; unresolved names are ignored by the sort.  Duplicate
 entries, duplicate names and self-dependencies are all allowed.
 */
module TopoSort {
  import opened Base

  datatype Service = Service(name: string, image: string, command: string, deps: seq<string>)

  type Spec = seq<Service>

  // ---- The resolved graph ----

  /** The first service called `name`, if any. */
  function Resolve(spec: Spec, name: string): (r: Option<nat>)
    ensures r.Some? ==> r.value < |spec| && spec[r.value].name == name
                        && forall j :: 0 <= j < r.value ==> spec[j].name != name
    ensures r.None? <==> forall j :: 0 <= j < |spec| ==> spec[j].name != name
  {
    if spec == [] then None
    else if spec[0].name == name then Some(0)
    else
      var r := Resolve(spec[1..], name);
      if r.Some? then
        assert forall j :: 0 < j < |spec| ==> spec[j] == spec[1..][j - 1];
        Some(r.value + 1)
      else
        assert forall j :: 0 < j < |spec| ==> spec[j] == spec[1..][j - 1];
        None
  }

  /** Service i lists a dependency that resolves to service d. */
  ghost predicate DependsOn(spec: Spec, i: nat, d: nat) {
    i < |spec| && exists k :: 0 <= k < |spec[i].deps| && Resolve(spec, spec[i].deps[k]) == Some(d)
  }

  /** A walk along dependencies: each service depends on the one after it. */
  ghost predicate IsWalk(spec: Spec, walk: seq<nat>) {
    forall i, j :: 0 <= i && j == i + 1 < |walk| ==> DependsOn(spec, walk[i], walk[j])
  }

  ghost predicate IsCycle(spec: Spec, walk: seq<nat>) {
    |walk| >= 2 && walk[0] == walk[|walk| - 1] && IsWalk(spec, walk)
  }

  ghost predicate Cyclic(spec: Spec) {
    exists walk :: IsCycle(spec, walk)
  }

  ghost predicate IsPermutation(order: seq<nat>, n: nat) {
    NoDup(order) && |order| == n && (forall i :: 0 <= i < |order| ==> order[i] < n)
  }

  /** Every dependency of order[p] stands before position p. */
  ghost predicate DependenciesFirst(spec: Spec, order: seq<nat>) {
    forall p, d: nat :: 0 <= p < |order| && DependsOn(spec, order[p], d) ==> d in order[..p]
  }

  ghost predicate IsStartupOrder(spec: Spec, order: seq<nat>) {
    IsPermutation(order, |spec|) && DependenciesFirst(spec, order)
  }

  // ---- An order rules out cycles ----

  /** Along a walk positions in a start-up order strictly fall. */
  lemma {:induction false} WalkDescends(spec: Spec, order: seq<nat>, walk: seq<nat>, p: nat)
    requires IsStartupOrder(spec, order) && IsWalk(spec, walk) && |walk| >= 2
    requires p < |order| && order[p] == walk[0]
    ensures walk[|walk| - 1] in order[..p]
  {
    assert DependsOn(spec, walk[0], walk[1]);
    var q :| 0 <= q < p && order[q] == walk[1];
    if |walk| > 2 {
      assert IsWalk(spec, walk[1..]) by {
        forall i, j | 0 <= i && j == i + 1 < |walk[1..]| ensures DependsOn(spec, walk[1..][i], walk[1..][j]) {
          assert DependsOn(spec, walk[i + 1], walk[j + 1]);
        }
      }
      WalkDescends(spec, order, walk[1..], q);
    }
  }

  lemma OrderedIsAcyclic(spec: Spec, order: seq<nat>)
    requires IsStartupOrder(spec, order)
    ensures !Cyclic(spec)
  {
    forall walk | IsCycle(spec, walk) ensures false {
      assert DependsOn(spec, walk[0], walk[1]);
      DistinctBounded(order, |spec|);
      assert walk[0] in order;
      var p :| 0 <= p < |order| && order[p] == walk[0];
      WalkDescends(spec, order, walk, p);
    }
  }

  // ---- A stuck remainder contains a cycle ----

  ghost predicate HasDependencyIn(spec: Spec, i: nat, R: set<nat>) {
    exists d :: d in R && DependsOn(spec, i, d)
  }

  ghost predicate Stuck(spec: Spec, R: set<nat>) {
    forall i {:trigger HasDependencyIn(spec, i, R)} :: i in R ==> i < |spec| && HasDependencyIn(spec, i, R)
  }

  /** If every service of R depends on another service of R, walks inside R go on for ever. */
  lemma {:induction false} LongWalk(spec: Spec, R: set<nat>, start: nat, n: nat) returns (walk: seq<nat>)
    requires start in R
    requires Stuck(spec, R)
    ensures |walk| == n + 1 && walk[0] == start && IsWalk(spec, walk)
    ensures forall i :: 0 <= i < |walk| ==> walk[i] in R
    decreases n
  {
    if n == 0 {
      walk := [start];
    } else {
      assert HasDependencyIn(spec, start, R);
      var d :| d in R && DependsOn(spec, start, d);
      var rest := LongWalk(spec, R, d, n - 1);
      walk := [start] + rest;
      forall i, j | 0 <= i && j == i + 1 < |walk| ensures DependsOn(spec, walk[i], walk[j]) {
        if i > 0 { assert DependsOn(spec, rest[i - 1], rest[j - 1]); }
      }
    }
  }

  lemma StuckIsCyclic(spec: Spec, R: set<nat>)
    requires R != {}
    requires Stuck(spec, R)
    ensures Cyclic(spec)
  {
    var start :| start in R;
    var walk := LongWalk(spec, R, start, |spec|);
    forall i | 0 <= i < |walk| ensures walk[i] < |spec| {
      assert HasDependencyIn(spec, walk[i], R);
    }
    if NoDup(walk) {
      DistinctBounded(walk, |spec|);
    }
    var i, j :| 0 <= i < j < |walk| && walk[i] == walk[j];
    var cycle := walk[i..j + 1];
    assert IsWalk(spec, cycle) by {
      forall k, l | 0 <= k && l == k + 1 < |cycle| ensures DependsOn(spec, cycle[k], cycle[l]) {
        assert DependsOn(spec, walk[i + k], walk[i + l]);
      }
    }
    assert IsCycle(spec, cycle);
  }

  // ---- In-degrees ----

  /** How many of the first k dependency entries of service i resolve outside `done`. */
  function Pending(spec: Spec, i: nat, k: nat, done: set<nat>): (n: nat)
    requires i < |spec| && k <= |spec[i].deps|
    ensures n <= k
    decreases k
  {
    if k == 0 then 0
    else
      var d := Resolve(spec, spec[i].deps[k - 1]);
      Pending(spec, i, k - 1, done) + if d.Some? && d.value !in done then 1 else 0
  }

  function Indegree(spec: Spec, i: nat, done: set<nat>): (n: nat)
    requires i < |spec|
  {
    Pending(spec, i, |spec[i].deps|, done)
  }

  lemma {:induction false} PendingZero(spec: Spec, i: nat, k: nat, done: set<nat>)
    requires i < |spec| && k <= |spec[i].deps|
    ensures Pending(spec, i, k, done) == 0 <==>
              forall j :: 0 <= j < k && Resolve(spec, spec[i].deps[j]).Some? ==>
                Resolve(spec, spec[i].deps[j]).value in done
  {
    if k > 0 {
      PendingZero(spec, i, k - 1, done);
    }
  }

  lemma IndegreeZero(spec: Spec, i: nat, done: set<nat>)
    requires i < |spec|
    ensures Indegree(spec, i, done) == 0 <==> forall d: nat :: DependsOn(spec, i, d) ==> d in done
  {
    PendingZero(spec, i, |spec[i].deps|, done);
    if Indegree(spec, i, done) != 0 {
      var j :| 0 <= j < |spec[i].deps| && Resolve(spec, spec[i].deps[j]).Some?
               && Resolve(spec, spec[i].deps[j]).value !in done;
      assert DependsOn(spec, i, Resolve(spec, spec[i].deps[j]).value);
    }
  }

  /** Among the first k entries, those that resolve to cur. */
  function Matches(spec: Spec, i: nat, k: nat, cur: nat): (n: nat)
    requires i < |spec| && k <= |spec[i].deps|
    decreases k
  {
    if k == 0 then 0
    else Matches(spec, i, k - 1, cur) + if Resolve(spec, spec[i].deps[k - 1]) == Some(cur) then 1 else 0
  }

  /** Finishing cur lowers the pending count by exactly its matches. */
  lemma {:induction false} PendingDrops(spec: Spec, i: nat, k: nat, done: set<nat>, cur: nat)
    requires i < |spec| && k <= |spec[i].deps| && cur !in done
    ensures Pending(spec, i, k, done + {cur}) == Pending(spec, i, k, done) - Matches(spec, i, k, cur)
  {
    if k > 0 {
      PendingDrops(spec, i, k - 1, done, cur);
    }
  }

  // ---- find_svc ----

  method FindService(spec: Spec, name: string) returns (r: int)
    ensures Resolve(spec, name).Some? ==> r == Resolve(spec, name).value
    ensures Resolve(spec, name).None? ==> r == -1
  {
    for i := 0 to |spec|
      invariant forall j :: 0 <= j < i ==> spec[j].name != name
    {
      if spec[i].name == name {
        return i;
      }
    }
    return -1;
  }

  // ---- topo_sort ----

  /** Every service in q has its dependencies in front of it. */
  ghost predicate QueueOrdered(spec: Spec, q: seq<nat>) {
    && NoDup(q)
    && (forall p :: 0 <= p < |q| ==> q[p] < |spec|)
    && DependenciesFirst(spec, q)
  }

  /** The queue holds exactly the services whose in-degree has fallen to zero. */
  ghost predicate QueueIsZero(ind: seq<int>, q: seq<nat>) {
    forall j :: 0 <= j < |ind| ==> (j in q <==> ind[j] == 0)
  }

  /** While cur is being finished, services below i have been updated and the others not yet. */
  ghost predicate Counts(spec: Spec, ind: seq<int>, done: set<nat>, cur: nat, i: nat) {
    && |ind| == |spec|
    && forall j :: 0 <= j < |spec| ==> ind[j] == Indegree(spec, j, if j < i then done + {cur} else done)
  }

  lemma Enqueue(spec: Spec, q: seq<nat>, i: nat)
    requires QueueOrdered(spec, q) && i < |spec| && i !in q
    requires forall d: nat :: DependsOn(spec, i, d) ==> d in q
    ensures QueueOrdered(spec, q + [i])
  {
    var r := q + [i];
    forall p, d: nat | 0 <= p < |r| && DependsOn(spec, r[p], d) ensures d in r[..p] {
      if p < |q| {
        assert DependsOn(spec, q[p], d) && r[..p] == q[..p];
      } else {
        assert r[..p] == q;
      }
    }
  }

  lemma RoomInQueue(spec: Spec, q: seq<nat>, i: nat)
    requires QueueOrdered(spec, q) && i < |spec| && i !in q
    ensures |q| < |spec|
  {
    DistinctBounded(q + [i], |spec|);
  }

  /** The effect of the decrements of one service on the queue invariants. */
  lemma Released(spec: Spec, i: nat, cur: nat, ind: seq<int>, q: seq<nat>, done: set<nat>, left: int)
    requires i < |spec| && Counts(spec, ind, done, cur, i) && cur !in done
    requires QueueOrdered(spec, q) && QueueIsZero(ind, q)
    requires forall d :: d in done + {cur} ==> d in q
    requires left == ind[i] - Matches(spec, i, |spec[i].deps|, cur)
    ensures var q' := if left == 0 && ind[i] > 0 then q + [i] else q;
            QueueOrdered(spec, q') && QueueIsZero(ind[i := left], q')
    ensures Counts(spec, ind[i := left], done, cur, i + 1)
    ensures 0 <= left && (ind[i] > 0 ==> |q| < |spec|)
  {
    PendingDrops(spec, i, |spec[i].deps|, done, cur);
    if i !in q { RoomInQueue(spec, q, i); }
    if left == 0 && ind[i] > 0 {
      IndegreeZero(spec, i, done + {cur});
      Enqueue(spec, q, i);
    }
  }

  /** The decrements of service i for the finished service cur
      (the inner loop at src/orchestrator.c:326-328). */
  method Decrement(spec: Spec, i: nat, cur: nat, indegree: array<int>, queue: array<nat>, qt0: nat) returns (qt: nat)
    requires i < |spec| && i < indegree.Length && qt0 <= queue.Length
    requires Matches(spec, i, |spec[i].deps|, cur) <= indegree[i]
    requires indegree[i] > 0 ==> qt0 < queue.Length
    modifies indegree, queue
    ensures var left := old(indegree[i]) - Matches(spec, i, |spec[i].deps|, cur);
            && indegree[..] == old(indegree[..])[i := left]
            && qt == (if left == 0 && old(indegree[i]) > 0 then qt0 + 1 else qt0)
            && qt <= queue.Length
            && queue[..qt] == old(queue[..qt0]) + (if qt > qt0 then [i] else [])
  {
    hide Resolve, Matches;
    qt := qt0;
    ghost var before := indegree[i];
    MatchesStart(spec, i, cur);
    for d := 0 to |spec[i].deps|
      invariant indegree[i] == before - Matches(spec, i, d, cur)
      invariant forall j :: 0 <= j < indegree.Length && j != i ==> indegree[j] == old(indegree[j])
      invariant qt == qt0 + if Matches(spec, i, d, cur) == before > 0 then 1 else 0
      invariant qt <= queue.Length && queue[..qt0] == old(queue[..qt0])
      invariant qt > qt0 ==> queue[qt0] == i
    {
      MatchesBounded(spec, i, d + 1, cur);
      MatchesStep(spec, i, d, cur);
      var dep := FindService(spec, spec[i].deps[d]);
      if dep == cur {
        indegree[i] := indegree[i] - 1;
        if indegree[i] == 0 {
          queue[qt] := i;
          qt := qt + 1;
        }
      }
    }
  }

  /** The loop over all services for one finished service
      (src/orchestrator.c:325-328). */
  method Release(spec: Spec, cur: nat, indegree: array<int>, queue: array<nat>, qt0: nat, ghost done: set<nat>)
    returns (qt: nat)
    requires cur < |spec| && indegree.Length == |spec| == queue.Length && qt0 <= |spec|
    requires QueueOrdered(spec, queue[..qt0]) && QueueIsZero(indegree[..], queue[..qt0])
    requires Counts(spec, indegree[..], done, cur, 0) && cur !in done
    requires forall d :: d in done + {cur} ==> d in queue[..qt0]
    modifies indegree, queue
    ensures qt0 <= qt <= |spec| && queue[..qt0] == old(queue[..qt0])
    ensures QueueOrdered(spec, queue[..qt]) && QueueIsZero(indegree[..], queue[..qt])
    ensures Counts(spec, indegree[..], done, cur, |spec|)
  {
    hide QueueOrdered, QueueIsZero, Counts, Matches, Indegree;
    qt := qt0;
    for i := 0 to |spec|
      invariant qt0 <= qt <= |spec| && queue[..qt0] == old(queue[..qt0])
      invariant QueueOrdered(spec, queue[..qt]) && QueueIsZero(indegree[..], queue[..qt])
      invariant Counts(spec, indegree[..], done, cur, i)
    {
      ghost var q, ind := queue[..qt], indegree[..];
      assert q[..qt0] == queue[..qt0];
      ghost var left := ind[i] - Matches(spec, i, |spec[i].deps|, cur);
      Released(spec, i, cur, ind, q, done, left);
      qt := Decrement(spec, i, cur, indegree, queue, qt);
      assert queue[..qt] == if left == 0 && ind[i] > 0 then q + [i] else q;
      assert queue[..qt0] == queue[..qt][..qt0] == q[..qt0];
    }
  }

  lemma MatchesStart(spec: Spec, i: nat, cur: nat)
    requires i < |spec|
    ensures Matches(spec, i, 0, cur) == 0
  {
  }

  lemma MatchesStep(spec: Spec, i: nat, d: nat, cur: nat)
    requires i < |spec| && d < |spec[i].deps|
    ensures Matches(spec, i, d + 1, cur) ==
              Matches(spec, i, d, cur) + if Resolve(spec, spec[i].deps[d]) == Some(cur) then 1 else 0
  {
  }

  lemma {:induction false} MatchesBounded(spec: Spec, i: nat, k: nat, cur: nat)
    requires i < |spec| && k <= |spec[i].deps|
    ensures Matches(spec, i, k, cur) <= Matches(spec, i, |spec[i].deps|, cur)
    decreases |spec[i].deps| - k
  {
    hide Resolve;
    if k < |spec[i].deps| {
      MatchesBounded(spec, i, k + 1, cur);
    }
  }

  /** The first pass: how many dependency entries of each service resolve. */
  method CountIndegrees(spec: Spec) returns (indegree: array<int>)
    ensures fresh(indegree) && indegree.Length == |spec|
    ensures forall j :: 0 <= j < |spec| ==> indegree[j] == Indegree(spec, j, {})
  {
    indegree := new int[|spec|](_ => 0);
    for i := 0 to |spec|
      invariant forall j :: 0 <= j < i ==> indegree[j] == Indegree(spec, j, {})
      invariant forall j :: i <= j < |spec| ==> indegree[j] == 0
    {
      for d := 0 to |spec[i].deps|
        invariant indegree[i] == Pending(spec, i, d, {})
        invariant forall j :: 0 <= j < |spec| && j != i ==>
          indegree[j] == if j < i then Indegree(spec, j, {}) else 0
      {
        var dep := FindService(spec, spec[i].deps[d]);
        if dep >= 0 {
          indegree[i] := indegree[i] + 1;
        }
      }
    }
  }

  /** The second pass: the services without dependencies, in index order. */
  method SeedQueue(spec: Spec, indegree: array<int>, queue: array<nat>) returns (qt: nat)
    requires indegree.Length == |spec| == queue.Length
    requires forall j :: 0 <= j < |spec| ==> indegree[j] == Indegree(spec, j, {})
    modifies queue
    ensures qt <= |spec|
    ensures QueueOrdered(spec, queue[..qt]) && QueueIsZero(indegree[..], queue[..qt])
    ensures indegree[..] == old(indegree[..])
  {
    qt := 0;
    for i := 0 to |spec|
      invariant qt <= i && indegree[..] == old(indegree[..])
      invariant QueueOrdered(spec, queue[..qt])
      invariant forall j :: 0 <= j < |spec| ==> (j in queue[..qt] <==> j < i && indegree[j] == 0)
    {
      if indegree[i] == 0 {
        IndegreeZero(spec, i, {});
        Enqueue(spec, queue[..qt], i);
        ghost var q := queue[..qt];
        queue[qt] := i;
        qt := qt + 1;
        assert queue[..qt] == q + [i];
      }
    }
  }

  /** With the queue drained and a service left over, the leftover services wait for each other. */
  lemma DrainedQueue(spec: Spec, ind: seq<int>, q: seq<nat>)
    requires QueueOrdered(spec, q) && |ind| == |spec| && QueueIsZero(ind, q)
    requires forall j :: 0 <= j < |spec| ==> ind[j] == Indegree(spec, j, Elems(q))
    ensures |q| <= |spec|
    ensures |q| == |spec| ==> IsStartupOrder(spec, q)
    ensures |q| == |spec| <==> !Cyclic(spec)
  {
    DistinctBounded(q, |spec|);
    if |q| == |spec| {
      OrderedIsAcyclic(spec, q);
    } else {
      var R := set i: nat | i < |spec| && i !in q;
      var v: nat :| v < |spec| && v !in q;
      assert v in R;
      forall i | i in R ensures HasDependencyIn(spec, i, R) {
        IndegreeZero(spec, i, Elems(q));
        var d: nat :| DependsOn(spec, i, d) && d !in Elems(q);
        assert d in R;
      }
      StuckIsCyclic(spec, R);
    }
  }

  /** Between two services: q is the queue, of which the first qh entries are finished. */
  ghost predicate SortInv(spec: Spec, ind: seq<int>, q: seq<nat>, qh: nat) {
    && |ind| == |spec| && qh <= |q|
    && QueueOrdered(spec, q) && QueueIsZero(ind, q)
    && forall j :: 0 <= j < |spec| ==> ind[j] == Indegree(spec, j, Elems(q[..qh]))
  }

  lemma TakeService(spec: Spec, ind: seq<int>, q: seq<nat>, qh: nat)
    requires SortInv(spec, ind, q, qh) && qh < |q|
    ensures Counts(spec, ind, Elems(q[..qh]), q[qh], 0) && q[qh] !in Elems(q[..qh])
    ensures forall d :: d in Elems(q[..qh]) + {q[qh]} ==> d in q
  {
  }

  lemma FinishService(spec: Spec, ind: seq<int>, q: seq<nat>, qh: nat, longer: seq<nat>)
    requires qh < |q| <= |longer| && longer[..|q|] == q
    requires Counts(spec, ind, Elems(q[..qh]), q[qh], |spec|)
    requires QueueOrdered(spec, longer) && QueueIsZero(ind, longer)
    ensures SortInv(spec, ind, longer, qh + 1)
    ensures longer[..qh + 1] == q[..qh] + [q[qh]]
  {
    assert longer[..qh + 1] == q[..qh] + [q[qh]];
    assert Elems(longer[..qh + 1]) == Elems(q[..qh]) + {q[qh]};
  }

  /** topo_sort: fills order with service indices in start-up order and returns
      their number, or returns -1 when the dependencies contain a cycle. */
  method TopologicalSort(spec: Spec, order: array<nat>) returns (n: int)
    requires order.Length >= |spec|
    modifies order
    ensures n == -1 <==> Cyclic(spec)
    ensures n != -1 ==> n == |spec| && IsStartupOrder(spec, order[..n])
    ensures forall k :: |spec| <= k < order.Length ==> order[k] == old(order[k])
  {
    var indegree := CountIndegrees(spec);
    var queue := new nat[|spec|];
    var qh, cnt := 0, 0;
    var qt := SeedQueue(spec, indegree, queue);
    assert Elems(queue[..qt][..0]) == {};
    while qh < qt
      invariant 0 <= cnt == qh <= qt <= |spec|
      invariant order[..cnt] == queue[..qt][..qh]
      invariant forall k :: |spec| <= k < order.Length ==> order[k] == old(order[k])
      invariant SortInv(spec, indegree[..], queue[..qt], qh)
      decreases |spec| - qh
    {
      ghost var q := queue[..qt];
      var cur := queue[qh];
      TakeService(spec, indegree[..], q, qh);
      order[cnt] := cur;
      assert order[..cnt + 1] == q[..qh] + [cur];
      qt := Release(spec, cur, indegree, queue, qt, Elems(q[..qh]));
      assert queue[..qt][..|q|] == queue[..|q|];
      FinishService(spec, indegree[..], q, qh, queue[..qt]);
      qh, cnt := qh + 1, cnt + 1;
    }
    assert queue[..qt][..qh] == queue[..qt];
    DrainedQueue(spec, indegree[..], queue[..qt]);
    if cnt == |spec| {
      n := cnt;
    } else {
      n := -1;
    }
  }

  // ---- orch_validate ----

  predicate FilledIn(s: Service) { s.image != "" && s.command != "" }

  /** The first k dependency names of service i name services. */
  ghost predicate Known(spec: Spec, i: nat, k: nat)
    requires i < |spec| && k <= |spec[i].deps|
  {
    forall d :: 0 <= d < k ==> exists j :: 0 <= j < |spec| && spec[j].name == spec[i].deps[d]
  }

  /** orch_validate accepts exactly the specs that can be started in some order. */
  method Validate(spec: Spec) returns (rc: int)
    ensures rc == 0 || rc == -1
    ensures rc == 0 <==>
              && (forall i :: 0 <= i < |spec| ==> FilledIn(spec[i]) && Known(spec, i, |spec[i].deps|))
              && exists order :: IsStartupOrder(spec, order)
  {
    var ok := true;
    for i := 0 to |spec|
      invariant ok <==> forall j :: 0 <= j < i ==> FilledIn(spec[j]) && Known(spec, j, |spec[j].deps|)
    {
      ghost var before := ok;
      if spec[i].image == "" { ok := false; }
      if spec[i].command == "" { ok := false; }
      for d := 0 to |spec[i].deps|
        invariant ok <==> before && FilledIn(spec[i]) && Known(spec, i, d)
      {
        var dep := FindService(spec, spec[i].deps[d]);
        if dep < 0 { ok := false; }
      }
    }
    if ok {
      var dummy := new nat[|spec|];
      var n := TopologicalSort(spec, dummy);
      if n < 0 { ok := false; } else { assert IsStartupOrder(spec, dummy[..n]); }
    }
    if exists order :: IsStartupOrder(spec, order) {
      var order :| IsStartupOrder(spec, order);
      OrderedIsAcyclic(spec, order);
    }
    rc := if ok then 0 else -1;
  }
}
