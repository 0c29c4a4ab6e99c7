/**
 The container registry of src/container.c: a singly linked list with head and
 tail pointers, and the counter that names new containers.  Id numbers are
 unbounded integers here.
 */
module Registry {
  import opened Base
  import opened Text

  datatype RunState = Created | Running | Paused | Stopped

  // ---- Ids ----

  const PREFIX := "container-"

  function Zeros(k: nat): (s: string)
    ensures |s| == k && AllDigits(s)
  {
    if k == 0 then "" else Zeros(k - 1) + "0"
  }

  /** %04d */
  function Pad4(n: nat): string {
    var ds := Digits(n);
    if |ds| < 4 then Zeros(4 - |ds|) + ds else ds
  }

  function IdOf(n: nat): string { PREFIX + Pad4(n) }

  /** scanf with a literal prefix followed by %d: the literal must match
      character by character. */
  function ScanAfter(literal: string, s: string): Option<int> {
    if literal == [] then
      var r := ScanInt(s);
      if r.None? then None else Some(r.value.0)
    else if s == [] || s[0] != literal[0] then None
    else ScanAfter(literal[1..], s[1..])
  }

  /** sscanf(id, "container-%d") */
  function IdNumber(id: string): Option<int> { ScanAfter(PREFIX, id) }

  lemma {:induction false} ScanAfterLiteral(literal: string, s: string)
    ensures ScanAfter(literal, literal + s) == ScanAfter("", s)
  {
    if literal == [] {
      assert literal + s == s;
    } else {
      assert (literal + s)[1..] == literal[1..] + s;
      ScanAfterLiteral(literal[1..], s);
    }
  }

  lemma {:induction false} ZerosValue(k: nat)
    ensures ValueOf(Zeros(k)) == 0
  {
    if k > 0 {
      ZerosValue(k - 1);
      assert Zeros(k)[..k - 1] == Zeros(k - 1);
    }
  }

  lemma {:induction false} LeadingZeros(k: nat, ds: string)
    requires AllDigits(ds)
    ensures AllDigits(Zeros(k) + ds) && ValueOf(Zeros(k) + ds) == ValueOf(ds)
  {
    if ds == [] {
      ZerosValue(k);
      assert Zeros(k) + ds == Zeros(k);
    } else {
      var init := ds[..|ds| - 1];
      LeadingZeros(k, init);
      var all := Zeros(k) + ds;
      assert all[..|all| - 1] == Zeros(k) + init;
    }
  }

  /** Printing a number into an id and scanning it gives the number back. */
  lemma IdRoundTrip(n: nat)
    ensures IdNumber(IdOf(n)) == Some(n as int)
  {
    var ds, p := Digits(n), Pad4(n);
    DigitsRoundTrip(n);
    LeadingZeros(if |ds| < 4 then 4 - |ds| else 0, ds);
    assert Zeros(0) + ds == ds;
    assert p != [] && AllDigits(p) && ValueOf(p) == n;
    LeadingOf(p, "");
    assert p + "" == p && p[..|p|] == p;
    ScanUnsigned(p);
    ScanAfterLiteral(PREFIX, p);
  }

  /** An id is the prefix and the number in decimal, filled up with zeros to four digits. */
  lemma IdFormat(n: nat)
    ensures var id := IdOf(n);
            && "container-" <= id && |id| >= 14 && (n < 10000 ==> |id| == 14) && (n >= 1000 ==> id == "container-" + PrintInt(n))
            && forall i :: 10 <= i < |id| ==> '0' <= id[i] <= '9'
  {
    assert PowerOfTen(4) == 10000 && PowerOfTen(3) == 1000;
    if n < 10000 { DigitsLength(n, 4); }
    if n >= 1000 { DigitsAtLeast(n, 4); }
    assert |Pad4(n)| >= 4 && AllDigits(Pad4(n));
    assert IdOf(n)[..10] == "container-" && IdOf(n)[10..] == Pad4(n);
    forall i | 10 <= i < |IdOf(n)| ensures '0' <= IdOf(n)[i] <= '9' { assert IdOf(n)[i] == Pad4(n)[i - 10]; }
  }

  // ---- The registry as a value ----

  datatype Entry = Entry(id: string, state: RunState)

  datatype Book = Book(entries: seq<Entry>, next: int)

  ghost predicate Distinct(b: Book) {
    forall i, j :: 0 <= i < j < |b.entries| ==> b.entries[i].id != b.entries[j].id
  }

  /** Every id number lies below the counter. */
  ghost predicate Counted(b: Book) {
    b.next >= 1 && forall i :: 0 <= i < |b.entries| ==> Below(b.entries[i].id, b.next)
  }

  ghost predicate Good(b: Book) { Distinct(b) && Counted(b) }

  predicate Absent(b: Book, id: string) { forall i :: 0 <= i < |b.entries| ==> b.entries[i].id != id }

  predicate Below(id: string, next: int) {
    IdNumber(id).Some? ==> IdNumber(id).value < next
  }

  function DropEntry(s: seq<Entry>, k: nat): seq<Entry>
    requires k < |s|
  {
    s[..k] + s[k + 1..]
  }

  /** container_create: the number is used up even when preparing the rootfs or
      saving the metadata fails. */
  function Create(b: Book, prepared: bool, saved: bool): Book
    requires b.next >= 0
  {
    var used := b.(next := b.next + 1);
    if prepared && saved then used.(entries := b.entries + [Entry(IdOf(b.next), Created)]) else used
  }

  predicate Busy(s: RunState) { s.Running? || s.Paused? }

  /** container_delete: refuses a busy container; a failed save puts it back, at the end. */
  function Delete(b: Book, k: nat, saved: bool): Book
    requires k < |b.entries|
  {
    if Busy(b.entries[k].state) then b
    else if saved then b.(entries := DropEntry(b.entries, k))
    else b.(entries := DropEntry(b.entries, k) + [b.entries[k]])
  }

  function KeepBusy(s: seq<Entry>): seq<Entry> {
    if s == [] then []
    else
      var rest := KeepBusy(s[..|s| - 1]);
      if Busy(s[|s| - 1].state) then rest + [s[|s| - 1]] else rest
  }

  /** update_next_sequence */
  /** The least counter from `next` on that lies above the number of an id. */
  ghost predicate IsBump(next: int, id: string, r: int) {
    next <= r && Below(id, r) && forall x :: next <= x && Below(id, x) ==> r <= x
  }

  function Bump(next: int, id: string): (r: int)
    ensures IsBump(next, id, r)
  {
    var n := IdNumber(id);
    if n.Some? && n.value >= next then n.value + 1 else next
  }

  function Recount(s: seq<Entry>): int {
    if s == [] then 1 else Bump(Recount(s[..|s| - 1]), s[|s| - 1].id)
  }

  /** container_prune_all */
  function Prune(b: Book): Book {
    var kept := KeepBusy(b.entries);
    Book(kept, Recount(kept))
  }

  /** One record of container_manager_init. */
  function Restore(b: Book, e: Entry): Book {
    Book(b.entries + [e], Bump(b.next, e.id))
  }

  /** A start, stop, pause or exit changes a state and nothing else. */
  function SetState(b: Book, k: nat, s: RunState): Book
    requires k < |b.entries|
  {
    b.(entries := b.entries[k := b.entries[k].(state := s)])
  }

  // ---- Every operation keeps the registry good ----

  lemma CreateKeeps(b: Book, prepared: bool, saved: bool)
    requires Counted(b)
    ensures Counted(Create(b, prepared, saved)) && (Distinct(b) ==> Distinct(Create(b, prepared, saved)))
  {
    IdRoundTrip(b.next);
    NewIdIsNew(b);
    var c, n := Create(b, prepared, saved), |b.entries|;
    forall i | 0 <= i < |c.entries| ensures Below(c.entries[i].id, c.next) {
      if i < n { assert Below(b.entries[i].id, b.next); }
    }
  }

  lemma DropKeeps(b: Book, k: nat)
    requires k < |b.entries|
    ensures var less := b.(entries := DropEntry(b.entries, k));
            var moved := b.(entries := DropEntry(b.entries, k) + [b.entries[k]]);
            && (Counted(b) ==> Counted(less) && Counted(moved))
            && (Distinct(b) ==> Distinct(less) && Distinct(moved))
  {
    var s := DropEntry(b.entries, k);
    assert forall i :: 0 <= i < |s| ==> s[i] == b.entries[if i < k then i else i + 1];
  }

  /** Pruning keeps exactly the running and the paused containers, in order: `at` are their places. */
  lemma {:induction false} KeptEntries(s: seq<Entry>) returns (at: seq<nat>)
    ensures |at| == |KeepBusy(s)|
    ensures forall i :: 0 <= i < |at| ==> at[i] < |s| && KeepBusy(s)[i] == s[at[i]]
    ensures forall i, j :: 0 <= i < j < |at| ==> at[i] < at[j]
    ensures forall k :: 0 <= k < |s| ==> (k in at <==> s[k].state.Running? || s[k].state.Paused?)
  {
    if s == [] {
      at := [];
    } else {
      var before := s[..|s| - 1];
      at := KeptEntries(before);
      assert forall i :: 0 <= i < |at| ==> KeepBusy(before)[i] == before[at[i]] == s[at[i]];
      if Busy(s[|s| - 1].state) {
        assert KeepBusy(s) == KeepBusy(before) + [s[|s| - 1]];
        at := at + [|s| - 1];
      }
    }
  }

  lemma {:induction false} RecountBounds(s: seq<Entry>)
    ensures Recount(s) >= 1
    ensures forall i :: 0 <= i < |s| ==> Below(s[i].id, Recount(s))
  {
    if s != [] { RecountBounds(s[..|s| - 1]); }
  }

  /** The counter that pruning computes is the least one above all ids that are left. */
  lemma {:induction false} RecountIsLeast(s: seq<Entry>, x: int)
    requires x >= 1 && forall i :: 0 <= i < |s| ==> Below(s[i].id, x)
    ensures Recount(s) <= x
  {
    if s != [] {
      var before := s[..|s| - 1];
      assert forall i :: 0 <= i < |before| ==> before[i] == s[i];
      RecountIsLeast(before, x);
      assert Below(s[|s| - 1].id, x);
    }
  }

  lemma PruneKeeps(b: Book)
    ensures Counted(Prune(b)) && (Distinct(b) ==> Distinct(Prune(b)))
  {
    var at := KeptEntries(b.entries);
    RecountBounds(KeepBusy(b.entries));
  }

  /** Restoring a record keeps the counter above all ids, and keeps ids distinct
      exactly when the id was not in the list yet. */
  lemma RestoreKeeps(b: Book, e: Entry)
    requires Counted(b)
    ensures Counted(Restore(b, e)) && (Distinct(Restore(b, e)) <==> Distinct(b) && Absent(b, e.id))
  {
    var c, n := Restore(b, e), |b.entries|;
    forall i | 0 <= i < |c.entries| ensures Below(c.entries[i].id, c.next) {
      if i < n { assert Below(b.entries[i].id, b.next); }
    }
    forall i | 0 <= i < n ensures c.entries[i] == b.entries[i] && c.entries[n] == e {
    }
  }

  datatype Op =
    | OpCreate(prepared: bool, saved: bool)
    | OpDelete(k: nat, saved: bool)
    | OpPrune
    | OpRestore(e: Entry)
    | OpSetState(k: nat, s: RunState)

  /** An operation on an entry that is not there changes nothing. */
  function Apply(b: Book, op: Op): Book {
    match op
    case OpCreate(prepared, saved) => if b.next >= 0 then Create(b, prepared, saved) else b
    case OpDelete(k, saved) => if k < |b.entries| then Delete(b, k, saved) else b
    case OpPrune => Prune(b)
    case OpRestore(e) => Restore(b, e)
    case OpSetState(k, s) => if k < |b.entries| then SetState(b, k, s) else b
  }

  function ApplyAll(b: Book, ops: seq<Op>): Book {
    if ops == [] then b else Apply(ApplyAll(b, ops[..|ops| - 1]), ops[|ops| - 1])
  }

  /** Every record that is restored has an id the list does not hold at that moment. */
  ghost predicate RestoresNewIds(ops: seq<Op>) {
    forall k :: 0 <= k < |ops| && ops[k].OpRestore? ==> Absent(ApplyAll(Book([], 1), ops[..k]), ops[k].e.id)
  }

  lemma ApplyKeeps(b: Book, op: Op)
    requires Counted(b)
    ensures Counted(Apply(b, op))
    ensures Distinct(b) && (op.OpRestore? ==> Absent(b, op.e.id)) ==> Distinct(Apply(b, op))
  {
    match op
    case OpCreate(prepared, saved) => CreateKeeps(b, prepared, saved);
    case OpDelete(k, saved) => if k < |b.entries| { DropKeeps(b, k); }
    case OpPrune => PruneKeeps(b);
    case OpRestore(e) => RestoreKeeps(b, e);
    case OpSetState(k, s) =>
  }

  /** In every history the counter stays above all ids. */
  lemma {:induction false} HistoryKeepsCounter(ops: seq<Op>)
    ensures Counted(ApplyAll(Book([], 1), ops))
  {
    if ops != [] {
      HistoryKeepsCounter(ops[..|ops| - 1]);
      ApplyKeeps(ApplyAll(Book([], 1), ops[..|ops| - 1]), ops[|ops| - 1]);
    }
  }

  /** In every history that restores no id twice, ids stay distinct as well. */
  lemma {:induction false} HistoryKeepsIds(ops: seq<Op>)
    requires RestoresNewIds(ops)
    ensures Good(ApplyAll(Book([], 1), ops))
  {
    HistoryKeepsCounter(ops);
    if ops != [] {
      var before, last := ops[..|ops| - 1], ops[|ops| - 1];
      HistoryKeepsCounter(before);
      forall k | 0 <= k < |before| ensures before[..k] == ops[..k] {
      }
      HistoryKeepsIds(before);
      ApplyKeeps(ApplyAll(Book([], 1), before), last);
    }
  }

  // ---- The linked list ----

  class Container {
    const id: string
    var state: RunState
    var next: Container?

    constructor (id: string, state: RunState)
      ensures this.id == id && this.state == state && next == null
    {
      this.id, this.state, next := id, state, null;
    }
  }

  function Successor(nodes: seq<Container>, i: nat): Container?
    requires i < |nodes|
  {
    if i + 1 < |nodes| then nodes[i + 1] else null
  }

  ghost function EntriesOf(s: seq<Container>): (r: seq<Entry>)
    reads s`state
    ensures |r| == |s|
  {
    if s == [] then [] else EntriesOf(s[..|s| - 1]) + [Entry(s[|s| - 1].id, s[|s| - 1].state)]
  }

  lemma {:induction false} EntriesAt(s: seq<Container>)
    ensures forall i :: 0 <= i < |s| ==> EntriesOf(s)[i] == Entry(s[i].id, s[i].state)
  {
    if s != [] { EntriesAt(s[..|s| - 1]); }
  }

  lemma EntriesAppend(s: seq<Container>, c: Container)
    ensures EntriesOf(s + [c]) == EntriesOf(s) + [Entry(c.id, c.state)]
  {
    assert (s + [c])[..|s|] == s;
  }

  lemma {:induction false} EntriesDrop(s: seq<Container>, k: nat)
    requires k < |s|
    ensures EntriesOf(s[..k] + s[k + 1..]) == DropEntry(EntriesOf(s), k)
  {
    var t, last := s[..k] + s[k + 1..], |s| - 1;
    if k == last {
      assert t == s[..last];
    } else {
      EntriesDrop(s[..last], k);
      assert t[..|t| - 1] == s[..last][..k] + s[..last][k + 1..];
    }
  }

  /** The busy ones among the first n containers, in order. */
  ghost function Picked(s: seq<Container>, e: seq<Entry>, n: nat): seq<Container>
    requires n <= |s| == |e|
  {
    if n == 0 then [] else Picked(s, e, n - 1) + if Busy(e[n - 1].state) then [s[n - 1]] else []
  }

  lemma PickedStep(all: seq<Container>, e: seq<Entry>, i: nat, now: seq<Container>)
    requires i < |all| == |e| && now == Picked(all, e, i) + all[i..]
    ensures var at := |Picked(all, e, i)|;
            && at < |now| && now[at] == all[i]
            && (Successor(now, at) == if i + 1 < |all| then all[i + 1] else null)
            && Picked(all, e, i + 1) + all[i + 1..] == if Busy(e[i].state) then now else now[..at] + now[at + 1..]
  {
    assert all[i..] == [all[i]] + all[i + 1..];
  }

  lemma {:induction false} PickedEntries(s: seq<Container>, e: seq<Entry>, n: nat)
    requires n <= |s| == |e| && forall i :: 0 <= i < |s| ==> e[i] == Entry(s[i].id, s[i].state)
    ensures EntriesOf(Picked(s, e, n)) == KeepBusy(e[..n])
  {
    if n > 0 {
      PickedEntries(s, e, n - 1);
      assert e[..n][..n - 1] == e[..n - 1];
      if Busy(e[n - 1].state) { EntriesAppend(Picked(s, e, n - 1), s[n - 1]); }
      else { assert Picked(s, e, n) == Picked(s, e, n - 1); }
    }
  }

  class Manager {
    var head: Container?
    var tail: Container?
    var nextSequence: int
    ghost var nodes: seq<Container>   // the list, front to back

    /** head and tail describe one acyclic list that ends at tail. */
    ghost predicate Linked()
      reads this, nodes
    {
      && NoDup(nodes)
      && head == (if nodes == [] then null else nodes[0])
      && tail == (if nodes == [] then null else nodes[|nodes| - 1])
      && (forall i {:trigger nodes[i].next} :: 0 <= i < |nodes| ==> nodes[i].next == Successor(nodes, i))
    }

    ghost function Abs(): Book
      reads this, nodes`state
    {
      Book(EntriesOf(nodes), nextSequence)
    }

    constructor ()
      ensures Linked() && Abs() == Book([], 1) && nodes == []
    {
      head, tail, nextSequence, nodes := null, null, 1, [];
    }

    /** append_container */
    method Append(c: Container)
      requires Linked() && c !in nodes
      modifies this`head, this`tail, this`nodes, c`next, nodes`next
      ensures Linked() && nodes == old(nodes) + [c]
    {
      c.next := null;
      nodes := nodes + [c];
      if tail == null {
        head, tail := c, c;
        return;
      }
      tail.next := c;
      tail := c;
    }

    /** The walk of remove_container from the head with a trailing pointer. */
    method Locate(c: Container) returns (prev: Container?, cursor: Container?, ghost k: nat)
      requires Linked()
      ensures k <= |nodes| && (k < |nodes| <==> c in nodes)
      ensures cursor == (if k < |nodes| then nodes[k] else null) && (k < |nodes| ==> cursor == c)
      ensures prev == if k > 0 then nodes[k - 1] else null
    {
      prev, cursor, k := null, head, 0;
      while cursor != null && cursor != c
        invariant k <= |nodes|
        invariant cursor == if k < |nodes| then nodes[k] else null
        invariant prev == if k > 0 then nodes[k - 1] else null
        invariant forall j :: 0 <= j < k ==> nodes[j] != c
        decreases |nodes| - k
      {
        assert nodes[k].next == Successor(nodes, k);
        prev := cursor;
        cursor := cursor.next;
        k := k + 1;
      }
    }

    /** The unlinking step of remove_container. */
    method Unlink(prev: Container?, cursor: Container, ghost k: nat)
      requires Linked() && k < |nodes| && nodes[k] == cursor && prev == if k > 0 then nodes[k - 1] else null
      modifies this`head, this`tail, this`nodes, nodes`next
      ensures Linked() && nodes == old(nodes)[..k] + old(nodes)[k + 1..]
    {
      ghost var m := nodes;
      assert m[k].next == Successor(m, k);
      if prev == null {
        head := cursor.next;
      } else {
        prev.next := cursor.next;
      }
      if tail == cursor {
        tail := prev;
      }
      cursor.next := null;
      DropNoDup(m, k);
      assert forall j {:trigger m[j].next} :: 0 <= j < |m| && j != k && j != k - 1 ==> m[j].next == old(m[j].next) == Successor(m, j);
      Spliced(m, k);
      nodes := m[..k] + m[k + 1..];
    }

    /** remove_container: takes a container out wherever it stands; k is that
        place, or the length of the list when it is not there. */
    method Remove(c: Container) returns (ghost k: nat)
      requires Linked()
      modifies this`head, this`tail, this`nodes, nodes`next
      ensures Linked() && k <= |old(nodes)| && (k < |old(nodes)| <==> c in old(nodes))
      ensures k < |old(nodes)| ==> old(nodes)[k] == c && nodes == old(nodes)[..k] + old(nodes)[k + 1..]
      ensures k == |old(nodes)| ==> nodes == old(nodes)
    {
      var prev, cursor;
      prev, cursor, k := Locate(c);
      if cursor != null {
        Unlink(prev, cursor, k);
      }
    }

    lemma DropNoDup(m: seq<Container>, k: nat)
      requires NoDup(m) && k < |m|
      ensures NoDup(m[..k] + m[k + 1..]) && m[k] !in m[..k] + m[k + 1..]
    {
      DropAt(m, k);
    }

    /** Splicing out entry k of a chain leaves a chain. */
    lemma Spliced(m: seq<Container>, k: nat)
      requires k < |m|
      requires forall j {:trigger m[j].next} :: 0 <= j < |m| && j != k && j != k - 1 ==> m[j].next == Successor(m, j)
      requires k > 0 ==> m[k - 1].next == Successor(m, k)
      ensures var t := m[..k] + m[k + 1..]; forall i {:trigger t[i].next} :: 0 <= i < |t| ==> t[i].next == Successor(t, i)
    {
      var t := m[..k] + m[k + 1..];
      forall i | 0 <= i < |t| ensures t[i].next == Successor(t, i) {
        assert t[i] == m[if i < k then i else i + 1];
      }
    }

    /** The failure path of container_create: the new record goes in and out again. */
    method AppendRolledBack(c: Container)
      requires Linked() && c !in nodes
      modifies this`head, this`tail, this`nodes, c`next, nodes`next
      ensures Linked() && nodes == old(nodes)
    {
      ghost var was := nodes;
      Append(c);
      assert nodes[|was|] == c;
      ghost var k := Remove(c);
      assert (was + [c])[..|was|] + (was + [c])[|was| + 1..] == was;
    }

    /** container_create; see CreateKeeps and NewIdIsNew for what it keeps. */
    method CreateContainer(prepared: bool, saved: bool) returns (id: Option<string>)
      requires Linked() && nextSequence >= 0
      modifies this, nodes`next
      ensures Linked() && Abs() == Create(old(Abs()), prepared, saved) && nextSequence == old(nextSequence) + 1
      ensures EntriesOf(nodes) == old(EntriesOf(nodes)) +
                if prepared && saved then [Entry(IdOf(old(nextSequence)), RunState.Created)] else []
      ensures id == if prepared && saved then Some(IdOf(old(nextSequence))) else None
    {
      hide EntriesOf, NoDup, Successor;
      var name := IdOf(nextSequence);
      var c := new Container(name, RunState.Created);
      nextSequence := nextSequence + 1;
      if !prepared { return None; }
      if !saved {
        AppendRolledBack(c);
        return None;
      }
      EntriesAppend(nodes, c);
      Append(c);
      return Some(name);
    }

    /** container_delete, for the k-th container of the list. */
    method DeleteContainer(c: Container, ghost k: nat, saved: bool) returns (rc: int)
      requires Linked() && k < |nodes| && nodes[k] == c
      modifies this`head, this`tail, this`nodes, nodes`next
      ensures Linked() && Abs() == Delete(old(Abs()), k, saved)
      ensures nodes == if old(c.state.Running? || c.state.Paused?) then old(nodes)
                       else old(nodes)[..k] + old(nodes)[k + 1..] + if saved then [] else [c]
      ensures rc == if !old(c.state.Running? || c.state.Paused?) && saved then 0 else -1
    {
      hide EntriesOf, NoDup, Successor;
      EntriesAt(nodes);
      if c.state == Running || c.state == Paused { return -1; }
      ghost var was := nodes;
      EntriesDrop(was, k);
      DropNoDup(was, k);
      ghost var found := Remove(c);
      if !saved {
        EntriesAppend(nodes, c);
        Append(c);
        return -1;
      }
      return 0;
    }

    /** container_prune_all: deletes every container that is not running or
        paused, then recomputes the counter from what is left. */
    method PruneAll()
      requires Linked()
      modifies this, nodes`next
      ensures Linked() && Abs() == Prune(old(Abs()))
    {
      hide EntriesOf, NoDup, Successor, Picked, KeepBusy;
      ghost var e := EntriesOf(nodes);
      EntriesAt(nodes);
      ghost var all := nodes;
      DropIdle(all, e, set x | x in all);
      assert e[..|all|] == e;
      PickedEntries(all, e, |all|);
      ghost var left := EntriesOf(nodes);
      EntriesAt(nodes);
      Renumber(left);
    }

    /** Unlinks the container at a known place unless it is busy. */
    method DropIfIdle(cursor: Container, ghost at: nat, ghost repr: set<Container>) returns (next: Container?)
      requires Linked() && at < |nodes| && nodes[at] == cursor
      requires forall j :: 0 <= j < |nodes| ==> nodes[j] in repr
      modifies this`head, this`tail, this`nodes, repr`next
      ensures Linked() && next == old(Successor(nodes, at))
      ensures nodes == if Busy(old(cursor.state)) then old(nodes) else old(nodes)[..at] + old(nodes)[at + 1..]
      ensures forall j :: 0 <= j < |nodes| ==> nodes[j] in repr
    {
      assert nodes[at].next == Successor(nodes, at);
      next := cursor.next;
      if cursor.state != Running && cursor.state != Paused {
        ghost var k := Remove(cursor);
        assert k == at;
      }
    }

    /** Between two rounds of the first loop of container_prune_all: i of the
        original containers have been looked at. */
    ghost predicate Pruning(all: seq<Container>, e: seq<Entry>, i: nat, cursor: Container?, repr: set<Container>)
      reads this, nodes, all
    {
      && Linked() && i <= |all| == |e|
      && (cursor == if i < |all| then all[i] else null)
      && nodes == Picked(all, e, i) + all[i..]
      && (forall j :: 0 <= j < |nodes| ==> nodes[j] in repr)
      && (forall j :: 0 <= j < |all| ==> e[j].state == all[j].state)
    }

    method PruneRound(cursor: Container, ghost all: seq<Container>, ghost e: seq<Entry>, ghost i: nat,
                      ghost repr: set<Container>)
      returns (next: Container?)
      requires Pruning(all, e, i, cursor, repr)
      modifies this`head, this`tail, this`nodes, repr`next
      ensures Pruning(all, e, i + 1, next, repr)
    {
      hide Picked, NoDup;
      PickedStep(all, e, i, nodes);
      next := DropIfIdle(cursor, |Picked(all, e, i)|, repr);
    }

    /** The first loop of container_prune_all. */
    method DropIdle(ghost all: seq<Container>, ghost e: seq<Entry>, ghost repr: set<Container>)
      requires Linked() && all == nodes && |e| == |all|
      requires forall j :: 0 <= j < |all| ==> e[j].state == all[j].state && all[j] in repr
      modifies this`head, this`tail, this`nodes, repr`next
      ensures Linked() && nodes == Picked(all, e, |all|)
      ensures forall j :: 0 <= j < |all| ==> e[j].state == all[j].state
    {
      var cursor := head;
      ghost var i := 0;
      assert all[0..] == all;
      while cursor != null
        invariant Pruning(all, e, i, cursor, repr)
        decreases |all| - i
      {
        cursor := PruneRound(cursor, all, e, i, repr);
        i := i + 1;
      }
      assert all[i..] == [];
    }

    /** The second loop of container_prune_all. */
    method Renumber(ghost e: seq<Entry>)
      requires Linked() && |e| == |nodes| && forall i :: 0 <= i < |nodes| ==> e[i].id == nodes[i].id
      modifies this`nextSequence
      ensures nextSequence == Recount(e)
    {
      nextSequence := 1;
      var c := head;
      ghost var i := 0;
      while c != null
        invariant i <= |nodes| && c == if i < |nodes| then nodes[i] else null
        invariant nextSequence == Recount(e[..i])
        decreases |nodes| - i
      {
        assert nodes[i].next == Successor(nodes, i);
        assert e[..i + 1] == e[..i] + [e[i]];
        RecountSnoc(e[..i], e[i]);
        nextSequence := BumpCounter(nextSequence, c.id);
        c := c.next;
        i := i + 1;
      }
      assert e[..i] == e;
    }

    /** One record of container_manager_init. */
    method RestoreContainer(id: string, state: RunState)
      requires Linked()
      modifies this, nodes`next
      ensures Linked() && Abs() == Restore(old(Abs()), Entry(id, state))
    {
      var c := new Container(id, state);
      EntriesAppend(nodes, c);
      Append(c);
      nextSequence := BumpCounter(nextSequence, id);
    }
  }

  /** update_next_sequence, and the same test inside container_prune_all. */
  method BumpCounter(next: int, id: string) returns (r: int)
    ensures IsBump(next, id, r)
  {
    r := next;
    var val := IdNumber(id);
    if val.Some? && val.value >= next {
      r := val.value + 1;
    }
  }

  lemma RecountSnoc(s: seq<Entry>, e: Entry)
    ensures Recount(s + [e]) == Bump(Recount(s), e.id)
  {
    assert (s + [e])[..|s|] == s;
  }

  /** The id that create hands out belongs to no container of the list. */
  lemma NewIdIsNew(b: Book)
    requires Counted(b)
    ensures Absent(b, IdOf(b.next))
  {
    IdRoundTrip(b.next);
    forall i | 0 <= i < |b.entries| ensures b.entries[i].id != IdOf(b.next) {
      assert Below(b.entries[i].id, b.next);
    }
  }
}
