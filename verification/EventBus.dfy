/**
 The event ring of src/eventbus.c against the full history of emitted events,
 the two-step drain, and re-initialisation from the log.  The sequence counter
 is unbounded here.
 */
module EventBus {
  import opened Base
  import opened EventLog

  const RING := 256

  /** The source indexes with `seq & 255`. */
  lemma MaskIsRemainder(x: bv64)
    ensures x & 255 == x % 256
  {
  }

  /** The first sequence number the ring still holds. */
  function Oldest(total: nat): nat { if total > RING then total - RING else 0 }

  /** Events carry their place in the history. */
  ghost predicate Numbered(history: seq<Event>) {
    forall s :: 0 <= s < |history| ==> history[s].number == s
  }

  /** The slot of every number in the window holds that event, and a used slot
      holds nothing older than the window. */
  ghost predicate Refines(ring: seq<Event>, history: seq<Event>) {
    && |ring| == RING && Numbered(history)
    && (forall s :: Oldest(|history|) <= s < |history| ==> ring[s % RING] == history[s])
    && (forall r :: 0 <= r < RING && r < |history| ==> Oldest(|history|) <= ring[r].number < |history|)
  }

  /** Events less than 256 apart have different slots. */
  lemma SlotsDiffer(s: nat, n: nat)
    requires s < n < s + RING
    ensures s % RING != n % RING
  {
  }

  lemma EmitRefines(ring: seq<Event>, history: seq<Event>, e: Event)
    requires Refines(ring, history) && e.number == |history|
    ensures Refines(ring[|history| % RING := e], history + [e])
  {
    var n := |history|;
    var ring', h' := ring[n % RING := e], history + [e];
    assert Numbered(h');
    forall s | Oldest(n + 1) <= s < n + 1 ensures ring'[s % RING] == h'[s] {
      if s < n {
        SlotsDiffer(s, n);
        assert ring[s % RING] == history[s];
      }
    }
    forall r | 0 <= r < RING && r < n + 1 ensures Oldest(n + 1) <= ring'[r].number < n + 1 {
      if r != n % RING { SlotNumber(ring, history, r); }
    }
  }

  /** A used slot holds the one number of the window that belongs there. */
  lemma SlotNumber(ring: seq<Event>, history: seq<Event>, r: nat)
    requires Refines(ring, history) && r < RING && r < |history|
    ensures ring[r].number % RING == r && Oldest(|history|) <= ring[r].number < |history|
  {
    var base := Oldest(|history|);
    var s := base + (r - base) % RING;
    assert s % RING == r && base <= s < |history|;
  }

  // ---- Draining ----

  /** What the second locked section prints, given the ring it then finds. */
  function Printout(ring: seq<Event>, lo: nat, hi: nat): (out: seq<Event>)
    requires |ring| == RING && lo <= hi
    ensures |out| == hi - lo && forall i :: 0 <= i < hi - lo ==> out[i] == ring[(lo + i) % RING]
  {
    seq(hi - lo, i requires 0 <= i < hi - lo => ring[(lo + i) % RING])
  }

  /** The printout is the part of the history asked for exactly when nothing in
      it had been overwritten by the time it was printed. */
  lemma PrintoutIsHistory(ring: seq<Event>, history: seq<Event>, lo: nat, hi: nat)
    requires Refines(ring, history) && lo < hi <= |history|
    ensures Printout(ring, lo, hi) == history[lo..hi] <==> |history| <= lo + RING
  {
    var out := Printout(ring, lo, hi);
    if |history| <= lo + RING {
      forall i | 0 <= i < hi - lo ensures out[i] == history[lo..hi][i] {
        assert history[lo + i] == ring[(lo + i) % RING];
      }
    } else {
      assert ring[lo % RING].number >= Oldest(|history|) > lo;
      assert out[0] == ring[(lo + 0) % RING];
      assert history[lo..hi][0].number == lo;
    }
  }

  // ---- Successive drains ----

  /** One drain: the cursor it was given and the one it returned, the number of
      events emitted by the time it printed, and what it printed. */
  datatype Drain = Drain(from: nat, cursor: nat, total: nat, printed: seq<Event>)

  /** It printed soon enough: at most 256 events had been emitted from the first one it prints on. */
  predicate InTime(d: Drain) { d.total + |d.printed| <= d.cursor + 256 }

  /** A drain prints as many events as there are since its cursor, but 256 at most,
      and these are the last ones before the cursor it returns if and only if it
      prints in time. */
  ghost predicate Faithful(d: Drain, history: seq<Event>) {
    && d.cursor <= |history|
    && (d.from >= d.cursor ==> d.printed == [])
    && (d.from < d.cursor ==>
          && |d.printed| == Min(d.cursor - d.from, 256)
          && (d.printed == history[d.cursor - |d.printed|..d.cursor] <==> InTime(d)))
  }

  /** Every drain starts where the one before it stopped. */
  predicate Chained(from: nat, drains: seq<Drain>) {
    && (drains != [] ==> drains[0].from == from)
    && forall j, k :: 0 <= j && k == j + 1 < |drains| ==> drains[k].from == drains[j].cursor
  }

  /** No drain was given a cursor from the future. */
  predicate Forward(drains: seq<Drain>) { forall k :: 0 <= k < |drains| ==> drains[k].from <= drains[k].cursor }

  /** Event s falls to drain k. */
  predicate Turn(drains: seq<Drain>, k: nat, s: nat) {
    k < |drains| && drains[k].from <= s < drains[k].cursor
  }

  lemma FaithfulLater(d: Drain, history: seq<Event>, longer: seq<Event>)
    requires Faithful(d, history) && history <= longer
    ensures Faithful(d, longer)
  {
    if d.from < d.cursor {
      assert history[d.cursor - |d.printed|..d.cursor] == longer[d.cursor - |d.printed|..d.cursor];
    }
  }

  lemma {:induction false} CursorsGrow(from: nat, drains: seq<Drain>, j: nat, k: nat)
    requires Chained(from, drains) && Forward(drains) && j < k < |drains|
    ensures drains[j].cursor <= drains[k].from
  {
    if j < k - 1 { CursorsGrow(from, drains, j, k - 1); }
  }

  lemma OneTurn(from: nat, drains: seq<Drain>, s: nat) returns (k: nat)
    requires Chained(from, drains) && Forward(drains) && drains != [] && from <= s < drains[|drains| - 1].cursor
    ensures Turn(drains, k, s) && forall j :: 0 <= j < |drains| && Turn(drains, j, s) ==> j == k
  {
    k := 0;
    while drains[k].cursor <= s
      invariant k < |drains| && drains[k].from <= s
      decreases |drains| - k
    {
      k := k + 1;
    }
    forall j | 0 <= j < |drains| && Turn(drains, j, s) ensures j == k {
      if j < k { CursorsGrow(from, drains, j, k); }
      if k < j { CursorsGrow(from, drains, k, j); }
    }
  }

  /** Printouts hold events by number. */
  lemma PrintedNumbers(d: Drain, history: seq<Event>, p: nat)
    requires Numbered(history) && Faithful(d, history) && InTime(d) && p < |d.printed|
    ensures d.from <= d.printed[p].number < d.cursor && d.printed[p].number == d.cursor - |d.printed| + p
    ensures d.printed[p] == history[d.cursor - |d.printed| + p]
  {
  }

  /** Of successive drains that print in time, an event between the first cursor and
      the last is printed unless the drain it falls to returned a cursor more than
      256 past it, and no event is printed twice. */
  lemma DrainsAreContiguous(history: seq<Event>, from: nat, drains: seq<Drain>, s: nat)
    requires Numbered(history) && Chained(from, drains) && Forward(drains) && drains != []
    requires from <= s < drains[|drains| - 1].cursor && s < |history|
    requires forall k :: 0 <= k < |drains| ==> Faithful(drains[k], history) && InTime(drains[k])
    ensures (exists k :: 0 <= k < |drains| && history[s] in drains[k].printed) <==>
              !exists k :: 0 <= k < |drains| && drains[k].from <= s && s + 256 < drains[k].cursor
    ensures forall j, k, p, q | 0 <= j < |drains| && 0 <= k < |drains| && 0 <= p < |drains[j].printed|
              && 0 <= q < |drains[k].printed| :: drains[j].printed[p] == drains[k].printed[q] ==> j == k && p == q
  {
    var k := OneTurn(from, drains, s);
    var d := drains[k];
    if d.cursor <= s + 256 {
      assert d.printed[s - (d.cursor - |d.printed|)] == history[s];
      if j :| 0 <= j < |drains| && drains[j].from <= s && s + 256 < drains[j].cursor { assert Turn(drains, j, s); }
    } else {
      forall j | 0 <= j < |drains| && history[s] in drains[j].printed ensures false {
        var p :| 0 <= p < |drains[j].printed| && drains[j].printed[p] == history[s];
        PrintedNumbers(drains[j], history, p);
        assert Turn(drains, j, s);
      }
    }
    forall j, k, p, q | 0 <= j < |drains| && 0 <= k < |drains| && 0 <= p < |drains[j].printed|
      && 0 <= q < |drains[k].printed| && drains[j].printed[p] == drains[k].printed[q] ensures j == k && p == q {
      PrintedNumbers(drains[j], history, p);
      PrintedNumbers(drains[k], history, q);
      if j < k { CursorsGrow(from, drains, j, k); }
      if k < j { CursorsGrow(from, drains, k, j); }
    }
  }

  // ---- The bus ----

  /** What other threads emit before a drain and between its locked sections. */
  datatype Round = Round(before: seq<Call>, between: seq<Call>)

  datatype Call = Call(kind: int, timestamp: int, cid: string, detail: string, value: int)

  class Bus {
    var ring: array<Event>
    var total: nat
    var log: string              // contents of events.log
    ghost var history: seq<Event>

    ghost predicate Valid()
      reads this, ring
    {
      Refines(ring[..], history) && total == |history|
    }

    /** The log file holds exactly the history. */
    ghost predicate Logged()
      reads this
    {
      log == LogOf(history)
    }

    constructor (log: string)
      ensures Valid() && fresh(ring) && history == [] && this.log == log
    {
      ring := new Event[RING](_ => Event(0, 0, "", "", 0, 0));
      total, history := 0, [];
      this.log := log;
    }

    /** eventbus_emit: the ring under the lock, then the log line. */
    method Emit(c: Call)
      requires Valid()
      modifies this`total, this`history, this`log, ring
      ensures Valid()
      ensures var e := Event(c.kind, c.timestamp, Truncate(c.cid, ID_LEN), Truncate(c.detail, DETAIL_LEN), c.value,
                             |old(history)|);
              history == old(history) + [e] && log == old(log) + Line(e)
      ensures old(Logged()) ==> Logged()
    {
      if Logged() {
        LogGrows(history, Event(c.kind, c.timestamp, Truncate(c.cid, ID_LEN), Truncate(c.detail, DETAIL_LEN), c.value, total));
      }
      var e := Event(c.kind, c.timestamp, Truncate(c.cid, ID_LEN), Truncate(c.detail, DETAIL_LEN), c.value, total);
      EmitRefines(ring[..], history, e);
      var slot := total % RING;
      ghost var was := ring[..];
      ring[slot] := e;
      assert ring[..] == was[slot := e];
      total := total + 1;
      history := history + [e];
      log := log + Line(e);
    }

    /** eventbus_drain_from, with the events other threads emit between its two
        locked sections.  It prints as many events as there are since the cursor,
        but 256 at most, and these are the last ones of the history it found if
        and only if none of them was overwritten in between. */
    method DrainFrom(from: nat, between: seq<Call>) returns (cursor: nat, printed: seq<Event>)
      requires Valid()
      modifies this`total, this`history, this`log, ring
      ensures Valid() && old(history) <= history && cursor == |old(history)|
      ensures from >= cursor ==> printed == [] && history == old(history)
      ensures from < cursor ==>
                && |history| == cursor + |between| && |printed| == Min(cursor - from, 256)
                && (printed == old(history)[cursor - |printed|..] <==> |between| + |printed| <= 256)
    {
      cursor := total;
      printed := [];
      if from >= cursor { return; }
      var lo := if cursor - from > RING then cursor - RING else from;
      EmitAll(between);
      PrintoutIsHistory(ring[..], history, lo, cursor);
      assert history[lo..cursor] == old(history)[lo..];
      printed := PrintRange(lo, cursor);
    }

    /** A reader that drains again and again, passing on the cursor it was given, while
        other threads emit before each drain and between its two locked sections. */
    method DrainRepeatedly(from: nat, rounds: seq<Round>) returns (drains: seq<Drain>)
      requires Valid()
      modifies this`total, this`history, this`log, ring
      ensures Valid() && old(history) <= history
      ensures from <= old(total) ==> Forward(drains)
      ensures |drains| == |rounds| && Chained(from, drains)
      ensures forall k :: 0 <= k < |drains| ==> Faithful(drains[k], history)
      ensures forall k :: 0 <= k < |drains| ==> drains[k].total <= drains[k].cursor + |rounds[k].between|
    {
      hide Faithful, Refines;
      drains := [];
      var cursor := from;
      for k := 0 to |rounds|
        invariant Valid() && old(history) <= history && |drains| == k && Chained(from, drains)
        invariant cursor == if k == 0 then from else drains[k - 1].cursor
        invariant k > 0 || from <= old(total) ==> cursor <= total
        invariant from <= old(total) ==> Forward(drains)
        invariant forall i :: 0 <= i < k ==> Faithful(drains[i], history)
        invariant forall i :: 0 <= i < k ==> drains[i].total <= drains[i].cursor + |rounds[i].between|
      {
        ghost var before := history;
        EmitAll(rounds[k].before);
        var d := DrainOnce(cursor, rounds[k].between);
        forall i | 0 <= i < k ensures Faithful(drains[i], history) { FaithfulLater(drains[i], before, history); }
        assert k > 0 ==> d.from == drains[k - 1].cursor;
        drains := drains + [d];
        cursor := d.cursor;
      }
    }

    method DrainOnce(from: nat, between: seq<Call>) returns (d: Drain)
      requires Valid()
      modifies this`total, this`history, this`log, ring
      ensures Valid() && old(history) <= history && d.from == from && d.cursor == |old(history)|
      ensures Faithful(d, history) && d.total <= d.cursor + |between|
    {
      var cursor, printed := DrainFrom(from, between);
      d := Drain(from, cursor, total, printed);
      if from < cursor { assert history[cursor - |printed|..cursor] == old(history)[cursor - |printed|..]; }
    }

    /** The other threads' part of a drain. */
    method EmitAll(calls: seq<Call>)
      requires Valid()
      modifies this`total, this`history, this`log, ring
      ensures Valid() && old(history) <= history && |history| == |old(history)| + |calls|
    {
      for i := 0 to |calls|
        invariant Valid() && old(history) <= history && |history| == |old(history)| + i
      {
        Emit(calls[i]);
      }
    }

    /** The second locked section of a drain. */
    method PrintRange(lo: nat, hi: nat) returns (printed: seq<Event>)
      requires ring.Length == RING && lo <= hi
      ensures printed == Printout(ring[..], lo, hi)
    {
      printed := [];
      for i := lo to hi
        invariant printed == Printout(ring[..], lo, hi)[..i - lo]
      {
        printed := printed + [ring[i % RING]];
      }
    }

    /** replay_events_file and eventbus_init: the last 256 parsed events go back
        to the slots of their own numbers, and the total continues after the last. */
    method Replay(parse: string -> Option<Event>)
      requires ring.Length == RING
      modifies this`total, this`history, ring
      ensures var parsed := ParseLog(log, parse);
              && total == (if parsed == [] then 0 else parsed[|parsed| - 1].number + 1)
              && (Numbered(parsed) ==> Valid() && history == parsed)
    {
      forall i | 0 <= i < RING { ring[i] := Event(0, 0, "", "", 0, 0); }
      total, history := 0, [];
      var window, count := ReadWindow(log, parse);
      if count == 0 { return; }
      history := ParseLog(log, parse);
      Refill(window, count);
      var last := window[(count - 1) % RING];
      total := last.number + 1;
    }

    /** The second half of replay_events_file. */
    method Refill(window: array<Event>, count: nat)
      requires ring.Length == RING && window.Length == RING && window != ring && count == |history|
      requires Holds(window[..], history)
      modifies ring
      ensures Numbered(history) ==> Refines(ring[..], history)
    {
      var loaded := if count < RING then count else RING;
      var start := count - loaded;
      for i := 0 to loaded
        invariant window[..] == old(window[..])
        invariant Numbered(history) ==> forall s :: start <= s < start + i ==> ring[s % RING] == history[s]
      {
        var e := window[(start + i) % RING];
        assert window[..][(start + i) % RING] == history[start + i];
        ring[e.number % RING] := e;
      }
      if Numbered(history) { RestoredRing(ring[..], history); }
    }
  }

  /** A circular window over the last 256 of the items seen. */
  ghost predicate Holds(window: seq<Event>, seen: seq<Event>) {
    |window| == RING && forall s :: Oldest(|seen|) <= s < |seen| ==> window[s % RING] == seen[s]
  }

  lemma Push(window: seq<Event>, seen: seq<Event>, e: Event)
    requires Holds(window, seen)
    ensures Holds(window[|seen| % RING := e], seen + [e])
  {
    var n := |seen|;
    forall s | Oldest(n + 1) <= s < n ensures s % RING != n % RING {
    }
  }

  lemma HoldsNothing(window: seq<Event>)
    requires |window| == RING
    ensures Holds(window, [])
  {
  }

  lemma RestoredRing(ring: seq<Event>, history: seq<Event>)
    requires |ring| == RING && Numbered(history)
    requires forall s :: Oldest(|history|) <= s < |history| ==> ring[s % RING] == history[s]
    ensures Refines(ring, history)
  {
    forall r | 0 <= r < RING && r < |history| ensures Oldest(|history|) <= ring[r].number < |history| {
      var base := Oldest(|history|);
      var s := base + (r - base) % RING;
      assert s % RING == r && base <= s < |history|;
    }
  }

  /** The reading loop: a rolling window over the events that parse. */
  method ReadWindow(log: string, parse: string -> Option<Event>) returns (window: array<Event>, count: nat)
    ensures fresh(window) && window.Length == RING && count == |ParseLog(log, parse)|
    ensures Holds(window[..], ParseLog(log, parse))
  {
    hide Holds, ParseLog, LineLength;
    window := new Event[RING](_ => Event(0, 0, "", "", 0, 0));
    count := 0;
    var rest := log;
    ghost var seen: seq<Event> := [];
    HoldsNothing(window[..]);
    while rest != []
      invariant fresh(window) && window.Length == RING && count == |seen| && Holds(window[..], seen)
      invariant seen + ParseLog(rest, parse) == ParseLog(log, parse)
      decreases |rest|
    {
      var n := LineLength(rest);
      var e := parse(rest[..n]);
      LogSplit(rest, parse);
      if e.Some? {
        Push(window[..], seen, e.value);
        ghost var was := window[..];
        window[count % RING] := e.value;
        assert window[..] == was[count % RING := e.value];
        count := count + 1;
        assert seen + ([e.value] + ParseLog(rest[n..], parse)) == (seen + [e.value]) + ParseLog(rest[n..], parse);
        seen := seen + [e.value];
      } else {
        assert [] + ParseLog(rest[n..], parse) == ParseLog(rest[n..], parse);
      }
      rest := rest[n..];
    }
    NothingLogged(rest, parse);
    assert seen + [] == seen;
  }

  /** In every state the bus can be in, each of the last 256 events stands in the slot
      of its number, and events are numbered in the order of their emission. */
  lemma BusHoldsTheLast(bus: Bus, s: nat)
    requires bus.Valid() && s < bus.total <= s + 256
    ensures bus.ring.Length == 256 && bus.total == |bus.history|
    ensures bus.ring[s % 256] == bus.history[s] && bus.history[s].number == s
  {
    assert bus.ring[..][s % RING] == bus.history[s];
  }

  // ---- Restart ----

  lemma {:induction false} LogGrows(history: seq<Event>, e: Event)
    ensures LogOf(history + [e]) == LogOf(history) + Line(e)
  {
    if history == [] {
      assert [e][1..] == [];
      assert LogOf([e]) == Line(e) + LogOf([]);
    } else {
      assert (history + [e])[1..] == history[1..] + [e];
      LogGrows(history[1..], e);
      assert Line(history[0]) + LogOf(history[1..] + [e]) == Line(history[0]) + LogOf(history[1..]) + Line(e);
    }
  }

  /** Re-initialising from the log of a numbered history of clean events restores
      the total and the ring, so numbering continues where it stopped. */
  method RestartRestores(history: seq<Event>) returns (bus: Bus)
    requires AllStorable(history) && Numbered(history)
    requires forall i :: 0 <= i < |history| ==> Clean(history[i])
    ensures bus.Valid() && bus.Logged() && bus.history == history && bus.total == |history|
    ensures bus.ring.Length == 256
    ensures forall s :: 0 <= s < |history| <= s + 256 ==> bus.ring[s % 256] == history[s]
  {
    bus := new Bus(LogOf(history));
    LogRoundTrip(history);
    bus.Replay(ParseLine);
  }
}
