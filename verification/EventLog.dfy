/**
 The persisted form of events in src/eventbus.c: one tab-separated line per
 event, and the reader that turns a log file back into events.
 */
module EventLog {
  import opened Base
  import opened Text

  const TYPE_NAMES: seq<string> := [
    "CONTAINER_CREATED", "CONTAINER_STARTED", "CONTAINER_STOPPED", "CONTAINER_DELETED",
    "CONTAINER_PAUSED", "CONTAINER_UNPAUSED", "EXEC_LAUNCHED", "OOM_KILL",
    "IMAGE_BUILT", "IMAGE_REMOVED", "IMAGE_TAGGED", "NET_INIT",
    "NET_TEARDOWN", "SECURITY_PROFILE_APPLIED", "SCHED_ENABLED", "SCHED_DISABLED",
    "ORCH_SPEC_UP", "ORCH_SPEC_DOWN", "ORCH_SVC_STARTED", "ORCH_SVC_HEALTHY",
    "ORCH_SVC_UNHEALTHY", "ORCH_SVC_RESTARTED", "ALERT_FIRED", "ALERT_RESOLVED"]

  const TYPE_COUNT := 24
  const ID_LEN := 64
  const DETAIL_LEN := 128
  const LINE_BUFFER := 512
  const UINT64_MAX := 0xFFFF_FFFF_FFFF_FFFF

  datatype Event = Event(kind: int, timestamp: int, cid: string, detail: string, value: int, number: nat)

  /** What the C types and the snprintf calls of eventbus_emit guarantee. */
  ghost predicate Storable(e: Event) {
    && e.number <= 0xFFFF_FFFF_FFFF_FFFF
    && -0x8000_0000_0000_0000 <= e.timestamp <= 0x7FFF_FFFF_FFFF_FFFF
    && -0x8000_0000_0000_0000 <= e.value <= 0x7FFF_FFFF_FFFF_FFFF
    && |e.cid| <= 63 && |e.detail| <= 127
  }

  /** Text that a log line can carry: no separators, and not the placeholder. */
  predicate CleanText(s: string) { '\t' !in s && '\n' !in s && s != "-" }

  /** An event of a known type with such texts. */
  predicate Clean(e: Event) { 0 <= e.kind < TYPE_COUNT && CleanText(e.cid) && CleanText(e.detail) }

  // ---- Type names ----

  /** eventbus_type_name */
  function TypeName(kind: int): string {
    if 0 <= kind < TYPE_COUNT then TYPE_NAMES[kind] else "UNKNOWN"
  }

  function FindName(names: seq<string>, s: string): (k: nat)
    ensures k <= |names| && (k < |names| ==> names[k] == s) && forall j :: 0 <= j < k ==> names[j] != s
  {
    if names == [] || names[0] == s then 0
    else
      var k := FindName(names[1..], s) + 1;
      assert forall j :: 0 < j < |names| ==> names[j] == names[1..][j - 1];
      k
  }

  lemma NamesDistinct(i: nat, j: nat)
    requires i < j < TYPE_COUNT
    ensures TYPE_NAMES[i] != TYPE_NAMES[j]
  {
  }

  lemma NameRoundTrip(kind: nat)
    requires kind < TYPE_COUNT
    ensures FindName(TYPE_NAMES, TYPE_NAMES[kind]) == kind
  {
    var k := FindName(TYPE_NAMES, TYPE_NAMES[kind]);
    if k < kind { NamesDistinct(k, kind); }
  }

  /** Made of characters from '_' and 'A' upwards, so of no separator. */
  predicate Wordy(s: string) { |s| <= 24 && forall i :: 0 <= i < |s| ==> s[i] >= 'A' }

  lemma NamesAreWordy()
    ensures forall k :: 0 <= k < 8 ==> Wordy(TYPE_NAMES[k])
  {
  }

  lemma MoreNamesAreWordy()
    ensures forall k :: 8 <= k < 16 ==> Wordy(TYPE_NAMES[k])
  {
  }

  lemma LastNamesAreWordy()
    ensures forall k :: 16 <= k < TYPE_COUNT ==> Wordy(TYPE_NAMES[k])
  {
  }

  lemma NameIsPlain(kind: int)
    ensures |TypeName(kind)| <= 24 && '\t' !in TypeName(kind) && '\n' !in TypeName(kind)
  {
    NamesAreWordy();
    MoreNamesAreWordy();
    LastNamesAreWordy();
    WordyIsPlain(TypeName(kind));
  }

  lemma WordyIsPlain(s: string)
    requires Wordy(s)
    ensures '\t' !in s && '\n' !in s
  {
  }

  // ---- Writing ----

  function OrDash(s: string): string { if s == "" then "-" else s }

  /** The six columns of an event. */
  function Columns(e: Event): seq<string> {
    [PrintInt(e.number), PrintInt(e.timestamp), TypeName(e.kind), OrDash(e.cid), OrDash(e.detail), PrintInt(e.value)]
  }

  function Tabbed(fields: seq<string>): string {
    if fields == [] then "" else if |fields| == 1 then fields[0] else fields[0] + "\t" + Tabbed(fields[1..])
  }

  /** The fprintf of eventbus_emit. */
  function Line(e: Event): string { Tabbed(Columns(e)) + "\n" }

  /** The log of a whole history. */
  function LogOf(history: seq<Event>): string {
    if history == [] then "" else Line(history[0]) + LogOf(history[1..])
  }

  // ---- Reading ----

  /** Up to n fields; the reader stops early when a tab is missing. */
  function SplitTabs(s: string, n: nat): seq<string> {
    if n == 0 then []
    else
      var k := Find(s, '\t');
      if k == |s| then [s] else [s[..k]] + SplitTabs(s[k + 1..], n - 1)
  }

  /** What snprintf leaves of a text in a buffer of this size. */
  function Truncate(s: string, size: nat): (r: string)
    requires size > 0
    ensures r <= s && |r| == Min(|s|, size - 1)
  {
    if |s| < size then s else s[..size - 1]
  }

  function NoDash(s: string): string { if s == "-" then "" else s }

  /** strtoull into 64 bits: it saturates, and a minus sign wraps around. */
  function StrToULL(s: string): nat {
    var r := ScanInt(s);
    if r.None? then 0
    else if r.value.0 > UINT64_MAX || r.value.0 < -UINT64_MAX then UINT64_MAX
    else if r.value.0 < 0 then UINT64_MAX + 1 + r.value.0
    else r.value.0
  }

  /** parse_event_line once the line has been split. */
  function ParseFields(f: seq<string>): Option<Event> {
    if |f| < 6 then None
    else
      var last := f[5][..Find(f[5], '\n')];
      var kind := FindName(TYPE_NAMES, f[2]);
      if kind == TYPE_COUNT then None
      else Some(Event(kind, StrToL(f[1]), Truncate(NoDash(f[3]), ID_LEN), Truncate(NoDash(f[4]), DETAIL_LEN),
                      StrToL(last), StrToULL(f[0])))
  }

  function ParseLine(line: string): Option<Event> { ParseFields(SplitTabs(line, 6)) }

  /** What fgets takes from a non-empty rest of the file. */
  function LineLength(s: string): (n: nat)
    requires s != []
    ensures 0 < n <= |s| && n <= 511 && '\n' !in s[..n - 1]
    ensures s[n - 1] == '\n' || n == |s| || n == 511
  {
    var k := Find(s, '\n');
    if k < |s| && k + 1 < LINE_BUFFER then k + 1
    else if |s| < LINE_BUFFER then |s|
    else LINE_BUFFER - 1
  }

  /** The events of the lines that parse, for any way of parsing a line. */
  function ParseLog(s: string, parse: string -> Option<Event>): seq<Event>
    decreases |s|
  {
    if s == [] then []
    else
      var n := LineLength(s);
      (if parse(s[..n]).Some? then [parse(s[..n]).value] else []) + ParseLog(s[n..], parse)
  }

  // ---- A clean event survives its line ----

  lemma {:induction false} FindAfter(s: string, c: char, rest: string)
    requires c !in s
    ensures Find(s + [c] + rest, c) == |s|
    ensures Find(s, c) == |s|
  {
    if s != [] {
      assert (s + [c] + rest)[1..] == s[1..] + [c] + rest;
      assert s[0] in s;
      FindAfter(s[1..], c, rest);
    }
  }

  lemma SplitOne(field: string, rest: string, n: nat)
    requires '\t' !in field && n > 0
    ensures SplitTabs(field + ['\t'] + rest, n) == [field] + SplitTabs(rest, n - 1)
  {
    hide Find;
    var s := field + ['\t'] + rest;
    FindAfter(field, '\t', rest);
    assert s[..|field|] == field && s[|field| + 1..] == rest;
  }

  lemma SplitLast(field: string, n: nat)
    requires '\t' !in field && n > 0
    ensures SplitTabs(field, n) == [field]
  {
    hide Find;
    FindAfter(field, '\t', "");
  }

  /** Splitting undoes joining, when no field holds a tab. */
  lemma {:induction false} SplitTabbed(fields: seq<string>, n: nat)
    requires 0 < |fields| <= n && forall i :: 0 <= i < |fields| ==> '\t' !in fields[i]
    ensures SplitTabs(Tabbed(fields), n) == fields
  {
    if |fields| == 1 {
      SplitLast(fields[0], n);
    } else {
      hide SplitTabs, Find;
      assert Tabbed(fields) == fields[0] + ['\t'] + Tabbed(fields[1..]);
      SplitOne(fields[0], Tabbed(fields[1..]), n);
      SplitTabbed(fields[1..], n - 1);
      assert [fields[0]] + fields[1..] == fields;
    }
  }

  /** The last field takes the newline along. */
  lemma {:induction false} TabbedLast(fields: seq<string>, tail: string)
    requires fields != []
    ensures Tabbed(fields) + tail == Tabbed(fields[..|fields| - 1] + [fields[|fields| - 1] + tail])
  {
    if |fields| > 1 {
      var longer := fields[..|fields| - 1] + [fields[|fields| - 1] + tail];
      TabbedLast(fields[1..], tail);
      assert longer[1..] == fields[1..][..|fields| - 2] + [fields[|fields| - 1] + tail];
    }
  }

  lemma PrintedIsPlain(v: int)
    ensures '\t' !in PrintInt(v) && '\n' !in PrintInt(v) && PrintInt(v) != []
  {
    var ds := if v < 0 then Digits(-v) else Digits(v);
    assert forall i :: 0 <= i < |ds| ==> IsDigit(ds[i]);
  }

  lemma ColumnsArePlain(e: Event)
    requires Clean(e)
    ensures forall i :: 0 <= i < 6 ==> '\t' !in Columns(e)[i] && '\n' !in Columns(e)[i]
  {
    PrintedIsPlain(e.number);
    PrintedIsPlain(e.timestamp);
    PrintedIsPlain(e.value);
    NameIsPlain(e.kind);
  }

  lemma SplitLine(e: Event)
    requires Clean(e)
    ensures SplitTabs(Line(e), 6) == Columns(e)[..5] + [Columns(e)[5] + "\n"]
  {
    var f := Columns(e);
    var g := f[..5] + [f[5] + "\n"];
    ColumnsArePlain(e);
    TabbedLast(f, "\n");
    SplitTabbed(g, 6);
  }

  lemma StrToLPrinted(v: int)
    requires ClampLong(v) == v
    ensures StrToL(PrintInt(v)) == v
  {
    ScanPrinted(v, "");
    assert PrintInt(v) + "" == PrintInt(v);
  }

  lemma StrToULLPrinted(n: nat)
    requires n <= UINT64_MAX
    ensures StrToULL(PrintInt(n)) == n
  {
    ScanPrinted(n, "");
    assert PrintInt(n) + "" == PrintInt(n);
  }

  lemma LineRoundTrip(e: Event)
    requires Storable(e) && Clean(e)
    ensures ParseLine(Line(e)) == Some(e)
  {
    SplitLine(e);
    ColumnsRoundTrip(e);
  }

  lemma LastColumn(v: int)
    ensures var f := PrintInt(v) + "\n"; f[..Find(f, '\n')] == PrintInt(v)
  {
    hide PrintInt, Find;
    var p := PrintInt(v);
    PrintedIsPlain(v);
    FindAfter(p, '\n', "");
    assert p + ['\n'] + "" == p + "\n" && (p + "\n")[..|p|] == p;
  }

  lemma ColumnsRoundTrip(e: Event)
    requires Storable(e) && Clean(e)
    ensures ParseFields(Columns(e)[..5] + [Columns(e)[5] + "\n"]) == Some(e)
  {
    hide PrintInt, StrToL, StrToULL, Find, FindName;
    LastColumn(e.value);
    StrToLPrinted(e.value);
    StrToLPrinted(e.timestamp);
    StrToULLPrinted(e.number);
    NameRoundTrip(e.kind);
  }

  /** The format: number, time, type name, id, detail and value, separated by tabs,
      with a dash for an empty text and UNKNOWN for a type without a name. */
  lemma LineFormat(e: Event)
    ensures Line(e) ==
              PrintInt(e.number) + "\t" + PrintInt(e.timestamp) + "\t"
              + (if 0 <= e.kind < 24 then TYPE_NAMES[e.kind] else "UNKNOWN") + "\t"
              + (if e.cid == "" then "-" else e.cid) + "\t" + (if e.detail == "" then "-" else e.detail) + "\t"
              + PrintInt(e.value) + "\n"
  {
    hide PrintInt;
    var f := Columns(e);
    JoinTabs(f[5..], "", f[5]);
    JoinTabs(f[4..], f[4], f[5]);
    JoinTabs(f[3..], f[3], f[4] + "\t" + f[5]);
    JoinTabs(f[2..], f[2], f[3] + "\t" + (f[4] + "\t" + f[5]));
    JoinTabs(f[1..], f[1], f[2] + "\t" + (f[3] + "\t" + (f[4] + "\t" + f[5])));
    JoinTabs(f, f[0], f[1] + "\t" + (f[2] + "\t" + (f[3] + "\t" + (f[4] + "\t" + f[5]))));
    Flatten(f[0], f[1], f[2], f[3], f[4], f[5]);
  }

  lemma JoinTabs(fields: seq<string>, first: string, rest: string)
    requires fields != []
    requires |fields| > 1 ==> fields[0] == first && Tabbed(fields[1..]) == rest
    ensures Tabbed(fields) == if |fields| == 1 then fields[0] else first + "\t" + rest
  {
  }

  lemma Flatten(a: string, b: string, c: string, d: string, e: string, f: string)
    ensures a + "\t" + (b + "\t" + (c + "\t" + (d + "\t" + (e + "\t" + f)))) + "\n" ==
              a + "\t" + b + "\t" + c + "\t" + d + "\t" + e + "\t" + f + "\n"
  {
    var ef := e + "\t" + f;
    var df := d + "\t" + ef;
    var cf := c + "\t" + df;
    assert a + "\t" + (b + "\t" + cf) == a + "\t" + b + "\t" + cf;
    assert a + "\t" + b + "\t" + cf == a + "\t" + b + "\t" + c + "\t" + df;
    assert a + "\t" + b + "\t" + c + "\t" + df == a + "\t" + b + "\t" + c + "\t" + d + "\t" + ef;
  }

  /** A line with fewer than six fields, or with a type nobody knows, is no event. */
  lemma MalformedLinesAreSkipped(fields: seq<string>)
    requires 0 < |fields| <= 6 && forall i :: 0 <= i < |fields| ==> '\t' !in fields[i]
    ensures |fields| < 6 || fields[2] !in TYPE_NAMES ==> ParseLine(Tabbed(fields)) == None
  {
    hide SplitTabs, Tabbed, TYPE_NAMES;
    SplitTabbed(fields, 6);
    if |fields| == 6 && fields[2] !in TYPE_NAMES { UnknownName(fields[2]); }
  }

  lemma UnknownName(name: string)
    requires name !in TYPE_NAMES
    ensures FindName(TYPE_NAMES, name) == TYPE_COUNT
  {
    hide FindName;
  }

  // ---- A line fits the read buffer ----

  /** One field may be as long as a detail, the others as an id. */
  lemma {:induction false} TabbedBound(fields: seq<string>, k: int)
    requires forall i :: 0 <= i < |fields| ==> |fields[i]| <= if i == k then 127 else 63
    ensures |Tabbed(fields)| <= 64 * |fields| + if 0 <= k < |fields| then 64 else 0
  {
    if |fields| > 1 { TabbedBound(fields[1..], k - 1); }
  }

  lemma PrintedLength(v: int)
    requires -LONG_MAX - 1 <= v <= UINT64_MAX
    ensures |PrintInt(v)| <= 21
  {
    assert PowerOfTen(5) == 100000;
    assert PowerOfTen(10) == 10000000000;
    assert PowerOfTen(15) == 1000000000000000;
    assert PowerOfTen(20) == 100000000000000000000;
    DigitsLength(if v < 0 then -v else v, 20);
  }

  lemma LineFits(e: Event)
    requires Storable(e)
    ensures |Tabbed(Columns(e))| <= 448
  {
    PrintedLength(e.number);
    PrintedLength(e.timestamp);
    PrintedLength(e.value);
    NameIsPlain(e.kind);
    TabbedBound(Columns(e), 4);
  }

  lemma {:induction false} TabbedHasNoNewline(fields: seq<string>)
    requires forall i :: 0 <= i < |fields| ==> '\n' !in fields[i]
    ensures '\n' !in Tabbed(fields)
  {
    if |fields| > 1 { TabbedHasNoNewline(fields[1..]); }
  }

  /** fgets takes exactly the line of a clean event. */
  lemma TakesOneLine(e: Event, rest: string)
    requires Storable(e) && Clean(e)
    ensures LineLength(Line(e) + rest) == |Line(e)|
  {
    var body := Tabbed(Columns(e));
    LineFits(e);
    ColumnsArePlain(e);
    TabbedHasNoNewline(Columns(e));
    FindAfter(body, '\n', rest);
    assert Line(e) + rest == body + ['\n'] + rest;
  }

  // ---- Round trip of a whole log ----

  ghost predicate AllStorable(history: seq<Event>) {
    forall i :: 0 <= i < |history| ==> Storable(history[i])
  }

  lemma LineNotEmpty(e: Event)
    ensures Line(e) != []
  {
  }

  lemma NothingLogged(s: string, parse: string -> Option<Event>)
    requires s == []
    ensures ParseLog(s, parse) == []
  {
  }

  lemma ParseFirst(line: string, rest: string, parse: string -> Option<Event>)
    requires line != [] && LineLength(line + rest) == |line|
    ensures ParseLog(line + rest, parse) ==
              (if parse(line).Some? then [parse(line).value] else []) + ParseLog(rest, parse)
  {
    var s := line + rest;
    assert s[..|line|] == line && s[|line|..] == rest;
  }

  lemma {:induction false} LogRoundTrip(history: seq<Event>)
    requires AllStorable(history) && forall i :: 0 <= i < |history| ==> Clean(history[i])
    ensures ParseLog(LogOf(history), ParseLine) == history
  {
    hide Line, ParseLine, ParseLog, LineLength, Storable, Clean;
    if history == [] {
      NothingLogged(LogOf(history), ParseLine);
    } else {
      var e, rest := history[0], LogOf(history[1..]);
      LogRoundTrip(history[1..]);
      assert LogOf(history) == Line(e) + rest && [e] + history[1..] == history;
      LineNotEmpty(e);
      TakesOneLine(e, rest);
      LineRoundTrip(e);
      ParseFirst(Line(e), rest, ParseLine);
    }
  }

  // ---- Only clean events come back ----

  lemma {:induction false} SplitHasNoTab(s: string, n: nat)
    ensures forall i :: 0 <= i < |SplitTabs(s, n)| ==> '\t' !in SplitTabs(s, n)[i]
    ensures |SplitTabs(s, n)| <= n
  {
    hide Find;
    if n > 0 {
      var k := Find(s, '\t');
      if k < |s| {
        SplitHasNoTab(s[k + 1..], n - 1);
        assert '\t' !in s[..k];
      } else {
        assert '\t' !in s;
      }
    }
  }

  /** No newline, except perhaps as the last character. */
  ghost predicate OneLine(s: string) { forall i :: 0 <= i < |s| - 1 ==> s[i] != '\n' }

  lemma {:induction false} SplitHasNoNewline(s: string, n: nat)
    requires OneLine(s)
    ensures forall i :: 0 <= i < |SplitTabs(s, n)| - 1 ==> '\n' !in SplitTabs(s, n)[i]
  {
    if n > 0 {
      var k := Find(s, '\t');
      if k < |s| {
        assert '\n' !in s[..k];
        SplitHasNoNewline(s[k + 1..], n - 1);
      }
    }
  }

  lemma TruncatedIsClean(s: string, size: nat)
    requires size > 2 && '\t' !in s && '\n' !in s
    ensures CleanText(Truncate(NoDash(s), size))
  {
  }

  /** A line as fgets delivers it parses to a clean event or not at all. */
  lemma ParsedIsClean(line: string)
    requires OneLine(line)
    ensures ParseLine(line).Some? ==> Clean(ParseLine(line).value)
  {
    var f := SplitTabs(line, 6);
    SplitHasNoTab(line, 6);
    SplitHasNoNewline(line, 6);
    if |f| == 6 && FindName(TYPE_NAMES, f[2]) < TYPE_COUNT {
      TruncatedIsClean(f[3], ID_LEN);
      TruncatedIsClean(f[4], DETAIL_LEN);
    }
  }

  lemma {:induction false} ParsedLogIsClean(s: string)
    ensures forall i :: 0 <= i < |ParseLog(s, ParseLine)| ==> Clean(ParseLog(s, ParseLine)[i])
    decreases |s|
  {
    if s != [] {
      var n := LineLength(s);
      forall i | 0 <= i < n - 1 ensures s[..n][i] != '\n' { assert s[..n - 1][i] == s[..n][i]; }
      ParsedIsClean(s[..n]);
      ParsedLogIsClean(s[n..]);
      LogSplit(s, ParseLine);
    }
  }

  lemma LogSplit(s: string, parse: string -> Option<Event>)
    requires s != []
    ensures var n := LineLength(s);
            ParseLog(s, parse) == (if parse(s[..n]).Some? then [parse(s[..n]).value] else []) + ParseLog(s[n..], parse)
  {
  }

  /** The log gives a history back exactly when every event in it is of a known
      type and every id and detail is free of tabs and newlines and is not the
      placeholder "-". */
  lemma LogRestoresIffClean(history: seq<Event>)
    requires AllStorable(history)
    ensures ParseLog(LogOf(history), ParseLine) == history <==> forall i :: 0 <= i < |history| ==> Clean(history[i])
  {
    ParsedLogIsClean(LogOf(history));
    if forall i :: 0 <= i < |history| ==> Clean(history[i]) { LogRoundTrip(history); }
  }
}
