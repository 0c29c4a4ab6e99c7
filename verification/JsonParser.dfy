/**
 The JSON parser of src/orchestrator.c:57-193 as functions on the text that is
 left and on the arena position: what it accepts and how much arena it uses.
 JsonMachine proves the running parser against these, JsonRoundTrip a printer.
 Numbers keep their text; their conversion to double is not modelled.
 */
module JsonParser {
  import opened Base
  import opened JsonText

  const ARENA := 131072
  const NODE := 32           // sizeof(JNode) on LP64
  const SLOTS := 512         // 64 pointers
  const MAX_ENTRIES := 64    // JP_MAX_ARR and JP_MAX_OBJ
  const MAX_NUMBER := 63

  datatype JNode =
    | JNull
    | JBool(b: bool)
    | JNum(text: string)
    | JStr(s: string)
    | JArr(items: seq<JNode>)
    | JObj(members: seq<Member>)

  datatype Member = Member(key: string, value: JNode)

  // ---- The arena ----

  function Align8(sz: nat): (r: nat)
    ensures sz <= r < sz + 8 && r % 8 == 0
  {
    (sz + 7) / 8 * 8
  }

  /** jp_alloc: the position after the block, if it fits. */
  function Alloc(apos: nat, sz: nat): Option<nat> {
    if apos + Align8(sz) > ARENA then None else Some(apos + Align8(sz))
  }

  // ---- White space ----

  predicate IsBlank(c: char) { c == ' ' || c == '\t' || c == '\n' || c == '\r' }

  /** A text without its first line's rest. */
  function DropLine(s: string): (r: string)
    ensures |r| <= |s|
  {
    if s == [] || s[0] == '\n' then s else DropLine(s[1..])
  }

  /** jp_skip_ws: blanks and line comments. */
  function Skip(s: string): (r: string)
    ensures |r| <= |s|
    decreases |s|
  {
    if s == [] then s
    else if IsBlank(s[0]) then Skip(s[1..])
    else if s[0] == '/' && |s| > 1 && s[1] == '/' then Skip(DropLine(s[1..]))
    else s
  }

  lemma SkipTwice(s: string)
    ensures Skip(Skip(s)) == Skip(s)
    decreases |s|
  {
  }

  // ---- Parsing ----

  datatype Out<T> = Fail | Done(value: T, rest: string, apos: nat)

  function Drop(s: string, n: nat): (r: string)
    ensures |r| <= |s| && (n > 0 && s != [] ==> |r| < |s|)
  {
    if n <= |s| then s[n..] else []
  }

  /** jp_raw_string */
  function RawString(s: string, apos: nat): (r: Out<string>)
    ensures r.Done? ==> |r.rest| < |s|
  {
    var t := Skip(s);
    if t == [] || t[0] != '"' then Fail
    else
      var (text, left) := Unquote(t[1..], MAX_TEXT);
      var a := Alloc(apos, |text| + 1);
      if a.None? then Fail
      else Done(text, if left != [] && left[0] == '"' then left[1..] else left, a.value)
  }

  predicate IsNumberChar(c: char) {
    '0' <= c <= '9' || c == '-' || c == '+' || c == '.' || c == 'e' || c == 'E'
  }

  /** How many number characters the text starts with, n at most. */
  function NumberLength(s: string, n: nat): (k: nat)
    ensures k <= n && k <= |s|
  {
    if s == [] || n == 0 || !IsNumberChar(s[0]) then 0 else 1 + NumberLength(s[1..], n - 1)
  }

  function Node(apos: nat, value: JNode, rest: string): Out<JNode> {
    var a := Alloc(apos, NODE);
    if a.None? then Fail else Done(value, rest, a.value)
  }

  /** jp_parse_value */
  function Value(s: string, apos: nat): (r: Out<JNode>)
    ensures r.Done? ==> |r.rest| < |s|
    decreases |s|, 2
  {
    var t := Skip(s);
    if t == [] then Fail
    else if t[0] == '{' then Object(t, apos)
    else if t[0] == '[' then Array(t, apos)
    else if t[0] == '"' then
      var a := Alloc(apos, NODE);
      if a.None? then Fail
      else
        var r := RawString(t, a.value);
        if r.Fail? then Fail else Done(JStr(r.value), r.rest, r.apos)
    else if t[0] == 't' then Node(apos, JBool(true), Drop(t, 4))
    else if t[0] == 'f' then Node(apos, JBool(false), Drop(t, 5))
    else if t[0] == 'n' then Node(apos, JNull, Drop(t, 4))
    else if t[0] == '-' || '0' <= t[0] <= '9' then
      var k := NumberLength(t, MAX_NUMBER);
      Node(apos, JNum(t[..k]), t[k..])
    else Fail
  }

  /** The consuming of a closing bracket, if it is there. */
  function Closed(s: string, close: char): (r: string)
    ensures |r| <= |s|
  {
    var t := Skip(s);
    if t != [] && t[0] == close then t[1..] else t
  }

  /** jp_parse_array, at its opening bracket */
  function Array(t: string, apos: nat): (r: Out<JNode>)
    requires t != []
    ensures r.Done? ==> |r.rest| < |t|
    decreases |t|, 1
  {
    var a := Alloc(apos, NODE);
    var b := if a.None? then None else Alloc(a.value, SLOTS);
    if b.None? then Fail
    else
      var r := ItemsFrom(t[1..], b.value, MAX_ENTRIES);
      if r.Fail? then Fail else Done(JArr(r.value), Closed(r.rest, ']'), r.apos)
  }

  /** The loop of jp_parse_array with room for `room` more items. */
  function ItemsFrom(s: string, apos: nat, room: nat): (r: Out<seq<JNode>>)
    ensures r.Done? ==> |r.rest| <= |s|
    decreases |s|, 3
  {
    var t := Skip(s);
    if t == [] || t[0] == ']' || t[0] == '\0' || room == 0 then Done([], t, apos)
    else
      var v := Value(t, apos);
      if v.Fail? then Fail
      else
        var more := ItemsFrom(Closed(v.rest, ','), v.apos, room - 1);
        if more.Fail? then Fail else Done([v.value] + more.value, more.rest, more.apos)
  }

  /** jp_parse_object, at its opening brace */
  function Object(t: string, apos: nat): (r: Out<JNode>)
    requires t != []
    ensures r.Done? ==> |r.rest| < |t|
    decreases |t|, 1
  {
    var a := Alloc(apos, NODE);
    var b := if a.None? then None else Alloc(a.value, SLOTS);
    var c := if b.None? then None else Alloc(b.value, SLOTS);
    if c.None? then Fail
    else
      var r := MembersFrom(t[1..], c.value, MAX_ENTRIES);
      if r.Fail? then Fail else Done(JObj(r.value), Closed(r.rest, '}'), r.apos)
  }

  /** The loop of jp_parse_object. */
  function MembersFrom(s: string, apos: nat, room: nat): (r: Out<seq<Member>>)
    ensures r.Done? ==> |r.rest| <= |s|
    decreases |s|, 3
  {
    var t := Skip(s);
    if t == [] || t[0] == '}' || t[0] == '\0' || room == 0 then Done([], t, apos)
    else
      var k := RawString(t, apos);
      if k.Fail? then Fail
      else
        var u := Skip(k.rest);
        if u == [] || u[0] != ':' then Fail
        else
          var v := Value(u[1..], k.apos);
          if v.Fail? then Fail
          else
            var more := MembersFrom(Closed(v.rest, ','), v.apos, room - 1);
            if more.Fail? then Fail else Done([Member(k.value, v.value)] + more.value, more.rest, more.apos)
  }

  // ---- Nesting is bounded by the arena ----

  function Depth(n: JNode): nat
    decreases n, 0
  {
    match n
    case JArr(items) => 1 + ItemsDepth(items)
    case JObj(members) => 1 + MembersDepth(members)
    case _ => 0
  }

  function ItemsDepth(items: seq<JNode>): nat
    decreases items, 0
  {
    if items == [] then 0
    else
      var d, rest := Depth(items[0]), ItemsDepth(items[1..]);
      if d > rest then d else rest
  }

  function MembersDepth(members: seq<Member>): nat
    decreases members, 0
  {
    if members == [] then 0
    else
      var d, rest := Depth(members[0].value), MembersDepth(members[1..]);
      if d > rest then d else rest
  }

  /** A tree is deeper than everything inside it, and what holds nothing has depth 0 or 1. */
  lemma DepthCountsLevels(n: JNode)
    ensures n.JArr? ==> Depth(n) >= 1 && forall i :: 0 <= i < |n.items| ==> Depth(n.items[i]) < Depth(n)
    ensures n.JObj? ==> Depth(n) >= 1 && forall i :: 0 <= i < |n.members| ==> Depth(n.members[i].value) < Depth(n)
    ensures !n.JArr? && !n.JObj? ==> Depth(n) == 0
  {
    match n
    case JArr(items) => forall i | 0 <= i < |items| ensures Depth(items[i]) <= ItemsDepth(items) { ItemWithin(items, i); }
    case JObj(ms) => forall i | 0 <= i < |ms| ensures Depth(ms[i].value) <= MembersDepth(ms) { MemberWithin(ms, i); }
    case _ =>
  }

  lemma {:induction false} ItemWithin(items: seq<JNode>, i: nat)
    requires i < |items|
    ensures Depth(items[i]) <= ItemsDepth(items)
  {
    if i > 0 { ItemWithin(items[1..], i - 1); }
  }

  lemma {:induction false} MemberWithin(ms: seq<Member>, i: nat)
    requires i < |ms|
    ensures Depth(ms[i].value) <= MembersDepth(ms)
  {
    if i > 0 { MemberWithin(ms[1..], i - 1); }
  }

  /** Arena positions stay aligned and inside the arena. */
  ghost predicate InArena(apos: nat) { apos % 8 == 0 && apos <= ARENA }

  const LEVEL := 544   // what an open array has allocated; an object has more

  /** A parsed value has used at least one array's worth of arena per level. */
  lemma {:induction false} ValueArena(s: string, apos: nat)
    requires InArena(apos)
    ensures var r := Value(s, apos);
            r.Done? ==> InArena(r.apos) && apos + LEVEL * Depth(r.value) <= r.apos && apos < r.apos
    decreases |s|, 2
  {
    hide Skip, Array, Object, Unquote, NumberLength, Drop;
    var t := Skip(s);
    if t != [] && t[0] == '{' {
      ObjectArena(t, apos);
    } else if t != [] && t[0] == '[' {
      ArrayArena(t, apos);
    }
  }

  lemma {:induction false} ObjectArena(t: string, apos: nat)
    requires InArena(apos) && t != []
    ensures var r := Object(t, apos);
            r.Done? ==> InArena(r.apos) && apos + LEVEL * Depth(r.value) <= r.apos && apos < r.apos
    decreases |t|, 1
  {
    hide MembersFrom, Closed;
    var b := apos + NODE + SLOTS + SLOTS;
    if b <= ARENA { MembersArena(t[1..], b, MAX_ENTRIES); }
  }

  lemma {:induction false} ArrayArena(t: string, apos: nat)
    requires InArena(apos) && t != []
    ensures var r := Array(t, apos);
            r.Done? ==> InArena(r.apos) && apos + LEVEL * Depth(r.value) <= r.apos && apos < r.apos
    decreases |t|, 1
  {
    hide ItemsFrom, Closed;
    var b := apos + NODE + SLOTS;
    if b <= ARENA { ItemsArena(t[1..], b, MAX_ENTRIES); }
  }

  lemma {:induction false} ItemsArena(s: string, apos: nat, room: nat)
    requires InArena(apos)
    ensures var r := ItemsFrom(s, apos, room);
            r.Done? ==> InArena(r.apos) && apos + LEVEL * ItemsDepth(r.value) <= r.apos && |r.value| <= room
    decreases |s|, 3
  {
    hide Value, Skip, Closed, Depth;
    var t := Skip(s);
    if !(t == [] || t[0] == ']' || t[0] == '\0' || room == 0) {
      ValueArena(t, apos);
      var v := Value(t, apos);
      if v.Done? { ItemsArena(Closed(v.rest, ','), v.apos, room - 1); }
    }
  }

  lemma {:induction false} MembersArena(s: string, apos: nat, room: nat)
    requires InArena(apos)
    ensures var r := MembersFrom(s, apos, room);
            r.Done? ==> InArena(r.apos) && apos + LEVEL * MembersDepth(r.value) <= r.apos && |r.value| <= room
    decreases |s|, 3
  {
    hide Value, Skip, Closed, Unquote, Depth;
    var t := Skip(s);
    if !(t == [] || t[0] == '}' || t[0] == '\0' || room == 0) {
      var k := RawString(t, apos);
      if k.Done? {
        var u := Skip(k.rest);
        if u != [] && u[0] == ':' {
          ValueArena(u[1..], k.apos);
          var v := Value(u[1..], k.apos);
          if v.Done? { MembersArena(Closed(v.rest, ','), v.apos, room - 1); }
        }
      }
    }
  }

  /** No input makes the parser nest deeper than 240 levels. */
  lemma NestingBounded(s: string)
    ensures var r := Value(s, 0); r.Done? ==> Depth(r.value) <= 240 && r.apos <= ARENA
  {
    ValueArena(s, 0);
  }
}
