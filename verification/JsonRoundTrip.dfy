/**
 Laying a tree out as JSON text, with white space and comments between tokens
 and commas left out at will, and parsing it with the parser of module JsonParser.
 */
module JsonRoundTrip {
  import opened JsonText
  import opened JsonParser

  // ---- Layouts ----

  /** What may stand between two tokens. */
  datatype Gap = Space | Tab | Newline | Return | Comment(line: string)

  datatype Doc = Doc(before: seq<Gap>, token: Token)

  datatype Token =
    | TNull
    | TBool(b: bool)
    | TNum(text: string)
    | TStr(s: string)
    | TArr(slots: seq<Slot>, close: seq<Gap>)
    | TObj(fields: seq<Field>, close: seq<Gap>)

  datatype Slot = Slot(item: Doc, after: seq<Gap>, comma: bool)

  datatype Field = Field(before: seq<Gap>, key: string, colon: seq<Gap>, value: Doc, after: seq<Gap>, comma: bool)

  /** The text of a layout, followed by `tail`. */
  function Put(d: Doc, tail: string): string
    decreases d, 1
  {
    PutGaps(d.before, PutToken(d.token, tail))
  }

  function PutToken(k: Token, tail: string): string
    decreases k, 0
  {
    match k
    case TNull => "null" + tail
    case TBool(b) => (if b then "true" else "false") + tail
    case TNum(text) => text + tail
    case TStr(s) => Quoted(s) + tail
    case TArr(slots, close) => "[" + PutSlots(slots, PutGaps(close, "]" + tail))
    case TObj(fields, close) => "{" + PutFields(fields, PutGaps(close, "}" + tail))
  }

  function PutSlots(slots: seq<Slot>, end: string): string
    decreases slots, 0
  {
    if slots == [] then end
    else
      var x := slots[0];
      Put(x.item, PutAfter(x.after, x.comma, PutSlots(slots[1..], end)))
  }

  function PutFields(fields: seq<Field>, end: string): string
    decreases fields, 0
  {
    if fields == [] then end
    else
      var x := fields[0];
      PutGaps(x.before, Quoted(x.key) +
              PutGaps(x.colon, ":" + Put(x.value, PutAfter(x.after, x.comma, PutFields(fields[1..], end)))))
  }

  function PutAfter(after: seq<Gap>, comma: bool, rest: string): string {
    PutGaps(after, if comma then "," + rest else rest)
  }

  function PutGaps(gaps: seq<Gap>, tail: string): string {
    if gaps == [] then tail else PutGap(gaps[0], PutGaps(gaps[1..], tail))
  }

  function PutGap(g: Gap, tail: string): string {
    match g
    case Space => " " + tail
    case Tab => "\t" + tail
    case Newline => "\n" + tail
    case Return => "\r" + tail
    case Comment(line) => "//" + (line + ("\n" + tail))
  }

  function Quoted(s: string): string { "\"" + Escape(s) + "\"" }

  // ---- Trees ----

  function Tree(d: Doc): JNode
    decreases d, 1
  {
    TokenTree(d.token)
  }

  function TokenTree(k: Token): JNode
    decreases k, 0
  {
    match k
    case TNull => JNull
    case TBool(b) => JBool(b)
    case TNum(text) => JNum(text)
    case TStr(s) => JStr(s)
    case TArr(slots, _) => JArr(ItemTrees(slots))
    case TObj(fields, _) => JObj(MemberTrees(fields))
  }

  function ItemTrees(slots: seq<Slot>): (r: seq<JNode>)
    ensures |r| == |slots|
    decreases slots, 0
  {
    if slots == [] then [] else [Tree(slots[0].item)] + ItemTrees(slots[1..])
  }

  function MemberTrees(fields: seq<Field>): (r: seq<Member>)
    ensures |r| == |fields|
    decreases fields, 0
  {
    if fields == [] then [] else [Member(fields[0].key, Tree(fields[0].value))] + MemberTrees(fields[1..])
  }

  /** The arena bytes that parsing a tree takes. */
  function Cost(n: JNode): nat
    decreases n, 0
  {
    match n
    case JStr(s) => NODE + Align8(|s| + 1)
    case JArr(items) => NODE + SLOTS + ItemsCost(items)
    case JObj(members) => NODE + SLOTS + SLOTS + MembersCost(members)
    case _ => NODE
  }

  function ItemsCost(items: seq<JNode>): nat
    decreases items, 0
  {
    if items == [] then 0 else Cost(items[0]) + ItemsCost(items[1..])
  }

  function MembersCost(ms: seq<Member>): nat
    decreases ms, 0
  {
    if ms == [] then 0 else Align8(|ms[0].key| + 1) + Cost(ms[0].value) + MembersCost(ms[1..])
  }

  // ---- What can be laid out ----

  /** Text the parser can hold. */
  predicate Holdable(s: string) {
    |s| <= 510 && forall i :: 0 <= i < |s| ==> s[i] >= ' ' || s[i] == '\n' || s[i] == '\r' || s[i] == '\t'
  }

  const NUMBER_CHARS := "0123456789+-.eE"

  predicate NumberText(s: string) {
    && 0 < |s| <= 63 && (s[0] == '-' || '0' <= s[0] <= '9')
    && forall i :: 0 <= i < |s| ==> s[i] in NUMBER_CHARS
  }

  predicate GapsOk(gaps: seq<Gap>) {
    forall i :: 0 <= i < |gaps| && gaps[i].Comment? ==> '\n' !in gaps[i].line
  }

  /** Strings, numbers and numbers of entries within the parser's limits; an entry
      without a comma has a gap behind it, unless it is the last. */
  predicate Laid(d: Doc)
    decreases d, 1
  {
    GapsOk(d.before) && TokenLaid(d.token)
  }

  predicate TokenLaid(k: Token)
    decreases k, 0
  {
    match k
    case TNum(text) => NumberText(text)
    case TStr(s) => Holdable(s)
    case TArr(slots, close) => |slots| <= 64 && SlotsLaid(slots) && GapsOk(close)
    case TObj(fields, close) => |fields| <= 64 && FieldsLaid(fields) && GapsOk(close)
    case _ => true
  }

  predicate SlotsLaid(slots: seq<Slot>)
    decreases slots, 0
  {
    slots == [] ||
      (&& Laid(slots[0].item) && GapsOk(slots[0].after) && (slots[0].comma || slots[0].after != [] || |slots| == 1)
       && SlotsLaid(slots[1..]))
  }

  predicate FieldsLaid(fields: seq<Field>)
    decreases fields, 0
  {
    fields == [] ||
      (&& GapsOk(fields[0].before) && Holdable(fields[0].key) && GapsOk(fields[0].colon) && Laid(fields[0].value)
       && GapsOk(fields[0].after) && (fields[0].comma || fields[0].after != [] || |fields| == 1)
       && FieldsLaid(fields[1..]))
  }

  // ---- Characters ----

  /** A character at which the parser's skipping stops. */
  predicate Solid(c: char) { c != ' ' && c != '\t' && c != '\n' && c != '\r' && c != '/' }

  predicate EndsValue(tail: string) { tail == [] || tail[0] !in NUMBER_CHARS }

  lemma NumberCharsAre(c: char)
    ensures IsNumberChar(c) <==> c in NUMBER_CHARS
  {
    assert NUMBER_CHARS == ['0', '1', '2', '3', '4', '5', '6', '7', '8', '9', '+', '-', '.', 'e', 'E'];
    if IsNumberChar(c) && '0' <= c <= '9' {
      var k := c as int - '0' as int;
      assert NUMBER_CHARS[k] == c;
    }
  }

  lemma SkipSolid(s: string)
    requires s != [] && Solid(s[0])
    ensures Skip(s) == s
  {
  }

  lemma {:induction false} HoldableKept(s: string)
    requires Holdable(s)
    ensures Strip(s) == s
  {
    if s != [] { HoldableKept(s[1..]); }
  }

  // ---- Gaps are skipped ----

  lemma {:induction false} DropLineTo(line: string, rest: string)
    requires '\n' !in line
    ensures DropLine(line + ("\n" + rest)) == "\n" + rest
  {
    if line == [] {
      assert line + ("\n" + rest) == "\n" + rest;
    } else {
      assert (line + ("\n" + rest))[1..] == line[1..] + ("\n" + rest);
      DropLineTo(line[1..], rest);
    }
  }

  lemma SkipGap(g: Gap, tail: string)
    requires g.Comment? ==> '\n' !in g.line
    ensures Skip(PutGap(g, tail)) == Skip(tail)
  {
    var s := PutGap(g, tail);
    if g.Comment? {
      var end := "\n" + tail;
      assert s[0] == '/' && s[1] == '/' && s[1..] == ("/" + g.line) + end;
      DropLineTo("/" + g.line, tail);
      assert end[1..] == tail;
    } else {
      assert s[1..] == tail;
    }
  }

  lemma {:induction false} SkipGaps(gaps: seq<Gap>, tail: string)
    requires GapsOk(gaps)
    ensures Skip(PutGaps(gaps, tail)) == Skip(tail)
  {
    if gaps != [] {
      SkipGap(gaps[0], PutGaps(gaps[1..], tail));
      SkipGaps(gaps[1..], tail);
    }
  }

  /** White space and comments, in any number and order, in front of a value change nothing. */
  lemma GapsBeforeValue(gaps: seq<Gap>, s: string, apos: nat)
    requires GapsOk(gaps)
    ensures Value(PutGaps(gaps, s), apos) == Value(s, apos)
  {
    SkipGaps(gaps, s);
    SameSkip(PutGaps(gaps, s), s, apos, 0);
  }

  /** What skipping leaves is a suffix that starts neither with a blank nor with a comment. */
  lemma {:induction false} SkipLeaves(s: string)
    ensures var r := Skip(s);
            && |r| <= |s| && r == s[|s| - |r|..]
            && (r != [] ==> r[0] != ' ' && r[0] != '\t' && r[0] != '\n' && r[0] != '\r' && !("//" <= r))
    decreases |s|
  {
    if s != [] {
      if IsBlank(s[0]) {
        SkipLeaves(s[1..]);
      } else if s[0] == '/' && |s| > 1 && s[1] == '/' {
        DropLineSuffix(s[1..]);
        SkipLeaves(DropLine(s[1..]));
      }
    }
  }

  lemma {:induction false} DropLineSuffix(s: string)
    ensures DropLine(s) == s[|s| - |DropLine(s)|..]
  {
    if s != [] && s[0] != '\n' { DropLineSuffix(s[1..]); }
  }

  /** The parser sees a text only through what skipping leaves of it. */
  lemma SameSkip(s: string, t: string, apos: nat, room: nat)
    requires Skip(s) == Skip(t)
    ensures Value(s, apos) == Value(t, apos) && RawString(s, apos) == RawString(t, apos)
    ensures ItemsFrom(s, apos, room) == ItemsFrom(t, apos, room)
    ensures MembersFrom(s, apos, room) == MembersFrom(t, apos, room)
  {
    hide Object, Array, Skip, Unquote, NumberLength;
  }

  // ---- Scalars ----

  lemma ReadRawString(s: string, tail: string, apos: nat)
    requires Holdable(s)
    ensures RawString(Quoted(s) + tail, apos) == Expect(s, tail, apos, Align8(|s| + 1))
  {
    var t := Quoted(s) + tail;
    SkipSolid(t);
    assert t[1..] == Escape(s) + "\"" + tail;
    HoldableKept(s);
    ReadEscaped(s, tail, MAX_TEXT);
    assert ("\"" + tail)[1..] == tail;
  }

  lemma {:induction false} ReadNumber(text: string, tail: string, n: nat)
    requires |text| <= n && EndsValue(tail) && forall i :: 0 <= i < |text| ==> text[i] in NUMBER_CHARS
    ensures NumberLength(text + tail, n) == |text|
  {
    if text == [] {
      assert text + tail == tail;
      if tail != [] { NumberCharsAre(tail[0]); }
    } else {
      assert (text + tail)[1..] == text[1..] + tail;
      NumberCharsAre(text[0]);
      ReadNumber(text[1..], tail, n - 1);
    }
  }

  /** What a successful or failed parse of something laid out must be. */
  function Expect<T>(value: T, tail: string, apos: nat, cost: nat): Out<T> {
    if apos + cost <= ARENA then Done(value, tail, apos + cost) else Fail
  }

  lemma TokenStarts(k: Token, tail: string)
    requires TokenLaid(k)
    ensures var r := PutToken(k, tail);
            r != [] && Solid(r[0]) && r[0] != ']' && r[0] != '}' && r[0] != '\0' && r[0] != ','
  {
    hide PutSlots, PutFields, SlotsLaid, FieldsLaid, Escape;
    match k
    case TNum(text) => assert (text + tail)[0] == text[0];
    case TStr(s) => assert (Quoted(s) + tail)[0] == '"';
    case _ =>
  }

  lemma ReadScalar(k: Token, tail: string, apos: nat)
    requires TokenLaid(k) && !k.TArr? && !k.TObj? && EndsValue(tail)
    ensures Value(PutToken(k, tail), apos) == Expect(TokenTree(k), tail, apos, Cost(TokenTree(k)))
  {
    hide Value, NumberText, Holdable, EndsValue, Quoted;
    match k
    case TNull => ReadLiteral("null", JNull, tail, apos);
    case TBool(b) => if b { ReadLiteral("true", JBool(true), tail, apos); } else { ReadLiteral("false", JBool(false), tail, apos); }
    case TNum(text) => ReadNumberToken(text, tail, apos);
    case TStr(s) => ReadStringToken(s, tail, apos);
  }

  lemma ReadLiteral(word: string, n: JNode, tail: string, apos: nat)
    requires (word == "null" && n == JNull) || (word == "true" && n == JBool(true)) || (word == "false" && n == JBool(false))
    ensures Value(word + tail, apos) == Expect(n, tail, apos, NODE)
  {
    hide Skip, RawString, NumberLength, Object, Array;
    var s := word + tail;
    SkipSolid(s);
    assert Drop(s, |word|) == tail;
  }

  lemma ReadNumberToken(text: string, tail: string, apos: nat)
    requires NumberText(text) && EndsValue(tail)
    ensures Value(text + tail, apos) == Expect(JNum(text), tail, apos, NODE)
  {
    hide Skip, RawString, NumberLength, Object, Array, EndsValue, NUMBER_CHARS;
    var s := text + tail;
    assert s[0] == text[0];
    SkipSolid(s);
    ReadNumber(text, tail, MAX_NUMBER);
    assert s[..|text|] == text && s[|text|..] == tail;
  }

  lemma ReadStringToken(str: string, tail: string, apos: nat)
    requires Holdable(str)
    ensures Value(Quoted(str) + tail, apos) == Expect(JStr(str), tail, apos, NODE + Align8(|str| + 1))
  {
    hide Skip, RawString, NumberLength, Object, Array, Holdable;
    var s := Quoted(str) + tail;
    assert s[0] == '"';
    SkipSolid(s);
    ReadRawString(str, tail, apos + NODE);
  }

  // ---- One round of each loop ----

  lemma ValueAtBracket(t: string, apos: nat)
    requires t != [] && (t[0] == '[' || t[0] == '{')
    ensures Value(t, apos) == if t[0] == '[' then Array(t, apos) else Object(t, apos)
  {
    SkipSolid(t);
  }

  lemma ClosedAt(close: char, tail: string)
    requires Solid(close)
    ensures Closed([close] + tail, close) == tail
  {
    SkipSolid([close] + tail);
  }

  lemma ItemStep(t: string, apos: nat, room: nat)
    requires var u := Skip(t); u != [] && u[0] != ']' && u[0] != '\0'
    requires room > 0
    ensures var v := Value(t, apos);
            ItemsFrom(t, apos, room) ==
              if v.Fail? then Fail
              else
                var more := ItemsFrom(Closed(v.rest, ','), v.apos, room - 1);
                if more.Fail? then Fail else Done([v.value] + more.value, more.rest, more.apos)
  {
    SkipTwice(t);
    SameSkip(t, Skip(t), apos, room);
    hide Value, Skip, Closed;
  }

  lemma MemberStep(t: string, apos: nat, room: nat, body: string)
    requires var u := Skip(t); u != [] && u[0] != '}' && u[0] != '\0'
    requires room > 0
    requires var k := RawString(t, apos); k.Done? ==> Skip(k.rest) == ":" + body
    ensures var k := RawString(t, apos);
            MembersFrom(t, apos, room) ==
              if k.Fail? then Fail
              else
                var v := Value(body, k.apos);
                if v.Fail? then Fail
                else
                  var more := MembersFrom(Closed(v.rest, ','), v.apos, room - 1);
                  if more.Fail? then Fail else Done([Member(k.value, v.value)] + more.value, more.rest, more.apos)
  {
    SkipTwice(t);
    SameSkip(t, Skip(t), apos, room);
    assert (":" + body)[1..] == body;
    hide Value, Skip, Closed, RawString;
  }

  /** Behind an entry: its comma, if it has one, is consumed. */
  lemma AfterEntry(after: seq<Gap>, comma: bool, rest: string)
    requires GapsOk(after) && Skip(rest) != [] && Skip(rest)[0] != ','
    ensures Skip(Closed(PutAfter(after, comma, rest), ',')) == Skip(rest)
  {
    var t := if comma then "," + rest else rest;
    SkipGaps(after, t);
    if comma {
      SkipSolid(t);
      assert t[1..] == rest;
    } else {
      SkipTwice(rest);
    }
  }

  lemma AfterEntryEnds(after: seq<Gap>, comma: bool, rest: string)
    requires comma || after != [] || EndsValue(rest)
    ensures EndsValue(PutAfter(after, comma, rest))
  {
    hide NUMBER_CHARS;
    NumberCharsAre(' ');
    NumberCharsAre('\t');
    NumberCharsAre('\n');
    NumberCharsAre('\r');
    NumberCharsAre('/');
    NumberCharsAre(',');
  }

  lemma CloseEnds(close: seq<Gap>, c: char, tail: string)
    requires c == ']' || c == '}'
    ensures EndsValue(PutGaps(close, [c] + tail))
  {
    hide NUMBER_CHARS;
    NumberCharsAre(']');
    NumberCharsAre('}');
    AfterEntryEnds(close, false, [c] + tail);
  }

  lemma ConsItem(t: string, apos: nat, room: nat, x: JNode, sep: string, cost: nat,
                 restText: string, rest: seq<JNode>, restCost: nat, close: string)
    requires var u := Skip(t); u != [] && u[0] != ']' && u[0] != '\0'
    requires room > 0
    requires Value(t, apos) == Expect(x, sep, apos, cost) && Skip(Closed(sep, ',')) == Skip(restText)
    requires apos + cost <= ARENA ==>
               ItemsFrom(restText, apos + cost, room - 1) == Expect(rest, close, apos + cost, restCost)
    ensures ItemsFrom(t, apos, room) == Expect([x] + rest, close, apos, cost + restCost)
  {
    hide Value, ItemsFrom, Closed, Skip;
    ItemStep(t, apos, room);
    SameSkip(Closed(sep, ','), restText, apos + cost, room - 1);
  }

  lemma ConsMember(t: string, apos: nat, room: nat, m: Member, afterKey: string, body: string, sep: string,
                   keyCost: nat, cost: nat, restText: string, rest: seq<Member>, restCost: nat, close: string)
    requires var u := Skip(t); u != [] && u[0] != '}' && u[0] != '\0'
    requires room > 0
    requires RawString(t, apos) == Expect(m.key, afterKey, apos, keyCost) && Skip(afterKey) == ":" + body
    requires apos + keyCost <= ARENA ==> Value(body, apos + keyCost) == Expect(m.value, sep, apos + keyCost, cost)
    requires Skip(Closed(sep, ',')) == Skip(restText)
    requires apos + keyCost + cost <= ARENA ==>
               MembersFrom(restText, apos + keyCost + cost, room - 1) ==
                 Expect(rest, close, apos + keyCost + cost, restCost)
    ensures MembersFrom(t, apos, room) == Expect([m] + rest, close, apos, keyCost + cost + restCost)
  {
    hide Value, MembersFrom, RawString, Closed, Skip;
    MemberStep(t, apos, room, body);
    SameSkip(Closed(sep, ','), restText, apos + keyCost + cost, room - 1);
  }

  // ---- Layouts ----

  lemma {:induction false} ReadDoc(d: Doc, tail: string, apos: nat)
    requires Laid(d) && EndsValue(tail) && apos <= ARENA
    ensures Value(Put(d, tail), apos) == Expect(Tree(d), tail, apos, Cost(Tree(d)))
    ensures Skip(Put(d, tail)) == PutToken(d.token, tail)
    decreases d, 2
  {
    hide Value, PutToken, TokenLaid, Cost, TokenTree, Skip, NUMBER_CHARS;
    GapsBeforeValue(d.before, PutToken(d.token, tail), apos);
    ReadToken(d.token, tail, apos);
    TokenStarts(d.token, tail);
    SkipGaps(d.before, PutToken(d.token, tail));
    SkipSolid(PutToken(d.token, tail));
  }

  lemma {:induction false} ReadToken(k: Token, tail: string, apos: nat)
    requires TokenLaid(k) && EndsValue(tail) && apos <= ARENA
    ensures Value(PutToken(k, tail), apos) == Expect(TokenTree(k), tail, apos, Cost(TokenTree(k)))
    decreases k, 4
  {
    hide Value, Array, Object, PutSlots, PutFields, ItemsCost, MembersCost, SlotsLaid, FieldsLaid, EndsValue;
    match k
    case TArr(slots, close) =>
      ReadArray(slots, close, tail, apos);
      ValueAtBracket(PutToken(k, tail), apos);
    case TObj(fields, close) =>
      ReadObject(fields, close, tail, apos);
      ValueAtBracket(PutToken(k, tail), apos);
    case _ => ReadScalar(k, tail, apos);
  }

  lemma {:induction false} ReadArray(slots: seq<Slot>, close: seq<Gap>, tail: string, apos: nat)
    requires |slots| <= 64 && SlotsLaid(slots) && GapsOk(close) && apos <= ARENA
    ensures Array("[" + PutSlots(slots, PutGaps(close, "]" + tail)), apos) ==
              Expect(JArr(ItemTrees(slots)), tail, apos, NODE + SLOTS + ItemsCost(ItemTrees(slots)))
    decreases slots, 3
  {
    hide PutSlots, SlotsLaid, ItemsCost, ItemsFrom, Closed, ItemTrees, GapsOk, PutGaps;
    var inner := PutSlots(slots, PutGaps(close, "]" + tail));
    assert ("[" + inner)[1..] == inner;
    if apos + NODE + SLOTS <= ARENA {
      ReadSlots(slots, close, tail, apos + NODE + SLOTS, MAX_ENTRIES);
      ClosedAt(']', tail);
    }
  }

  lemma {:induction false} ReadSlots(slots: seq<Slot>, close: seq<Gap>, tail: string, apos: nat, room: nat)
    requires |slots| <= room && SlotsLaid(slots) && GapsOk(close) && apos <= ARENA
    ensures ItemsFrom(PutSlots(slots, PutGaps(close, "]" + tail)), apos, room) ==
              Expect(ItemTrees(slots), "]" + tail, apos, ItemsCost(ItemTrees(slots)))
    decreases slots, 2
  {
    hide Value, ItemsFrom, Put, Laid, Cost, Closed, Skip, GapsOk, PutGaps, PutAfter, Tree, EndsValue;
    var end := PutGaps(close, "]" + tail);
    if slots == [] {
      NoMoreItems(close, tail, apos, room);
    } else {
      var x, rest := slots[0], slots[1..];
      var more := PutSlots(rest, end);
      var sep := PutAfter(x.after, x.comma, more);
      MoreSlots(rest, close, tail);
      AfterEntry(x.after, x.comma, more);
      AfterEntryEnds(x.after, x.comma, more);
      ReadDoc(x.item, sep, apos);
      DocStarts(x.item, sep);
      var cost := Cost(Tree(x.item));
      if apos + cost <= ARENA { ReadSlots(rest, close, tail, apos + cost, room - 1); }
      ConsItem(Put(x.item, sep), apos, room, Tree(x.item), sep, cost, more, ItemTrees(rest), ItemsCost(ItemTrees(rest)),
               "]" + tail);
      assert ItemTrees(slots)[1..] == ItemTrees(rest);
    }
  }

  lemma DocStarts(d: Doc, tail: string)
    requires Laid(d)
    ensures var u := Skip(Put(d, tail));
            u != [] && u[0] != ']' && u[0] != '}' && u[0] != '\0' && u[0] != ','
  {
    hide TokenLaid, PutToken, Skip;
    TokenStarts(d.token, tail);
    SkipGaps(d.before, PutToken(d.token, tail));
    SkipSolid(PutToken(d.token, tail));
  }

  lemma NoMoreItems(close: seq<Gap>, tail: string, apos: nat, room: nat)
    requires GapsOk(close)
    ensures ItemsFrom(PutGaps(close, "]" + tail), apos, room) == Done([], "]" + tail, apos)
  {
    var t := "]" + tail;
    SkipGaps(close, t);
    SkipSolid(t);
  }

  /** What follows an entry of an array: another entry, or the closing bracket. */
  lemma MoreSlots(rest: seq<Slot>, close: seq<Gap>, tail: string)
    requires SlotsLaid(rest) && GapsOk(close)
    ensures var more := PutSlots(rest, PutGaps(close, "]" + tail));
            Skip(more) != [] && Skip(more)[0] != ',' && (rest == [] ==> EndsValue(more))
  {
    if rest == [] {
      var t := "]" + tail;
      SkipGaps(close, t);
      SkipSolid(t);
      CloseEnds(close, ']', tail);
    } else {
      DocStarts(rest[0].item, PutAfter(rest[0].after, rest[0].comma, PutSlots(rest[1..], PutGaps(close, "]" + tail))));
    }
  }

  lemma {:induction false} ReadObject(fields: seq<Field>, close: seq<Gap>, tail: string, apos: nat)
    requires |fields| <= 64 && FieldsLaid(fields) && GapsOk(close) && apos <= ARENA
    ensures Object("{" + PutFields(fields, PutGaps(close, "}" + tail)), apos) ==
              Expect(JObj(MemberTrees(fields)), tail, apos, NODE + SLOTS + SLOTS + MembersCost(MemberTrees(fields)))
    decreases fields, 3
  {
    hide PutFields, FieldsLaid, MembersCost, MembersFrom, Closed, MemberTrees, GapsOk, PutGaps;
    var inner := PutFields(fields, PutGaps(close, "}" + tail));
    assert ("{" + inner)[1..] == inner;
    if apos + NODE + SLOTS + SLOTS <= ARENA {
      ReadFields(fields, close, tail, apos + NODE + SLOTS + SLOTS, MAX_ENTRIES);
      ClosedAt('}', tail);
    }
  }

  lemma {:induction false} ReadFields(fields: seq<Field>, close: seq<Gap>, tail: string, apos: nat, room: nat)
    requires |fields| <= room && FieldsLaid(fields) && GapsOk(close) && apos <= ARENA
    ensures MembersFrom(PutFields(fields, PutGaps(close, "}" + tail)), apos, room) ==
              Expect(MemberTrees(fields), "}" + tail, apos, MembersCost(MemberTrees(fields)))
    decreases fields, 2
  {
    hide Value, MembersFrom, RawString, Put, Laid, Cost, Closed, Skip, GapsOk, PutGaps, PutAfter, Tree, EndsValue, Holdable, Quoted;
    var end := PutGaps(close, "}" + tail);
    if fields == [] {
      NoMoreMembers(close, tail, apos, room);
    } else {
      var x, rest := fields[0], fields[1..];
      var more := PutFields(rest, end);
      var sep := PutAfter(x.after, x.comma, more);
      var body := Put(x.value, sep);
      var afterKey := PutGaps(x.colon, ":" + body);
      var t := PutGaps(x.before, Quoted(x.key) + afterKey);
      MoreFields(rest, close, tail);
      AfterEntry(x.after, x.comma, more);
      AfterEntryEnds(x.after, x.comma, more);
      ReadKey(x, afterKey, apos);
      ColonFollows(x.colon, body);
      var keyCost, cost := Align8(|x.key| + 1), Cost(Tree(x.value));
      if apos + keyCost <= ARENA { ReadDoc(x.value, sep, apos + keyCost); }
      if apos + keyCost + cost <= ARENA { ReadFields(rest, close, tail, apos + keyCost + cost, room - 1); }
      ConsMember(t, apos, room, Member(x.key, Tree(x.value)), afterKey, body, sep, keyCost, cost, more,
                 MemberTrees(rest), MembersCost(MemberTrees(rest)), "}" + tail);
      assert MemberTrees(fields)[1..] == MemberTrees(rest);
    }
  }

  lemma ReadKey(x: Field, afterKey: string, apos: nat)
    requires GapsOk(x.before) && Holdable(x.key)
    ensures var t := PutGaps(x.before, Quoted(x.key) + afterKey);
            && RawString(t, apos) == Expect(x.key, afterKey, apos, Align8(|x.key| + 1))
            && Skip(t) != [] && Skip(t)[0] == '"'
  {
    hide Holdable, RawString;
    var q := Quoted(x.key) + afterKey;
    ReadRawString(x.key, afterKey, apos);
    SkipGaps(x.before, q);
    SkipSolid(q);
    SameSkip(PutGaps(x.before, q), q, apos, 0);
  }

  lemma ColonFollows(gaps: seq<Gap>, body: string)
    requires GapsOk(gaps)
    ensures Skip(PutGaps(gaps, ":" + body)) == ":" + body
  {
    SkipGaps(gaps, ":" + body);
    SkipSolid(":" + body);
  }

  lemma NoMoreMembers(close: seq<Gap>, tail: string, apos: nat, room: nat)
    requires GapsOk(close)
    ensures MembersFrom(PutGaps(close, "}" + tail), apos, room) == Done([], "}" + tail, apos)
  {
    var t := "}" + tail;
    SkipGaps(close, t);
    SkipSolid(t);
  }

  /** What follows a member of an object: another member, or the closing brace. */
  lemma MoreFields(rest: seq<Field>, close: seq<Gap>, tail: string)
    requires FieldsLaid(rest) && GapsOk(close)
    ensures var more := PutFields(rest, PutGaps(close, "}" + tail));
            Skip(more) != [] && Skip(more)[0] != ',' && (rest == [] ==> EndsValue(more))
  {
    if rest == [] {
      var t := "}" + tail;
      SkipGaps(close, t);
      SkipSolid(t);
      CloseEnds(close, '}', tail);
    } else {
      var x := rest[0];
      ReadKey(x, PutGaps(x.colon, ":" + Put(x.value, PutAfter(x.after, x.comma,
                                                              PutFields(rest[1..], PutGaps(close, "}" + tail))))), 0);
    }
  }

  /** Every layout of a tree within the parser's limits parses to that tree, exactly
      when the arena has room for it. */
  lemma LaidOutTreeParses(d: Doc)
    requires Laid(d)
    ensures Value(Put(d, ""), 0) == if Cost(Tree(d)) <= 131072 then Done(Tree(d), "", Cost(Tree(d))) else Fail
  {
    ReadDoc(d, "", 0);
  }

  // ---- What is not JSON ----

  /** A value starts with a brace, a bracket, a quote, a t, an f, an n, a minus or a digit. */
  lemma GarbageIsRefused(s: string, apos: nat)
    requires Skip(s) == [] || Skip(s)[0] !in "{[\"tfn-0123456789"
    ensures Value(s, apos) == Fail
  {
    if Skip(s) != [] { Starters(Skip(s)[0]); }
    hide Skip, Object, Array, RawString;
  }

  lemma Starters(c: char)
    ensures c == '{' || c == '[' || c == '"' || c == 't' || c == 'f' || c == 'n' || c == '-' || '0' <= c <= '9' <==>
              c in "{[\"tfn-0123456789"
  {
    var all := "{[\"tfn-0123456789";
    assert all == ['{', '[', '"', 't', 'f', 'n', '-', '0', '1', '2', '3', '4', '5', '6', '7', '8', '9'];
    assert all[0] == '{' && all[1] == '[' && all[2] == '"' && all[3] == 't' && all[4] == 'f' && all[5] == 'n' && all[6] == '-';
    if '0' <= c <= '9' { assert all[7 + (c as int - '0' as int)] == c; }
  }

  /** The three words are known by their first letter; the next characters are
      passed over unseen, whatever they are. */
  lemma WordsByFirstLetter(s: string, apos: nat)
    requires apos + NODE <= ARENA
    ensures Value("t" + s, apos) == Done(JBool(true), Drop(s, 3), apos + NODE)
    ensures Value("f" + s, apos) == Done(JBool(false), Drop(s, 4), apos + NODE)
    ensures Value("n" + s, apos) == Done(JNull, Drop(s, 3), apos + NODE)
  {
    hide Skip, Object, Array, RawString;
    SkipSolid("t" + s);
    SkipSolid("f" + s);
    SkipSolid("n" + s);
    assert Drop("t" + s, 4) == Drop(s, 3) && Drop("f" + s, 5) == Drop(s, 4) && Drop("n" + s, 4) == Drop(s, 3);
  }

  /** A member needs a quoted key and a colon. */
  lemma BadMembersAreRefused(s: string, apos: nat, room: nat)
    requires room > 0 && Skip(s) != [] && Skip(s)[0] != '}' && Skip(s)[0] != '\0'
    ensures Skip(s)[0] != '"' ==> MembersFrom(s, apos, room) == Fail
    ensures var k := RawString(s, apos);
            k.Done? && (Skip(k.rest) == [] || Skip(k.rest)[0] != ':') ==> MembersFrom(s, apos, room) == Fail
  {
    SkipTwice(s);
    SameSkip(s, Skip(s), apos, room);
    hide Skip, Value, Unquote;
  }

  /** The end of the text, or a NUL, ends an array and an object as their brackets would. */
  lemma EndClosesEverything(s: string, apos: nat, room: nat)
    requires Skip(s) == [] || Skip(s)[0] == '\0'
    ensures ItemsFrom(s, apos, room) == Done([], Skip(s), apos) && MembersFrom(s, apos, room) == Done([], Skip(s), apos)
  {
  }

  // ---- Every tree has a layout ----

  /** The tightest one. */
  function Tight(n: JNode): Doc
    decreases n, 0
  {
    Doc([], match n
            case JNull => TNull
            case JBool(b) => TBool(b)
            case JNum(text) => TNum(text)
            case JStr(s) => TStr(s)
            case JArr(items) => TArr(TightItems(items), [])
            case JObj(members) => TObj(TightMembers(members), []))
  }

  function TightItems(items: seq<JNode>): (r: seq<Slot>)
    ensures |r| == |items|
    decreases items, 0
  {
    if items == [] then [] else [Slot(Tight(items[0]), [], |items| > 1)] + TightItems(items[1..])
  }

  function TightMembers(ms: seq<Member>): (r: seq<Field>)
    ensures |r| == |ms|
    decreases ms, 0
  {
    if ms == [] then []
    else [Field([], ms[0].key, [], Tight(ms[0].value), [], |ms| > 1)] + TightMembers(ms[1..])
  }

  /** Trees within the parser's limits. */
  predicate Printable(n: JNode)
    decreases n, 0
  {
    match n
    case JNum(text) => NumberText(text)
    case JStr(s) => Holdable(s)
    case JArr(items) => |items| <= 64 && forall i :: 0 <= i < |items| ==> Printable(items[i])
    case JObj(ms) => |ms| <= 64 && forall i :: 0 <= i < |ms| ==> Holdable(ms[i].key) && Printable(ms[i].value)
    case _ => true
  }

  lemma {:induction false} EveryTreeHasALayout(n: JNode)
    requires Printable(n)
    ensures Laid(Tight(n)) && Tree(Tight(n)) == n
    decreases n, 1
  {
    match n
    case JArr(items) => ItemsHaveLayouts(items);
    case JObj(ms) => MembersHaveLayouts(ms);
    case _ =>
  }

  lemma {:induction false} ItemsHaveLayouts(items: seq<JNode>)
    requires forall i :: 0 <= i < |items| ==> Printable(items[i])
    ensures SlotsLaid(TightItems(items)) && ItemTrees(TightItems(items)) == items
    decreases items, 0
  {
    if items != [] {
      EveryTreeHasALayout(items[0]);
      ItemsHaveLayouts(items[1..]);
      assert TightItems(items)[1..] == TightItems(items[1..]);
    }
  }

  lemma {:induction false} MembersHaveLayouts(ms: seq<Member>)
    requires forall i :: 0 <= i < |ms| ==> Holdable(ms[i].key) && Printable(ms[i].value)
    ensures FieldsLaid(TightMembers(ms)) && MemberTrees(TightMembers(ms)) == ms
    decreases ms, 0
  {
    if ms != [] {
      EveryTreeHasALayout(ms[0].value);
      MembersHaveLayouts(ms[1..]);
      assert TightMembers(ms)[1..] == TightMembers(ms[1..]);
    }
  }

  lemma OneGap(g: Gap, tail: string)
    ensures PutGaps([g], tail) == PutGap(g, tail)
  {
    assert [g][1..] == [];
  }

  /** The notation of objects, by example: with a blank before the colon and a trailing comma. */
  lemma ObjectByExample()
    ensures var d := Doc([], TObj([Field([], "a", [Tab], Doc([], TNull), [], true)], []));
            Put(d, "") == "{\"a\"\t:null,}" && Tree(d) == JObj([Member("a", JNull)])
  {
    var f := Field([], "a", [Tab], Doc([], TNull), [], true);
    assert [f][1..] == [];
    assert Escape("a") == "a" by { assert "a"[1..] == ""; assert Escape("") == ""; }
    var body := "null" + ("," + ("}" + ""));
    assert PutFields([], "}" + "") == "}" + "";
    OneGap(Tab, ":" + body);
    assert PutFields([f], "}" + "") == Quoted("a") + ("\t" + (":" + body));
  }
}
