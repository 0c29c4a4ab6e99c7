/**
 The JSON parser as it runs (src/orchestrator.c:48-191): a cursor that moves
 over the text and a bump arena, proved to do what JsonParser says and never to
 read outside the text (every src[pos] below is an index within bounds).
 Nodes are values here; what the arena owes them is that blocks never overlap.
 */
module JsonMachine {
  import opened Base
  import opened JsonText
  import opened JsonParser

  datatype Block = Block(start: nat, size: nat)

  /** Aligned blocks in order of address, none overlapping another or leaving the used part. */
  ghost predicate Laid(blocks: seq<Block>, apos: nat) {
    && (forall i :: 0 <= i < |blocks| ==> blocks[i].start % 8 == 0 && blocks[i].start + blocks[i].size <= apos)
    && (forall i, j :: 0 <= i < j < |blocks| ==> blocks[i].start + blocks[i].size <= blocks[j].start)
  }

  lemma LaidMore(blocks: seq<Block>, apos: nat, size: nat)
    requires Laid(blocks, apos) && apos % 8 == 0 && size % 8 == 0
    ensures Laid(blocks + [Block(apos, size)], apos + size) && (apos + size) % 8 == 0
  {
  }

  class Parser {
    const src: string
    var pos: nat
    var apos: nat
    ghost var blocks: seq<Block>   // every block handed out
    ghost var deepest: nat         // the most arrays and objects ever open at once

    ghost predicate Valid()
      reads this
    {
      InArena(apos) && Laid(blocks, apos) && LEVEL * deepest <= apos
    }

    /** The text that is left; literals may push the cursor past the end. */
    ghost function Rest(): string
      reads this
    {
      Drop(src, pos)
    }

    /** What every step keeps. */
    twostate predicate Advanced()
      reads this
    {
      Valid() && old(pos) <= pos && old(apos) <= apos && old(blocks) <= blocks && old(deepest) <= deepest
    }

    constructor (text: string)
      ensures Valid() && src == text && pos == 0 && apos == 0 && blocks == [] && deepest == 0
    {
      src, pos, apos, blocks, deepest := text, 0, 0, [], 0;
    }

    /** jp_alloc */
    method Allocate(sz: nat) returns (at: Option<nat>)
      requires Valid()
      modifies this`apos, this`blocks
      ensures Advanced()
      ensures at.None? <==> Alloc(old(apos), sz).None?
      ensures at.None? ==> apos == old(apos) && blocks == old(blocks)
      ensures at.Some? ==> at.value == old(apos) && Alloc(old(apos), sz) == Some(apos) &&
                           blocks == old(blocks) + [Block(at.value, Align8(sz))]
    {
      hide Laid, Align8;
      var aligned := Align8(sz);
      LaidMore(blocks, apos, aligned);
      if apos + aligned > ARENA { return None; }
      at := Some(apos);
      blocks := blocks + [Block(apos, aligned)];
      apos := apos + aligned;
    }

    /** jp_skip_ws */
    method SkipBlanks()
      modifies this`pos
      ensures old(pos) <= pos && Rest() == Skip(old(Rest())) && Skip(Rest()) == Rest()
    {
      while pos < |src|
        invariant old(pos) <= pos && Skip(Rest()) == Skip(old(Rest()))
        decreases |src| - pos
      {
        var c := src[pos];
        assert Rest()[1..] == Drop(src, pos + 1);
        if IsBlank(c) {
          pos := pos + 1;
          continue;
        }
        if c == '/' && pos + 1 < |src| && src[pos + 1] == '/' {
          SkipLine();
          continue;
        }
        break;
      }
    }

    /** The inner loop over a line comment. */
    method SkipLine()
      requires pos + 1 < |src| && src[pos] == '/' && src[pos + 1] == '/'
      modifies this`pos
      ensures old(pos) < pos <= |src| && Skip(Rest()) == Skip(old(Rest()))
    {
      ghost var start := Rest();
      assert start[1..] == Drop(src, pos + 1);
      while pos < |src| && src[pos] != '\n'
        invariant old(pos) <= pos <= |src|
        invariant pos == old(pos) || (old(pos) < pos && DropLine(Rest()) == DropLine(start[1..]))
        decreases |src| - pos
      {
        assert Rest()[1..] == Drop(src, pos + 1);
        pos := pos + 1;
      }
    }

    /** jp_peek */
    method PeekChar() returns (c: char)
      modifies this`pos
      ensures old(pos) <= pos && Rest() == Skip(old(Rest())) && Skip(Rest()) == Rest()
      ensures c == if Rest() == [] then '\0' else Rest()[0]
      ensures Rest() != [] ==> pos < |src|
    {
      SkipBlanks();
      c := if pos < |src| then src[pos] else '\0';
    }

    /** jp_consume */
    method Consume() returns (c: char)
      modifies this`pos
      ensures old(pos) <= pos
      ensures var t := Skip(old(Rest()));
              if t == [] then c == '\0' && Rest() == [] else old(pos) < pos && c == t[0] && Rest() == t[1..]
    {
      SkipBlanks();
      if pos < |src| {
        c := src[pos];
        assert Rest()[1..] == Drop(src, pos + 1);
        pos := pos + 1;
      } else {
        c := '\0';
      }
    }

    /** jp_peek and then jp_consume, for one character that may be there. */
    method Accept(c: char)
      requires c != '\0'
      modifies this`pos
      ensures old(pos) <= pos && Rest() == Closed(old(Rest()), c)
    {
      var d := PeekChar();
      if d == c {
        d := Consume();
      }
    }

    /** The loop of jp_raw_string, behind the opening quote. */
    method ReadText() returns (text: string)
      modifies this`pos
      ensures old(pos) <= pos && (text, Rest()) == Unquote(old(Rest()), MAX_TEXT)
    {
      hide Unquote;
      ghost var start := Rest();
      text := [];
      assert text + Unquote(start, MAX_TEXT).0 == Unquote(start, MAX_TEXT).0;
      while pos < |src| && src[pos] != '"' && |text| < MAX_TEXT
        invariant old(pos) <= pos && |text| <= MAX_TEXT
        invariant Behind(text, Unquote(Rest(), MAX_TEXT - |text|)) == Unquote(start, MAX_TEXT)
        decreases |src| - pos
      {
        UnquoteStep(Rest(), MAX_TEXT - |text|, text);
        var c := ReadChar();
        if c.None? { break; }
        text := text + [c.value];
      }
      UnquoteEnd(Rest(), MAX_TEXT - |text|, text);
    }

    /** One round of that loop: a character of the string, unless the text ends in a backslash. */
    method ReadChar() returns (c: Option<char>)
      requires pos < |src|
      modifies this`pos
      ensures old(pos) < pos
      ensures var s := old(Rest());
              if s[0] != '\\' then c == Some(s[0]) && Rest() == s[1..]
              else if |s| == 1 then c == None && Rest() == []
              else c == Some(Unescaped(s[1])) && Rest() == s[2..]
    {
      if src[pos] == '\\' {
        pos := pos + 1;
        if pos >= |src| { return None; }
        pos := pos + 1;
        match src[pos - 1] {
          case 'n' => c := Some('\n');
          case 't' => c := Some('\t');
          case 'r' => c := Some('\r');
          case other => c := Some(other);
        }
      } else {
        c := Some(src[pos]);
        pos := pos + 1;
      }
    }

    /** jp_raw_string */
    method ReadString() returns (r: Option<string>)
      requires Valid()
      modifies this`pos, this`apos, this`blocks
      ensures Advanced()
      ensures Agrees(r, JsonParser.RawString(old(Rest()), old(apos)), this)
      ensures r.Some? ==> old(pos) < pos
    {
      hide Unquote, Skip;
      var c := Consume();
      if c != '"' { return None; }
      var text := ReadText();
      if pos < |src| && src[pos] == '"' {
        assert Rest()[1..] == Drop(src, pos + 1);
        pos := pos + 1;
      }
      var at := Allocate(|text| + 1);
      r := if at.None? then None else Some(text);
    }

    /** jp_node */
    method MakeNode(value: JNode) returns (r: Option<JNode>)
      requires Valid()
      modifies this`apos, this`blocks
      ensures Advanced()
      ensures Agrees(r, Node(old(apos), value, Rest()), this)
    {
      var at := Allocate(NODE);
      r := if at.None? then None else Some(value);
    }

    /** jp_parse_string */
    method ParseString() returns (r: Option<JNode>)
      requires Valid()
      modifies this`pos, this`apos, this`blocks
      ensures Advanced()
      ensures Agrees(r, StringNode(old(Rest()), old(apos)), this)
      ensures r.Some? ==> old(pos) < pos
    {
      var at := Allocate(NODE);
      if at.None? { return None; }
      var s := ReadString();
      r := if s.None? then None else Some(JStr(s.value));
    }

    /** jp_parse_number */
    method ParseNumber() returns (r: Option<JNode>)
      requires Valid()
      modifies this`pos, this`apos, this`blocks
      ensures Advanced()
      ensures Agrees(r, NumberNode(old(Rest()), old(apos)), this)
      ensures pos >= old(pos) + NumberLength(Skip(old(Rest())), MAX_NUMBER)
    {
      hide NumberLength, Skip, Alloc, Laid;
      SkipBlanks();
      var text := ReadNumber();
      ghost var rest := Rest();
      r := MakeNode(JNum(text));
      assert Rest() == rest;
    }

    /** The loop of jp_parse_number. */
    method ReadNumber() returns (text: string)
      modifies this`pos
      ensures var s := old(Rest());
              var k := NumberLength(s, MAX_NUMBER);
              pos == old(pos) + k && text == s[..k] && Rest() == s[k..]
    {
      hide NumberLength;
      ghost var start := Rest();
      text := [];
      while pos < |src| && |text| < MAX_NUMBER && IsNumberChar(src[pos])
        invariant pos == old(pos) + |text| && |text| <= MAX_NUMBER && |text| <= |start|
        invariant text == start[..|text|] && Rest() == start[|text|..]
        invariant |text| + NumberLength(Rest(), MAX_NUMBER - |text|) == NumberLength(start, MAX_NUMBER)
        decreases |src| - pos
      {
        NumberStep(Rest(), MAX_NUMBER - |text|);
        assert Rest()[1..] == start[|text| + 1..];
        text := text + [src[pos]];
        pos := pos + 1;
      }
      NumberStep(Rest(), MAX_NUMBER - |text|);
    }

    /** jp_parse_array; `open` arrays and objects enclose it. */
    method ParseArray(ghost open: nat) returns (r: Option<JNode>)
      requires Valid() && LEVEL * open <= apos
      modifies this
      ensures Advanced()
      ensures var t := Skip(old(Rest()));
              if t == [] || t[0] != '[' then r.None? else Agrees(r, Array(t, old(apos)), this)
      ensures r.Some? ==> old(pos) < pos
      decreases |Rest()|, 1
    {
      hide Skip, ItemsFrom, Closed;
      var c := Consume();
      if c != '[' { return None; }
      var at := Allocate(NODE);
      if at.None? { return None; }
      at := Allocate(SLOTS);
      if at.None? { return None; }
      deepest := if deepest > open then deepest else open + 1;
      var items := ParseItems(open + 1);
      if items.None? { return None; }
      Accept(']');
      r := Some(JArr(items.value));
    }

    /** The loop of jp_parse_array. */
    method ParseItems(ghost open: nat) returns (r: Option<seq<JNode>>)
      requires Valid() && LEVEL * open <= apos
      modifies this
      ensures Advanced()
      ensures Agrees(r, ItemsFrom(old(Rest()), old(apos), MAX_ENTRIES), this)
      decreases |Rest()|, 3
    {
      hide Value, ItemsFrom, Skip, Closed;
      ghost var all := ItemsFrom(Rest(), apos, MAX_ENTRIES);
      var items := [];
      AfterNone(all);
      SkipItems(Rest(), apos, MAX_ENTRIES);
      var c := PeekChar();
      while c != ']' && c != '\0' && |items| < MAX_ENTRIES
        invariant Advanced() && |items| <= MAX_ENTRIES && LEVEL * open <= apos
        invariant Skip(Rest()) == Rest() && c == (if Rest() == [] then '\0' else Rest()[0])
        invariant After(items, ItemsFrom(Rest(), apos, MAX_ENTRIES - |items|)) == all
        invariant |Rest()| <= |old(Rest())|
        decreases |Rest()|
      {
        ItemsStep(items, Rest(), apos, MAX_ENTRIES - |items|);
        var v := ParseValue(open);
        if v.None? { return None; }
        items := items + [v.value];
        Accept(',');
        SkipItems(Rest(), apos, MAX_ENTRIES - |items|);
        c := PeekChar();
      }
      ItemsEnd(items, Rest(), apos, MAX_ENTRIES - |items|);
      r := Some(items);
    }

    /** The cursor jumps over a literal without looking at it, past the end if need be. */
    method PassLiteral(n: nat, value: JNode) returns (r: Option<JNode>)
      requires Valid() && n > 0
      modifies this`pos, this`apos, this`blocks
      ensures Advanced() && pos == old(pos) + n
      ensures Agrees(r, Node(old(apos), value, Drop(old(Rest()), n)), this)
    {
      pos := pos + n;
      r := MakeNode(value);
    }

    /** jp_parse_value */
    method ParseValue(ghost open: nat) returns (r: Option<JNode>)
      requires Valid() && LEVEL * open <= apos
      modifies this
      ensures Advanced()
      ensures Agrees(r, Value(old(Rest()), old(apos)), this)
      ensures r.Some? ==> old(pos) < pos
      decreases |Rest()|, 2
    {
      hide NumberLength, RawString, Array, Object, Skip, Value, StringNode, NumberNode;
      var c := PeekChar();
      ghost var t := Rest();
      if t != [] { ValueBranches(t, apos); }
      SkipValue(old(Rest()), apos);
      if c == '{' { r := ParseObject(open); return; }
      if c == '[' { r := ParseArray(open); return; }
      if c == '"' { r := ParseString(); return; }
      if c == 't' { r := PassLiteral(4, JBool(true)); return; }
      if c == 'f' { r := PassLiteral(5, JBool(false)); return; }
      if c == 'n' { r := PassLiteral(4, JNull); return; }
      if c == '-' || '0' <= c <= '9' { r := ParseNumber(); return; }
      r := None;
    }

    /** jp_parse_object; `open` arrays and objects enclose it. */
    method ParseObject(ghost open: nat) returns (r: Option<JNode>)
      requires Valid() && LEVEL * open <= apos
      modifies this
      ensures Advanced()
      ensures var t := Skip(old(Rest()));
              if t == [] || t[0] != '{' then r.None? else Agrees(r, Object(t, old(apos)), this)
      ensures r.Some? ==> old(pos) < pos
      decreases |Rest()|, 1
    {
      hide Skip, MembersFrom, Closed;
      var c := Consume();
      if c != '{' { return None; }
      var at := Allocate(NODE);
      if at.None? { return None; }
      at := Allocate(SLOTS);
      var at2 := Allocate(SLOTS);
      if at.None? || at2.None? { return None; }
      deepest := if deepest > open then deepest else open + 1;
      var members := ParseMembers(open + 1);
      if members.None? { return None; }
      Accept('}');
      r := Some(JObj(members.value));
    }

    /** The loop of jp_parse_object. */
    method ParseMembers(ghost open: nat) returns (r: Option<seq<Member>>)
      requires Valid() && LEVEL * open <= apos
      modifies this
      ensures Advanced()
      ensures Agrees(r, MembersFrom(old(Rest()), old(apos), MAX_ENTRIES), this)
      decreases |Rest()|, 3
    {
      hide OneMember, MembersFrom, Skip, Closed;
      ghost var all := MembersFrom(Rest(), apos, MAX_ENTRIES);
      var members := [];
      AfterNone(all);
      SkipMembers(Rest(), apos, MAX_ENTRIES);
      var c := PeekChar();
      while c != '}' && c != '\0' && |members| < MAX_ENTRIES
        invariant Advanced() && |members| <= MAX_ENTRIES && LEVEL * open <= apos
        invariant Skip(Rest()) == Rest() && c == (if Rest() == [] then '\0' else Rest()[0])
        invariant After(members, MembersFrom(Rest(), apos, MAX_ENTRIES - |members|)) == all
        invariant |Rest()| <= |old(Rest())|
        decreases |Rest()|
      {
        MembersStep(members, Rest(), apos, MAX_ENTRIES - |members|);
        var m := ParseMember(open);
        if m.None? { return None; }
        members := members + [m.value];
        Accept(',');
        SkipMembers(Rest(), apos, MAX_ENTRIES - |members|);
        c := PeekChar();
      }
      MembersEnd(members, Rest(), apos, MAX_ENTRIES - |members|);
      r := Some(members);
    }

    /** A key, a colon and a value. */
    method ParseMember(ghost open: nat) returns (r: Option<Member>)
      requires Valid() && LEVEL * open <= apos
      modifies this
      ensures Advanced()
      ensures Agrees(r, OneMember(old(Rest()), old(apos)), this)
      ensures r.Some? ==> old(pos) < pos
      decreases |Rest()|, 2
    {
      var key := ReadString();
      if key.None? { return None; }
      var c := Consume();
      if c != ':' { return None; }
      var v := ParseValue(open);
      if v.None? { return None; }
      r := Some(Member(key.value, v.value));
    }
  }

  /** The call of jp_parse_value in orch_parse_spec. On no input are more than 240
      arrays and objects open at once, even where the parse fails. */
  method Parse(text: string) returns (r: Option<JNode>, ghost deepest: nat)
    ensures r == var spec := Value(text, 0); if spec.Done? then Some(spec.value) else None
    ensures deepest <= 240
  {
    var p := new Parser(text);
    r := p.ParseValue(0);
    deepest := p.deepest;
  }

  /** A result and the parser's new state against what is specified. */
  ghost predicate Agrees<T>(r: Option<T>, spec: Out<T>, p: Parser)
    reads p
  {
    if spec.Fail? then r.None? else r == Some(spec.value) && p.Rest() == spec.rest && p.apos == spec.apos
  }

  // ---- One round of each loop ----

  /** What is still to be parsed, behind what has been. */
  ghost function After<T>(before: seq<T>, r: Out<seq<T>>): Out<seq<T>> {
    if r.Fail? then Fail else Done(before + r.value, r.rest, r.apos)
  }

  lemma AfterNone<T>(all: Out<seq<T>>)
    ensures After([], all) == all
  {
    if all.Done? { assert [] + all.value == all.value; }
  }

  lemma SkipItems(s: string, apos: nat, room: nat)
    ensures ItemsFrom(Skip(s), apos, room) == ItemsFrom(s, apos, room)
  {
    SkipTwice(s);
  }

  lemma SkipMembers(s: string, apos: nat, room: nat)
    ensures MembersFrom(Skip(s), apos, room) == MembersFrom(s, apos, room)
  {
    SkipTwice(s);
  }

  lemma ItemsEnd(before: seq<JNode>, t: string, apos: nat, room: nat)
    requires Skip(t) == t && (t == [] || t[0] == ']' || t[0] == '\0' || room == 0)
    ensures After(before, ItemsFrom(t, apos, room)) == Done(before, t, apos)
  {
    assert before + [] == before;
  }

  lemma MembersEnd(before: seq<Member>, t: string, apos: nat, room: nat)
    requires Skip(t) == t && (t == [] || t[0] == '}' || t[0] == '\0' || room == 0)
    ensures After(before, MembersFrom(t, apos, room)) == Done(before, t, apos)
  {
    assert before + [] == before;
  }

  lemma ItemsStep(before: seq<JNode>, t: string, apos: nat, room: nat)
    requires Skip(t) == t && t != [] && t[0] != ']' && t[0] != '\0' && room > 0
    ensures var all, v := After(before, ItemsFrom(t, apos, room)), Value(t, apos);
            if v.Fail? then all == Fail
            else all == After(before + [v.value], ItemsFrom(Closed(v.rest, ','), v.apos, room - 1))
  {
    var v := Value(t, apos);
    if v.Done? {
      var more := ItemsFrom(Closed(v.rest, ','), v.apos, room - 1);
      if more.Done? { assert before + ([v.value] + more.value) == before + [v.value] + more.value; }
    }
  }

  ghost function OneMember(t: string, apos: nat): (r: Out<Member>)
    ensures r.Done? ==> |r.rest| < |t|
  {
    var k := RawString(t, apos);
    if k.Fail? then Fail
    else
      var u := Skip(k.rest);
      if u == [] || u[0] != ':' then Fail
      else
        var v := Value(u[1..], k.apos);
        if v.Fail? then Fail else Done(Member(k.value, v.value), v.rest, v.apos)
  }

  lemma MembersStep(before: seq<Member>, t: string, apos: nat, room: nat)
    requires Skip(t) == t && t != [] && t[0] != '}' && t[0] != '\0' && room > 0
    ensures var all, m := After(before, MembersFrom(t, apos, room)), OneMember(t, apos);
            if m.Fail? then all == Fail
            else all == After(before + [m.value], MembersFrom(Closed(m.rest, ','), m.apos, room - 1))
  {
    var m := OneMember(t, apos);
    if m.Done? {
      var more := MembersFrom(Closed(m.rest, ','), m.apos, room - 1);
      if more.Done? { assert before + ([m.value] + more.value) == before + [m.value] + more.value; }
    }
  }

  ghost function Behind(text: string, r: (string, string)): (string, string) { (text + r.0, r.1) }

  lemma NumberStep(s: string, n: nat)
    ensures NumberLength(s, n) ==
              if s == [] || n == 0 || !IsNumberChar(s[0]) then 0 else 1 + NumberLength(s[1..], n - 1)
  {
  }

  /** What jp_parse_string and jp_parse_number make of a text. */
  ghost function StringNode(s: string, apos: nat): Out<JNode> {
    var a := Alloc(apos, NODE);
    if a.None? then Fail
    else
      var r := RawString(s, a.value);
      if r.Fail? then Fail else Done(JStr(r.value), r.rest, r.apos)
  }

  ghost function NumberNode(s: string, apos: nat): Out<JNode> {
    var t := Skip(s);
    var k := NumberLength(t, MAX_NUMBER);
    Node(apos, JNum(t[..k]), t[k..])
  }

  predicate StartsNumber(c: char) { c == '-' || '0' <= c <= '9' }

  /** The branches of Value at a character that is not skipped. */
  lemma ValueBranches(t: string, apos: nat)
    requires t != [] && Skip(t) == t
    ensures Value(t, apos) ==
              if t[0] == '{' then Object(t, apos)
              else if t[0] == '[' then Array(t, apos)
              else if t[0] == '"' then StringNode(t, apos)
              else if t[0] == 't' then Node(apos, JBool(true), Drop(t, 4))
              else if t[0] == 'f' then Node(apos, JBool(false), Drop(t, 5))
              else if t[0] == 'n' then Node(apos, JNull, Drop(t, 4))
              else if StartsNumber(t[0]) then NumberNode(t, apos)
              else Fail
    ensures StartsNumber(t[0]) ==> NumberLength(t, MAX_NUMBER) > 0
  {
    hide Object, Array, RawString;
  }

  lemma SkipValue(s: string, apos: nat)
    ensures Value(Skip(s), apos) == Value(s, apos)
    ensures Skip(s) == [] ==> Value(s, apos) == Fail
  {
    hide Object, Array, RawString;
    SkipTwice(s);
  }

  lemma UnquoteEnd(s: string, n: nat, text: string)
    requires s == [] || s[0] == '"' || n == 0
    ensures Behind(text, Unquote(s, n)) == (text, s)
  {
    assert text + "" == text;
  }

  lemma UnquoteStep(s: string, n: nat, text: string)
    requires s != [] && s[0] != '"' && n > 0
    ensures var all := Behind(text, Unquote(s, n));
            if s[0] != '\\' then all == Behind(text + [s[0]], Unquote(s[1..], n - 1))
            else if |s| == 1 then all == (text, "")
            else all == Behind(text + [Unescaped(s[1])], Unquote(s[2..], n - 1))
  {
    if s[0] != '\\' {
      var r := Unquote(s[1..], n - 1);
      assert text + ([s[0]] + r.0) == text + [s[0]] + r.0;
    } else if |s| > 1 {
      var r := Unquote(s[2..], n - 1);
      assert text + ([Unescaped(s[1])] + r.0) == text + [Unescaped(s[1])] + r.0;
    } else {
      assert text + "" == text;
    }
  }
}
