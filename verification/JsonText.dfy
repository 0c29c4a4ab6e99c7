/**
 Strings in JSON text: json_escape_copy (src/container.c:91-124 and its copy in
 src/eventbus.c:22-51) against jp_raw_string (src/orchestrator.c:93-116).
 */
module JsonText {
  import opened Base

  const MAX_TEXT := 510   // what jp_raw_string keeps of a string

  // ---- Escaping ----

  /** The letter that follows a backslash in the short escape of c (section 7 of RFC 8259). */
  function Letter(c: char): Option<char> {
    if c == '\\' || c == '"' then Some(c)
    else if c == '\n' then Some('n')
    else if c == '\r' then Some('r')
    else if c == '\t' then Some('t')
    else None
  }

  /** What the copy writes for c when there is room: other control characters are dropped. */
  function Escaped(c: char): (r: string)
    ensures |r| <= 2
  {
    if Letter(c).Some? then ['\\', Letter(c).value] else if c >= ' ' then [c] else []
  }

  function Escape(src: string): (r: string)
    ensures |r| <= 2 * |src|
  {
    if src == [] then [] else Escaped(src[0]) + Escape(src[1..])
  }

  /** The characters a JSON string built by the copy can carry: everything from the
      space on, and newline, return and tab. */
  predicate Kept(c: char) { c >= ' ' || c == '\n' || c == '\r' || c == '\t' }

  /** A text without the characters that are not kept. */
  function Strip(src: string): string {
    if src == [] then [] else (if Kept(src[0]) then [src[0]] else []) + Strip(src[1..])
  }

  /** The copy represents exactly the characters that are kept, the special ones by a
      backslash and a letter (section 7 of RFC 8259) and the others by themselves. */
  lemma EscapesSpelledOut(c: char)
    ensures Escaped(c) == [] <==> !Kept(c)
    ensures c >= ' ' && c != '"' && c != '\\' ==> Escaped(c) == [c]
    ensures Escaped('"') == "\\\"" && Escaped('\\') == "\\\\"
    ensures Escaped('\n') == "\\n" && Escaped('\r') == "\\r" && Escaped('\t') == "\\t"
  {
  }

  /** What is written for c with `room` characters left before the terminator: a
      two-character escape that does not fit falls back to the plain character,
      if that is printable. */
  function Piece(c: char, room: nat): (r: string)
    requires room > 0
    ensures |r| <= room
  {
    if Letter(c).Some? && room >= 2 then ['\\', Letter(c).value] else if c >= ' ' then [c] else []
  }

  /** The bounded copy. */
  function Copy(src: string, room: nat): (r: string)
    ensures |r| <= room
  {
    if src == [] || room == 0 then []
    else Piece(src[0], room) + Copy(src[1..], room - |Piece(src[0], room)|)
  }

  /** json_escape_copy */
  method EscapeCopy(dst: array<char>, size: nat, src: string)
    requires size <= dst.Length
    modifies dst
    ensures size == 0 ==> dst[..] == old(dst[..])
    ensures size > 0 ==>
              var text := Copy(src, size - 1);
              dst[..|text|] == text && dst[|text|] == '\0' && dst[size..] == old(dst[size..])
  {
    hide Copy, Piece;
    if size == 0 { return; }
    var out: nat := 0;
    var i := 0;
    while i < |src| && out + 1 < size
      invariant i <= |src| && out < size
      invariant dst[..out] + Copy(src[i..], size - 1 - out) == Copy(src, size - 1)
      invariant dst[size..] == old(dst[size..])
    {
      CopyOne(src, i, size - 1 - out, dst[..out]);
      out := PutChar(dst, size, out, src[i]);
      i := i + 1;
    }
    CopyEnd(src[i..], size - 1 - out);
    dst[out] := '\0';
  }

  /** The branches for one character. */
  method PutChar(dst: array<char>, size: nat, out: nat, c: char) returns (next: nat)
    requires size <= dst.Length && out + 1 < size
    modifies dst
    ensures dst[size..] == old(dst[size..])
    ensures next == out + |Piece(c, size - 1 - out)| && dst[..next] == old(dst[..out]) + Piece(c, size - 1 - out)
  {
    next := out;
    if (c == '\\' || c == '"') && out + 2 < size {
      next := PutTwo(dst, out, c);
    } else if c == '\n' && out + 2 < size {
      next := PutTwo(dst, out, 'n');
    } else if c == '\r' && out + 2 < size {
      next := PutTwo(dst, out, 'r');
    } else if c == '\t' && out + 2 < size {
      next := PutTwo(dst, out, 't');
    } else if c >= ' ' {
      dst[out] := c;
      next := out + 1;
      assert dst[..next] == old(dst[..out]) + [c];
    }
  }

  /** A backslash and a letter. */
  method PutTwo(dst: array<char>, out: nat, letter: char) returns (next: nat)
    requires out + 2 < dst.Length
    modifies dst
    ensures next == out + 2 && dst[..next] == old(dst[..out]) + ['\\', letter]
    ensures forall k :: next <= k < dst.Length ==> dst[k] == old(dst[k])
  {
    dst[out] := '\\';
    dst[out + 1] := letter;
    next := out + 2;
  }

  lemma CopyEnd(rest: string, room: nat)
    requires rest == [] || room == 0
    ensures Copy(rest, room) == []
  {
  }

  lemma CopyOne(src: string, i: nat, room: nat, before: string)
    requires i < |src| && room > 0
    ensures var p := Piece(src[i], room);
            before + Copy(src[i..], room) == (before + p) + Copy(src[i + 1..], room - |p|)
  {
    assert src[i..][1..] == src[i + 1..];
  }

  // ---- Reading ----

  /** A character after a backslash. */
  function Unescaped(c: char): char {
    if c == 'n' then '\n' else if c == 't' then '\t' else if c == 'r' then '\r' else c
  }

  /** The loop of jp_raw_string behind the opening quote: the text read, at most
      n characters of it, and what is left of the input. */
  function Unquote(s: string, n: nat): (r: (string, string))
    ensures |r.0| <= n && |r.1| <= |s|
    decreases |s|
  {
    if s == [] || s[0] == '"' || n == 0 then ("", s)
    else if s[0] == '\\' then
      if |s| == 1 then ("", "")
      else
        var r := Unquote(s[2..], n - 1);
        ([Unescaped(s[1])] + r.0, r.1)
    else
      var r := Unquote(s[1..], n - 1);
      ([s[0]] + r.0, r.1)
  }

  /** Text without quotes and backslashes is read as it stands, n characters of it at
      most, up to the end of the input if no quote comes. */
  lemma {:induction false} ReadPlain(s: string, n: nat)
    requires '"' !in s && '\\' !in s
    ensures Unquote(s, n) == (s[..Min(|s|, n)], s[Min(|s|, n)..])
  {
    if s != [] && n > 0 {
      var rest, k := s[1..], Min(|s|, n);
      assert s[0] in s && (forall c :: c in rest ==> c in s);
      ReadPlain(rest, n - 1);
      assert [s[0]] + rest[..k - 1] == s[..k] && rest[k - 1..] == s[k..];
    } else {
      assert s[..0] == [] && s[0..] == s;
    }
  }

  /** A character behind a backslash stands for itself, except n, t and r. */
  lemma ReadBackslash(c: char, s: string, n: nat)
    requires n > 0
    ensures var r := Unquote(s, n - 1);
            Unquote("\\" + ([c] + s), n) ==
              ([if c == 'n' then '\n' else if c == 't' then '\t' else if c == 'r' then '\r' else c] + r.0, r.1)
  {
    var t := "\\" + ([c] + s);
    assert t[0] == '\\' && t[1] == c && t[2..] == s;
  }

  // ---- The copy is complete exactly when it fits ----

  /** What the copy writes is the escaped form of a beginning of the text and at most
      one character more, and it stops short of the end of the text only when
      fewer than two places are left. */
  lemma {:induction false} CopyStops(src: string, room: nat) returns (k: nat)
    ensures k <= |src| && |Escape(src[..k])| <= |Copy(src, room)| <= |Escape(src[..k])| + 1
    ensures Escape(src[..k]) <= Copy(src, room)
    ensures k == |src| || room <= |Escape(src[..k])| + 1
    ensures k == |src| ==> Copy(src, room) == Escape(src)
  {
    if src == [] || room == 0 || (Letter(src[0]).Some? && room == 1) {
      k := 0;
      assert src[..0] == [];
    } else {
      var c, rest := src[0], src[1..];
      assert Piece(c, room) == Escaped(c);
      k := CopyStops(rest, room - |Escaped(c)|);
      assert src[..k + 1] == [c] + rest[..k];
      assert ([c] + rest[..k])[1..] == rest[..k];
      assert Escape(src[..k + 1]) == Escaped(c) + Escape(rest[..k]);
      k := k + 1;
      if k == |src| { assert src[..k] == src; }
    }
  }

  lemma {:induction false} CopyIsWhole(src: string, room: nat)
    ensures Copy(src, room) == Escape(src) <==> |Escape(src)| <= room
  {
    if src != [] && |Escape(src)| <= room {
      CopyFits(src, room);
    }
  }

  lemma {:induction false} CopyFits(src: string, room: nat)
    requires |Escape(src)| <= room
    ensures Copy(src, room) == Escape(src)
  {
    if src != [] {
      if room > 0 { CopyFits(src[1..], room - |Escaped(src[0])|); }
      else { assert Escape(src) == []; }
    }
  }

  // ---- Reading undoes escaping ----

  /** Reading one escaped character. */
  lemma UnquoteOne(c: char, rest: string, n: nat)
    requires Escaped(c) != [] && n > 0
    ensures var r := Unquote(rest, n - 1); Unquote(Escaped(c) + rest, n) == ([c] + r.0, r.1)
  {
    var s := Escaped(c) + rest;
    if Letter(c).Some? {
      assert s[2..] == rest && s[0] == '\\' && s[1] == Letter(c).value;
    } else {
      assert s[1..] == rest && s[0] == c;
    }
  }

  lemma {:induction false} ReadEscaped(src: string, tail: string, n: nat)
    requires |Strip(src)| <= n
    ensures Unquote(Escape(src) + "\"" + tail, n) == (Strip(src), "\"" + tail)
  {
    var quoted := "\"" + tail;
    if src == [] {
      assert Escape(src) + "\"" + tail == quoted;
    } else {
      var c, rest := src[0], src[1..];
      assert Escape(src) + "\"" + tail == Escaped(c) + (Escape(rest) + "\"" + tail);
      if Escaped(c) == [] {
        assert Escaped(c) + (Escape(rest) + "\"" + tail) == Escape(rest) + "\"" + tail;
        assert Strip(src) == Strip(rest);
        ReadEscaped(rest, tail, n);
      } else {
        ReadEscaped(rest, tail, n - 1);
        UnquoteOne(c, Escape(rest) + "\"" + tail, n);
      }
    }
  }

  /** With one place left a copy yields at most one character, and a printable one. */
  lemma {:induction false} LastPlace(src: string)
    ensures |Copy(src, 1)| <= 1 && (Copy(src, 1) != [] ==> Copy(src, 1)[0] >= ' ')
  {
    if src != [] && !(src[0] >= ' ') { LastPlace(src[1..]); }
  }

  /** A character written whole does not repair what follows it. */
  lemma BehindWhole(c: char, rest: string, all: string, text: string, wanted: string, tail: string, n: nat)
    requires Escaped(c) != [] && n > 0 && all == Escaped(c) + rest && wanted == [c] + text
    requires Unquote(rest + "\"" + tail, n - 1) != (text, "\"" + tail)
    ensures Unquote(all + "\"" + tail, n) != (wanted, "\"" + tail)
  {
    hide Unquote, Escaped;
    assert all + "\"" + tail == Escaped(c) + (rest + "\"" + tail);
    UnquoteOne(c, rest + "\"" + tail, n);
    var r := Unquote(rest + "\"" + tail, n - 1);
    assert ([c] + r.0)[1..] == r.0 && wanted[1..] == text;
  }

  /** A copy that was cut does not read back. */
  lemma {:induction false} CutDoesNotReadBack(src: string, room: nat, tail: string, n: nat)
    requires |Escape(src)| > room && |Strip(src)| <= n
    ensures Unquote(Copy(src, room) + "\"" + tail, n) != (Strip(src), "\"" + tail)
  {
    var c, rest := src[0], src[1..];
    if Escaped(c) == [] {
      assert Strip(src) == Strip(rest) && Copy(src, room) == Copy(rest, room);
      CutDoesNotReadBack(rest, room, tail, n);
    } else if room >= |Escaped(c)| {
      var k := room - |Escaped(c)|;
      assert Copy(src, room) == Escaped(c) + Copy(rest, k);
      assert Strip(src) == [c] + Strip(rest);
      CutDoesNotReadBack(rest, k, tail, n - 1);
      BehindWhole(c, Copy(rest, k), Copy(src, room), Strip(rest), Strip(src), tail, n);
    } else {
      NothingFits(src, room, tail, n);
    }
  }

  /** The first character that matters does not fit, so something else is read first. */
  lemma NothingFits(src: string, room: nat, tail: string, n: nat)
    requires src != [] && room < |Escaped(src[0])| && |Strip(src)| <= n
    ensures Unquote(Copy(src, room) + "\"" + tail, n) != (Strip(src), "\"" + tail)
  {
    var c, out := src[0], Copy(src, room) + "\"" + tail;
    assert Strip(src) != [] && Strip(src)[0] == c;
    if room == 0 {
      assert out == "\"" + tail;
    } else {
      LastPlace(src);
      assert Copy(src, 1) != [] ==> out[0] == Copy(src, 1)[0];
      assert Copy(src, 1) == [] ==> out[0] == '"';
    }
  }

  /** Quoting the copy and reading it gives back the representable characters of
      the source exactly when the escaped text fits the buffer and no more than
      510 characters come out. */
  lemma EscapeReadInverse(src: string, size: nat, tail: string)
    requires size > 0
    ensures Unquote(Copy(src, size - 1) + "\"" + tail, MAX_TEXT) == (Strip(src), "\"" + tail) <==>
              |Escape(src)| < size && |Strip(src)| <= MAX_TEXT
  {
    if |Strip(src)| <= MAX_TEXT {
      if |Escape(src)| < size {
        CopyFits(src, size - 1);
        ReadEscaped(src, tail, MAX_TEXT);
      } else {
        CutDoesNotReadBack(src, size - 1, tail, MAX_TEXT);
      }
    }
  }

  /** The size its callers use is always enough. */
  lemma CallersLeaveRoom(src: string, size: nat, tail: string)
    requires size > 2 * |src| && |Strip(src)| <= MAX_TEXT
    ensures Unquote(Copy(src, size - 1) + "\"" + tail, MAX_TEXT) == (Strip(src), "\"" + tail)
  {
    EscapeReadInverse(src, size, tail);
  }

  /** One place short, a quote is copied raw and ends the string early. */
  lemma RawQuoteEscapes()
    ensures Copy("\"", 1) == "\"" && Unquote(Copy("\"", 1) + "\"", MAX_TEXT).0 == ""
  {
    assert Copy([], 0) == [];
  }
}
