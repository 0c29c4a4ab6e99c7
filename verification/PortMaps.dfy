/** Printing and parsing of published ports, src/bridge.c:410-454. */
module PortMaps {
  import opened Base
  import opened Text

  datatype PortMapping = PortMapping(host: int, cont: int, proto: string)

  predicate ValidPort(p: int) { 1 <= p <= 65535 }

  ghost predicate ValidProto(s: string) {
    1 <= |s| <= 3 && forall i :: 0 <= i < |s| ==> !IsSpace(s[i]) && s[i] != ','
  }

  ghost predicate ValidMap(m: PortMapping) {
    ValidPort(m.host) && ValidPort(m.cont) && ValidProto(m.proto)
  }

  const MAX_PORT_MAPS := 8
  const SAVE_BUFFER := 128     // port_maps_buf of save_metadata
  const PARSE_BUFFER := 256    // the copy strtok works on

  // ---- Printing ----

  function Item(m: PortMapping): string {
    PrintInt(m.host) + ":" + PrintInt(m.cont) + "/" + m.proto
  }

  function Joined(items: seq<string>): string {
    if items == [] then ""
    else if |items| == 1 then items[0]
    else items[0] + "," + Joined(items[1..])
  }

  /** One text per map, for any way `show` of printing a map. */
  function Items(maps: seq<PortMapping>, show: PortMapping -> string): seq<string> {
    if maps == [] then [] else [show(maps[0])] + Items(maps[1..], show)
  }

  /** The unbounded text. */
  function Printed(maps: seq<PortMapping>): string { Joined(Items(maps, Item)) }

  lemma {:induction false} JoinedSnoc(items: seq<string>, last: string)
    ensures Joined(items + [last]) == if items == [] then last else Joined(items) + "," + last
  {
    if items == [] {
    } else if |items| == 1 {
      assert (items + [last])[1..] == [last];
      assert Joined([last]) == last;
    } else {
      JoinedSnoc(items[1..], last);
      assert (items + [last])[1..] == items[1..] + [last];
    }
  }

  lemma {:induction false} ItemsSnoc(maps: seq<PortMapping>, m: PortMapping, show: PortMapping -> string)
    ensures Items(maps + [m], show) == Items(maps, show) + [show(m)]
  {
    if maps == [] {
      assert [m][1..] == [];
    } else {
      ItemsSnoc(maps[1..], m, show);
      assert (maps + [m])[1..] == maps[1..] + [m];
    }
  }

  lemma JoinedGrows(maps: seq<PortMapping>, i: nat, show: PortMapping -> string)
    requires i < |maps|
    ensures Joined(Items(maps[..i + 1], show)) ==
              Joined(Items(maps[..i], show)) + (if i > 0 then "," else "") + show(maps[i])
  {
    assert maps[..i + 1] == maps[..i] + [maps[i]];
    ItemsSnoc(maps[..i], maps[i], show);
    JoinedSnoc(Items(maps[..i], show), show(maps[i]));
    ItemsEmpty(maps[..i], show);
  }

  lemma ItemsEmpty(maps: seq<PortMapping>, show: PortMapping -> string)
    ensures Items(maps, show) == [] <==> maps == []
  {
  }

  /** What a buffer with room for n characters holds of a text. */
  function Cut(s: string, n: nat): (r: string)
    ensures r <= s && |r| == Min(|s|, n)
  {
    if |s| <= n then s else s[..n]
  }

  lemma CutGrows(p: string, piece: string, size: nat)
    requires |p| < size
    ensures p + Cut(piece, size - |p| - 1) == Cut(p + piece, size - 1)
  {
    var n: nat := size - |p| - 1;
    if |piece| > n { assert (p + piece)[..size - 1] == p + piece[..n]; }
  }

  /** The loop of bridge_serialize_port_maps around one snprintf per map: the
      would-be length decides when to stop. */
  method PrintAll(maps: seq<PortMapping>, size: nat, show: PortMapping -> string) returns (buf: string)
    requires size > 0
    ensures buf == Cut(Joined(Items(maps, show)), size - 1)
  {
    hide Joined, Items;
    buf := "";
    NothingJoined(maps[..0], show);
    var off := 0;
    var i := 0;
    while i < |maps| && off < size
      invariant i <= |maps| && off == |Joined(Items(maps[..i], show))|
      invariant buf == Cut(Joined(Items(maps[..i], show)), size - 1)
    {
      var piece := (if i > 0 then "," else "") + show(maps[i]);
      JoinedGrows(maps, i, show);
      CutGrows(Joined(Items(maps[..i], show)), piece, size);
      buf := buf[..off] + Cut(piece, size - off - 1);
      off := off + |piece|;
      i := i + 1;
    }
    JoinedPrefix(maps, i, show);
    if i == |maps| {
      assert maps[..i] == maps;
    } else {
      CutPrefix(Joined(Items(maps[..i], show)), Joined(Items(maps, show)), size - 1);
    }
  }

  lemma NothingJoined(maps: seq<PortMapping>, show: PortMapping -> string)
    requires maps == []
    ensures Joined(Items(maps, show)) == ""
  {
  }

  lemma CutPrefix(p: string, q: string, n: nat)
    requires p <= q && |p| >= n
    ensures Cut(p, n) == Cut(q, n)
  {
    assert q[..|p|][..n] == q[..n];
  }

  /** bridge_serialize_port_maps: the text, cut to the buffer. */
  method SerializePortMaps(maps: seq<PortMapping>, size: nat) returns (buf: string)
    requires size > 0
    ensures buf == Cut(Printed(maps), size - 1)
  {
    buf := PrintAll(maps, size, Item);
  }

  lemma {:induction false} JoinedPrefix(maps: seq<PortMapping>, i: nat, show: PortMapping -> string)
    requires i <= |maps|
    ensures Joined(Items(maps[..i], show)) <= Joined(Items(maps, show))
    decreases |maps| - i
  {
    if i == |maps| {
      assert maps[..i] == maps;
    } else {
      JoinedPrefix(maps, i + 1, show);
      JoinedGrows(maps, i, show);
    }
  }

  lemma ItemLength(m: PortMapping)
    requires ValidMap(m)
    ensures |Item(m)| <= 15
  {
    assert PowerOfTen(5) == 100000;
    DigitsLength(m.host, 5);
    DigitsLength(m.cont, 5);
  }

  lemma {:induction false} PrintedLength(maps: seq<PortMapping>)
    requires forall i :: 0 <= i < |maps| ==> ValidMap(maps[i])
    ensures |Printed(maps)| <= 16 * |maps| && (maps != [] ==> |Printed(maps)| <= 16 * |maps| - 1)
  {
    if maps != [] {
      ItemLength(maps[0]);
      PrintedLength(maps[1..]);
      assert Items(maps, Item)[1..] == Items(maps[1..], Item);
    }
  }

  // ---- Parsing ----

  /** The tokens strtok hands out for ",": maximal comma-free stretches. */
  function Tokens(s: string): seq<string>
    decreases |s|
  {
    if s == [] then []
    else if s[0] == ',' then Tokens(s[1..])
    else
      var k := Find(s, ',');
      [s[..k]] + if k < |s| then Tokens(s[k + 1..]) else []
  }

  /** %3s: after blanks, one to three characters that are not blank. */
  function Word3(s: string): string {
    var t := SkipSpaces(s);
    if t == [] then []
    else if |t| == 1 || IsSpace(t[1]) then t[..1]
    else if |t| == 2 || IsSpace(t[2]) then t[..2]
    else t[..3]
  }

  /** sscanf(tok, "%d:%d/%3s"): both ports, and the protocol or its default "tcp".
      The second sscanf of the source, "%d:%d", reads the same two numbers and so
      succeeds exactly when this does. */
  function ScanItem(tok: string): Option<PortMapping> {
    var h := ScanD(tok);
    if h.None? || h.value.1 == [] || h.value.1[0] != ':' then None
    else
      var c := ScanD(h.value.1[1..]);
      if c.None? then None
      else
        var rest := c.value.1;
        var word := if rest != [] && rest[0] == '/' then Word3(rest[1..]) else [];
        Some(PortMapping(h.value.0, c.value.0, if word == [] then "tcp" else word))
  }

  /** The maps of the tokens that scan and are in range, the first `room` of
      them, for any way `scan` of reading a token. */
  function Accepted(toks: seq<string>, room: nat, scan: string -> Option<PortMapping>): seq<PortMapping> {
    if toks == [] || room == 0 then []
    else
      var r := scan(toks[0]);
      if r.Some? && ValidPort(r.value.host) && ValidPort(r.value.cont)
      then [r.value] + Accepted(toks[1..], room - 1, scan)
      else Accepted(toks[1..], room, scan)
  }

  function Parsed(str: string, room: nat): seq<PortMapping> {
    Accepted(Tokens(Cut(str, PARSE_BUFFER - 1)), room, ScanItem)
  }

  /** The token loop of bridge_parse_port_maps. */
  method CollectMaps(toks: seq<string>, maxMaps: nat, scan: string -> Option<PortMapping>) returns (maps: seq<PortMapping>)
    ensures maps == Accepted(toks, maxMaps, scan) && |maps| <= maxMaps
  {
    maps := [];
    var t := 0;
    while t < |toks| && |maps| < maxMaps
      invariant t <= |toks| && |maps| <= maxMaps
      invariant maps + Accepted(toks[t..], maxMaps - |maps|, scan) == Accepted(toks, maxMaps, scan)
    {
      var r := scan(toks[t]);
      assert toks[t..][1..] == toks[t + 1..];
      if r.Some? {
        var m := r.value;
        if m.host < 1 || m.host > 65535 || m.cont < 1 || m.cont > 65535 {
          t := t + 1;
          continue;
        }
        assert maps + ([m] + Accepted(toks[t + 1..], maxMaps - |maps| - 1, scan))
            == (maps + [m]) + Accepted(toks[t + 1..], maxMaps - |maps| - 1, scan);
        maps := maps + [m];
      }
      t := t + 1;
    }
  }

  /** bridge_parse_port_maps */
  method ParsePortMaps(str: string, maxMaps: nat) returns (maps: seq<PortMapping>)
    ensures maps == Parsed(str, maxMaps) && |maps| <= maxMaps
  {
    if str == [] { return []; }
    maps := CollectMaps(Tokens(Cut(str, PARSE_BUFFER - 1)), maxMaps, ScanItem);
  }

  // ---- What a list of ports is ----

  /** Tokens are what stands between commas; empty ones do not count. */
  lemma TokensBetweenCommas(item: string, rest: string)
    requires ',' !in item
    ensures Tokens("," + rest) == Tokens(rest)
    ensures Tokens(item) == if item == [] then [] else [item]
    ensures item != [] ==> Tokens(item + ("," + rest)) == [item] + Tokens(rest)
  {
    assert ("," + rest)[1..] == rest;
    if item != [] {
      var k := Find(item, ',');
      assert k == |item| && item[..k] == item;
      var s := item + ("," + rest);
      CommaAfter(item, "," + rest);
      assert s[..|item|] == item && s[|item| + 1..] == rest;
    }
  }

  /** Lists are read token by token: an unreadable or out-of-range token is left out
      and the ones behind it still count, up to the limit. */
  lemma {:induction false} AcceptedTokenByToken(a: seq<string>, b: seq<string>, room: nat, scan: string -> Option<PortMapping>)
    ensures |Accepted(a, room, scan)| <= room
    ensures Accepted(a + b, room, scan) == Accepted(a, room, scan) + Accepted(b, room - |Accepted(a, room, scan)|, scan)
  {
    if a == [] {
      assert a + b == b;
    } else if room > 0 {
      assert (a + b)[1..] == a[1..] + b;
      var r := scan(a[0]);
      if r.Some? && ValidPort(r.value.host) && ValidPort(r.value.cont) {
        AcceptedTokenByToken(a[1..], b, room - 1, scan);
      } else {
        AcceptedTokenByToken(a[1..], b, room, scan);
      }
    }
  }

  lemma AcceptedToken(t: string, room: nat, scan: string -> Option<PortMapping>)
    requires room > 0
    ensures Accepted([t], room, scan) ==
              if scan(t).Some? && 1 <= scan(t).value.host <= 65535 && 1 <= scan(t).value.cont <= 65535
              then [scan(t).value] else []
  {
    assert [t][1..] == [];
  }

  /** A token without a protocol means tcp. */
  lemma NoProtocolIsTcp(h: int, c: int)
    requires -0x8000_0000 <= h <= 0x7FFF_FFFF && -0x8000_0000 <= c <= 0x7FFF_FFFF
    ensures ScanItem(PrintInt(h) + ":" + PrintInt(c)) == Some(PortMapping(h, c, "tcp"))
  {
    hide PrintInt, ScanInt, Word3;
    var mid := ":" + PrintInt(c);
    assert PrintInt(h) + ":" + PrintInt(c) == PrintInt(h) + mid;
    ScanPrinted(h, mid);
    assert mid[1..] == PrintInt(c) + "";
    ScanPrinted(c, "");
  }

  // ---- Round trip ----

  lemma {:induction false} TokensOfJoined(items: seq<string>)
    requires forall i :: 0 <= i < |items| ==> items[i] != [] && ',' !in items[i]
    ensures Tokens(Joined(items)) == items
  {
    if items != [] {
      var s := Joined(items);
      assert s[0] == items[0][0];
      assert items[0][0] in items[0];
      CommaAfter(items[0], if |items| == 1 then "" else "," + Joined(items[1..]));
      if |items| > 1 {
        assert s == items[0] + ("," + Joined(items[1..]));
        assert s[|items[0]| + 1..] == Joined(items[1..]);
        TokensOfJoined(items[1..]);
      } else {
        assert s == items[0] + "";
      }
    }
  }

  lemma {:induction false} CommaAfter(item: string, rest: string)
    requires ',' !in item && (rest == [] || rest[0] == ',')
    ensures Find(item + rest, ',') == |item|
  {
    if item == [] {
      assert item + rest == rest;
    } else {
      assert item[0] in item;
      assert (item + rest)[1..] == item[1..] + rest;
      CommaAfter(item[1..], rest);
    }
  }

  lemma ItemHasNoComma(m: PortMapping)
    requires ValidMap(m)
    ensures Item(m) != [] && ',' !in Item(m)
  {
    var h, c := Digits(m.host), Digits(m.cont);
    assert ',' !in h && ',' !in c && ',' !in m.proto;
  }

  lemma {:induction false} ItemsHaveNoComma(maps: seq<PortMapping>)
    requires forall i :: 0 <= i < |maps| ==> ValidMap(maps[i])
    ensures forall i :: 0 <= i < |Items(maps, Item)| ==> Items(maps, Item)[i] != [] && ',' !in Items(maps, Item)[i]
  {
    if maps != [] {
      ItemHasNoComma(maps[0]);
      ItemsHaveNoComma(maps[1..]);
    }
  }

  lemma ScanPrintedItem(m: PortMapping)
    requires ValidMap(m)
    ensures ScanItem(Item(m)) == Some(m)
    ensures ScanItem(PrintInt(m.host) + ":" + PrintInt(m.cont) + "/" + m.proto) == Some(m)
  {
    hide PrintInt, ScanInt, Word3;
    var tail := "/" + m.proto;
    var mid := ":" + (PrintInt(m.cont) + tail);
    assert Item(m) == PrintInt(m.host) + mid;
    ScanPrinted(m.host, mid);
    assert mid[1..] == PrintInt(m.cont) + tail;
    ScanPrinted(m.cont, tail);
    assert tail[1..] == m.proto;
    WordOfProto(m.proto);
  }

  lemma WordOfProto(p: string)
    requires ValidProto(p)
    ensures Word3(p) == p
  {
    assert SkipSpaces(p) == p;
    assert p[..|p|] == p;
  }

  lemma {:induction false} AcceptShown(maps: seq<PortMapping>, room: nat, show: PortMapping -> string,
                                       scan: string -> Option<PortMapping>)
    requires |maps| <= room
    requires forall i :: 0 <= i < |maps| ==>
               ValidPort(maps[i].host) && ValidPort(maps[i].cont) && scan(show(maps[i])) == Some(maps[i])
    ensures Accepted(Items(maps, show), room, scan) == maps
  {
    if maps != [] {
      AcceptShown(maps[1..], room - 1, show, scan);
      assert Items(maps, show)[1..] == Items(maps[1..], show);
    }
  }

  /** Up to eight valid maps fit the save buffer whole, and parsing what was
      saved gives them back in order. */
  lemma PortMapsRoundTrip(maps: seq<PortMapping>)
    requires |maps| <= MAX_PORT_MAPS && forall i :: 0 <= i < |maps| ==> ValidMap(maps[i])
    ensures |Printed(maps)| <= SAVE_BUFFER - 1
    ensures Cut(Printed(maps), SAVE_BUFFER - 1) == Printed(maps)
    ensures Parsed(Cut(Printed(maps), SAVE_BUFFER - 1), MAX_PORT_MAPS) == maps
  {
    PrintedLength(maps);
    ItemsHaveNoComma(maps);
    TokensOfJoined(Items(maps, Item));
    forall i | 0 <= i < |maps| ensures ScanItem(Item(maps[i])) == Some(maps[i]) { ScanPrintedItem(maps[i]); }
    AcceptShown(maps, MAX_PORT_MAPS, Item, ScanItem);
  }

  // ---- The parser produces only valid maps ----

  lemma {:induction false} TokensHaveNoComma(s: string, t: string)
    requires t in Tokens(s)
    ensures ',' !in t
    decreases |s|
  {
    if s != [] {
      if s[0] == ',' {
        TokensHaveNoComma(s[1..], t);
      } else {
        var k := Find(s, ',');
        if t != s[..k] { TokensHaveNoComma(s[k + 1..], t); }
      }
    }
  }

  /** Every character of u occurs in s. */
  ghost predicate Within(u: string, s: string) { forall c :: c in u ==> c in s }

  lemma {:induction false} SkipSpacesWithin(s: string)
    ensures Within(SkipSpaces(s), s)
    ensures SkipSpaces(s) != [] ==> !IsSpace(SkipSpaces(s)[0])
  {
    if s != [] && IsSpace(s[0]) { SkipSpacesWithin(s[1..]); }
  }

  lemma ScanWithin(s: string)
    requires ScanD(s).Some?
    ensures Within(ScanD(s).value.1, s)
  {
    SkipSpacesWithin(s);
  }

  lemma WordIsProto(s: string)
    requires ',' !in s && Word3(s) != []
    ensures ValidProto(Word3(s))
  {
    SkipSpacesWithin(s);
    var t := SkipSpaces(s);
    forall i | 0 <= i < |t| ensures t[i] != ',' { assert t[i] in t; }
  }

  lemma ScannedProto(tok: string)
    requires ',' !in tok && ScanItem(tok).Some?
    ensures ValidProto(ScanItem(tok).value.proto)
  {
    var h := ScanD(tok).value.1;
    ScanWithin(tok);
    ScanWithin(h[1..]);
    var rest := ScanD(h[1..]).value.1;
    assert ',' !in h[1..];
    if rest != [] && rest[0] == '/' && Word3(rest[1..]) != [] {
      WordIsProto(rest[1..]);
    }
  }

  lemma {:induction false} AcceptedAreValid(toks: seq<string>, room: nat, scan: string -> Option<PortMapping>)
    requires forall i :: 0 <= i < |toks| && scan(toks[i]).Some? ==> ValidProto(scan(toks[i]).value.proto)
    ensures |Accepted(toks, room, scan)| <= room
    ensures forall i :: 0 <= i < |Accepted(toks, room, scan)| ==> ValidMap(Accepted(toks, room, scan)[i])
    decreases |toks|
  {
    if toks != [] && room > 0 {
      var r := scan(toks[0]);
      AcceptedAreValid(toks[1..], if r.Some? && ValidPort(r.value.host) && ValidPort(r.value.cont) then room - 1 else room, scan);
    }
  }

  /** Whatever text it is given, the parser returns maps that survive saving and
      re-reading. */
  lemma ParserOutputIsValid(str: string, room: nat)
    ensures |Parsed(str, room)| <= room
    ensures forall i :: 0 <= i < |Parsed(str, room)| ==> ValidMap(Parsed(str, room)[i])
    ensures forall i :: 0 <= i < |Parsed(str, room)| ==>
              var m := Parsed(str, room)[i]; 1 <= m.host <= 65535 && 1 <= m.cont <= 65535 && 1 <= |m.proto| <= 3
  {
    var toks := Tokens(Cut(str, PARSE_BUFFER - 1));
    forall i | 0 <= i < |toks| && ScanItem(toks[i]).Some? ensures ValidProto(ScanItem(toks[i]).value.proto) {
      TokensHaveNoComma(Cut(str, PARSE_BUFFER - 1), toks[i]);
      ScannedProto(toks[i]);
    }
    AcceptedAreValid(toks, room, ScanItem);
  }
}
