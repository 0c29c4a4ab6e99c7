/** Decimal printing and scanning as the C library's printf, strtol and scanf do it. */
module Text {
  import opened Base

  predicate IsDigit(c: char) { '0' <= c <= '9' }

  predicate IsSpace(c: char) { c == ' ' || '\t' <= c <= '\r' }

  function DigitChar(d: nat): (c: char)
    requires d < 10
    ensures IsDigit(c)
  {
    '0' + d as char
  }

  function DigitValue(c: char): (d: nat)
    requires IsDigit(c)
    ensures d < 10
  {
    (c - '0') as nat
  }

  /** Where c first stands, or the end. */
  function Find(s: string, c: char): (k: nat)
    ensures k <= |s| && (k < |s| ==> s[k] == c) && forall i :: 0 <= i < k ==> s[i] != c
  {
    if s == [] || s[0] == c then 0
    else
      var k := Find(s[1..], c) + 1;
      assert forall i :: 0 < i < k ==> s[i] == s[1..][i - 1];
      k
  }

  predicate AllDigits(s: string) { forall i :: 0 <= i < |s| ==> IsDigit(s[i]) }

  /** %d of a number that is not negative */
  function Digits(n: nat): (s: string)
    ensures s != [] && AllDigits(s)
  {
    if n < 10 then [DigitChar(n)] else Digits(n / 10) + [DigitChar(n % 10)]
  }

  /** %d */
  function PrintInt(v: int): string {
    if v < 0 then "-" + Digits(-v) else Digits(v)
  }

  function ValueOf(ds: string): nat
    requires AllDigits(ds)
  {
    if ds == [] then 0 else 10 * ValueOf(ds[..|ds| - 1]) + DigitValue(ds[|ds| - 1])
  }

  /** How many digits the text starts with. */
  function Leading(s: string): (k: nat)
    ensures k <= |s| && AllDigits(s[..k]) && (k < |s| ==> !IsDigit(s[k]))
  {
    if s == [] || !IsDigit(s[0]) then 0
    else
      var k := Leading(s[1..]);
      assert forall i :: 0 < i <= k ==> s[i] == s[1..][i - 1];
      assert k + 1 < |s| ==> s[k + 1] == s[1..][k];
      k + 1
  }

  function SkipSpaces(s: string): string {
    if s != [] && IsSpace(s[0]) then SkipSpaces(s[1..]) else s
  }

  /** The digits at the front of a text, if any, and what follows them. */
  function ScanDigits(u: string): Option<(int, string)> {
    var k := Leading(u);
    if k == 0 then None else Some((ValueOf(u[..k]) as int, u[k..]))
  }

  /** The integer conversion of strtol and scanf: blanks, a sign, digits; None
      when there are no digits. */
  function ScanInt(s: string): Option<(int, string)> {
    var t := SkipSpaces(s);
    if t != [] && t[0] == '-' then
      var r := ScanDigits(t[1..]);
      if r.None? then None else Some((-r.value.0, r.value.1))
    else if t != [] && t[0] == '+' then ScanDigits(t[1..])
    else ScanDigits(t)
  }

  predicate EndsNumber(rest: string) { rest == [] || !IsDigit(rest[0]) }

  lemma {:induction false} DigitsRoundTrip(n: nat)
    ensures ValueOf(Digits(n)) == n
  {
    if n >= 10 {
      DigitsRoundTrip(n / 10);
      var s := Digits(n);
      assert s[..|s| - 1] == Digits(n / 10);
    } else {
      assert Digits(n)[..0] == [];
    }
  }

  lemma {:induction false} LeadingOf(ds: string, rest: string)
    requires AllDigits(ds) && EndsNumber(rest)
    ensures Leading(ds + rest) == |ds|
  {
    if ds == [] {
      assert ds + rest == rest;
    } else {
      assert (ds + rest)[1..] == ds[1..] + rest;
      LeadingOf(ds[1..], rest);
    }
  }

  lemma ScanDigitsPrinted(n: nat, rest: string)
    requires EndsNumber(rest)
    ensures ScanDigits(Digits(n) + rest) == Some((n as int, rest))
  {
    var ds := Digits(n);
    DigitsRoundTrip(n);
    LeadingOf(ds, rest);
    assert (ds + rest)[..|ds|] == ds && (ds + rest)[|ds|..] == rest;
  }

  /** Scanning what was printed gives the number back and stops behind it. */
  lemma ScanPrinted(v: int, rest: string)
    requires EndsNumber(rest)
    ensures ScanInt(PrintInt(v) + rest) == Some((v, rest))
  {
    var ds: string := if v < 0 then Digits(-v) else Digits(v);
    ScanDigitsPrinted(if v < 0 then -v else v, rest);
    if v < 0 {
      assert "-" + ds + rest == "-" + (ds + rest);
      ScanSigned(ds + rest);
    } else {
      ScanUnsigned(ds + rest);
    }
  }

  lemma ScanUnsigned(s: string)
    requires s != [] && IsDigit(s[0])
    ensures ScanInt(s) == ScanDigits(s)
  {
  }

  lemma ScanSigned(s: string)
    requires ScanDigits(s).Some?
    ensures ScanInt("-" + s) == Some((-ScanDigits(s).value.0, ScanDigits(s).value.1))
  {
    var m := "-" + s;
    assert m[0] == '-' && m[1..] == s;
    assert SkipSpaces(m) == m;
  }

  /** And numbers from ten to the k - 1 on have at least k. */
  lemma {:induction false} DigitsAtLeast(n: nat, k: nat)
    requires k > 0 && n >= PowerOfTen(k - 1)
    ensures |Digits(n)| >= k
  {
    if k > 1 { DigitsAtLeast(n / 10, k - 1); }
  }

  /** Printed numbers below ten to the k have at most k digits. */
  lemma {:induction false} DigitsLength(n: nat, k: nat)
    requires k > 0 && n < PowerOfTen(k)
    ensures |Digits(n)| <= k
  {
    if n >= 10 { DigitsLength(n / 10, k - 1); }
  }

  function PowerOfTen(k: nat): nat { if k == 0 then 1 else 10 * PowerOfTen(k - 1) }

  // ---- Widths ----

  const LONG_MAX := 0x7FFF_FFFF_FFFF_FFFF

  /** strtol saturates at the ends of a 64-bit long. */
  function ClampLong(v: int): int {
    if v > LONG_MAX then LONG_MAX else if v < -LONG_MAX - 1 then -LONG_MAX - 1 else v
  }

  /** The low 32 bits of a long, read as a signed int. */
  function WrapInt(v: int): (r: int)
    ensures -INT_MAX - 1 <= r <= INT_MAX
    ensures -INT_MAX - 1 <= v <= INT_MAX ==> r == v
  {
    var low := v % (2 * (INT_MAX + 1));
    if low > INT_MAX then low - 2 * (INT_MAX + 1) else low
  }

  /** scanf's %d into a 32-bit int. */
  function ScanD(s: string): Option<(int, string)> {
    var r := ScanInt(s);
    if r.None? then None else Some((WrapInt(ClampLong(r.value.0)), r.value.1))
  }

  /** strtol(s, NULL, 10): 0 when there is no number. */
  function StrToL(s: string): int {
    var r := ScanInt(s);
    if r.None? then 0 else ClampLong(r.value.0)
  }
}
