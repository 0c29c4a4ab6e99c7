/** Small definitions shared by the models of the runtime's components. */
module Base {

  datatype Option<+T> = None | Some(value: T)

  ghost predicate NoDup<T>(s: seq<T>) {
    forall i, j :: 0 <= i < j < |s| ==> s[i] != s[j]
  }

  function Min(a: int, b: int): (r: int)
    ensures r <= a && r <= b && (r == a || r == b)
  {
    if a <= b then a else b
  }

  function Elems<T(!new)>(s: seq<T>): (r: set<T>)
    ensures forall x :: x in r <==> x in s
  {
    set x | x in s
  }

  /** Dropping the entry at k keeps a sequence duplicate-free and loses only that entry. */
  lemma DropAt<T>(s: seq<T>, k: nat)
    requires NoDup(s) && k < |s|
    ensures var t := s[..k] + s[k + 1..];
            && |t| == |s| - 1 && NoDup(t) && s[k] !in t
            && (forall i :: 0 <= i < |s| && i != k ==> s[i] in t)
            && (forall i :: 0 <= i < |t| ==> t[i] in s)
  {
    var t := s[..k] + s[k + 1..];
    forall i | 0 <= i < |s| && i != k ensures s[i] in t {
      assert t[if i < k then i else i - 1] == s[i];
    }
  }

  /** A duplicate-free sequence of indices below n has at most n entries, and
      reaches n exactly when it lists every index. */
  lemma {:induction false} DistinctBounded(s: seq<nat>, n: nat)
    requires NoDup(s)
    requires forall i :: 0 <= i < |s| ==> s[i] < n
    ensures |s| <= n
    ensures |s| == n <==> forall v: nat :: v < n ==> v in s
  {
    if s == [] {
      assert n > 0 ==> !(forall v: nat :: v < n ==> v in s) by { assert 0 !in s; }
    } else {
      assert s[0] < n;
      if n - 1 in s {
        var k :| 0 <= k < |s| && s[k] == n - 1;
        var t := s[..k] + s[k + 1..];
        DropAt(s, k);
        DistinctBounded(t, n - 1);
        assert forall v: nat :: v < n - 1 ==> (v in t <==> v in s);
      } else {
        DistinctBounded(s, n - 1);
      }
    }
  }

  const INT_MAX := 0x7FFF_FFFF

  function Distance(a: int, b: int): nat { if a < b then b - a else a - b }
}
