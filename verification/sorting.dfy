/** `ORDER BY key DESC` and `ORDER BY key ASC` as the listing routes ask the
    store for them. SQL promises only that the rows come back ordered by the
    key (rows with equal keys in any order), so the contracts say exactly
    that: the result is ordered and is a permutation of the input. */
module Sorting {
  predicate SortedDesc<T>(s: seq<T>, key: T -> int) {
    forall i, j :: 0 <= i < j < |s| ==> key(s[i]) >= key(s[j])
  }

  predicate SortedAsc<T>(s: seq<T>, key: T -> int) {
    forall i, j :: 0 <= i < j < |s| ==> key(s[i]) <= key(s[j])
  }

  /** Inserts `x` into a sequence ordered largest first. */
  function InsertDesc<T>(x: T, s: seq<T>, key: T -> int): (r: seq<T>)
    requires SortedDesc(s, key)
    ensures |r| == |s| + 1
    ensures SortedDesc(r, key)
    ensures multiset(r) == multiset(s) + multiset{x}
    ensures forall i :: 0 <= i < |r| ==> r[i] == x || r[i] in s
  {
    if |s| == 0 then [x]
    else if key(x) >= key(s[0]) then [x] + s
    else
      var rest := InsertDesc(x, s[1..], key);
      assert s == [s[0]] + s[1..];
      forall i | 0 <= i < |rest| ensures key(rest[i]) <= key(s[0]) {
        if rest[i] != x {
          var j :| 0 <= j < |s[1..]| && s[1..][j] == rest[i];
          assert s[j + 1] == rest[i];
        }
      }
      [s[0]] + rest
  }

  /** The rows ordered largest key first. */
  function SortDesc<T>(s: seq<T>, key: T -> int): (r: seq<T>)
    ensures |r| == |s|
    ensures SortedDesc(r, key)
    ensures multiset(r) == multiset(s)
  {
    if |s| == 0 then []
    else
      assert s == s[..|s| - 1] + [s[|s| - 1]];
      InsertDesc(s[|s| - 1], SortDesc(s[..|s| - 1], key), key)
  }

  /** The rows ordered smallest key first: largest first on the negated
      key. */
  function SortAsc<T>(s: seq<T>, key: T -> int): (r: seq<T>)
    ensures |r| == |s|
    ensures SortedAsc(r, key)
    ensures multiset(r) == multiset(s)
  {
    var neg := (x: T) => 0 - key(x);
    var r := SortDesc(s, neg);
    assert forall i, j :: 0 <= i < j < |r| ==> neg(r[i]) >= neg(r[j]);
    r
  }
}
