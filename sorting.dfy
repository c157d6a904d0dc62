/** Ordering of finite sets of rows. The source leaves ordering to the database
    (ORDER BY) or to LINQ; this module gives one deterministic sort for a strict
    total order and the facts about positions that rank numbering relies on. */
module Sorting {
  import opened Wrappers

  /** `lt` is a strict total order on the elements of `S`. */
  ghost predicate StrictTotalOn<T>(lt: (T, T) -> bool, S: set<T>) {
    && (forall a :: a in S ==> !lt(a, a))
    && (forall a, b, c :: a in S && b in S && c in S && lt(a, b) && lt(b, c) ==> lt(a, c))
    && (forall a, b :: a in S && b in S && a != b ==> lt(a, b) || lt(b, a))
  }

  /** Every earlier element of `s` precedes every later one. */
  predicate SortedBy<T>(s: seq<T>, lt: (T, T) -> bool) {
    forall i, j :: 0 <= i < j < |s| ==> lt(s[i], s[j])
  }

  /** No element of `s` occurs twice. */
  predicate Distinct<T(==)>(s: seq<T>) {
    forall i, j :: 0 <= i < j < |s| ==> s[i] != s[j]
  }

  /** `m` is the first element of `S` under `lt`. */
  predicate IsLeast<T(==)>(m: T, S: set<T>, lt: (T, T) -> bool) {
    m in S && forall y :: y in S && y != m ==> lt(m, y)
  }

  lemma StrictTotalSubset<T>(lt: (T, T) -> bool, S: set<T>, R: set<T>)
    requires StrictTotalOn(lt, S) && R <= S
    ensures StrictTotalOn(lt, R)
  {
  }

  /** A finite non-empty set has a first element under a strict total order. */
  lemma {:induction false} LeastExists<T>(S: set<T>, lt: (T, T) -> bool)
    requires S != {} && StrictTotalOn(lt, S)
    ensures exists m :: IsLeast(m, S, lt)
    decreases |S|
  {
    var x :| x in S;
    if S != {x} {
      var R := S - {x};
      StrictTotalSubset(lt, S, R);
      LeastExists(R, lt);
      var m :| IsLeast(m, R, lt);
      if lt(x, m) {
        assert IsLeast(x, S, lt);
      } else {
        assert IsLeast(m, S, lt);
      }
    } else {
      assert IsLeast(x, S, lt);
    }
  }

  /** The first element is unique, so choosing it is deterministic. */
  lemma LeastUnique<T>(S: set<T>, lt: (T, T) -> bool)
    requires StrictTotalOn(lt, S)
    ensures forall m, n :: IsLeast(m, S, lt) && IsLeast(n, S, lt) ==> m == n
  {
    forall m, n | IsLeast(m, S, lt) && IsLeast(n, S, lt) ensures m == n {
      assert m != n ==> lt(m, n) && lt(n, m);
    }
  }

  /** The elements of `S` listed in `lt` order (selection sort). */
  function SortSet<T(==)>(S: set<T>, lt: (T, T) -> bool): (r: seq<T>)
    requires StrictTotalOn(lt, S)
    ensures |r| == |S|
    ensures forall x :: x in r ==> x in S
    ensures forall x :: x in S ==> x in r
    ensures SortedBy(r, lt)
    decreases |S|
  {
    if S == {} then []
    else
      LeastExists(S, lt);
      LeastUnique(S, lt);
      var m :| IsLeast(m, S, lt);
      StrictTotalSubset(lt, S, S - {m});
      [m] + SortSet(S - {m}, lt)
  }

  /** A sequence sorted by a strict order has no repeated element. */
  lemma SortedDistinct<T>(s: seq<T>, lt: (T, T) -> bool, S: set<T>)
    requires SortedBy(s, lt) && StrictTotalOn(lt, S)
    requires forall x :: x in s ==> x in S
    ensures Distinct(s)
  {
    forall i, j | 0 <= i < j < |s| ensures s[i] != s[j] {
      assert lt(s[i], s[j]);
    }
  }

  /** A sequence without repetitions has as many distinct elements as positions. */
  lemma {:induction false} DistinctCard<T>(s: seq<T>)
    requires Distinct(s)
    ensures |set x | x in s| == |s|
  {
    if s != [] {
      DistinctCard(s[1..]);
      assert (set x | x in s) == {s[0]} + (set x | x in s[1..]);
      assert s[0] !in s[1..];
    }
  }

  /** Dropping the first element of a sequence without repetitions leaves
      one without repetitions that does not contain it. */
  lemma DistinctTail<T>(s: seq<T>)
    requires Distinct(s) && s != []
    ensures Distinct(s[1..]) && s[0] !in s[1..]
  {
    var rest := s[1..];
    forall i, j | 0 <= i < j < |rest| ensures rest[i] != rest[j] {
      assert rest[i] == s[i + 1] && rest[j] == s[j + 1];
    }
    forall j | 0 <= j < |rest| ensures rest[j] != s[0] {
      assert rest[j] == s[j + 1];
    }
  }

  /** In a sorted listing, no element precedes one at an earlier or the same position. */
  lemma NotBefore<T>(s: seq<T>, lt: (T, T) -> bool, S: set<T>, i: int, j: int)
    requires SortedBy(s, lt) && StrictTotalOn(lt, S)
    requires forall x :: x in s ==> x in S
    requires 0 <= i <= j < |s|
    ensures !lt(s[j], s[i])
  {
    if i < j {
      assert lt(s[i], s[j]);
      assert s[i] in S && s[j] in S;
    } else {
      assert s[i] in S;
    }
  }

  /** The elements of `s` that precede `x`. */
  function Preceding<T>(s: seq<T>, lt: (T, T) -> bool, x: T): set<T> {
    set y | y in s && lt(y, x)
  }

  /** In a sorted listing, exactly the elements at earlier positions precede
      the element at position `i`; there are `i` of them. */
  lemma CountAhead<T>(s: seq<T>, lt: (T, T) -> bool, S: set<T>, i: int)
    requires SortedBy(s, lt) && StrictTotalOn(lt, S)
    requires forall x :: x in s ==> x in S
    requires 0 <= i < |s|
    ensures Preceding(s, lt, s[i]) == (set y | y in s[..i])
    ensures |Preceding(s, lt, s[i])| == i
  {
    var ahead := Preceding(s, lt, s[i]);
    var prefix := set y | y in s[..i];
    forall j | i <= j < |s| ensures !lt(s[j], s[i]) {
      NotBefore(s, lt, S, i, j);
    }
    forall y | y in ahead ensures y in prefix {
      var j :| 0 <= j < |s| && s[j] == y;
      assert s[..i][j] == y;
    }
    forall y | y in prefix ensures y in ahead {
      var j :| 0 <= j < i && s[..i][j] == y;
      assert s[j] == y && lt(s[j], s[i]);
    }
    assert ahead == prefix;
    SortedDistinct(s, lt, S);
    assert Distinct(s[..i]);
    DistinctCard(s[..i]);
  }

  /** A sorted prefix of a listing: every element left out comes after every
      element kept. */
  lemma PrefixFirst<T>(s: seq<T>, lt: (T, T) -> bool, k: int, i: int, j: int)
    requires SortedBy(s, lt)
    requires 0 <= i < k <= j < |s|
    ensures lt(s[i], s[j])
  {
  }

  /** `s` cut to at most `limit` rows; a non-positive limit gives no rows, as
      LINQ's `Take` does. */
  function Take<T>(s: seq<T>, limit: int): (r: seq<T>)
    ensures |r| == if limit <= 0 then 0 else if limit < |s| then limit else |s|
    ensures r == s[..|r|]
  {
    if limit <= 0 then [] else if limit < |s| then s[..limit] else s
  }

  /** Everything kept in a prefix of a sorted listing precedes everything cut. */
  lemma PrefixBeforeRest<T>(s: seq<T>, lt: (T, T) -> bool, k: int)
    requires SortedBy(s, lt) && 0 <= k <= |s|
    ensures forall x, y :: x in s[..k] && y in s && y !in s[..k] ==> lt(x, y)
  {
    forall j | 0 <= j < k ensures s[j] in s[..k] {
      assert s[..k][j] == s[j];
    }
    forall x, y | x in s[..k] && y in s && y !in s[..k] ensures lt(x, y) {
      var i :| 0 <= i < k && s[..k][i] == x;
      var j :| 0 <= j < |s| && s[j] == y;
      assert s[i] == x;
    }
  }

  /** The first `limit` elements of `S` under `lt`: ORDER BY followed by
      Take. Whatever is left out comes after everything returned. */
  function TopBy<T(==)>(S: set<T>, lt: (T, T) -> bool, limit: int): (r: seq<T>)
    requires StrictTotalOn(lt, S)
    ensures |r| == if limit <= 0 then 0 else if limit < |S| then limit else |S|
    ensures forall x :: x in r ==> x in S
    ensures SortedBy(r, lt)
    ensures Distinct(r)
    ensures forall x, y :: x in r && y in S && y !in r ==> lt(x, y)
  {
    var all := SortSet(S, lt);
    var r := Take(all, limit);
    PrefixBeforeRest(all, lt, |r|);
    SortedDistinct(r, lt, S);
    r
  }

  /** Missing key last, then larger keys first: SQL Server's and LINQ's
      placement of null in a descending sort. */
  predicate Above(x: Option<int>, y: Option<int>) {
    x.Some? && (y.None? || x.value > y.value)
  }

  /** The order "by `key` descending, ties by `tie`". */
  function KeyDescending<K>(key: K -> Option<int>, tie: (K, K) -> bool): (K, K) -> bool {
    (a: K, b: K) => Above(key(a), key(b)) || (key(a) == key(b) && tie(a, b))
  }

  lemma KeyDescendingTotal<K>(key: K -> Option<int>, tie: (K, K) -> bool, S: set<K>)
    requires StrictTotalOn(tie, S)
    ensures StrictTotalOn(KeyDescending(key, tie), S)
  {
    var lt := KeyDescending(key, tie);
    forall a, b, c | a in S && b in S && c in S && lt(a, b) && lt(b, c) ensures lt(a, c) {
      if key(a) == key(b) && key(b) == key(c) {
        assert tie(a, b) && tie(b, c);
      }
    }
  }

  /** Ascending order on integer ids. */
  function IntLess(): (int, int) -> bool {
    (a: int, b: int) => a < b
  }

  lemma IntLessTotal(S: set<int>)
    ensures StrictTotalOn(IntLess(), S)
  {
  }
}
