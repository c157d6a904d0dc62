/** The LINQ folds the summaries use (`Count(pred)`, `Sum(sel)`, `Max(sel)`),
    over a sequence of rows. */
module Aggregates {
  import opened Sorting

  /** `Count(p)`: the number of rows satisfying `p`. */
  function Count<T>(s: seq<T>, p: T -> bool): (n: nat)
    ensures n <= |s|
  {
    if s == [] then 0 else (if p(s[0]) then 1 else 0) + Count(s[1..], p)
  }

  /** `Sum(f)`: the total of `f` over the rows. */
  function Sum<T>(s: seq<T>, f: T -> int): int {
    if s == [] then 0 else f(s[0]) + Sum(s[1..], f)
  }

  /** `Max(f)` over a non-empty sequence. */
  function Max<T>(s: seq<T>, f: T -> int): int
    requires |s| > 0
  {
    if |s| == 1 then f(s[0])
    else
      var rest := Max(s[1..], f);
      if f(s[0]) >= rest then f(s[0]) else rest
  }

  /** The maximum is attained by some row and not exceeded by any. */
  lemma {:induction false} MaxIsMax<T>(s: seq<T>, f: T -> int)
    requires |s| > 0
    ensures forall i :: 0 <= i < |s| ==> f(s[i]) <= Max(s, f)
    ensures exists i :: 0 <= i < |s| && f(s[i]) == Max(s, f)
  {
    if |s| == 1 {
      assert f(s[0]) == Max(s, f);
    } else {
      MaxIsMax(s[1..], f);
      assert forall i :: 1 <= i < |s| ==> s[i] == s[1..][i - 1];
      if f(s[0]) < Max(s[1..], f) {
        var j :| 0 <= j < |s[1..]| && f(s[1..][j]) == Max(s[1..], f);
        assert f(s[j + 1]) == Max(s, f);
      } else {
        assert f(s[0]) == Max(s, f);
      }
    }
  }

  /** Two conditions that never hold together count at most every row once. */
  lemma {:induction false} CountDisjoint<T>(s: seq<T>, p: T -> bool, q: T -> bool)
    requires forall x :: !(p(x) && q(x))
    ensures Count(s, p) + Count(s, q) <= |s|
  {
    if s != [] {
      CountDisjoint(s[1..], p, q);
    }
  }

  /** The elements of `S` satisfying `p`. */
  function Selected<T>(S: set<T>, p: T -> bool): set<T> {
    set x | x in S && p(x)
  }

  /** Over distinct rows listing the set `S`, `Count(p)` is the number of
      elements of `S` satisfying `p`. */
  lemma {:induction false} CountIsCard<T>(s: seq<T>, S: set<T>, p: T -> bool)
    requires Distinct(s) && forall x :: x in s <==> x in S
    ensures Count(s, p) == |Selected(S, p)|
  {
    if s == [] {
      assert S == {};
      assert Selected(S, p) == {};
    } else {
      var rest := s[1..];
      DistinctTail(s);
      var R := S - {s[0]};
      forall x ensures x in rest <==> x in R {
        if x in rest {
          var j :| 0 <= j < |rest| && rest[j] == x;
          assert x == s[j + 1];
        }
        if x in R {
          assert x in s;
          var j :| 0 <= j < |s| && s[j] == x;
          assert j != 0;
          assert rest[j - 1] == x;
        }
      }
      CountIsCard(rest, R, p);
      if p(s[0]) {
        assert Selected(S, p) == Selected(R, p) + {s[0]};
      } else {
        assert Selected(S, p) == Selected(R, p);
      }
    }
  }

  /** `Where(p)`: the rows satisfying `p`, in their order. */
  function Where<T>(s: seq<T>, p: T -> bool): (r: seq<T>)
    ensures |r| == Count(s, p)
    ensures forall x :: x in r ==> x in s && p(x)
    ensures forall x :: x in s && p(x) ==> x in r
  {
    if s == [] then []
    else
      var rest := Where(s[1..], p);
      assert forall x :: x in s[1..] ==> x in s;
      if p(s[0]) then [s[0]] + rest else rest
  }
}
