/** The rank numbering of one season's leaderboard
    (LeaderboardController.UpdateRanks), stated without the loop: an entry's
    rank is one more than the number of entries of its season that are ahead
    of it in the ranking order. */
module Ranking {
  import opened Wrappers
  import opened Records
  import opened Sorting

  /** The ids of season `s`'s entries. */
  function SeasonIds(lb: map<int, LeaderboardEntry>, s: int): set<int> {
    set id | id in lb && lb[id].seasonId == s
  }

  function ScoreKey(lb: map<int, LeaderboardEntry>): int -> Option<int> {
    (id: int) => if id in lb then lb[id].score else None
  }

  /** The ranking order: higher score first, a null score last, and equal
      scores by ascending LeaderboardId, i.e. in insertion order. The source
      sorts by score alone and leaves ties to the database. */
  function ScoreOrder(lb: map<int, LeaderboardEntry>): (int, int) -> bool {
    KeyDescending(ScoreKey(lb), IntLess())
  }

  /** Entry `a` (score `x`) ranks ahead of entry `b` (score `y`). */
  predicate Outranks(x: Option<int>, a: int, y: Option<int>, b: int) {
    Above(x, y) || (x == y && a < b)
  }

  lemma ScoreOrderMeaning(lb: map<int, LeaderboardEntry>, a: int, b: int)
    requires a in lb && b in lb
    ensures ScoreOrder(lb)(a, b) == Outranks(lb[a].score, a, lb[b].score, b)
  {
  }

  lemma ScoreOrderTotal(lb: map<int, LeaderboardEntry>, S: set<int>)
    ensures StrictTotalOn(ScoreOrder(lb), S)
  {
    IntLessTotal(S);
    KeyDescendingTotal(ScoreKey(lb), IntLess(), S);
  }

  /** Season `s`'s entry ids as the ranking query returns them. */
  function SeasonOrder(lb: map<int, LeaderboardEntry>, s: int): (r: seq<int>)
    ensures |r| == |SeasonIds(lb, s)|
    ensures forall id :: id in r ==> id in SeasonIds(lb, s)
    ensures forall id :: id in SeasonIds(lb, s) ==> id in r
    ensures SortedBy(r, ScoreOrder(lb))
  {
    ScoreOrderTotal(lb, SeasonIds(lb, s));
    SortSet(SeasonIds(lb, s), ScoreOrder(lb))
  }

  /** The entries of season `s` that rank ahead of entry `id`. */
  function Ahead(lb: map<int, LeaderboardEntry>, s: int, id: int): set<int> {
    set y | y in SeasonIds(lb, s) && ScoreOrder(lb)(y, id)
  }

  /** The table after re-ranking season `s`. Only the Rank of that season's
      entries is written. */
  function Reranked(lb: map<int, LeaderboardEntry>, s: int): (r: map<int, LeaderboardEntry>)
    ensures r.Keys == lb.Keys
    ensures forall id :: id in lb ==> r[id] == lb[id].(rank := r[id].rank)
    ensures forall id :: id in lb && lb[id].seasonId != s ==> r[id] == lb[id]
  {
    map id | id in lb ::
      if lb[id].seasonId == s then lb[id].(rank := Some(|Ahead(lb, s, id)| + 1)) else lb[id]
  }

  /** The entry at position `i` of the ranking query gets rank `i + 1`: the
      numbering the loop of UpdateRanks writes. */
  lemma RankIsPosition(lb: map<int, LeaderboardEntry>, s: int, i: int)
    requires 0 <= i < |SeasonOrder(lb, s)|
    ensures var id := SeasonOrder(lb, s)[i];
      id in SeasonIds(lb, s) && Reranked(lb, s)[id].rank == Some(i + 1)
  {
    var order := SeasonOrder(lb, s);
    var S := SeasonIds(lb, s);
    var lt := ScoreOrder(lb);
    var id := order[i];
    ScoreOrderTotal(lb, S);
    CountAhead(order, lt, S, i);
    forall y ensures y in Ahead(lb, s, id) <==> y in Preceding(order, lt, id) {
      assert y in order <==> y in S;
    }
    assert Ahead(lb, s, id) == Preceding(order, lt, id);
    assert id in order;
    assert id in lb && lb[id].seasonId == s;
    assert Reranked(lb, s)[id] == lb[id].(rank := Some(|Ahead(lb, s, id)| + 1));
  }

  /** Every entry of the season sits at some position of the ranking query
      and has that position plus one as its rank. */
  lemma PositionOf(lb: map<int, LeaderboardEntry>, s: int, id: int) returns (i: int)
    requires id in SeasonIds(lb, s)
    ensures 0 <= i < |SeasonOrder(lb, s)| && SeasonOrder(lb, s)[i] == id
    ensures Reranked(lb, s)[id].rank == Some(i + 1)
  {
    var order := SeasonOrder(lb, s);
    i :| 0 <= i < |order| && order[i] == id;
    RankIsPosition(lb, s, i);
  }

  /** After re-ranking, every entry of the season holds a rank in 1..N. */
  lemma RanksInRange(lb: map<int, LeaderboardEntry>, s: int)
    ensures forall id :: id in SeasonIds(lb, s) ==>
      Reranked(lb, s)[id].rank.Some? && 1 <= Reranked(lb, s)[id].rank.value <= |SeasonIds(lb, s)|
  {
    forall id | id in SeasonIds(lb, s)
      ensures Reranked(lb, s)[id].rank.Some? && 1 <= Reranked(lb, s)[id].rank.value <= |SeasonIds(lb, s)|
    {
      var i := PositionOf(lb, s, id);
    }
  }

  /** The entry at position `k - 1` of the ranking query holds rank `k`. */
  lemma RankHolder(lb: map<int, LeaderboardEntry>, s: int, k: int) returns (id: int)
    requires 1 <= k <= |SeasonIds(lb, s)|
    ensures id in SeasonIds(lb, s) && Reranked(lb, s)[id].rank == Some(k)
  {
    RankIsPosition(lb, s, k - 1);
    id := SeasonOrder(lb, s)[k - 1];
    assert id in SeasonOrder(lb, s);
  }

  /** Some entry of season `s` holds rank `k` after re-ranking. */
  ghost predicate RankHeld(lb: map<int, LeaderboardEntry>, s: int, k: int) {
    exists id :: id in SeasonIds(lb, s) && Reranked(lb, s)[id].rank == Some(k)
  }

  /** After re-ranking, every rank 1..N is held by some entry of the season. */
  lemma RanksUsed(lb: map<int, LeaderboardEntry>, s: int)
    ensures forall k :: 1 <= k <= |SeasonIds(lb, s)| ==> RankHeld(lb, s, k)
  {
    forall k | 1 <= k <= |SeasonIds(lb, s)| ensures RankHeld(lb, s, k) {
      var id := RankHolder(lb, s, k);
    }
  }

  /** After re-ranking, no two entries of the season share a rank. */
  lemma RanksDistinct(lb: map<int, LeaderboardEntry>, s: int)
    ensures forall a, b ::
      (a in SeasonIds(lb, s) && b in SeasonIds(lb, s) &&
       Reranked(lb, s)[a].rank == Reranked(lb, s)[b].rank) ==> a == b
  {
    forall a, b | a in SeasonIds(lb, s) && b in SeasonIds(lb, s) &&
      Reranked(lb, s)[a].rank == Reranked(lb, s)[b].rank
      ensures a == b
    {
      var i := PositionOf(lb, s, a);
      var j := PositionOf(lb, s, b);
    }
  }

  /** After re-ranking, a smaller rank means exactly: a higher score (a null
      score counts as lowest), or the same score and an earlier LeaderboardId.
      So a lower rank never has a lower score, and equal scores still get
      distinct ranks. */
  lemma RerankedOrdered(lb: map<int, LeaderboardEntry>, s: int, a: int, b: int)
    requires a in SeasonIds(lb, s) && b in SeasonIds(lb, s)
    ensures Reranked(lb, s)[a].rank.Some? && Reranked(lb, s)[b].rank.Some?
    ensures Reranked(lb, s)[a].rank.value < Reranked(lb, s)[b].rank.value <==>
      Outranks(lb[a].score, a, lb[b].score, b)
  {
    var order := SeasonOrder(lb, s);
    var S := SeasonIds(lb, s);
    ScoreOrderTotal(lb, S);
    var i := PositionOf(lb, s, a);
    var j := PositionOf(lb, s, b);
    if i < j {
      assert ScoreOrder(lb)(a, b);
    } else {
      NotBefore(order, ScoreOrder(lb), S, j, i);
    }
  }

  /** A lower rank never has a lower score; a null score ranks below every
      score. */
  lemma LowerRankNotLowerScore(lb: map<int, LeaderboardEntry>, s: int, a: int, b: int)
    requires a in SeasonIds(lb, s) && b in SeasonIds(lb, s)
    requires Reranked(lb, s)[a].rank.Some? && Reranked(lb, s)[b].rank.Some?
    requires Reranked(lb, s)[a].rank.value < Reranked(lb, s)[b].rank.value
    ensures lb[b].score.Some? ==> lb[a].score.Some? && lb[a].score.value >= lb[b].score.value
  {
    RerankedOrdered(lb, s, a, b);
  }

  /** Re-ranking ignores the ranks already stored, so running it again on
      unchanged scores changes nothing. */
  lemma RerankedIdempotent(lb: map<int, LeaderboardEntry>, s: int)
    ensures Reranked(Reranked(lb, s), s) == Reranked(lb, s)
  {
    var r := Reranked(lb, s);
    assert SeasonIds(r, s) == SeasonIds(lb, s);
    forall id | id in lb && lb[id].seasonId == s ensures Ahead(r, s, id) == Ahead(lb, s, id) {
      forall y | y in SeasonIds(lb, s) ensures ScoreOrder(r)(y, id) == ScoreOrder(lb)(y, id) {
        assert ScoreKey(r)(y) == ScoreKey(lb)(y);
        assert ScoreKey(r)(id) == ScoreKey(lb)(id);
      }
    }
    assert Reranked(r, s) == r;
  }

  /** A new entry of season `s` makes the season one entry longer. */
  lemma SeasonGrows(lb: map<int, LeaderboardEntry>, id: int, e: LeaderboardEntry)
    requires id !in lb
    ensures |SeasonIds(lb[id := e], e.seasonId)| == |SeasonIds(lb, e.seasonId)| + 1
  {
    assert SeasonIds(lb[id := e], e.seasonId) == SeasonIds(lb, e.seasonId) + {id};
  }

  /** After deleting an entry and re-ranking its season, the remaining N - 1
      entries hold the ranks 1..N-1. */
  lemma DeleteRedensifies(lb: map<int, LeaderboardEntry>, id: int)
    requires id in lb
    ensures var s := lb[id].seasonId; var rest := lb - {id};
      |SeasonIds(rest, s)| == |SeasonIds(lb, s)| - 1 &&
      (forall x :: x in SeasonIds(rest, s) ==>
         Reranked(rest, s)[x].rank.Some? && 1 <= Reranked(rest, s)[x].rank.value <= |SeasonIds(lb, s)| - 1) &&
      (forall k :: 1 <= k <= |SeasonIds(lb, s)| - 1 ==> RankHeld(rest, s, k))
  {
    var s := lb[id].seasonId;
    var rest := lb - {id};
    assert SeasonIds(lb, s) == SeasonIds(rest, s) + {id};
    RanksInRange(rest, s);
    RanksUsed(rest, s);
  }
}
