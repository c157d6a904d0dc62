/** The leaderboard endpoints (MatchAPI/Controllers/LeaderboardController.cs):
    three ranked queries, the tower board over players, and the writes that
    re-number a season's ranks afterwards. */
module LeaderboardController {
  import opened Wrappers
  import opened Records
  import opened Sorting
  import opened Ranking
  import opened Database
  import Text

  /** One row of the overall board and of a player's history. */
  datatype LeaderboardRow = LeaderboardRow(
    leaderboardId: int, playerId: string, playerName: string, score: Option<Int32>,
    rank: Option<int>, seasonId: int, createdDate: Option<Time>)

  /** One row of a season board: the same without the season. */
  datatype SeasonRow = SeasonRow(
    leaderboardId: int, playerId: string, playerName: string, score: Option<Int32>,
    rank: Option<int>, createdDate: Option<Time>)

  /** One row of the tower board. */
  datatype TowerRow = TowerRow(
    rank: int, playerId: string, playerName: string, towerRecord: Int32,
    lastLoginDate: Option<Time>)

  /** Every entry is stored under its LeaderboardId and its player exists:
      the key and the foreign key the inner join on Player relies on. */
  predicate Joinable(lb: map<int, LeaderboardEntry>, players: map<string, Player>) {
    forall id :: id in lb ==> lb[id].leaderboardId == id && lb[id].playerId in players
  }

  function RowOf(lb: map<int, LeaderboardEntry>, players: map<string, Player>, id: int): LeaderboardRow
    requires id in lb && lb[id].playerId in players
  {
    var e := lb[id];
    LeaderboardRow(e.leaderboardId, e.playerId, players[e.playerId].playerName, e.score,
                   e.rank, e.seasonId, e.createdDate)
  }

  function SeasonRowOf(lb: map<int, LeaderboardEntry>, players: map<string, Player>, id: int): SeasonRow
    requires id in lb && lb[id].playerId in players
  {
    var e := lb[id];
    SeasonRow(e.leaderboardId, e.playerId, players[e.playerId].playerName, e.score,
              e.rank, e.createdDate)
  }

  /** `row` shows entry `row.leaderboardId` joined with its player's name. */
  predicate ShowsEntry(lb: map<int, LeaderboardEntry>, players: map<string, Player>, row: LeaderboardRow) {
    row.leaderboardId in lb && lb[row.leaderboardId].playerId in players &&
    row == RowOf(lb, players, row.leaderboardId)
  }

  predicate ShowsSeasonEntry(lb: map<int, LeaderboardEntry>, players: map<string, Player>, row: SeasonRow) {
    row.leaderboardId in lb && lb[row.leaderboardId].playerId in players &&
    row == SeasonRowOf(lb, players, row.leaderboardId)
  }

  /** The number of rows `Take(limit)` leaves of `n`. */
  function Clamp(limit: int, n: nat): nat {
    if limit <= 0 then 0 else if limit < n then limit else n
  }

  /** The leaderboard ids a result lists. */
  function ListedIds(r: seq<LeaderboardRow>): set<int> {
    set k | 0 <= k < |r| :: r[k].leaderboardId
  }

  lemma ListedIdsOf(r: seq<LeaderboardRow>, ids: seq<int>)
    requires |r| == |ids| && forall k :: 0 <= k < |r| ==> r[k].leaderboardId == ids[k]
    ensures forall id :: id in ListedIds(r) <==> id in ids
  {
    forall id | id in ids ensures id in ListedIds(r) {
      var k :| 0 <= k < |ids| && ids[k] == id;
      assert r[k].leaderboardId == id;
    }
  }

  /** The first `limit` ids of `S` in ranking order: distinct, in order, and
      ahead of every id of `S` left out. */
  lemma TopByScore(lb: map<int, LeaderboardEntry>, S: set<int>, limit: int)
    requires S <= lb.Keys
    ensures StrictTotalOn(ScoreOrder(lb), S)
    ensures var ids := TopBy(S, ScoreOrder(lb), limit);
      (forall i, j :: 0 <= i < j < |ids| ==>
         ids[i] != ids[j] && Outranks(lb[ids[i]].score, ids[i], lb[ids[j]].score, ids[j])) &&
      (forall i, id :: 0 <= i < |ids| && id in S && id !in ids ==>
         Outranks(lb[ids[i]].score, ids[i], lb[id].score, id))
  {
    ScoreOrderTotal(lb, S);
    var ids := TopBy(S, ScoreOrder(lb), limit);
    forall i, j | 0 <= i < j < |ids|
      ensures ids[i] != ids[j] && Outranks(lb[ids[i]].score, ids[i], lb[ids[j]].score, ids[j])
    {
      ScoreOrderMeaning(lb, ids[i], ids[j]);
    }
    forall i, id | 0 <= i < |ids| && id in S && id !in ids
      ensures Outranks(lb[ids[i]].score, ids[i], lb[id].score, id)
    {
      ScoreOrderMeaning(lb, ids[i], id);
    }
  }

  /** GET api/Leaderboard: the `limit` best entries of all seasons, best
      first, each joined with its player's name. */
  function GetLeaderboard(lb: map<int, LeaderboardEntry>, players: map<string, Player>,
                          limit: int): (r: seq<LeaderboardRow>)
    requires Joinable(lb, players)
    ensures |r| == Clamp(limit, |lb|)
    ensures forall i :: 0 <= i < |r| ==>
      ShowsEntry(lb, players, r[i])
    ensures forall i, j :: 0 <= i < j < |r| ==>
      r[i].leaderboardId != r[j].leaderboardId &&
      Outranks(r[i].score, r[i].leaderboardId, r[j].score, r[j].leaderboardId)
    ensures forall i, id :: 0 <= i < |r| && id in lb && id !in ListedIds(r) ==>
      Outranks(r[i].score, r[i].leaderboardId, lb[id].score, id)
  {
    TopByScore(lb, lb.Keys, limit);
    var ids := TopBy(lb.Keys, ScoreOrder(lb), limit);
    var r := seq(|ids|, i requires 0 <= i < |ids| => RowOf(lb, players, ids[i]));
    ListedIdsOf(r, ids);
    r
  }

  function ListedSeasonIds(r: seq<SeasonRow>): set<int> {
    set k | 0 <= k < |r| :: r[k].leaderboardId
  }

  lemma ListedSeasonIdsOf(r: seq<SeasonRow>, ids: seq<int>)
    requires |r| == |ids| && forall k :: 0 <= k < |r| ==> r[k].leaderboardId == ids[k]
    ensures forall id :: id in ListedSeasonIds(r) <==> id in ids
  {
    forall id | id in ids ensures id in ListedSeasonIds(r) {
      var k :| 0 <= k < |ids| && ids[k] == id;
      assert r[k].leaderboardId == id;
    }
  }

  /** GET api/Leaderboard/season/{seasonId}: the `limit` best entries of one
      season, best first. */
  function GetSeasonLeaderboard(lb: map<int, LeaderboardEntry>, players: map<string, Player>,
                                seasonId: int, limit: int): (r: seq<SeasonRow>)
    requires Joinable(lb, players)
    ensures |r| == Clamp(limit, |SeasonIds(lb, seasonId)|)
    ensures forall i :: 0 <= i < |r| ==>
      ShowsSeasonEntry(lb, players, r[i]) && lb[r[i].leaderboardId].seasonId == seasonId
    ensures forall i, j :: 0 <= i < j < |r| ==>
      r[i].leaderboardId != r[j].leaderboardId &&
      Outranks(r[i].score, r[i].leaderboardId, r[j].score, r[j].leaderboardId)
    ensures forall i, id ::
      (0 <= i < |r| && id in lb && lb[id].seasonId == seasonId && id !in ListedSeasonIds(r)) ==>
      Outranks(r[i].score, r[i].leaderboardId, lb[id].score, id)
  {
    var S := SeasonIds(lb, seasonId);
    TopByScore(lb, S, limit);
    var ids := TopBy(S, ScoreOrder(lb), limit);
    var r := seq(|ids|, i requires 0 <= i < |ids| => SeasonRowOf(lb, players, ids[i]));
    ListedSeasonIdsOf(r, ids);
    r
  }

  /** The ids of one player's entries. */
  function PlayerEntryIds(lb: map<int, LeaderboardEntry>, playerId: string): set<int> {
    set id | id in lb && lb[id].playerId == playerId
  }

  function CreatedKey(lb: map<int, LeaderboardEntry>): int -> Option<int> {
    (id: int) => if id in lb then lb[id].createdDate else None
  }

  /** Newest entry first, an entry without a date last, equal dates by
      LeaderboardId. */
  function CreatedOrder(lb: map<int, LeaderboardEntry>): (int, int) -> bool {
    KeyDescending(CreatedKey(lb), IntLess())
  }

  /** A player's entry ids, newest first. */
  function EntriesByDate(lb: map<int, LeaderboardEntry>, playerId: string): (ids: seq<int>)
    ensures |ids| == |PlayerEntryIds(lb, playerId)|
    ensures forall i :: 0 <= i < |ids| ==> ids[i] in lb && lb[ids[i]].playerId == playerId
    ensures forall id :: id in lb && lb[id].playerId == playerId ==> id in ids
    ensures forall i, j :: 0 <= i < j < |ids| ==>
      ids[i] != ids[j] && Outranks(lb[ids[i]].createdDate, ids[i], lb[ids[j]].createdDate, ids[j])
  {
    var S := PlayerEntryIds(lb, playerId);
    IntLessTotal(S);
    KeyDescendingTotal(CreatedKey(lb), IntLess(), S);
    var ids := SortSet(S, CreatedOrder(lb));
    SortedDistinct(ids, CreatedOrder(lb), S);
    assert forall i :: 0 <= i < |ids| ==> ids[i] in S;
    ids
  }

  /** Two distinct entries, `a` listed before `b`: `a` is newer, or `b` has
      no date, or they share a date and `a` has the smaller LeaderboardId. */
  predicate NewerFirst(a: LeaderboardRow, b: LeaderboardRow) {
    a.leaderboardId != b.leaderboardId &&
    Outranks(a.createdDate, a.leaderboardId, b.createdDate, b.leaderboardId)
  }

  /** Rows built from a player's entry ids in date order. */
  lemma PlayerRows(lb: map<int, LeaderboardEntry>, players: map<string, Player>, playerId: string,
                   ids: seq<int>, rows: seq<LeaderboardRow>)
    requires Joinable(lb, players)
    requires forall i :: 0 <= i < |ids| ==> ids[i] in lb && lb[ids[i]].playerId == playerId
    requires |rows| == |ids| && forall i :: 0 <= i < |ids| ==> rows[i] == RowOf(lb, players, ids[i])
    requires forall id :: id in lb && lb[id].playerId == playerId ==> id in ids
    requires forall i, j :: 0 <= i < j < |ids| ==>
      ids[i] != ids[j] && Outranks(lb[ids[i]].createdDate, ids[i], lb[ids[j]].createdDate, ids[j])
    ensures forall i :: 0 <= i < |rows| ==>
      ShowsEntry(lb, players, rows[i]) && rows[i].playerId == playerId
    ensures forall i, j :: 0 <= i < j < |rows| ==> NewerFirst(rows[i], rows[j])
    ensures forall id :: id in lb && lb[id].playerId == playerId ==> id in ListedIds(rows)
  {
    ListedIdsOf(rows, ids);
  }

  /** GET api/Leaderboard/player/{playerId}: all of a player's entries,
      newest first, or NotFound when the player has none. */
  function GetPlayerRanking(lb: map<int, LeaderboardEntry>, players: map<string, Player>,
                            playerId: string): (r: Result<seq<LeaderboardRow>, ApiError>)
    requires Joinable(lb, players)
    ensures r.Failure? <==> PlayerEntryIds(lb, playerId) == {}
    ensures r.Failure? ==> r.error == NotFound
    ensures r.Success? ==>
      && |r.value| == |PlayerEntryIds(lb, playerId)|
      && (forall i :: 0 <= i < |r.value| ==>
            ShowsEntry(lb, players, r.value[i]) && r.value[i].playerId == playerId)
      && (forall i, j :: 0 <= i < j < |r.value| ==> NewerFirst(r.value[i], r.value[j]))
      && (forall id :: id in lb && lb[id].playerId == playerId ==> id in ListedIds(r.value))
  {
    var ids := EntriesByDate(lb, playerId);
    var rows := seq(|ids|, i requires 0 <= i < |ids| => RowOf(lb, players, ids[i]));
    PlayerRows(lb, players, playerId, ids, rows);
    if |rows| == 0 then Failure(NotFound) else Success(rows)
  }

  /** The players the tower board lists: those whose TowerRecord is above 0. */
  function TowerPlayers(players: map<string, Player>): set<string> {
    set p | p in players && LiftedGreater(players[p].towerRecord, Some(0))
  }

  function TowerKey(players: map<string, Player>): string -> Option<int> {
    (p: string) => if p in players then players[p].towerRecord else None
  }

  /** Highest TowerRecord first, equal records by PlayerId. */
  function TowerOrder(players: map<string, Player>): (string, string) -> bool {
    KeyDescending(TowerKey(players), Text.StrOrder())
  }

  lemma TowerOrderMeaning(players: map<string, Player>, a: string, b: string)
    requires a in players && b in players
    ensures TowerOrder(players)(a, b) ==
      (Above(players[a].towerRecord, players[b].towerRecord) ||
       (players[a].towerRecord == players[b].towerRecord && Text.StrLess(a, b)))
  {
  }

  /** Board order between two listed players, in terms of their records. */
  lemma TowerBefore(players: map<string, Player>, a: string, b: string)
    requires a in TowerPlayers(players) && b in TowerPlayers(players)
    requires TowerOrder(players)(a, b)
    ensures players[a].towerRecord.value > players[b].towerRecord.value ||
      (players[a].towerRecord == players[b].towerRecord && Text.StrLess(a, b))
  {
    TowerOrderMeaning(players, a, b);
  }

  function TowerRowOf(players: map<string, Player>, p: string, i: int): TowerRow
    requires p in players
  {
    var q := players[p];
    TowerRow(i + 1, q.playerId, q.playerName, q.towerRecord.GetOr(0), q.lastLoginDate)
  }

  /** Row `row`, at position `i` of the board, shows player `row.playerId`
      with rank `i + 1` and that player's positive TowerRecord, name and last
      login. */
  predicate ShowsTowerPlayer(players: map<string, Player>, row: TowerRow, i: int) {
    && row.rank == i + 1
    && row.playerId in players
    && players[row.playerId].towerRecord == Some(row.towerRecord)
    && row.towerRecord > 0
    && row.playerName == players[row.playerId].playerName
    && row.lastLoginDate == players[row.playerId].lastLoginDate
  }

  /** Row `a` comes before row `b`: a higher record, or the same record and
      an ordinally smaller PlayerId. */
  predicate TowerRowBefore(a: TowerRow, b: TowerRow) {
    a.towerRecord > b.towerRecord ||
    (a.towerRecord == b.towerRecord && Text.StrLess(a.playerId, b.playerId))
  }

  /** Row `row` comes before player `p`, who has a tower record. */
  predicate AheadOfPlayer(row: TowerRow, players: map<string, Player>, p: string) {
    && p in players
    && players[p].towerRecord.Some?
    && (row.towerRecord > players[p].towerRecord.value ||
        (row.towerRecord == players[p].towerRecord.value && Text.StrLess(row.playerId, p)))
  }

  function ListedPlayers(r: seq<TowerRow>): set<string> {
    set k | 0 <= k < |r| :: r[k].playerId
  }

  lemma ListedPlayersOf(r: seq<TowerRow>, ids: seq<string>)
    requires |r| == |ids| && forall k :: 0 <= k < |r| ==> r[k].playerId == ids[k]
    ensures forall p :: p in ListedPlayers(r) <==> p in ids
  {
    forall p | p in ids ensures p in ListedPlayers(r) {
      var k :| 0 <= k < |ids| && ids[k] == p;
      assert r[k].playerId == p;
    }
  }

  /** The rows built from a listing of tower players in board order, ahead
      of every tower player left out, say the same of the records. */
  lemma TowerRowsOrdered(players: map<string, Player>, ids: seq<string>, r: seq<TowerRow>)
    requires PlayersKeyed(players)
    requires |r| == |ids|
    requires forall i :: 0 <= i < |ids| ==>
      ids[i] in TowerPlayers(players) && ids[i] in players && r[i] == TowerRowOf(players, ids[i], i)
    requires Distinct(ids)
    requires forall i, j :: 0 <= i < j < |ids| ==> TowerOrder(players)(ids[i], ids[j])
    requires forall x, y :: x in ids && y in TowerPlayers(players) && y !in ids ==> TowerOrder(players)(x, y)
    ensures forall i :: 0 <= i < |r| ==> ShowsTowerPlayer(players, r[i], i)
    ensures forall i, j :: 0 <= i < j < |r| ==>
      r[i].playerId != r[j].playerId && TowerRowBefore(r[i], r[j])
    ensures forall i, p ::
      (0 <= i < |r| && p in TowerPlayers(players) && p !in ListedPlayers(r)) ==>
      AheadOfPlayer(r[i], players, p)
  {
    ListedPlayersOf(r, ids);
    forall i | 0 <= i < |r| ensures ShowsTowerPlayer(players, r[i], i) {
      assert ids[i] in TowerPlayers(players);
    }
    forall i, j | 0 <= i < j < |r|
      ensures r[i].playerId != r[j].playerId && TowerRowBefore(r[i], r[j])
    {
      assert ids[i] in TowerPlayers(players) && ids[j] in TowerPlayers(players);
      TowerBefore(players, ids[i], ids[j]);
    }
    forall i, p | 0 <= i < |r| && p in TowerPlayers(players) && p !in ListedPlayers(r)
      ensures AheadOfPlayer(r[i], players, p)
    {
      assert ids[i] in TowerPlayers(players);
      assert ids[i] in ids;
      TowerBefore(players, ids[i], p);
    }
  }

  /** The ids of the first `limit` tower players in board order. */
  function TowerIds(players: map<string, Player>, limit: int): (ids: seq<string>)
    ensures |ids| == Clamp(limit, |TowerPlayers(players)|)
    ensures forall i :: 0 <= i < |ids| ==> ids[i] in TowerPlayers(players) && ids[i] in players
    ensures Distinct(ids)
    ensures forall i, j :: 0 <= i < j < |ids| ==> TowerOrder(players)(ids[i], ids[j])
    ensures forall x, y :: x in ids && y in TowerPlayers(players) && y !in ids ==> TowerOrder(players)(x, y)
  {
    var S := TowerPlayers(players);
    Text.StrOrderTotal(S);
    KeyDescendingTotal(TowerKey(players), Text.StrOrder(), S);
    TopBy(S, TowerOrder(players), limit)
  }

  /** GET api/Leaderboard/tower: the `limit` players with the highest
      positive TowerRecord, numbered 1, 2, ... in board order. */
  function GetTowerLeaderboard(players: map<string, Player>, limit: int): (r: seq<TowerRow>)
    requires PlayersKeyed(players)
    ensures |r| == Clamp(limit, |TowerPlayers(players)|)
    ensures forall i :: 0 <= i < |r| ==> ShowsTowerPlayer(players, r[i], i)
    ensures forall i, j :: 0 <= i < j < |r| ==>
      r[i].playerId != r[j].playerId && TowerRowBefore(r[i], r[j])
    ensures forall i, p ::
      (0 <= i < |r| && p in TowerPlayers(players) && p !in ListedPlayers(r)) ==>
      AheadOfPlayer(r[i], players, p)
  {
    var ids := TowerIds(players, limit);
    var r := seq(|ids|, i requires 0 <= i < |ids| => TowerRowOf(players, ids[i], i));
    TowerRowsOrdered(players, ids, r);
    r
  }

  /** Re-ranking keeps the table's keys, foreign keys and unique index. */
  lemma RerankedValid(lb: map<int, LeaderboardEntry>, players: map<string, Player>,
                      seasons: set<int>, next: int, s: int)
    requires LeaderboardsValid(lb, players, seasons, next)
    ensures LeaderboardsValid(Reranked(lb, s), players, seasons, next)
  {
    var r := Reranked(lb, s);
    forall a, b | a in r && b in r && r[a].playerId == r[b].playerId && r[a].seasonId == r[b].seasonId
      ensures a == b
    {
      assert lb[a].playerId == lb[b].playerId && lb[a].seasonId == lb[b].seasonId;
    }
  }

  /** Writes rank `k + 1` into the entry at position `k` of `entries`, the
      way UpdateRanks numbers the rows its query returned. */
  method NumberInOrder(lb: map<int, LeaderboardEntry>, entries: seq<int>)
    returns (r: map<int, LeaderboardEntry>)
    requires forall k :: 0 <= k < |entries| ==> entries[k] in lb
    requires Distinct(entries)
    ensures r.Keys == lb.Keys
    ensures forall k :: 0 <= k < |entries| ==> r[entries[k]] == lb[entries[k]].(rank := Some(k + 1))
    ensures forall id :: id in lb && id !in entries ==> r[id] == lb[id]
  {
    r := lb;
    var i := 0;
    while i < |entries|
      invariant 0 <= i <= |entries|
      invariant r.Keys == lb.Keys
      invariant forall k :: 0 <= k < i ==> r[entries[k]] == lb[entries[k]].(rank := Some(k + 1))
      invariant forall id :: id in lb && id !in entries[..i] ==> r[id] == lb[id]
    {
      var id := entries[i];
      forall k | 0 <= k < i ensures entries[k] != id {
        assert entries[k] != entries[i];
      }
      r := r[id := r[id].(rank := Some(i + 1))];
      assert entries[..i + 1] == entries[..i] + [id];
      i := i + 1;
    }
    assert entries[..i] == entries;
  }

  /** Numbering the season's entries in ranking order is `Reranked`. */
  lemma NumberedIsReranked(lb: map<int, LeaderboardEntry>, s: int, r: map<int, LeaderboardEntry>)
    requires r.Keys == lb.Keys
    requires forall k :: 0 <= k < |SeasonOrder(lb, s)| ==>
      SeasonOrder(lb, s)[k] in lb &&
      r[SeasonOrder(lb, s)[k]] == lb[SeasonOrder(lb, s)[k]].(rank := Some(k + 1))
    requires forall id :: id in lb && id !in SeasonOrder(lb, s) ==> r[id] == lb[id]
    ensures r == Reranked(lb, s)
  {
    var entries := SeasonOrder(lb, s);
    forall id | id in lb ensures r[id] == Reranked(lb, s)[id] {
      if id in entries {
        var k :| 0 <= k < |entries| && entries[k] == id;
        RankIsPosition(lb, s, k);
      }
    }
  }

  /** The work of UpdateRanks on the table's rows: query season `seasonId`
      (season 1 when none is given) best first and number the rows 1, 2, ... */
  method RankSeason(lb: map<int, LeaderboardEntry>, seasonId: Option<int>)
    returns (ranked: map<int, LeaderboardEntry>)
    ensures ranked == Reranked(lb, seasonId.GetOr(1))
  {
    var s := seasonId.GetOr(1);
    var entries := SeasonOrder(lb, s);
    ScoreOrderTotal(lb, SeasonIds(lb, s));
    SortedDistinct(entries, ScoreOrder(lb), SeasonIds(lb, s));
    assert forall k :: 0 <= k < |entries| ==> entries[k] in SeasonIds(lb, s);
    ranked := NumberInOrder(lb, entries);
    NumberedIsReranked(lb, s, ranked);
  }

  /** UpdateRanks: re-numbers the ranks of one season and saves them. */
  method UpdateRanks(db: Store, seasonId: Option<int>)
    requires db.Valid()
    modifies db`leaderboards
    ensures db.Valid()
    ensures db.leaderboards == Reranked(old(db.leaderboards), seasonId.GetOr(1))
  {
    var ranked := RankSeason(db.leaderboards, seasonId);
    RerankedValid(db.leaderboards, db.players, db.seasons, db.nextLeaderboardId, seasonId.GetOr(1));
    db.leaderboards := ranked;
  }

  /** The player already has an entry for season `s`. */
  predicate HasEntry(lb: map<int, LeaderboardEntry>, playerId: string, s: int) {
    exists id :: id in lb && lb[id].playerId == playerId && lb[id].seasonId == s
  }

  /** The row PostLeaderboard inserts: TowerLevel 0, no rank yet, created
      now; UpdatedDate is filled by the column default at the same time. */
  function NewEntry(id: int, playerId: string, s: int, score: Int32, now: Time): LeaderboardEntry {
    LeaderboardEntry(id, playerId, s, 0, Some(score), None, Some(now), Some(now))
  }

  lemma InsertValid(lb: map<int, LeaderboardEntry>, players: map<string, Player>,
                    seasons: set<int>, next: int, e: LeaderboardEntry)
    requires LeaderboardsValid(lb, players, seasons, next)
    requires e.leaderboardId == next && e.playerId in players && e.seasonId in seasons
    requires !HasEntry(lb, e.playerId, e.seasonId)
    ensures next !in lb
    ensures LeaderboardsValid(lb[next := e], players, seasons, next + 1)
  {
  }

  lemma RemoveValid(lb: map<int, LeaderboardEntry>, players: map<string, Player>,
                    seasons: set<int>, next: int, id: int)
    requires LeaderboardsValid(lb, players, seasons, next)
    ensures LeaderboardsValid(lb - {id}, players, seasons, next)
  {
  }

  lemma RescoreValid(lb: map<int, LeaderboardEntry>, players: map<string, Player>,
                     seasons: set<int>, next: int, id: int, score: Int32)
    requires LeaderboardsValid(lb, players, seasons, next) && id in lb
    ensures LeaderboardsValid(lb[id := lb[id].(score := Some(score))], players, seasons, next)
  {
    var r := lb[id := lb[id].(score := Some(score))];
    forall a, b | a in r && b in r && r[a].playerId == r[b].playerId && r[a].seasonId == r[b].seasonId
      ensures a == b
    {
      assert lb[a].playerId == lb[b].playerId && lb[a].seasonId == lb[b].seasonId;
    }
  }

  /** POST api/Leaderboard: adds an entry for an existing player in the
      given season (season 1 when none is given) and re-ranks that season.
      An unknown player or season is a 400 response; a missing season 1 or a
      second entry for the same player and season makes the save fail. */
  method PostLeaderboard(db: Store, playerId: string, score: Int32, seasonId: Option<int>, now: Time)
    returns (r: Result<LeaderboardEntry, ApiError>)
    requires db.Valid()
    modifies db`leaderboards, db`nextLeaderboardId
    ensures db.Valid()
    ensures playerId !in old(db.players) ==> r == Failure(BadRequest(MissingPlayer))
    ensures playerId in old(db.players) && seasonId.Some? && seasonId.value !in old(db.seasons) ==>
      r == Failure(BadRequest(MissingSeason))
    ensures playerId in old(db.players) && (seasonId.Some? ==> seasonId.value in old(db.seasons)) ==>
      (r == Failure(ServerError) <==>
        seasonId.GetOr(1) !in old(db.seasons) || HasEntry(old(db.leaderboards), playerId, seasonId.GetOr(1)))
    ensures r.Failure? ==>
      db.leaderboards == old(db.leaderboards) && db.nextLeaderboardId == old(db.nextLeaderboardId)
    ensures r.Success? ==>
      var id := old(db.nextLeaderboardId);
      var s := seasonId.GetOr(1);
      && id !in old(db.leaderboards)
      && db.nextLeaderboardId == id + 1
      && db.leaderboards == Reranked(old(db.leaderboards)[id := NewEntry(id, playerId, s, score, now)], s)
      && r.value == db.leaderboards[id]
  {
    if playerId !in db.players {
      return Failure(BadRequest(MissingPlayer));
    }
    if seasonId.Some? && seasonId.value !in db.seasons {
      return Failure(BadRequest(MissingSeason));
    }
    var s := seasonId.GetOr(1);
    if s !in db.seasons || HasEntry(db.leaderboards, playerId, s) {
      return Failure(ServerError);
    }
    var id := db.nextLeaderboardId;
    var entry := NewEntry(id, playerId, s, score, now);
    InsertValid(db.leaderboards, db.players, db.seasons, id, entry);
    db.leaderboards := db.leaderboards[id := entry];
    db.nextLeaderboardId := id + 1;
    UpdateRanks(db, seasonId);
    r := Success(db.leaderboards[id]);
  }

  /** PUT api/Leaderboard/{id}: replaces an entry's score and re-ranks its
      season; NotFound for an unknown id. */
  method PutLeaderboard(db: Store, id: int, score: Int32) returns (r: Result<(), ApiError>)
    requires db.Valid()
    modifies db`leaderboards
    ensures db.Valid()
    ensures r.Failure? <==> id !in old(db.leaderboards)
    ensures r.Failure? ==> r.error == NotFound && db.leaderboards == old(db.leaderboards)
    ensures r.Success? ==>
      db.leaderboards == Reranked(old(db.leaderboards)[id := old(db.leaderboards)[id].(score := Some(score))],
                                  old(db.leaderboards)[id].seasonId)
  {
    if id !in db.leaderboards {
      return Failure(NotFound);
    }
    var entry := db.leaderboards[id];
    RescoreValid(db.leaderboards, db.players, db.seasons, db.nextLeaderboardId, id, score);
    db.leaderboards := db.leaderboards[id := entry.(score := Some(score))];
    UpdateRanks(db, Some(entry.seasonId));
    r := Success(());
  }

  /** DELETE api/Leaderboard/{id}: removes an entry and re-ranks the season
      it belonged to; NotFound for an unknown id. */
  method DeleteLeaderboard(db: Store, id: int) returns (r: Result<(), ApiError>)
    requires db.Valid()
    modifies db`leaderboards
    ensures db.Valid()
    ensures r.Failure? <==> id !in old(db.leaderboards)
    ensures r.Failure? ==> r.error == NotFound && db.leaderboards == old(db.leaderboards)
    ensures r.Success? ==>
      db.leaderboards == Reranked(old(db.leaderboards) - {id}, old(db.leaderboards)[id].seasonId)
  {
    if id !in db.leaderboards {
      return Failure(NotFound);
    }
    var seasonId := db.leaderboards[id].seasonId;
    RemoveValid(db.leaderboards, db.players, db.seasons, db.nextLeaderboardId, id);
    db.leaderboards := db.leaderboards - {id};
    UpdateRanks(db, Some(seasonId));
    r := Success(());
  }
}
