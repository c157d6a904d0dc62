/** GameSessionController: starting and completing a game session, and the
    per-player statistics over completed sessions. */
module GameSessionController {
  import opened Wrappers
  import opened Records
  import opened Database
  import opened Sorting
  import opened Aggregates
  import PlayerController

  // Starting a session.

  /** The row POST api/GameSession/start inserts. A missing mode is
      "Chapter"; the final score and the defeat flag are not set, so their
      column defaults (0 and false) apply; no end time yet. */
  function Started(id: int, playerId: string, gameMode: Option<string>, chapterId: Option<int>,
                   levelNumber: Option<Int32>, towerFloor: Option<Int32>, now: Time): (g: GameSession)
    ensures g.sessionId == id && g.playerId == playerId
    ensures g.gameMode == gameMode.GetOr("Chapter")
    ensures g.chapterId == chapterId && g.levelNumber == levelNumber && g.towerFloor == towerFloor
    ensures g.startTime == Some(now) && g.endTime.None?
    ensures g.isCompleted == Some(false) && g.finalScore == Some(0) && g.enemyDefeated == Some(false)
  {
    GameSession(id, playerId, gameMode.GetOr("Chapter"), chapterId, levelNumber, towerFloor,
                Some(now), None, Some(false), StoredOrDefault(None, 0), StoredOrDefault(None, false))
  }

  /** POST api/GameSession/start: 400 for an unknown player; the insert
      fails (500) on an unknown chapter or a mode longer than its column;
      otherwise the session gets the next identity value. */
  method StartGameSession(db: Store, playerId: string, gameMode: Option<string>, chapterId: Option<int>,
                          levelNumber: Option<Int32>, towerFloor: Option<Int32>, now: Time)
    returns (r: Result<GameSession, ApiError>)
    requires db.Valid()
    modifies db`sessions, db`nextSessionId
    ensures db.Valid()
    ensures r == Failure(BadRequest(MissingPlayer)) <==> playerId !in old(db.players)
    ensures r == Failure(ServerError) <==>
      playerId in old(db.players) &&
      (|gameMode.GetOr("Chapter")| > 20 || (chapterId.Some? && chapterId.value !in old(db.chapters)))
    ensures r.Failure? ==> db.sessions == old(db.sessions) && db.nextSessionId == old(db.nextSessionId)
    ensures r.Success? ==>
      var id := old(db.nextSessionId);
      && id !in old(db.sessions)
      && r.value == Started(id, playerId, gameMode, chapterId, levelNumber, towerFloor, now)
      && db.sessions == old(db.sessions)[id := r.value]
      && db.nextSessionId == id + 1
  {
    if playerId !in db.players {
      return Failure(BadRequest(MissingPlayer));
    }
    if |gameMode.GetOr("Chapter")| > 20 || (chapterId.Some? && chapterId.value !in db.chapters) {
      return Failure(ServerError);
    }
    var id := db.nextSessionId;
    var g := Started(id, playerId, gameMode, chapterId, levelNumber, towerFloor, now);
    db.sessions := db.sessions[id := g];
    db.nextSessionId := id + 1;
    r := Success(g);
  }

  // Completing a session.

  /** The session row after PUT api/GameSession/{id}/complete: ended now,
      completed, with the requested score (null stays null) and defeat
      flag; nothing else changes. */
  function Finished(g: GameSession, finalScore: Option<Int32>, enemyDefeated: bool, now: Time): (f: GameSession)
    ensures f == g.(endTime := f.endTime, finalScore := f.finalScore,
                    isCompleted := f.isCompleted, enemyDefeated := f.enemyDefeated)
    ensures f.endTime == Some(now) && f.isCompleted == Some(true)
    ensures f.finalScore == finalScore && f.enemyDefeated == Some(enemyDefeated)
  {
    g.(endTime := Some(now), finalScore := finalScore, isCompleted := Some(true), enemyDefeated := Some(enemyDefeated))
  }

  /** The session's player after completion: a win with positive coins
      earned credits them (unchecked 32-bit addition, null read as 0); a
      won "Tower" session whose floor beats the stored record raises it. */
  function Rewarded(p: Player, g: GameSession, enemyDefeated: bool, coinsEarned: Int32): (q: Player)
    ensures q == p.(coins := q.coins, towerRecord := q.towerRecord)
    ensures q.coins == if enemyDefeated then Credited(p.coins, coinsEarned) else p.coins
    ensures q.towerRecord != p.towerRecord <==>
      g.gameMode == "Tower" && enemyDefeated && LiftedGreater(g.towerFloor, p.towerRecord)
    ensures q.towerRecord != p.towerRecord ==> q.towerRecord == g.towerFloor
  {
    var coins := if enemyDefeated then Credited(p.coins, coinsEarned) else p.coins;
    var record := if g.gameMode == "Tower" && enemyDefeated && LiftedGreater(g.towerFloor, p.towerRecord)
                  then g.towerFloor else p.towerRecord;
    p.(coins := coins, towerRecord := record)
  }

  /** The tower record only rises, a null record is never replaced, and
      a lost session changes nothing about the player. */
  lemma TowerRecordHighWater(p: Player, g: GameSession, enemyDefeated: bool, coinsEarned: Int32)
    ensures var q := Rewarded(p, g, enemyDefeated, coinsEarned);
      && (p.towerRecord.None? ==> q.towerRecord.None?)
      && (p.towerRecord.Some? ==> q.towerRecord.Some? && q.towerRecord.value >= p.towerRecord.value)
      && (!enemyDefeated ==> q == p)
      && (enemyDefeated && coinsEarned <= 0 ==> q.coins == p.coins)
  {
  }

  /** Completing a session keeps the session table valid. */
  lemma FinishedValid(ss: map<int, GameSession>, players: map<string, Player>, chapters: map<int, string>,
                      next: int, id: int, f: GameSession, pid: string, q: Player)
    requires SessionsValid(ss, players, chapters, next) && id in ss && pid in players
    requires f.sessionId == ss[id].sessionId && f.playerId == ss[id].playerId && f.chapterId == ss[id].chapterId
    ensures SessionsValid(ss[id := f], players[pid := q], chapters, next)
  {
  }

  /** PUT api/GameSession/{id}/complete: NotFound for an unknown session;
      otherwise the session is finished and its player rewarded, both in
      one save. The session's player always exists (foreign key), so the
      lookup the source guards with a null check always succeeds. */
  method CompleteGameSession(db: Store, id: int, finalScore: Option<Int32>, enemyDefeated: bool,
                             coinsEarned: Int32, now: Time)
    returns (r: Result<GameSession, ApiError>)
    requires db.Valid()
    modifies db`sessions, db`players
    ensures db.Valid()
    ensures r == Failure(NotFound) <==> id !in old(db.sessions)
    ensures r.Failure? ==> db.sessions == old(db.sessions) && db.players == old(db.players)
    ensures r.Success? ==>
      var g := old(db.sessions)[id];
      && g.playerId in old(db.players)
      && r.value == Finished(g, finalScore, enemyDefeated, now)
      && db.sessions == old(db.sessions)[id := r.value]
      && db.players == old(db.players)[g.playerId :=
           Rewarded(old(db.players)[g.playerId], g, enemyDefeated, coinsEarned)]
  {
    if id !in db.sessions {
      return Failure(NotFound);
    }
    var g := db.sessions[id];
    var f := Finished(g, finalScore, enemyDefeated, now);
    var pid := g.playerId;
    var q := Rewarded(db.players[pid], g, enemyDefeated, coinsEarned);
    PlayerController.ReplacePlayerValid(db, pid, q);
    FinishedValid(db.sessions, db.players, db.chapters, db.nextSessionId, id, f, pid, q);
    db.sessions := db.sessions[id := f];
    db.players := db.players[pid := q];
    r := Success(f);
  }

  // Statistics.

  /** GET api/GameSession/player/{playerId}/stats, without the two
      floating-point fields. */
  datatype Stats = Stats(
    totalGamesPlayed: int,
    totalGamesWon: int,
    totalScore: int,
    chapterGames: int,
    towerGames: int,
    highestTowerFloor: int)

  /** The ids of the player's completed sessions. */
  function CompletedIds(ss: map<int, GameSession>, playerId: string): set<int> {
    set id | id in ss && ss[id].playerId == playerId && ss[id].isCompleted == Some(true)
  }

  /** The rows at the given ids, in order. */
  function RowsOf(ss: map<int, GameSession>, ids: seq<int>): (rows: seq<GameSession>)
    requires forall k :: 0 <= k < |ids| ==> ids[k] in ss
    ensures |rows| == |ids|
    ensures forall k :: 0 <= k < |ids| ==> rows[k] == ss[ids[k]]
  {
    if ids == [] then [] else [ss[ids[0]]] + RowsOf(ss, ids[1..])
  }

  /** The ids of the player's completed sessions in ascending order: the
      database returns them in some order, and none of the statistics
      depends on which. Each id is listed exactly once. */
  function CompletedOrder(ss: map<int, GameSession>, playerId: string): (ids: seq<int>)
    ensures Distinct(ids)
    ensures forall i :: i in ids <==> i in CompletedIds(ss, playerId)
    ensures forall k :: 0 <= k < |ids| ==> ids[k] in ss
  {
    var S := CompletedIds(ss, playerId);
    IntLessTotal(S);
    var ids := SortSet(S, IntLess());
    SortedDistinct(ids, IntLess(), S);
    ids
  }

  /** The player's completed sessions. */
  function CompletedRows(ss: map<int, GameSession>, playerId: string): seq<GameSession> {
    RowsOf(ss, CompletedOrder(ss, playerId))
  }

  predicate Won(g: GameSession) {
    g.enemyDefeated == Some(true)
  }

  function ScoreOrZero(g: GameSession): int {
    g.finalScore.GetOr(0)
  }

  predicate IsChapterGame(g: GameSession) {
    g.gameMode == "Chapter"
  }

  predicate IsTowerGame(g: GameSession) {
    g.gameMode == "Tower"
  }

  /** A tower session that has a floor: the rows the nullable `Max` takes. */
  predicate HasTowerFloor(g: GameSession) {
    g.gameMode == "Tower" && g.towerFloor.Some?
  }

  function FloorOrZero(g: GameSession): int {
    g.towerFloor.GetOr(0)
  }

  /** `Max(TowerFloor) ?? 0` over the tower sessions: nulls are skipped,
      and no floor at all gives 0. */
  function HighestFloor(rows: seq<GameSession>): int {
    var floors := Where(rows, HasTowerFloor);
    if floors == [] then 0 else Max(floors, FloorOrZero)
  }

  /** GET api/GameSession/player/{playerId}/stats over the player's
      completed sessions: no kind of game outnumbers the games played, and
      a player with no completed game has all statistics 0. */
  function GetPlayerStats(ss: map<int, GameSession>, playerId: string): (st: Stats)
    ensures st.totalGamesWon <= st.totalGamesPlayed
    ensures st.chapterGames <= st.totalGamesPlayed && st.towerGames <= st.totalGamesPlayed
    ensures st.totalGamesPlayed == 0 ==> st == Stats(0, 0, 0, 0, 0, 0)
  {
    var rows := CompletedRows(ss, playerId);
    Stats(|rows|, Count(rows, Won), Sum(rows, ScoreOrZero), Count(rows, IsChapterGame),
          Count(rows, IsTowerGame), HighestFloor(rows))
  }

  /** The ids in `S` whose row satisfies `p`. */
  function Having(ss: map<int, GameSession>, S: set<int>, p: GameSession -> bool): set<int> {
    set i | i in S && i in ss && p(ss[i])
  }

  /** The test "the row at this id satisfies `p`". */
  function RowTest(ss: map<int, GameSession>, p: GameSession -> bool): int -> bool {
    i => i in ss && p(ss[i])
  }

  /** Counting the rows at `ids` is counting the ids whose row qualifies. */
  lemma {:induction false} CountRowsOf(ss: map<int, GameSession>, ids: seq<int>, p: GameSession -> bool)
    requires forall k :: 0 <= k < |ids| ==> ids[k] in ss
    ensures Count(RowsOf(ss, ids), p) == Count(ids, RowTest(ss, p))
  {
    if ids != [] {
      CountRowsOf(ss, ids[1..], p);
      assert RowsOf(ss, ids)[1..] == RowsOf(ss, ids[1..]);
    }
  }

  /** Over distinct ids listing `S`, counting their rows counts the ids of
      `S` whose row qualifies. */
  lemma CountRows(ss: map<int, GameSession>, ids: seq<int>, S: set<int>, p: GameSession -> bool)
    requires Distinct(ids) && (forall i :: i in ids <==> i in S)
    requires forall k :: 0 <= k < |ids| ==> ids[k] in ss
    ensures Count(RowsOf(ss, ids), p) == |Having(ss, S, p)|
  {
    CountRowsOf(ss, ids, p);
    assert forall x :: x in ids <==> x in S;
    CountIsCard(ids, S, RowTest(ss, p));
    assert Selected(S, RowTest(ss, p)) == Having(ss, S, p);
  }

  /** Each count is the number of the player's completed sessions with the
      property: games played, games won, chapter games and tower games. */
  lemma StatsCounts(ss: map<int, GameSession>, playerId: string)
    ensures var st, S := GetPlayerStats(ss, playerId), CompletedIds(ss, playerId);
      && st.totalGamesPlayed == |S|
      && st.totalGamesWon == |Having(ss, S, Won)|
      && st.chapterGames == |Having(ss, S, IsChapterGame)|
      && st.towerGames == |Having(ss, S, IsTowerGame)|
  {
    var S, ids := CompletedIds(ss, playerId), CompletedOrder(ss, playerId);
    CountRows(ss, ids, S, Won);
    CountRows(ss, ids, S, IsChapterGame);
    CountRows(ss, ids, S, IsTowerGame);
  }

  /** No more games are won than played, and chapter and tower games
      together are at most all games. */
  lemma StatsBounds(ss: map<int, GameSession>, playerId: string)
    ensures var st := GetPlayerStats(ss, playerId);
      && 0 <= st.totalGamesWon <= st.totalGamesPlayed
      && 0 <= st.chapterGames && 0 <= st.towerGames
      && st.chapterGames + st.towerGames <= st.totalGamesPlayed
  {
    CountDisjoint(CompletedRows(ss, playerId), IsChapterGame, IsTowerGame);
  }

  /** The player's completed tower sessions that have a floor. */
  ghost predicate FloorReached(ss: map<int, GameSession>, playerId: string, i: int) {
    i in CompletedIds(ss, playerId) && HasTowerFloor(ss[i])
  }

  /** A completed tower session of the player with a floor is one of the
      rows `Max` goes over. */
  lemma FloorListed(ss: map<int, GameSession>, playerId: string, i: int)
    requires FloorReached(ss, playerId, i)
    ensures ss[i] in Where(CompletedRows(ss, playerId), HasTowerFloor)
  {
    var ids := CompletedOrder(ss, playerId);
    var k :| 0 <= k < |ids| && ids[k] == i;
    assert CompletedRows(ss, playerId)[k] == ss[i];
  }

  /** Every row `Max` goes over is a completed tower session of the player
      with a floor. */
  lemma FloorOwner(ss: map<int, GameSession>, playerId: string, g: GameSession) returns (i: int)
    requires g in Where(CompletedRows(ss, playerId), HasTowerFloor)
    ensures FloorReached(ss, playerId, i) && ss[i] == g
  {
    var ids, rows := CompletedOrder(ss, playerId), CompletedRows(ss, playerId);
    var k :| 0 <= k < |rows| && rows[k] == g;
    i := ids[k];
  }

  /** No completed tower session of the player has a floor above the
      highest floor. */
  lemma HighestFloorBound(ss: map<int, GameSession>, playerId: string, i: int)
    requires FloorReached(ss, playerId, i)
    ensures ss[i].towerFloor.value <= GetPlayerStats(ss, playerId).highestTowerFloor
  {
    var floors := Where(CompletedRows(ss, playerId), HasTowerFloor);
    FloorListed(ss, playerId, i);
    MaxIsMax(floors, FloorOrZero);
    var j :| 0 <= j < |floors| && floors[j] == ss[i];
  }

  /** The highest floor is the floor of one of the player's completed tower
      sessions, or 0 when none of them has a floor. */
  lemma HighestFloorAttained(ss: map<int, GameSession>, playerId: string)
    ensures var h := GetPlayerStats(ss, playerId).highestTowerFloor;
      || (exists i :: FloorReached(ss, playerId, i) && ss[i].towerFloor.value == h)
      || (h == 0 && forall i :: !FloorReached(ss, playerId, i))
  {
    var h := GetPlayerStats(ss, playerId).highestTowerFloor;
    var floors := Where(CompletedRows(ss, playerId), HasTowerFloor);
    if floors != [] {
      MaxIsMax(floors, FloorOrZero);
      var j :| 0 <= j < |floors| && FloorOrZero(floors[j]) == h;
      var i := FloorOwner(ss, playerId, floors[j]);
      assert FloorReached(ss, playerId, i) && ss[i].towerFloor.value == h;
    } else {
      forall i | FloorReached(ss, playerId, i) ensures false {
        FloorListed(ss, playerId, i);
      }
    }
  }

  /** Rows read at the same ids from tables that agree there are equal. */
  lemma {:induction false} RowsAgree(a: map<int, GameSession>, b: map<int, GameSession>, ids: seq<int>)
    requires forall k :: 0 <= k < |ids| ==> ids[k] in a && ids[k] in b && a[ids[k]] == b[ids[k]]
    ensures RowsOf(a, ids) == RowsOf(b, ids)
  {
    if ids != [] {
      RowsAgree(a, b, ids[1..]);
    }
  }

  /** A player's statistics depend only on that player's completed
      sessions. */
  lemma StatsOwnSessions(a: map<int, GameSession>, b: map<int, GameSession>, playerId: string)
    requires CompletedIds(a, playerId) == CompletedIds(b, playerId)
    requires forall i :: i in CompletedIds(a, playerId) ==> a[i] == b[i]
    ensures GetPlayerStats(a, playerId) == GetPlayerStats(b, playerId)
  {
    var ids := CompletedOrder(a, playerId);
    assert ids == CompletedOrder(b, playerId);
    RowsAgree(a, b, ids);
  }

  /** Starting a session changes nobody's statistics: the new session is
      not completed. */
  lemma StatsAfterStart(ss: map<int, GameSession>, id: int, g: GameSession, playerId: string)
    requires id !in ss && g.isCompleted == Some(false)
    ensures GetPlayerStats(ss[id := g], playerId) == GetPlayerStats(ss, playerId)
  {
    assert CompletedIds(ss[id := g], playerId) == CompletedIds(ss, playerId);
    StatsOwnSessions(ss[id := g], ss, playerId);
  }

  /** Completing a session of another player leaves a player's statistics
      unchanged. */
  lemma StatsAfterOthersComplete(ss: map<int, GameSession>, id: int, finalScore: Option<Int32>,
                                 enemyDefeated: bool, now: Time, playerId: string)
    requires id in ss && ss[id].playerId != playerId
    ensures GetPlayerStats(ss[id := Finished(ss[id], finalScore, enemyDefeated, now)], playerId) ==
      GetPlayerStats(ss, playerId)
  {
    var after := ss[id := Finished(ss[id], finalScore, enemyDefeated, now)];
    assert CompletedIds(after, playerId) == CompletedIds(ss, playerId);
    StatsOwnSessions(after, ss, playerId);
  }

  /** Completing one of the player's sessions counts it once more as
      played, unless it was already completed. */
  lemma PlayedAfterComplete(ss: map<int, GameSession>, id: int, finalScore: Option<Int32>,
                            enemyDefeated: bool, now: Time)
    requires id in ss
    ensures var p, f := ss[id].playerId, Finished(ss[id], finalScore, enemyDefeated, now);
      GetPlayerStats(ss[id := f], p).totalGamesPlayed ==
        GetPlayerStats(ss, p).totalGamesPlayed + (if ss[id].isCompleted == Some(true) then 0 else 1)
  {
    var p, f := ss[id].playerId, Finished(ss[id], finalScore, enemyDefeated, now);
    StatsCounts(ss, p);
    StatsCounts(ss[id := f], p);
    CompletedAfterFinish(ss, id, f);
    var S := CompletedIds(ss, p);
    if ss[id].isCompleted == Some(true) {
      assert S + {id} == S;
    } else {
      assert id !in S;
    }
  }

  /** Completing one of the player's sessions that was not yet completed
      counts it once more as won exactly when the enemy was defeated. */
  lemma WonAfterComplete(ss: map<int, GameSession>, id: int, finalScore: Option<Int32>,
                         enemyDefeated: bool, now: Time)
    requires id in ss && ss[id].isCompleted != Some(true)
    ensures var p, f := ss[id].playerId, Finished(ss[id], finalScore, enemyDefeated, now);
      GetPlayerStats(ss[id := f], p).totalGamesWon ==
        GetPlayerStats(ss, p).totalGamesWon + (if enemyDefeated then 1 else 0)
  {
    var p, f := ss[id].playerId, Finished(ss[id], finalScore, enemyDefeated, now);
    StatsCounts(ss, p);
    StatsCounts(ss[id := f], p);
    CompletedAfterFinish(ss, id, f);
    var S := CompletedIds(ss, p);
    assert id !in S;
    HavingAfterWrite(ss, S, id, f, Won);
  }

  /** Finishing a session adds it to its player's completed sessions. */
  lemma CompletedAfterFinish(ss: map<int, GameSession>, id: int, f: GameSession)
    requires id in ss && f.playerId == ss[id].playerId && f.isCompleted == Some(true)
    ensures CompletedIds(ss[id := f], f.playerId) == CompletedIds(ss, f.playerId) + {id}
  {
    var A, B := CompletedIds(ss[id := f], f.playerId), CompletedIds(ss, f.playerId) + {id};
    forall i ensures i in A <==> i in B {
      if i != id {
        assert i in ss[id := f] <==> i in ss;
      }
    }
  }

  /** Writing an id outside `S` adds it to the qualifying ids exactly when
      the written row qualifies. */
  lemma HavingAfterWrite(ss: map<int, GameSession>, S: set<int>, id: int, f: GameSession, p: GameSession -> bool)
    requires id !in S
    ensures Having(ss[id := f], S + {id}, p) == Having(ss, S, p) + (if p(f) then {id} else {})
  {
    var A, B := Having(ss[id := f], S + {id}, p), Having(ss, S, p) + (if p(f) then {id} else {});
    forall i ensures i in A <==> i in B {
      if i != id {
        assert i in ss[id := f] <==> i in ss;
      }
    }
  }
}
