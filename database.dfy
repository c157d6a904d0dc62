/** The in-memory view of the database that every controller action works on
    (DBContextTest2). Each table is a map from its primary key to a flat row;
    each identity column has its counter. `Valid` collects the key, foreign-key
    and unique-index constraints the schema declares. */
module Database {
  import opened Wrappers
  import opened Records
  import Text

  /** Every player row is stored under its own id. */
  predicate PlayersKeyed(players: map<string, Player>) {
    forall k :: k in players ==> players[k].playerId == k
  }

  /** ... and fits its columns. */
  ghost predicate PlayersValid(players: map<string, Player>) {
    PlayersKeyed(players) && forall k :: k in players ==> PlayerFitsColumns(players[k])
  }

  /** The unique index on (PlayerId, SeasonId) (Leaderboard.cs:10). */
  ghost predicate OneEntryPerSeason(lb: map<int, LeaderboardEntry>) {
    forall a, b ::
      (a in lb && b in lb && lb[a].playerId == lb[b].playerId && lb[a].seasonId == lb[b].seasonId)
      ==> a == b
  }

  ghost predicate LeaderboardsValid(lb: map<int, LeaderboardEntry>, players: map<string, Player>,
                                    seasons: set<int>, next: int)
  {
    && (forall id :: id in lb ==>
          lb[id].leaderboardId == id && id < next &&
          lb[id].playerId in players && lb[id].seasonId in seasons)
    && OneEntryPerSeason(lb)
  }

  /** The unique index on (PlayerId, ChapterId, LevelNumber) (PlayerProgress.cs:10). */
  ghost predicate OneRecordPerLevel(pr: map<int, PlayerProgress>) {
    forall a, b ::
      (a in pr && b in pr && pr[a].playerId == pr[b].playerId &&
       pr[a].chapterId == pr[b].chapterId && pr[a].levelNumber == pr[b].levelNumber)
      ==> a == b
  }

  ghost predicate ProgressesValid(pr: map<int, PlayerProgress>, players: map<string, Player>,
                                  chapters: map<int, string>, next: int)
  {
    && (forall id :: id in pr ==>
          pr[id].progressId == id && id < next &&
          pr[id].playerId in players && pr[id].chapterId in chapters)
    && OneRecordPerLevel(pr)
  }

  /** The unique index on (PlayerId, UpgradeType) (Upgrade.cs:9), read through
      `ToLower` as the upgrade endpoints compare types. */
  ghost predicate OneUpgradePerType(up: map<int, Upgrade>) {
    forall a, b ::
      (a in up && b in up && up[a].playerId == up[b].playerId &&
       Text.Lower(up[a].upgradeType) == Text.Lower(up[b].upgradeType))
      ==> a == b
  }

  ghost predicate UpgradesValid(up: map<int, Upgrade>, players: map<string, Player>, next: int) {
    && (forall id :: id in up ==>
          up[id].upgradeId == id && id < next && up[id].playerId in players)
    && OneUpgradePerType(up)
  }

  ghost predicate SessionsValid(ss: map<int, GameSession>, players: map<string, Player>,
                                chapters: map<int, string>, next: int)
  {
    forall id :: id in ss ==>
      ss[id].sessionId == id && id < next && ss[id].playerId in players &&
      (ss[id].chapterId.Some? ==> ss[id].chapterId.value in chapters)
  }

  class Store {
    var players: map<string, Player>
    /** Seasons and chapters are maintained elsewhere; only their ids (and the
        chapter names the progress summary shows) matter here. */
    var seasons: set<int>
    var chapters: map<int, string>
    var leaderboards: map<int, LeaderboardEntry>
    var progresses: map<int, PlayerProgress>
    var upgrades: map<int, Upgrade>
    var sessions: map<int, GameSession>
    /** The next value of each identity column. */
    var nextLeaderboardId: int
    var nextProgressId: int
    var nextUpgradeId: int
    var nextSessionId: int

    ghost predicate Valid()
      reads this
    {
      && PlayersValid(players)
      && LeaderboardsValid(leaderboards, players, seasons, nextLeaderboardId)
      && ProgressesValid(progresses, players, chapters, nextProgressId)
      && UpgradesValid(upgrades, players, nextUpgradeId)
      && SessionsValid(sessions, players, chapters, nextSessionId)
    }

    /** A database holding the given seasons and chapters and nothing else. */
    constructor (seasons: set<int>, chapters: map<int, string>)
      ensures Valid()
      ensures this.seasons == seasons && this.chapters == chapters
      ensures players == map[] && leaderboards == map[] && progresses == map[]
      ensures upgrades == map[] && sessions == map[]
    {
      this.seasons := seasons;
      this.chapters := chapters;
      players := map[];
      leaderboards := map[];
      progresses := map[];
      upgrades := map[];
      sessions := map[];
      nextLeaderboardId := 1;
      nextProgressId := 1;
      nextUpgradeId := 1;
      nextSessionId := 1;
    }
  }
}
