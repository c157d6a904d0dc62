/** The rows of the game database that the controllers read and write
    (MatchAPI/Models2), as flat values. Navigation properties become ids;
    a nullable column is an `Option`; a C# `int` column is an `Int32`. */
module Records {
  import opened Wrappers

  /** The values of a C# `int`. */
  type Int32 = x: int | -0x8000_0000 <= x < 0x8000_0000

  const INT32_MAX: int := 0x7FFF_FFFF

  /** Two's-complement truncation of an exact sum to 32 bits: what C#'s
      unchecked `+` on `int` yields. */
  function Wrap32(x: int): (r: Int32)
    ensures -0x8000_0000 <= x <= INT32_MAX ==> r == x
    ensures (r - x) % 0x1_0000_0000 == 0
  {
    (x + 0x8000_0000) % 0x1_0000_0000 - 0x8000_0000
  }

  /** A player's coins after a reward of `earned`: credited with C#'s
      unchecked `int` addition (null read as 0) when positive, untouched
      otherwise. */
  function Credited(coins: Option<Int32>, earned: Int32): (r: Option<Int32>)
    ensures earned <= 0 ==> r == coins
    ensures earned > 0 ==> r.Some? && (r.value - coins.GetOr(0) - earned) % 0x1_0000_0000 == 0
    ensures earned > 0 && coins.GetOr(0) + earned <= INT32_MAX ==>
      r == Some(coins.GetOr(0) + earned) && r.value > coins.GetOr(0)
  {
    if earned > 0 then Some(Wrap32(coins.GetOr(0) + earned)) else coins
  }

  /** An opaque clock reading (`DateTime.Now`, `DateTime.UtcNow`, `getdate()`). */
  type Time = int

  /** C#'s lifted `>` on `int?`: false when either side is null. */
  predicate LiftedGreater(x: Option<int>, y: Option<int>) {
    x.Some? && y.Some? && x.value > y.value
  }

  /** The value an inserted nullable column gets: a null is left out of the
      INSERT, so the column's database default applies. */
  function StoredOrDefault<T>(x: Option<T>, default: T): (r: Option<T>)
    ensures r.Some?
    ensures x.Some? ==> r == x
  {
    if x.Some? then x else Some(default)
  }

  /** Players (MatchAPI/Models2/Player.cs). */
  datatype Player = Player(
    playerId: string,
    playerName: string,
    password: string,
    email: Option<string>,
    gender: Option<string>,
    languagePreference: Option<string>,
    towerRecord: Option<Int32>,
    coins: Option<Int32>,
    equippedWeapon: Option<string>,
    createdDate: Option<Time>,
    lastLoginDate: Option<Time>,
    isActive: Option<bool>)

  /** The nvarchar widths of the Players columns; a longer value makes the
      database reject the whole save. */
  predicate PlayerFitsColumns(p: Player) {
    && |p.playerId| <= 50
    && |p.playerName| <= 100
    && |p.password| <= 255
    && (p.email.Some? ==> |p.email.value| <= 100)
    && (p.gender.Some? ==> |p.gender.value| <= 20)
    && (p.languagePreference.Some? ==> |p.languagePreference.value| <= 20)
    && (p.equippedWeapon.Some? ==> |p.equippedWeapon.value| <= 50)
  }

  /** Leaderboard rows (MatchAPI/Models2/Leaderboard.cs). */
  datatype LeaderboardEntry = LeaderboardEntry(
    leaderboardId: int,
    playerId: string,
    seasonId: int,
    towerLevel: Int32,
    score: Option<Int32>,
    rank: Option<int>,
    createdDate: Option<Time>,
    updatedDate: Option<Time>)

  /** PlayerProgress rows (MatchAPI/Models2/PlayerProgress.cs). */
  datatype PlayerProgress = PlayerProgress(
    progressId: int,
    playerId: string,
    chapterId: int,
    levelNumber: Int32,
    isCompleted: Option<bool>,
    bestScore: Option<Int32>,
    completionDate: Option<Time>,
    attemptsCount: Option<Int32>)

  /** Upgrades rows (MatchAPI/Models2/Upgrade.cs). */
  datatype Upgrade = Upgrade(
    upgradeId: int,
    playerId: string,
    upgradeType: string,
    level: Option<Int32>,
    createdDate: Option<Time>,
    updatedDate: Option<Time>)

  /** GameSessions rows (MatchAPI/Models2/GameSession.cs). */
  datatype GameSession = GameSession(
    sessionId: int,
    playerId: string,
    gameMode: string,
    chapterId: Option<int>,
    levelNumber: Option<Int32>,
    towerFloor: Option<Int32>,
    startTime: Option<Time>,
    endTime: Option<Time>,
    isCompleted: Option<bool>,
    finalScore: Option<Int32>,
    enemyDefeated: Option<bool>)

  /** What a 400 response names as not found. */
  datatype Missing = MissingPlayer | MissingSeason | MissingChapter

  /** The error responses: 400 BadRequest naming what is missing, 400
      Invalid from the automatic model validation of an `[ApiController]`
      (a bound entity violating its `[StringLength]` attributes, rejected
      before the action runs), 404 NotFound, 409 Conflict, and 500 for a
      failed save (a handled DbUpdateException or an unhandled one). */
  datatype ApiError = BadRequest(missing: Missing) | Invalid | NotFound | Conflict | ServerError
}
