# MatchAPI ranking, progression and economy model

A Dafny model of the ASP.NET Core controllers of the Match-3 game backend
(MatchAPI). These controllers keep the game's competitive and progression
state:

- the season leaderboards and their ranks (`LeaderboardController`);
- the per-level progress records and the progress summary (`PlayerProgressController`);
- the player's coins, registration, profile and upgrade levels (`PlayerController`);
- the game sessions, their rewards and the per-player statistics (`GameSessionController`).

The database is one object, `Database.Store`, a class with one map field per
table plus an identity counter per table. Its `Valid()` predicate holds:

- the unique indexes of the schema:
  - one leaderboard entry per (player, season);
  - one progress record per (player, chapter, level);
  - one upgrade per (player, upgrade type), with types compared case-insensitively;
- the foreign keys to players, seasons and chapters;
- the column-length limits the controllers can violate.

Each controller action is a method that changes only the tables it names in
its `modifies` clause. Failure results are `Result` values:

- `NotFound`, `BadRequest` — the 404 and 400 responses;
- `Invalid` — the 400 the automatic model validation of `[ApiController]` returns for a bound entity that violates its `[StringLength]` attributes;
- `Conflict` — the 409 response;
- `ServerError` — the exception a failing `SaveChanges` raises.

Queries are functions on the tables.

Things the model takes as parameters or reads in a fixed way:

- **Clock:** the reading of `DateTime.Now`, `DateTime.UtcNow` or `getdate()` is a `Time` parameter.
- **Random draws:** the values `Random.Shared.Next` would return are a sequence parameter.
- **Null columns on insert:** a null value inserted into a column with a database default takes that default.
- **32-bit arithmetic:** C#'s unchecked `int` addition wraps modulo 2^32, as `Records.Wrap32` states.

Ordering rules:

- `ORDER BY` and `OrderByDescending` are modelled as a sort by a strict total order.
- A null key sorts last in descending order.
- Ties are broken by a fixed key, which the source leaves to the database:
  - leaderboard entries: `LeaderboardId`;
  - tower rows: `PlayerId`;
  - completed sessions: `SessionId`;
  - progress records: `ProgressId`. A player's records are read in ascending ProgressId (`Rows`, `Group`); among finished records with equal completion dates, `LatestCompleted` picks the smallest ProgressId.

Where the code departs from what the game's design promises, the model
follows the code:

- `UpdateCoins` clamps a negative balance to zero instead of rejecting the debit.
- `UpdatePlayerUpgrade` accepts any level, including a lower one or one above 15.
- `PutLeaderboard` overwrites the score instead of keeping the maximum.
- `PutPlayerProgress` can set `IsCompleted` back to false.
- No action debits coins together with an upgrade.

Modules:

| file | module | contents |
|---|---|---|
| wrappers.dfy | Wrappers | `Option`, `Result` |
| records.dfy | Records | the rows, the error kinds `Missing` and `ApiError`, `Int32`, unchecked addition, reward crediting, column defaults |
| text.dfy | Text | ASCII lower-casing, decimal printing, ordinal string order |
| database.dfy | Database | `Store` and its invariants |
| sorting.dfy | Sorting | sorting a set by a strict total order, `Take`, null-last descending keys |
| aggregates.dfy | Aggregates | LINQ `Count`, `Sum`, `Max`, `Where` |
| ranking.dfy | Ranking | the score order and the dense re-ranking of a season |
| leaderboard_controller.dfy | LeaderboardController | the leaderboard actions |
| progress_controller.dfy | ProgressController | the progress actions and summary |
| player_controller.dfy | PlayerController | coins, registration, profile, upgrades |
| game_session_controller.dfy | GameSessionController | sessions, rewards, statistics |

## Model

| member | source | states |
|---|---|---|
| Records.Wrap32 | MatchAPI/Controllers/PlayerController.cs:261 | C#'s unchecked `int` addition: the exact sum when it fits in 32 bits, otherwise the 32-bit value congruent to it modulo 2^32 |
| Records.Credited | MatchAPI/Controllers/PlayerProgressController.cs:107-110 | a non-positive reward leaves the coins untouched; a positive reward sets them (null read as 0) to a value congruent to coins + reward, and exactly to coins + reward, strictly more than before, when that fits in an `int` |
| Records.StoredOrDefault | MatchAPI/Models2/DBContextTest2.cs:69-72 | an inserted nullable column is never null: a supplied value is stored as given, a null one takes the column default |
| Text.LowerFacts | MatchAPI/Controllers/PlayerController.cs:288 | lower-casing keeps the length, leaves no capital letter, changes no other character and is idempotent |
| Text.DecimalLength | MatchAPI/Controllers/PlayerController.cs:244 | a number with k decimal digits prints as exactly k characters |
| Text.DecimalRoundTrip | MatchAPI/Controllers/PlayerController.cs:244 | reading back the printed digits of a number gives the number |
| Text.DecimalInjective | MatchAPI/Controllers/PlayerController.cs:244 | two numbers with the same printed form are equal |
| Sorting.Take | MatchAPI/Controllers/LeaderboardController.cs:26 | LINQ's in-memory `Take(limit)`: a prefix of min(limit, n) rows, none for a limit of 0 or less (the database's behaviour for a negative limit is under Left out) |
| Sorting.TopBy | MatchAPI/Controllers/LeaderboardController.cs:25-26 | ORDER BY then Take: the rows come from the set, each at most once, in order, their number clamped by the limit, and every row left out comes after every row returned |
| Ranking.ScoreOrderMeaning | MatchAPI/Controllers/LeaderboardController.cs:215 | the ranking order puts a higher score first, a null score last, and equal scores by ascending LeaderboardId |
| Ranking.ScoreOrderTotal | MatchAPI/Controllers/LeaderboardController.cs:215 | that order is a strict total order, so the ranking query has one answer |
| Ranking.SeasonOrder | MatchAPI/Controllers/LeaderboardController.cs:213-225 | the ranking query lists exactly the season's entries, each once, in score order |
| Ranking.Reranked | MatchAPI/Controllers/LeaderboardController.cs:207-233 | re-ranking a season keeps every row, writes nothing but Rank, and leaves other seasons' entries untouched |
| Ranking.RankIsPosition | MatchAPI/Controllers/LeaderboardController.cs:227-230 | the entry at position i of the ranking query gets rank i + 1 |
| Ranking.PositionOf | MatchAPI/Controllers/LeaderboardController.cs:227-230 | every entry of the season sits at some position of the query, and its rank is that position plus one |
| Ranking.RanksInRange | MatchAPI/Controllers/LeaderboardController.cs:227-230 | after re-ranking, every entry of a season of N entries has a rank between 1 and N |
| Ranking.RankHolder | MatchAPI/Controllers/LeaderboardController.cs:227-230 | every rank from 1 to N is held by some entry of the season |
| Ranking.RanksUsed | MatchAPI/Controllers/LeaderboardController.cs:227-230 | the ranks 1..N are all in use (no gaps) |
| Ranking.RanksDistinct | MatchAPI/Controllers/LeaderboardController.cs:227-230 | no two entries of a season share a rank, even with equal scores |
| Ranking.RerankedOrdered | MatchAPI/Controllers/LeaderboardController.cs:213-230 | a smaller rank holds exactly when the entry outranks the other: higher score, or the same score and an earlier id |
| Ranking.LowerRankNotLowerScore | MatchAPI/Controllers/LeaderboardController.cs:213-230 | an entry with a better rank never has a lower score than one with a worse rank |
| Ranking.RerankedIdempotent | MatchAPI/Controllers/LeaderboardController.cs:207-233 | re-ranking twice is the same as re-ranking once |
| Ranking.SeasonGrows | MatchAPI/Controllers/LeaderboardController.cs:144-148 | inserting a new entry adds exactly one entry to its season |
| Ranking.DeleteRedensifies | MatchAPI/Controllers/LeaderboardController.cs:197-202 | after a delete and re-rank, the N - 1 remaining entries hold exactly the ranks 1..N-1 |
| LeaderboardController.TopByScore | MatchAPI/Controllers/LeaderboardController.cs:25-26 | the top entries by score are distinct, ordered so each outranks the next, and outrank every entry left out |
| LeaderboardController.GetLeaderboard | MatchAPI/Controllers/LeaderboardController.cs:19-40 | returns min(limit, all entries) rows, each showing one entry with its player's name, each row outranking the next and every entry not shown |
| LeaderboardController.GetSeasonLeaderboard | MatchAPI/Controllers/LeaderboardController.cs:43-63 | the same, restricted to the season's entries |
| LeaderboardController.EntriesByDate | MatchAPI/Controllers/LeaderboardController.cs:69-73 | lists exactly the player's entries, newest CreatedDate first, a null date last |
| LeaderboardController.PlayerRows | MatchAPI/Controllers/LeaderboardController.cs:74-84 | the projected rows show the player's entries, each one, newest first |
| LeaderboardController.GetPlayerRanking | MatchAPI/Controllers/LeaderboardController.cs:66-92 | NotFound exactly when the player has no entry; otherwise all the player's entries, newest first |
| LeaderboardController.TowerOrderMeaning | MatchAPI/Controllers/LeaderboardController.cs:100 | the tower order puts a higher TowerRecord first, ties by PlayerId |
| LeaderboardController.TowerBefore | MatchAPI/Controllers/LeaderboardController.cs:100 | a player listed before another has a record at least as high |
| LeaderboardController.TowerRowsOrdered | MatchAPI/Controllers/LeaderboardController.cs:98-110 | the rows are numbered 1, 2, ... in order, show their player's record, and every player left out is not ahead of anyone listed |
| LeaderboardController.TowerIds | MatchAPI/Controllers/LeaderboardController.cs:98-101 | the players with a positive record, min(limit, count) of them, distinct and in tower order, ahead of everyone cut |
| LeaderboardController.GetTowerLeaderboard | MatchAPI/Controllers/LeaderboardController.cs:94-113 | only players with TowerRecord > 0, at most `limit`, best first, `Rank` = position + 1, and no omitted player ahead of a listed one |
| LeaderboardController.NumberInOrder | MatchAPI/Controllers/LeaderboardController.cs:227-230 | the loop sets the k-th listed entry's Rank to k + 1 and changes nothing else |
| LeaderboardController.NumberedIsReranked | MatchAPI/Controllers/LeaderboardController.cs:207-233 | numbering the ranking query in order gives exactly the re-ranked table |
| LeaderboardController.RankSeason | MatchAPI/Controllers/LeaderboardController.cs:207-233 | ranking with no season id ranks season 1; the result is the re-ranked table |
| LeaderboardController.UpdateRanks | MatchAPI/Controllers/LeaderboardController.cs:207-233 | the stored leaderboard becomes the re-ranked one and the database stays valid |
| LeaderboardController.InsertValid | MatchAPI/Models2/Leaderboard.cs:10 | a new entry for a (player, season) pair without one keeps the unique index and the foreign keys |
| LeaderboardController.RemoveValid | MatchAPI/Controllers/LeaderboardController.cs:198 | removing an entry keeps the leaderboard valid |
| LeaderboardController.RescoreValid | MatchAPI/Controllers/LeaderboardController.cs:163 | changing a score keeps the leaderboard valid |
| LeaderboardController.RerankedValid | MatchAPI/Controllers/LeaderboardController.cs:227-231 | re-ranking keeps the leaderboard valid |
| LeaderboardController.PostLeaderboard | MatchAPI/Controllers/LeaderboardController.cs:116-151 | BadRequest for a missing player, or for a season id given but missing; ServerError when the default season 1 is missing or the player already has an entry in the stored season; otherwise one new entry under the next id, with CreatedDate = now, and the season re-ranked |
| LeaderboardController.PutLeaderboard | MatchAPI/Controllers/LeaderboardController.cs:154-185 | NotFound exactly for an unknown id; otherwise the score is replaced and the entry's season re-ranked |
| LeaderboardController.DeleteLeaderboard | MatchAPI/Controllers/LeaderboardController.cs:188-205 | NotFound exactly for an unknown id; otherwise the entry is gone and its season re-ranked |
| ProgressController.FindRecord | MatchAPI/Controllers/PlayerProgressController.cs:66-69 | finds the record of (player, chapter, level) when there is one, and reports none only when there is none |
| ProgressController.Merged | MatchAPI/Controllers/PlayerProgressController.cs:73-89 | the new score replaces the stored best exactly when it beats it (a null best read as 0), and otherwise the best is kept as stored, a null best staying null; so the best read as 0 becomes the maximum of the two; the level is marked completed; the completion date is set to now exactly when the score improves or the level was not completed; nothing else changes |
| ProgressController.MergeTwice | MatchAPI/Controllers/PlayerProgressController.cs:73-89 | submitting the same score again changes nothing, even at a later time |
| ProgressController.MergeValid | MatchAPI/Models2/PlayerProgress.cs:10 | merging into a record keeps the unique index and the foreign keys |
| ProgressController.AddValid | MatchAPI/Models2/PlayerProgress.cs:10 | adding a record for a (player, chapter, level) without one keeps them |
| ProgressController.RewardValid | MatchAPI/Controllers/PlayerProgressController.cs:107-110 | changing a player's coins keeps the player table valid |
| ProgressController.CompleteLevel | MatchAPI/Controllers/PlayerProgressController.cs:51-115 | BadRequest for a missing player or chapter and nothing changes; otherwise the existing record is merged or a new completed record is added, and the coins are credited when the reward is positive |
| ProgressController.Revised | MatchAPI/Controllers/PlayerProgressController.cs:178-190 | the best score is replaced only by a strictly greater supplied score (a null stored best is never replaced); IsCompleted takes the supplied value; a completion date is set to now only when completing a record that had none; nothing else changes |
| ProgressController.RevisedNeverLowers | MatchAPI/Controllers/PlayerProgressController.cs:178-181 | an update never lowers the best score |
| ProgressController.ReviseValid | MatchAPI/Models2/PlayerProgress.cs:10 | updating a record keeps the progress table valid |
| ProgressController.PutPlayerProgress | MatchAPI/Controllers/PlayerProgressController.cs:170-209 | NotFound exactly for an unknown id; otherwise the record is revised |
| ProgressController.DeletePlayerProgress | MatchAPI/Controllers/PlayerProgressController.cs:213-225 | NotFound exactly for an unknown id; otherwise exactly that record is removed |
| ProgressController.Rows | MatchAPI/Controllers/PlayerProgressController.cs:127-130 | lists each of the player's records exactly once |
| ProgressController.RowsCount | MatchAPI/Controllers/PlayerProgressController.cs:136 | counting over the listed rows counts the player's records that pass the test |
| ProgressController.Group | MatchAPI/Controllers/PlayerProgressController.cs:139 | a chapter's group holds exactly the player's records of that chapter, each once |
| ProgressController.GroupBestIsMax | MatchAPI/Controllers/PlayerProgressController.cs:146 | a chapter's best score is the largest best score (null as 0) among its records and is attained by one |
| ProgressController.ChapterOf | MatchAPI/Controllers/PlayerProgressController.cs:140-148 | a chapter's line shows that chapter's id and name |
| ProgressController.ChapterCounts | MatchAPI/Controllers/PlayerProgressController.cs:144-146 | a chapter's line counts its completed records and all its records, and shows their best score |
| ProgressController.ChapterList | MatchAPI/Controllers/PlayerProgressController.cs:138-150 | one line per listed chapter |
| ProgressController.RecordsInSplit | MatchAPI/Controllers/PlayerProgressController.cs:139 | the records of a list of chapters split into those of its first chapter and those of the rest |
| ProgressController.ChaptersPartition | MatchAPI/Controllers/PlayerProgressController.cs:139-145 | the chapter lines' TotalLevels add up to the records of those chapters, and their CompletedLevels to the completed ones |
| ProgressController.LatestCompleted | MatchAPI/Controllers/PlayerProgressController.cs:151-162 | none exactly when no completed record has a completion date; otherwise such a record with the latest date |
| ProgressController.ChapterOrder | MatchAPI/Controllers/PlayerProgressController.cs:139-149 | the player's chapters, each once, each with at least one record, in ascending id |
| ProgressController.SummaryOf | MatchAPI/Controllers/PlayerProgressController.cs:132-163 | the summary's fields: player name, completed count, total of best scores, the chapter lines in id order, the latest completion |
| ProgressController.GetPlayerProgressSummary | MatchAPI/Controllers/PlayerProgressController.cs:119-166 | NotFound exactly for an unknown player; otherwise the summary |
| ProgressController.ListedChapterIds | MatchAPI/Controllers/PlayerProgressController.cs:142 | the k-th chapter line is about the k-th listed chapter |
| ProgressController.SummaryChapters | MatchAPI/Controllers/PlayerProgressController.cs:138-150 | the summary's chapter lines cover exactly the chapters the player has records in, in ascending id, each once |
| ProgressController.SummaryPartition | MatchAPI/Controllers/PlayerProgressController.cs:136-150 | the chapter lines' TotalLevels add up to the player's record count and their CompletedLevels to TotalLevelsCompleted |
| ProgressController.AllChaptersCovered | MatchAPI/Controllers/PlayerProgressController.cs:139 | every record of the player, and every completed one, belongs to some listed chapter |
| PlayerController.FlooredCoins | MatchAPI/Controllers/PlayerController.cs:261-267 | the new balance is never negative: the wrapped sum when that is non-negative, otherwise 0; the exact sum when no wrap-around occurs and it is non-negative |
| PlayerController.FlooredMonotone | MatchAPI/Controllers/PlayerController.cs:261-267 | without overflow, a larger change never gives a smaller balance, and a zero change keeps a non-negative balance |
| PlayerController.ReplacePlayerValid | MatchAPI/Models2/DBContextTest2.cs:114-121 | replacing a player with a row that fits the columns keeps every table valid |
| PlayerController.AddPlayerValid | MatchAPI/Models2/DBContextTest2.cs:114-121 | adding a new player that fits the columns keeps every table valid |
| PlayerController.UpdateCoins | MatchAPI/Controllers/PlayerController.cs:253-272 | NotFound exactly for an unknown player; otherwise only that player's coins change, to the floored balance, which is returned |
| PlayerController.LevelsEntry | MatchAPI/Controllers/PlayerController.cs:286-290 | every upgrade of the player appears in the dictionary under its lower-cased type with its level (null as 1) |
| PlayerController.LevelsSource | MatchAPI/Controllers/PlayerController.cs:286-290 | every dictionary entry comes from one of the player's upgrades |
| PlayerController.GetPlayerUpgrades | MatchAPI/Controllers/PlayerController.cs:276-293 | NotFound exactly for an unknown player; a ServerError (the duplicate-key exception of `ToDictionary`) exactly when two of the player's types collide once lower-cased; otherwise the dictionary |
| PlayerController.StoredTypesDistinct | MatchAPI/Models2/Upgrade.cs:9 | under the unique index, a player's lower-cased types never collide, so the dictionary is always built |
| PlayerController.FindUpgrade | MatchAPI/Controllers/PlayerController.cs:307-309 | finds the player's upgrade whose type matches case-insensitively, and reports none only when there is none |
| PlayerController.UpsertedUnique | MatchAPI/Models2/Upgrade.cs:9 | updating the matched upgrade, or adding one when none matched, keeps one upgrade per player and type |
| PlayerController.LevelsAfterWrite | MatchAPI/Controllers/PlayerController.cs:286-290 | writing one row of the player whose key is its own sets that key of the dictionary and leaves the other keys |
| PlayerController.LevelsOwnRows | MatchAPI/Controllers/PlayerController.cs:286 | the dictionary depends only on the player's own rows |
| PlayerController.UpsertedLevels | MatchAPI/Controllers/PlayerController.cs:297-332 | after an upsert, the player's dictionary is the old one with the lower-cased type set to the new level |
| PlayerController.UpsertedOthers | MatchAPI/Controllers/PlayerController.cs:297-332 | an upsert leaves every other player's dictionary unchanged |
| PlayerController.UpsertedRow | MatchAPI/Controllers/PlayerController.cs:308-327 | the upsert leaves exactly one matching row, holding the new level, and keeps the upgrade table valid |
| PlayerController.UpsertedLookup | MatchAPI/Controllers/PlayerController.cs:276-332 | reading the upgrades back after an upsert succeeds and gives the old dictionary with that type set to the new level |
| PlayerController.UpdatePlayerUpgrade | MatchAPI/Controllers/PlayerController.cs:297-332 | NotFound exactly for an unknown player; ServerError exactly when a new row would hold a type longer than its column; otherwise the matched row gets the level and UpdatedDate, or a row is added under the next id, and no other row changes |
| PlayerController.PlayerIdShape | MatchAPI/Controllers/PlayerController.cs:244 | an id drawn from [10000000, 99999999) is "PLR" followed by 8 digits, and different draws give different ids |
| PlayerController.FirstFreeId | MatchAPI/Controllers/PlayerController.cs:238-249 | the id of the first draw not already taken; it is not taken and comes from a draw |
| PlayerController.GenerateUniquePlayerId | MatchAPI/Controllers/PlayerController.cs:238-249 | the do-while loop returns the first draw's id that is not taken, 11 characters long |
| PlayerController.Registered | MatchAPI/Controllers/PlayerController.cs:207-221 | a registered player starts with 100 coins, tower record 0, active, both dates now, equipped "Sword", and the gender and language given or their column defaults |
| PlayerController.RegisterPlayer | MatchAPI/Controllers/PlayerController.cs:191-236 | Conflict exactly when a non-empty email is already used; ServerError exactly when the new row does not fit its columns; nothing changes on failure; otherwise the new player is stored under a fresh id |
| PlayerController.Posted | MatchAPI/Controllers/PlayerController.cs:143-147 | a posted player gets both dates now, active, 0 coins, tower record 0; a supplied gender, language or weapon is kept and a null one becomes "Male", "English" or "Sword"; every other field is kept |
| PlayerController.PostPlayer | MatchAPI/Controllers/PlayerController.cs:140-167 | a bound player violating a `[StringLength]` attribute of the entity is a 400 (`Invalid`) before the action runs, whatever the id; otherwise Conflict exactly for an id already used; otherwise the posted row is stored; nothing changes on failure |
| PlayerController.PostedFits | MatchAPI/Models2/Player.cs:13-35 | the defaults PostPlayer fills in fit their columns, so a validated row still fits once posted |
| PlayerController.Profiled | MatchAPI/Controllers/PlayerController.cs:116-125 | name, gender and language change only when supplied non-empty; LastLoginDate becomes now; nothing else changes |
| PlayerController.ProfiledTwice | MatchAPI/Controllers/PlayerController.cs:116-125 | applying the same profile update twice is the same as once, except that the later time is kept; an empty update only touches LastLoginDate |
| PlayerController.UpdatePlayerProfile | MatchAPI/Controllers/PlayerController.cs:108-136 | NotFound exactly for an unknown player; ServerError exactly when the new row does not fit its columns; otherwise the player is replaced by the profiled row |
| GameSessionController.Started | MatchAPI/Controllers/GameSessionController.cs:63-72 | a new session: mode as given or "Chapter", started now, not ended, not completed, score 0, enemy not defeated |
| GameSessionController.StartGameSession | MatchAPI/Controllers/GameSessionController.cs:55-78 | BadRequest exactly for a missing player; ServerError exactly when the mode is too long or the chapter is missing; otherwise the session is stored under the next id and nothing else changes |
| GameSessionController.Finished | MatchAPI/Controllers/GameSessionController.cs:90-93 | completion sets the end time to now, marks the session completed, and stores the final score and the defeat flag; nothing else changes |
| GameSessionController.Rewarded | MatchAPI/Controllers/GameSessionController.cs:95-113 | only coins and tower record change: a win credits a positive reward; the record changes exactly for a won "Tower" session whose floor beats the stored, non-null record, and then becomes that floor |
| GameSessionController.TowerRecordHighWater | MatchAPI/Controllers/GameSessionController.cs:106-113 | the tower record never decreases and a null record stays null; a lost session leaves the player as it was |
| GameSessionController.FinishedValid | MatchAPI/Controllers/GameSessionController.cs:90-115 | completing a session and rewarding its player keeps the session table valid |
| GameSessionController.CompleteGameSession | MatchAPI/Controllers/GameSessionController.cs:82-118 | NotFound exactly for an unknown session; otherwise the session is finished and its player rewarded, and nothing else changes |
| GameSessionController.GetPlayerStats | MatchAPI/Controllers/GameSessionController.cs:122-141 | games won, chapter games and tower games never exceed games played, and no completed game gives all statistics 0; StatsCounts, StatsBounds, HighestFloorBound and HighestFloorAttained state what each field counts |
| GameSessionController.RowsOf | MatchAPI/Controllers/GameSessionController.cs:124-126 | the rows of the listed ids, in order |
| GameSessionController.CompletedOrder | MatchAPI/Controllers/GameSessionController.cs:124-126 | lists each of the player's completed sessions exactly once |
| GameSessionController.CountRows | MatchAPI/Controllers/GameSessionController.cs:130-136 | counting the listed rows counts the completed sessions that pass the test |
| GameSessionController.StatsCounts | MatchAPI/Controllers/GameSessionController.cs:122-141 | games played is the number of the player's completed sessions; games won, chapter games and tower games are the numbers of those that were won, are "Chapter", or are "Tower" |
| GameSessionController.StatsBounds | MatchAPI/Controllers/GameSessionController.cs:130-136 | won never exceed played, and chapter plus tower games never exceed played |
| GameSessionController.FloorListed | MatchAPI/Controllers/GameSessionController.cs:137 | every completed tower session with a floor takes part in the maximum |
| GameSessionController.FloorOwner | MatchAPI/Controllers/GameSessionController.cs:137 | everything that takes part in the maximum is such a session |
| GameSessionController.HighestFloorBound | MatchAPI/Controllers/GameSessionController.cs:137 | every completed tower session's floor is at most the highest floor reported |
| GameSessionController.HighestFloorAttained | MatchAPI/Controllers/GameSessionController.cs:137 | the highest floor reported is the floor of some completed tower session, or 0 when none has a floor |
| GameSessionController.StatsOwnSessions | MatchAPI/Controllers/GameSessionController.cs:124-126 | the statistics depend only on the player's own completed sessions |
| GameSessionController.StatsAfterStart | MatchAPI/Controllers/GameSessionController.cs:63-77 | starting a session changes no player's statistics |
| GameSessionController.StatsAfterOthersComplete | MatchAPI/Controllers/GameSessionController.cs:82-118 | completing another player's session leaves a player's statistics unchanged |
| GameSessionController.PlayedAfterComplete | MatchAPI/Controllers/GameSessionController.cs:90-93 | completing a session raises its player's games played by one, unless it was already completed |
| GameSessionController.WonAfterComplete | MatchAPI/Controllers/GameSessionController.cs:90-93 | completing a not yet completed session raises games won by one exactly when the enemy was defeated |
| GameSessionController.CompletedAfterFinish | MatchAPI/Controllers/GameSessionController.cs:92 | a finished session joins its player's completed sessions |
| Aggregates.MaxIsMax | MatchAPI/Controllers/GameSessionController.cs:137 | LINQ's `Max` of a non-empty sequence is at least every element and is one of them |
| Aggregates.CountIsCard | MatchAPI/Controllers/GameSessionController.cs:131 | counting over a listing with no repeats gives the size of the selected set |
| Aggregates.CountDisjoint | MatchAPI/Controllers/GameSessionController.cs:135-136 | counts of two tests that never both hold add up to at most the length |

## Left out

- Concurrency: the `DbUpdateConcurrencyException` handlers of the PUT actions, and interleaved requests. Each action is one atomic step.
- The database triggers `tr_UpdateLastLogin` and `tr_UpdateLeaderboard` on the Players table (MatchAPI/Models2/DBContextTest2.cs:110-111): they fire on every insert or update of a player, so in RegisterPlayer, PostPlayer, UpdateCoins, UpdatePlayerProfile, CompleteLevel and CompleteGameSession. Their bodies are not part of this model, so their effects (by their names, on LastLoginDate and on leaderboard rows) are not modelled, and the contracts saying that nothing else changes hold only without them.
- Floating point results, because Dafny has no `double`:
  - `CompletionPercentage` of the progress summary;
  - `AverageScore` and `WinRate` of the player statistics.
- Text.Lower: lower-cases ASCII letters only. `ToLower` is culture-aware. The unique upgrade index compares under the column collation; the model compares lower-cased types instead.
- PlayerController.EmailTaken: compares emails exactly, whereas SQL Server's default collation compares them case-insensitively.
- Player ids are compared exactly everywhere: the Players primary key, `FindAsync`, `PlayerExists`, the `PlayerId == ...` filters, and the (PlayerId, SeasonId) and (PlayerId, ChapterId, LevelNumber) unique indexes. Under the default case-insensitive collation "PLR12345678" and "plr12345678" are the same key. So PostPlayer with an id differing only in case is a Conflict in the database, where the model stores a second player, and lookups with a differently cased id find a row the model does not.
- Implicit `[Required]` validation of the request types' non-nullable strings is not modelled. These are `RegisterRequest.PlayerName` and `Password`, `UpdateUpgradeRequest.UpgradeType` and the `PlayerId` of the session, leaderboard and level-completion requests. If the project enables nullable reference types (its project file is not part of this model), an empty value is a 400 before the action runs. The model instead lets RegisterPlayer, UpdatePlayerUpgrade, StartGameSession, PostLeaderboard and CompleteLevel proceed with it. The same applies to two more cases. PlayerController.PostPlayer binds the `Player` entity, and its non-nullable `PlayerId`, `PlayerName` and `Password` (MatchAPI/Models2/Player.cs:14, 17, 20) would make an empty or whitespace value a 400; the model's `Invalid` checks only the `[StringLength]` limits. StartGameSessionRequest's `GameMode` (MatchAPI/Controllers/GameSessionController.cs:164) is a non-nullable string with a default. The model reads a missing mode as "Chapter" and accepts an empty one.
- Aggregates.Sum: is unbounded. LINQ's `Sum` on `int` throws on overflow; that exception is not modelled.
- Sorting.Take: follows LINQ's in-memory `Take`, where a limit of 0 or less gives no rows. LeaderboardController.GetLeaderboard, LeaderboardController.GetSeasonLeaderboard and LeaderboardController.GetTowerLeaderboard (MatchAPI/Controllers/LeaderboardController.cs:26, 50, 101) translate `Take(limit)` to `TOP(@p)` in SQL. There a negative `limit` is an error and the action fails with a 500, where the model returns an empty list. The model's contracts for these three queries hold for a limit of 0 or more.
- LeaderboardController.GetTowerLeaderboard: takes the in-memory meaning of the indexed `Select((p, index) => ...)` at MatchAPI/Controllers/LeaderboardController.cs:102-109, where `Rank` = position + 1. On a database query EF Core may reject this overload as untranslatable, and then the action fails with a 500. The model does not capture that failure.
- The other actions: `LoginPlayer`, `ChapterController`, and the plain GET/PUT/DELETE of players. Neither are the GET actions and the DELETE of game sessions. These only copy fields, or read rows without computing anything.
- Weapons, tower progress and player settings, because no modelled action writes them.
- Identity values: an identity value consumed by a failed insert. The model advances a counter only on success.
- Tie-breaks:
  - rows with equal sort keys are ordered by a fixed key, described above;
  - the database may return such rows in any order;
  - the model fixes one order.
- GameSessionController.CompletedOrder: orders the statistics' sessions by id. The source computes only counts, sums and a maximum over them, so the order does not affect the result.
- Timestamps: the model reads the clock once per action where the source reads `DateTime.Now` twice. This covers `CreatedDate` and `UpdatedDate` of a new upgrade in UpdatePlayerUpgrade (MatchAPI/Controllers/PlayerController.cs:323-324). It also covers `CreatedDate` and `LastLoginDate` of a new player, set by PlayerController.Posted in PostPlayer (MatchAPI/Controllers/PlayerController.cs:143-144) and by PlayerController.Registered in RegisterPlayer (MatchAPI/Controllers/PlayerController.cs:215-216).
- PlayerController.GenerateUniquePlayerId: takes the draws as a parameter. It requires one of the draws to give a free id, so the run of the loop that never ends is not modelled.
- PlayerController.UpdatePlayerUpgrade: returns the written row. The source's response echoes the request's type and level; the stored level is the same.
- GameSessionController.CompleteGameSession: the foreign key of sessions guarantees their player exists. So the branch where that player is missing cannot occur and is not modelled.
- The error kinds of a failing `SaveChanges` (unique-key or length violation) are one `ServerError`.
