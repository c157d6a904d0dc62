/** PlayerProgressController: completing a level (best score merged by
    maximum, completion flag and date, coin reward), revising and deleting a
    progress record, and the per-player progress summary. */
module ProgressController {
  import opened Wrappers
  import opened Records
  import opened Sorting
  import opened Aggregates
  import opened Database

  /** A progress row's BestScore with null read as 0 (`BestScore ?? 0`). */
  function BestOrZero(e: PlayerProgress): int {
    e.bestScore.GetOr(0)
  }

  /** Record `id` is the one for this player, chapter and level. */
  predicate IsRecordFor(pr: map<int, PlayerProgress>, id: int, playerId: string, chapterId: int, level: Int32) {
    id in pr && pr[id].playerId == playerId && pr[id].chapterId == chapterId && pr[id].levelNumber == level
  }

  /** The lookup of the existing record for a player, chapter and level. */
  method FindRecord(pr: map<int, PlayerProgress>, playerId: string, chapterId: int, level: Int32)
    returns (found: Option<int>)
    ensures found.Some? ==> IsRecordFor(pr, found.value, playerId, chapterId, level)
    ensures found.None? ==> forall id :: !IsRecordFor(pr, id, playerId, chapterId, level)
  {
    if exists id :: id in pr && IsRecordFor(pr, id, playerId, chapterId, level) {
      var id :| id in pr && IsRecordFor(pr, id, playerId, chapterId, level);
      found := Some(id);
    } else {
      found := None;
    }
  }

  /** A completed level replayed onto its existing record: a better score
      (against a null best read as 0) replaces the best and stamps the date;
      a record not yet completed becomes completed and is stamped. */
  function Merged(e: PlayerProgress, score: Int32, now: Time): (r: PlayerProgress)
    ensures r.bestScore == if score > BestOrZero(e) then Some(score) else e.bestScore
    ensures BestOrZero(r) == if score > BestOrZero(e) then score else BestOrZero(e)
    ensures BestOrZero(r) >= BestOrZero(e) && BestOrZero(r) >= score
    ensures r.isCompleted == Some(true)
    ensures r.completionDate != e.completionDate ==> score > BestOrZero(e) || e.isCompleted != Some(true)
    ensures score > BestOrZero(e) || e.isCompleted != Some(true) ==> r.completionDate == Some(now)
    ensures r.(bestScore := e.bestScore, isCompleted := e.isCompleted, completionDate := e.completionDate) == e
  {
    var improved := if score > e.bestScore.GetOr(0) then e.(bestScore := Some(score), completionDate := Some(now)) else e;
    if improved.isCompleted != Some(true) then improved.(isCompleted := Some(true), completionDate := Some(now))
    else improved
  }

  /** Completing the same level again with the same score changes nothing,
      whatever the clock says. */
  lemma MergeTwice(e: PlayerProgress, score: Int32, now: Time, later: Time)
    ensures Merged(Merged(e, score, now), score, later) == Merged(e, score, now)
  {
    var once := Merged(e, score, now);
    assert !(score > BestOrZero(once)) && once.isCompleted == Some(true);
  }

  /** The row CompleteLevel inserts: completed now with the submitted score;
      AttemptsCount takes its column default 0. */
  function NewProgress(id: int, playerId: string, chapterId: int, level: Int32, score: Int32, now: Time): PlayerProgress {
    PlayerProgress(id, playerId, chapterId, level, Some(true), Some(score), Some(now), Some(0))
  }

  lemma MergeValid(pr: map<int, PlayerProgress>, players: map<string, Player>,
                   chapters: map<int, string>, next: int, id: int, score: Int32, now: Time)
    requires ProgressesValid(pr, players, chapters, next) && id in pr
    ensures ProgressesValid(pr[id := Merged(pr[id], score, now)], players, chapters, next)
  {
    var r := pr[id := Merged(pr[id], score, now)];
    forall a, b | a in r && b in r && r[a].playerId == r[b].playerId &&
      r[a].chapterId == r[b].chapterId && r[a].levelNumber == r[b].levelNumber
      ensures a == b
    {
      assert pr[a].playerId == pr[b].playerId && pr[a].chapterId == pr[b].chapterId;
    }
  }

  lemma AddValid(pr: map<int, PlayerProgress>, players: map<string, Player>,
                 chapters: map<int, string>, next: int, e: PlayerProgress)
    requires ProgressesValid(pr, players, chapters, next)
    requires e.progressId == next && e.playerId in players && e.chapterId in chapters
    requires forall id :: !IsRecordFor(pr, id, e.playerId, e.chapterId, e.levelNumber)
    ensures next !in pr
    ensures ProgressesValid(pr[next := e], players, chapters, next + 1)
  {
    var r := pr[next := e];
    forall a, b | a in r && b in r && r[a].playerId == r[b].playerId &&
      r[a].chapterId == r[b].chapterId && r[a].levelNumber == r[b].levelNumber
      ensures a == b
    {
      if a == next && b != next {
        assert IsRecordFor(pr, b, e.playerId, e.chapterId, e.levelNumber);
      } else if b == next && a != next {
        assert IsRecordFor(pr, a, e.playerId, e.chapterId, e.levelNumber);
      }
    }
  }

  lemma RewardValid(players: map<string, Player>, playerId: string, coins: Option<Int32>)
    requires PlayersValid(players) && playerId in players
    ensures PlayersValid(players[playerId := players[playerId].(coins := coins)])
  {
  }

  /** POST api/PlayerProgress/complete: records a completed level for an
      existing player and chapter, merging into the record the player
      already has for that level or inserting one, and credits the coins
      earned. An unknown player or chapter is a 400 response. */
  method CompleteLevel(db: Store, playerId: string, chapterId: int, levelNumber: Int32,
                       score: Int32, coinsEarned: Int32, now: Time)
    returns (r: Result<PlayerProgress, ApiError>)
    requires db.Valid()
    modifies db`progresses, db`nextProgressId, db`players
    ensures db.Valid()
    ensures playerId !in old(db.players) ==> r == Failure(BadRequest(MissingPlayer))
    ensures playerId in old(db.players) && chapterId !in old(db.chapters) ==>
      r == Failure(BadRequest(MissingChapter))
    ensures r.Success? <==> playerId in old(db.players) && chapterId in old(db.chapters)
    ensures r.Failure? ==>
      db.progresses == old(db.progresses) && db.nextProgressId == old(db.nextProgressId) &&
      db.players == old(db.players)
    ensures r.Success? ==>
      db.players == old(db.players)[playerId :=
        old(db.players)[playerId].(coins := Credited(old(db.players)[playerId].coins, coinsEarned))]
    ensures r.Success? ==>
      var id := r.value.progressId;
      && IsRecordFor(db.progresses, id, playerId, chapterId, levelNumber)
      && db.progresses[id] == r.value
      && r.value.isCompleted == Some(true)
      && (forall j :: IsRecordFor(db.progresses, j, playerId, chapterId, levelNumber) ==> j == id)
    ensures r.Success? && IsRecordFor(old(db.progresses), r.value.progressId, playerId, chapterId, levelNumber) ==>
      db.progresses == old(db.progresses)[r.value.progressId :=
        Merged(old(db.progresses)[r.value.progressId], score, now)] &&
      db.nextProgressId == old(db.nextProgressId)
    ensures r.Success? && !IsRecordFor(old(db.progresses), r.value.progressId, playerId, chapterId, levelNumber) ==>
      && (forall j :: !IsRecordFor(old(db.progresses), j, playerId, chapterId, levelNumber))
      && r.value.progressId == old(db.nextProgressId)
      && r.value.progressId !in old(db.progresses)
      && db.progresses == old(db.progresses)[r.value.progressId :=
           NewProgress(r.value.progressId, playerId, chapterId, levelNumber, score, now)]
      && db.nextProgressId == old(db.nextProgressId) + 1
  {
    if playerId !in db.players {
      return Failure(BadRequest(MissingPlayer));
    }
    if chapterId !in db.chapters {
      return Failure(BadRequest(MissingChapter));
    }
    var existing := FindRecord(db.progresses, playerId, chapterId, levelNumber);
    var progress: PlayerProgress;
    if existing.Some? {
      var id := existing.value;
      progress := Merged(db.progresses[id], score, now);
      MergeValid(db.progresses, db.players, db.chapters, db.nextProgressId, id, score, now);
      db.progresses := db.progresses[id := progress];
    } else {
      var id := db.nextProgressId;
      progress := NewProgress(id, playerId, chapterId, levelNumber, score, now);
      AddValid(db.progresses, db.players, db.chapters, id, progress);
      db.progresses := db.progresses[id := progress];
      db.nextProgressId := id + 1;
    }
    var player := db.players[playerId];
    RewardValid(db.players, playerId, Credited(player.coins, coinsEarned));
    db.players := db.players[playerId := player.(coins := Credited(player.coins, coinsEarned))];
    r := Success(progress);
  }

  /** A progress record after PUT: a supplied BestScore replaces the stored
      one only when C#'s lifted `>` holds, so a stored null best is never
      replaced; a supplied IsCompleted overwrites the flag (possibly back to
      false); the date is stamped only when marking completed and no date
      exists. */
  function Revised(e: PlayerProgress, bestScore: Option<Int32>, isCompleted: Option<bool>, now: Time)
    : (r: PlayerProgress)
    ensures e.bestScore.Some? ==> r.bestScore.Some? && r.bestScore.value >= e.bestScore.value
    ensures e.bestScore.None? ==> r.bestScore.None?
    ensures LiftedGreater(bestScore, e.bestScore) ==> r.bestScore == bestScore
    ensures r.bestScore != e.bestScore ==> LiftedGreater(bestScore, e.bestScore)
    ensures isCompleted.Some? ==> r.isCompleted == isCompleted
    ensures isCompleted.None? ==> r.isCompleted == e.isCompleted
    ensures e.completionDate.Some? ==> r.completionDate == e.completionDate
    ensures e.completionDate.None? && isCompleted == Some(true) ==> r.completionDate == Some(now)
    ensures e.completionDate.None? && isCompleted != Some(true) ==> r.completionDate.None?
    ensures r.(bestScore := e.bestScore, isCompleted := e.isCompleted, completionDate := e.completionDate) == e
  {
    var scored := if bestScore.Some? && LiftedGreater(bestScore, e.bestScore) then e.(bestScore := bestScore) else e;
    if isCompleted.Some? then
      var flagged := scored.(isCompleted := Some(isCompleted.value));
      if isCompleted.value && flagged.completionDate.None? then flagged.(completionDate := Some(now)) else flagged
    else scored
  }

  /** Revising never lowers the best score, with null read as 0. */
  lemma RevisedNeverLowers(e: PlayerProgress, bestScore: Option<Int32>, isCompleted: Option<bool>, now: Time)
    ensures BestOrZero(Revised(e, bestScore, isCompleted, now)) >= BestOrZero(e)
  {
  }

  lemma ReviseValid(pr: map<int, PlayerProgress>, players: map<string, Player>, chapters: map<int, string>,
                    next: int, id: int, bestScore: Option<Int32>, isCompleted: Option<bool>, now: Time)
    requires ProgressesValid(pr, players, chapters, next) && id in pr
    ensures ProgressesValid(pr[id := Revised(pr[id], bestScore, isCompleted, now)], players, chapters, next)
  {
    var r := pr[id := Revised(pr[id], bestScore, isCompleted, now)];
    forall a, b | a in r && b in r && r[a].playerId == r[b].playerId &&
      r[a].chapterId == r[b].chapterId && r[a].levelNumber == r[b].levelNumber
      ensures a == b
    {
      assert pr[a].playerId == pr[b].playerId && pr[a].chapterId == pr[b].chapterId;
    }
  }

  /** PUT api/PlayerProgress/{id}: revises one record; NotFound for an
      unknown id. */
  method PutPlayerProgress(db: Store, id: int, bestScore: Option<Int32>, isCompleted: Option<bool>, now: Time)
    returns (r: Result<(), ApiError>)
    requires db.Valid()
    modifies db`progresses
    ensures db.Valid()
    ensures r.Failure? <==> id !in old(db.progresses)
    ensures r.Failure? ==> r.error == NotFound && db.progresses == old(db.progresses)
    ensures r.Success? ==>
      db.progresses == old(db.progresses)[id := Revised(old(db.progresses)[id], bestScore, isCompleted, now)]
  {
    if id !in db.progresses {
      return Failure(NotFound);
    }
    ReviseValid(db.progresses, db.players, db.chapters, db.nextProgressId, id, bestScore, isCompleted, now);
    db.progresses := db.progresses[id := Revised(db.progresses[id], bestScore, isCompleted, now)];
    r := Success(());
  }

  /** DELETE api/PlayerProgress/{id}: removes one record; NotFound for an
      unknown id. */
  method DeletePlayerProgress(db: Store, id: int) returns (r: Result<(), ApiError>)
    requires db.Valid()
    modifies db`progresses
    ensures db.Valid()
    ensures r.Failure? <==> id !in old(db.progresses)
    ensures r.Failure? ==> r.error == NotFound && db.progresses == old(db.progresses)
    ensures r.Success? ==> db.progresses == old(db.progresses) - {id} && id !in db.progresses
  {
    if id !in db.progresses {
      return Failure(NotFound);
    }
    db.progresses := db.progresses - {id};
    r := Success(());
  }

  // The progress summary. Its rows are identified by ProgressId; the
  // aggregates select through the table.

  /** Every record names a stored chapter: what the summary's join on
      Chapter relies on. */
  predicate ChaptersJoinable(pr: map<int, PlayerProgress>, chapters: map<int, string>) {
    forall id :: id in pr ==> pr[id].chapterId in chapters
  }

  /** The player's records. */
  function RecordIds(pr: map<int, PlayerProgress>, playerId: string): set<int> {
    set id | id in pr && pr[id].playerId == playerId
  }

  /** The player's completed records. */
  function CompletedIds(pr: map<int, PlayerProgress>, playerId: string): set<int> {
    set id | id in pr && pr[id].playerId == playerId && pr[id].isCompleted == Some(true)
  }

  /** The player's records in chapter `c`. */
  function ChapterRecordIds(pr: map<int, PlayerProgress>, playerId: string, c: int): set<int> {
    set id | id in pr && pr[id].playerId == playerId && pr[id].chapterId == c
  }

  /** The player's completed records in chapter `c`. */
  function ChapterCompletedIds(pr: map<int, PlayerProgress>, playerId: string, c: int): set<int> {
    Selected(ChapterRecordIds(pr, playerId, c), CompletedAt(pr))
  }

  /** The chapters the player has records in. */
  function ChapterIds(pr: map<int, PlayerProgress>, playerId: string): set<int> {
    set id | id in pr && pr[id].playerId == playerId :: pr[id].chapterId
  }

  /** The player's rows as the query reads them: ascending ProgressId. */
  function Rows(pr: map<int, PlayerProgress>, playerId: string): (rows: seq<int>)
    ensures forall id :: id in rows <==> id in RecordIds(pr, playerId)
    ensures Distinct(rows)
  {
    var S := RecordIds(pr, playerId);
    IntLessTotal(S);
    var rows := SortSet(S, IntLess());
    SortedDistinct(rows, IntLess(), S);
    rows
  }

  /** `IsCompleted == true` of a row. */
  function CompletedAt(pr: map<int, PlayerProgress>): int -> bool {
    (id: int) => id in pr && pr[id].isCompleted == Some(true)
  }

  /** The row belongs to chapter `c`. */
  function InChapterAt(pr: map<int, PlayerProgress>, c: int): int -> bool {
    (id: int) => id in pr && pr[id].chapterId == c
  }

  /** `BestScore ?? 0` of a row. */
  function BestAt(pr: map<int, PlayerProgress>): int -> int {
    (id: int) => if id in pr then BestOrZero(pr[id]) else 0
  }

  /** Counting the rows counts the records. */
  lemma RowsCount(pr: map<int, PlayerProgress>, playerId: string, p: int -> bool)
    ensures Count(Rows(pr, playerId), p) == |Selected(RecordIds(pr, playerId), p)|
  {
    CountIsCard(Rows(pr, playerId), RecordIds(pr, playerId), p);
  }

  /** One element of ChaptersProgress. CompletionPercentage is not part of
      this model. */
  datatype ChapterProgress = ChapterProgress(
    chapterId: int,
    chapterName: string,
    completedLevels: nat,
    totalLevels: nat,
    bestScore: int)

  function TotalLevels(g: ChapterProgress): int {
    g.totalLevels
  }

  function CompletedLevels(g: ChapterProgress): int {
    g.completedLevels
  }

  /** The rows of the group GroupBy forms for chapter `c`: the player's
      records in that chapter, in reading order. */
  function Group(pr: map<int, PlayerProgress>, playerId: string, c: int): (group: seq<int>)
    ensures forall id :: id in group <==> id in ChapterRecordIds(pr, playerId, c)
    ensures Distinct(group)
    ensures |group| == |ChapterRecordIds(pr, playerId, c)|
  {
    var S := ChapterRecordIds(pr, playerId, c);
    IntLessTotal(S);
    var group := SortSet(S, IntLess());
    SortedDistinct(group, IntLess(), S);
    group
  }

  /** The group's `Max(p => p.BestScore ?? 0)`. */
  function GroupBest(pr: map<int, PlayerProgress>, playerId: string, c: int): int
    requires ChapterRecordIds(pr, playerId, c) != {}
  {
    Max(Group(pr, playerId, c), BestAt(pr))
  }

  /** `best` is the best score of the player's records in chapter `c`:
      reached by one of them and exceeded by none. */
  ghost predicate IsChapterBest(pr: map<int, PlayerProgress>, playerId: string, c: int, best: int) {
    && (forall id :: id in ChapterRecordIds(pr, playerId, c) ==> BestOrZero(pr[id]) <= best)
    && (exists id :: id in ChapterRecordIds(pr, playerId, c) && BestOrZero(pr[id]) == best)
  }

  lemma GroupBestIsMax(pr: map<int, PlayerProgress>, playerId: string, c: int)
    requires ChapterRecordIds(pr, playerId, c) != {}
    ensures IsChapterBest(pr, playerId, c, GroupBest(pr, playerId, c))
  {
    var group := Group(pr, playerId, c);
    var best := GroupBest(pr, playerId, c);
    MaxIsMax(group, BestAt(pr));
    forall id | id in ChapterRecordIds(pr, playerId, c) ensures BestOrZero(pr[id]) <= best {
      var i :| 0 <= i < |group| && group[i] == id;
    }
    var i :| 0 <= i < |group| && BestAt(pr)(group[i]) == best;
    var top := group[i];
    assert top in group;
    assert top in ChapterRecordIds(pr, playerId, c) && BestOrZero(pr[top]) == best;
  }

  /** Some element of a non-empty set. */
  lemma Pick<T>(s: set<T>) returns (x: T)
    requires s != {}
    ensures x in s
  {
    x :| x in s;
  }

  /** A chapter some record of the player points at is a known chapter. */
  lemma ChapterKnown(pr: map<int, PlayerProgress>, chapters: map<int, string>, playerId: string, c: int)
    requires ChaptersJoinable(pr, chapters) && ChapterRecordIds(pr, playerId, c) != {}
    ensures c in chapters
  {
    var id := Pick(ChapterRecordIds(pr, playerId, c));
    assert pr[id].chapterId == c;
  }

  /** The group of the player's rows in chapter `c`, summarised: its
      completed count, its size and its best score. */
  function ChapterOf(pr: map<int, PlayerProgress>, chapters: map<int, string>, playerId: string, c: int)
    : (g: ChapterProgress)
    requires ChaptersJoinable(pr, chapters) && ChapterRecordIds(pr, playerId, c) != {}
    ensures g.chapterId == c && c in chapters && g.chapterName == chapters[c]
  {
    ChapterKnown(pr, chapters, playerId, c);
    var group := Group(pr, playerId, c);
    ChapterProgress(c, chapters[c], Count(group, CompletedAt(pr)), |group|, GroupBest(pr, playerId, c))
  }

  /** A chapter's TotalLevels counts its records, CompletedLevels its completed
      records, and BestScore is the best of them. */
  lemma ChapterCounts(pr: map<int, PlayerProgress>, chapters: map<int, string>, playerId: string, c: int)
    requires ChaptersJoinable(pr, chapters) && ChapterRecordIds(pr, playerId, c) != {}
    ensures var g := ChapterOf(pr, chapters, playerId, c);
      && g.totalLevels == |ChapterRecordIds(pr, playerId, c)| && g.totalLevels > 0
      && g.completedLevels == |ChapterCompletedIds(pr, playerId, c)|
      && g.completedLevels <= g.totalLevels
      && IsChapterBest(pr, playerId, c, g.bestScore)
  {
    var group := Group(pr, playerId, c);
    CountIsCard(group, ChapterRecordIds(pr, playerId, c), CompletedAt(pr));
    GroupBestIsMax(pr, playerId, c);
  }

  /** The summaries of chapters `cs`, in that order. */
  function ChapterList(pr: map<int, PlayerProgress>, chapters: map<int, string>, playerId: string, cs: seq<int>)
    : (gs: seq<ChapterProgress>)
    requires ChaptersJoinable(pr, chapters)
    requires forall c :: c in cs ==> ChapterRecordIds(pr, playerId, c) != {}
    ensures |gs| == |cs|
  {
    if cs == [] then [] else [ChapterOf(pr, chapters, playerId, cs[0])] + ChapterList(pr, chapters, playerId, cs[1..])
  }

  /** The player's records in chapters `cs`. */
  function RecordsIn(pr: map<int, PlayerProgress>, playerId: string, cs: seq<int>): set<int> {
    set id | id in pr && pr[id].playerId == playerId && pr[id].chapterId in cs
  }

  /** The player's completed records in chapters `cs`. */
  function CompletedIn(pr: map<int, PlayerProgress>, playerId: string, cs: seq<int>): set<int> {
    set id | id in pr && pr[id].playerId == playerId && pr[id].chapterId in cs && pr[id].isCompleted == Some(true)
  }

  /** Chapter `cs[0]`'s records and those of the other chapters of `cs`
      share nothing and make up the records of `cs`. */
  lemma RecordsInSplit(pr: map<int, PlayerProgress>, playerId: string, cs: seq<int>)
    requires cs != [] && cs[0] !in cs[1..]
    ensures |RecordsIn(pr, playerId, cs)| ==
      |ChapterRecordIds(pr, playerId, cs[0])| + |RecordsIn(pr, playerId, cs[1..])|
    ensures |CompletedIn(pr, playerId, cs)| ==
      |ChapterCompletedIds(pr, playerId, cs[0])| + |CompletedIn(pr, playerId, cs[1..])|
  {
    var head, rest := ChapterRecordIds(pr, playerId, cs[0]), RecordsIn(pr, playerId, cs[1..]);
    assert forall c :: c in cs <==> c == cs[0] || c in cs[1..];
    assert RecordsIn(pr, playerId, cs) == head + rest;
    assert head * rest == {};
    var doneHead, doneRest := ChapterCompletedIds(pr, playerId, cs[0]), CompletedIn(pr, playerId, cs[1..]);
    assert CompletedIn(pr, playerId, cs) == doneHead + doneRest;
    assert doneHead * doneRest == {};
  }

  /** The groups' TotalLevels add up to the player's records in their
      chapters, and their CompletedLevels to the completed ones. */
  lemma {:induction false} ChaptersPartition(pr: map<int, PlayerProgress>, chapters: map<int, string>,
                                             playerId: string, cs: seq<int>)
    requires ChaptersJoinable(pr, chapters)
    requires Distinct(cs) && forall c :: c in cs ==> ChapterRecordIds(pr, playerId, c) != {}
    ensures Sum(ChapterList(pr, chapters, playerId, cs), TotalLevels) == |RecordsIn(pr, playerId, cs)|
    ensures Sum(ChapterList(pr, chapters, playerId, cs), CompletedLevels) == |CompletedIn(pr, playerId, cs)|
  {
    if cs == [] {
      assert RecordsIn(pr, playerId, cs) == {};
      assert CompletedIn(pr, playerId, cs) == {};
    } else {
      DistinctTail(cs);
      ChaptersPartition(pr, chapters, playerId, cs[1..]);
      RecordsInSplit(pr, playerId, cs);
      ChapterCounts(pr, chapters, playerId, cs[0]);
    }
  }

  /** The records LastCompletedLevel chooses from: completed, with a date. */
  function FinishedIds(pr: map<int, PlayerProgress>, playerId: string): set<int> {
    set id | id in pr && pr[id].playerId == playerId && pr[id].isCompleted == Some(true) &&
             pr[id].completionDate.Some?
  }

  function DateAt(pr: map<int, PlayerProgress>): int -> Option<int> {
    (id: int) => if id in pr then pr[id].completionDate else None
  }

  /** Latest date first; equal dates keep the reading order (LINQ's
      OrderByDescending is stable), ProgressId ascending. */
  function LatestOrder(pr: map<int, PlayerProgress>): (int, int) -> bool {
    KeyDescending(DateAt(pr), IntLess())
  }

  /** The record LastCompletedLevel shows: the latest completion date among
      the finished records, the smallest ProgressId among equal dates. */
  function LatestCompleted(pr: map<int, PlayerProgress>, playerId: string): (r: Option<int>)
    ensures r.None? <==> FinishedIds(pr, playerId) == {}
    ensures r.Some? ==> r.value in FinishedIds(pr, playerId)
    ensures r.Some? ==> forall y :: y in FinishedIds(pr, playerId) && y != r.value ==>
      pr[y].completionDate.value < pr[r.value].completionDate.value ||
      (pr[y].completionDate == pr[r.value].completionDate && r.value < y)
  {
    var C := FinishedIds(pr, playerId);
    if C == {} then None
    else
      IntLessTotal(C);
      KeyDescendingTotal(DateAt(pr), IntLess(), C);
      var order := SortSet(C, LatestOrder(pr));
      assert order[0] in order;
      assert forall y :: y in C && y != order[0] ==> LatestOrder(pr)(order[0], y) by {
        forall y | y in C && y != order[0] ensures LatestOrder(pr)(order[0], y) {
          var j :| 0 <= j < |order| && order[j] == y;
        }
      }
      Some(order[0])
  }

  /** LastCompletedLevel's projection. */
  datatype LastLevel = LastLevel(
    chapterId: int,
    chapterName: string,
    levelNumber: Int32,
    bestScore: Option<Int32>,
    completionDate: Option<Time>)

  /** The summary GET api/PlayerProgress/player/{playerId}/summary returns. */
  datatype ProgressSummary = ProgressSummary(
    playerId: string,
    playerName: string,
    totalLevelsCompleted: nat,
    totalScore: int,
    chaptersProgress: seq<ChapterProgress>,
    lastCompletedLevel: Option<LastLevel>)

  /** The chapters of the summary: ascending ChapterId. */
  function ChapterOrder(pr: map<int, PlayerProgress>, playerId: string): (cs: seq<int>)
    ensures forall c :: c in cs <==> c in ChapterIds(pr, playerId)
    ensures forall c :: c in cs ==> ChapterRecordIds(pr, playerId, c) != {}
    ensures SortedBy(cs, IntLess())
    ensures Distinct(cs)
  {
    IntLessTotal(ChapterIds(pr, playerId));
    var cs := SortSet(ChapterIds(pr, playerId), IntLess());
    SortedDistinct(cs, IntLess(), ChapterIds(pr, playerId));
    forall c | c in cs ensures ChapterRecordIds(pr, playerId, c) != {} {
      var id :| id in pr && pr[id].playerId == playerId && pr[id].chapterId == c;
      assert id in ChapterRecordIds(pr, playerId, c);
    }
    cs
  }

  /** The summary of an existing player's records. */
  function SummaryOf(players: map<string, Player>, chapters: map<int, string>,
                     pr: map<int, PlayerProgress>, playerId: string): (s: ProgressSummary)
    requires ChaptersJoinable(pr, chapters) && playerId in players
    ensures s.playerId == playerId && s.playerName == players[playerId].playerName
    ensures s.totalLevelsCompleted == |CompletedIds(pr, playerId)|
    ensures s.totalScore == Sum(Rows(pr, playerId), BestAt(pr))
    ensures s.chaptersProgress == ChapterList(pr, chapters, playerId, ChapterOrder(pr, playerId))
    ensures s.lastCompletedLevel.None? <==> FinishedIds(pr, playerId) == {}
    ensures s.lastCompletedLevel.Some? ==>
      var e := pr[LatestCompleted(pr, playerId).value];
      s.lastCompletedLevel.value ==
        LastLevel(e.chapterId, chapters[e.chapterId], e.levelNumber, e.bestScore, e.completionDate)
  {
    var rows := Rows(pr, playerId);
    RowsCount(pr, playerId, CompletedAt(pr));
    assert Selected(RecordIds(pr, playerId), CompletedAt(pr)) == CompletedIds(pr, playerId);
    var gs := ChapterList(pr, chapters, playerId, ChapterOrder(pr, playerId));
    var last := LatestCompleted(pr, playerId);
    var lastLevel := if last.None? then None else
      var e := pr[last.value];
      Some(LastLevel(e.chapterId, chapters[e.chapterId], e.levelNumber, e.bestScore, e.completionDate));
    ProgressSummary(playerId, players[playerId].playerName, Count(rows, CompletedAt(pr)),
                    Sum(rows, BestAt(pr)), gs, lastLevel)
  }

  /** GET api/PlayerProgress/player/{playerId}/summary: NotFound for an
      unknown player, otherwise the player's summary. */
  function GetPlayerProgressSummary(players: map<string, Player>, chapters: map<int, string>,
                                    pr: map<int, PlayerProgress>, playerId: string)
    : (r: Result<ProgressSummary, ApiError>)
    requires ChaptersJoinable(pr, chapters)
    ensures r.Failure? <==> playerId !in players
    ensures r.Failure? ==> r.error == NotFound
    ensures r.Success? ==> r.value == SummaryOf(players, chapters, pr, playerId)
  {
    if playerId !in players then Failure(NotFound) else Success(SummaryOf(players, chapters, pr, playerId))
  }

  /** Group `i` of a chapter list is chapter `cs[i]`'s. */
  lemma {:induction false} ListedChapterIds(pr: map<int, PlayerProgress>, chapters: map<int, string>, playerId: string, cs: seq<int>)
    requires ChaptersJoinable(pr, chapters)
    requires forall c :: c in cs ==> ChapterRecordIds(pr, playerId, c) != {}
    ensures var gs := ChapterList(pr, chapters, playerId, cs);
      forall i :: 0 <= i < |gs| ==> gs[i].chapterId == cs[i]
  {
    if cs != [] {
      var rest := cs[1..];
      var tail := ChapterList(pr, chapters, playerId, rest);
      ListedChapterIds(pr, chapters, playerId, rest);
      var gs := [ChapterOf(pr, chapters, playerId, cs[0])] + tail;
      assert ChapterList(pr, chapters, playerId, cs) == gs;
      forall i | 1 <= i < |gs| ensures gs[i].chapterId == cs[i] {
        assert gs[i] == tail[i - 1] && cs[i] == rest[i - 1];
      }
    }
  }

  /** ChaptersProgress lists each chapter the player has records in once,
      in ascending ChapterId order. */
  lemma SummaryChapters(players: map<string, Player>, chapters: map<int, string>,
                        pr: map<int, PlayerProgress>, playerId: string)
    requires ChaptersJoinable(pr, chapters) && playerId in players
    ensures var gs := SummaryOf(players, chapters, pr, playerId).chaptersProgress;
      && (forall i, j :: 0 <= i < j < |gs| ==> gs[i].chapterId < gs[j].chapterId)
      && (forall i :: 0 <= i < |gs| ==> gs[i].chapterId in ChapterIds(pr, playerId))
      && (forall c :: c in ChapterIds(pr, playerId) ==> exists i :: 0 <= i < |gs| && gs[i].chapterId == c)
  {
    var cs := ChapterOrder(pr, playerId);
    var gs := ChapterList(pr, chapters, playerId, cs);
    assert SummaryOf(players, chapters, pr, playerId).chaptersProgress == gs;
    ListedChapterIds(pr, chapters, playerId, cs);
    forall c | c in ChapterIds(pr, playerId) ensures exists i :: 0 <= i < |gs| && gs[i].chapterId == c {
      var i :| 0 <= i < |cs| && cs[i] == c;
      assert gs[i].chapterId == c;
    }
  }

  /** The chapters' TotalLevels add up to the player's records, and their
      CompletedLevels to TotalLevelsCompleted. */
  lemma SummaryPartition(players: map<string, Player>, chapters: map<int, string>,
                         pr: map<int, PlayerProgress>, playerId: string)
    requires ChaptersJoinable(pr, chapters) && playerId in players
    ensures var s := SummaryOf(players, chapters, pr, playerId);
      Sum(s.chaptersProgress, TotalLevels) == |RecordIds(pr, playerId)| &&
      Sum(s.chaptersProgress, CompletedLevels) == s.totalLevelsCompleted
  {
    var cs := ChapterOrder(pr, playerId);
    ChaptersPartition(pr, chapters, playerId, cs);
    AllChaptersCovered(pr, playerId);
  }

  /** Every record of the player lies in one of the listed chapters. */
  lemma AllChaptersCovered(pr: map<int, PlayerProgress>, playerId: string)
    ensures RecordsIn(pr, playerId, ChapterOrder(pr, playerId)) == RecordIds(pr, playerId)
    ensures CompletedIn(pr, playerId, ChapterOrder(pr, playerId)) == CompletedIds(pr, playerId)
  {
    var cs := ChapterOrder(pr, playerId);
    forall id | id in RecordIds(pr, playerId) ensures id in RecordsIn(pr, playerId, cs) {
      assert pr[id].chapterId in ChapterIds(pr, playerId);
    }
    forall id | id in CompletedIds(pr, playerId) ensures id in CompletedIn(pr, playerId, cs) {
      assert pr[id].chapterId in ChapterIds(pr, playerId);
    }
  }
}
