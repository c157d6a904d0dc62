/** PlayerController: the coin balance, upgrade levels, registration with a
    generated id, creating a player directly, and partial profile updates. */
module PlayerController {
  import opened Wrappers
  import opened Records
  import opened Database
  import Text

  /** `!string.IsNullOrEmpty(x)`. */
  predicate Supplied(x: Option<string>) {
    x.Some? && x.value != ""
  }

  // The coin balance.

  /** The balance after a change of `change` coins: `(Coins ?? 0) + change`
      with C#'s unchecked `int` addition, then raised to 0 if negative. */
  function FlooredCoins(coins: Option<Int32>, change: Int32): (r: Int32)
    ensures r >= 0
    ensures r == 0 || r == Wrap32(coins.GetOr(0) + change)
    ensures Wrap32(coins.GetOr(0) + change) >= 0 ==> r == Wrap32(coins.GetOr(0) + change)
    ensures -0x8000_0000 <= coins.GetOr(0) + change <= INT32_MAX ==>
      r == if coins.GetOr(0) + change < 0 then 0 else coins.GetOr(0) + change
  {
    var sum := Wrap32(coins.GetOr(0) + change);
    if sum < 0 then 0 else sum
  }

  /** Without overflow, a larger change never leaves fewer coins, and a
      change of 0 leaves a non-negative balance as it was. */
  lemma FlooredMonotone(coins: Option<Int32>, a: Int32, b: Int32)
    requires a <= b
    requires -0x8000_0000 <= coins.GetOr(0) + a && coins.GetOr(0) + b <= INT32_MAX
    ensures FlooredCoins(coins, a) <= FlooredCoins(coins, b)
    ensures coins.GetOr(0) >= 0 ==> FlooredCoins(coins, 0) == coins.GetOr(0)
  {
    assert -0x8000_0000 <= coins.GetOr(0) + b && coins.GetOr(0) + a <= INT32_MAX;
  }

  /** Replacing a stored player's row by one with the same id that fits the
      columns keeps the database valid. */
  lemma ReplacePlayerValid(db: Store, id: string, p: Player)
    requires db.Valid() && id in db.players && p.playerId == id && PlayerFitsColumns(p)
    ensures PlayersValid(db.players[id := p])
    ensures LeaderboardsValid(db.leaderboards, db.players[id := p], db.seasons, db.nextLeaderboardId)
    ensures ProgressesValid(db.progresses, db.players[id := p], db.chapters, db.nextProgressId)
    ensures UpgradesValid(db.upgrades, db.players[id := p], db.nextUpgradeId)
    ensures SessionsValid(db.sessions, db.players[id := p], db.chapters, db.nextSessionId)
  {
  }

  /** Adding a player under a fresh id keeps the database valid. */
  lemma AddPlayerValid(db: Store, p: Player)
    requires db.Valid() && p.playerId !in db.players && PlayerFitsColumns(p)
    ensures PlayersValid(db.players[p.playerId := p])
    ensures LeaderboardsValid(db.leaderboards, db.players[p.playerId := p], db.seasons, db.nextLeaderboardId)
    ensures ProgressesValid(db.progresses, db.players[p.playerId := p], db.chapters, db.nextProgressId)
    ensures UpgradesValid(db.upgrades, db.players[p.playerId := p], db.nextUpgradeId)
    ensures SessionsValid(db.sessions, db.players[p.playerId := p], db.chapters, db.nextSessionId)
  {
  }

  /** POST api/Player/{id}/updateCoins: NotFound for an unknown player;
      otherwise the balance becomes FlooredCoins and is returned. */
  method UpdateCoins(db: Store, id: string, change: Int32) returns (r: Result<Int32, ApiError>)
    requires db.Valid()
    modifies db`players
    ensures db.Valid()
    ensures r.Failure? <==> id !in old(db.players)
    ensures r.Failure? ==> r.error == NotFound && db.players == old(db.players)
    ensures r.Success? ==>
      r.value == FlooredCoins(old(db.players)[id].coins, change) &&
      db.players == old(db.players)[id := old(db.players)[id].(coins := Some(r.value))]
  {
    if id !in db.players {
      return Failure(NotFound);
    }
    var coins := FlooredCoins(db.players[id].coins, change);
    ReplacePlayerValid(db, id, db.players[id].(coins := Some(coins)));
    db.players := db.players[id := db.players[id].(coins := Some(coins))];
    r := Success(coins);
  }

  // Upgrades.

  /** Upgrade `u` is the player's upgrade of type `upgradeType`, compared
      through `ToLower`. */
  predicate IsUpgradeFor(up: map<int, Upgrade>, u: int, playerId: string, upgradeType: string) {
    u in up && up[u].playerId == playerId && Text.Lower(up[u].upgradeType) == Text.Lower(upgradeType)
  }

  /** No two of the player's upgrades have the same `key` (`ToLower` of
      their types in the controller): the condition under which
      `ToDictionary` does not throw. */
  predicate TypesDistinct(up: map<int, Upgrade>, playerId: string, key: string -> string) {
    forall a, b ::
      (a in up && b in up && up[a].playerId == playerId && up[b].playerId == playerId &&
       key(up[a].upgradeType) == key(up[b].upgradeType))
      ==> a == b
  }

  /** The dictionary the player's upgrades project to: each type's `key`
      to its level, a null level read as 1. */
  function Levels(up: map<int, Upgrade>, playerId: string, key: string -> string): map<string, int>
    requires TypesDistinct(up, playerId, key)
  {
    map u | u in up && up[u].playerId == playerId :: key(up[u].upgradeType) := up[u].level.GetOr(1)
  }

  /** Every upgrade of the player has an entry: its key, mapped to its level. */
  lemma LevelsEntry(up: map<int, Upgrade>, playerId: string, key: string -> string, u: int)
    requires TypesDistinct(up, playerId, key)
    requires u in up && up[u].playerId == playerId
    ensures key(up[u].upgradeType) in Levels(up, playerId, key)
    ensures Levels(up, playerId, key)[key(up[u].upgradeType)] == up[u].level.GetOr(1)
  {
  }

  /** Every entry comes from an upgrade of the player. */
  lemma LevelsSource(up: map<int, Upgrade>, playerId: string, key: string -> string, k: string)
    returns (u: int)
    requires TypesDistinct(up, playerId, key)
    requires k in Levels(up, playerId, key)
    ensures u in up && up[u].playerId == playerId && key(up[u].upgradeType) == k
    ensures Levels(up, playerId, key)[k] == up[u].level.GetOr(1)
  {
    u :| u in up && up[u].playerId == playerId && key(up[u].upgradeType) == k;
  }

  /** GET api/Player/{id}/upgrades: NotFound for an unknown player; a
      failed `ToDictionary` (two types equal after `ToLower`) is a 500;
      otherwise the player's levels by lower-cased type. */
  function GetPlayerUpgrades(players: map<string, Player>, up: map<int, Upgrade>, id: string)
    : (r: Result<map<string, int>, ApiError>)
    ensures r == Failure(NotFound) <==> id !in players
    ensures r == Failure(ServerError) <==> id in players && !TypesDistinct(up, id, Text.Lower)
    ensures r.Success? ==> TypesDistinct(up, id, Text.Lower) && r.value == Levels(up, id, Text.Lower)
  {
    if id !in players then Failure(NotFound)
    else if !TypesDistinct(up, id, Text.Lower) then Failure(ServerError)
    else Success(Levels(up, id, Text.Lower))
  }

  /** The type index of a valid store keeps every player's dictionary
      well defined. */
  lemma StoredTypesDistinct(up: map<int, Upgrade>, playerId: string)
    requires OneUpgradePerType(up)
    ensures TypesDistinct(up, playerId, Text.Lower)
  {
  }

  /** The lookup of the player's upgrade of a type (`FirstOrDefault`). */
  method FindUpgrade(up: map<int, Upgrade>, playerId: string, upgradeType: string) returns (found: Option<int>)
    ensures found.Some? ==> IsUpgradeFor(up, found.value, playerId, upgradeType)
    ensures found.None? ==> forall u :: !IsUpgradeFor(up, u, playerId, upgradeType)
  {
    if exists u :: u in up && IsUpgradeFor(up, u, playerId, upgradeType) {
      var u :| u in up && IsUpgradeFor(up, u, playerId, upgradeType);
      found := Some(u);
    } else {
      found := None;
    }
  }

  /** The upgrade table after setting the player's level of a type: a
      matched row gets the level and the time, nothing else; otherwise a
      row is added under `next` with the requested spelling. */
  function Upserted(up: map<int, Upgrade>, found: Option<int>, next: int, playerId: string,
                    upgradeType: string, level: Int32, now: Time): map<int, Upgrade>
    requires found.Some? ==> found.value in up
  {
    if found.Some? then up[found.value := up[found.value].(level := Some(level), updatedDate := Some(now))]
    else up[next := Upgrade(next, playerId, upgradeType, Some(level), Some(now), Some(now))]
  }

  /** The upsert keeps one upgrade per player and lower-cased type. */
  lemma UpsertedUnique(up: map<int, Upgrade>, found: Option<int>, next: int, playerId: string,
                       upgradeType: string, level: Int32, now: Time)
    requires OneUpgradePerType(up) && next !in up
    requires found.Some? ==> IsUpgradeFor(up, found.value, playerId, upgradeType)
    requires found.None? ==> forall u :: !IsUpgradeFor(up, u, playerId, upgradeType)
    ensures OneUpgradePerType(Upserted(up, found, next, playerId, upgradeType, level, now))
  {
    var after := Upserted(up, found, next, playerId, upgradeType, level, now);
    forall a, b | a in after && b in after && after[a].playerId == after[b].playerId &&
      Text.Lower(after[a].upgradeType) == Text.Lower(after[b].upgradeType)
      ensures a == b
    {
      if found.None? && a == next && b != next {
        assert IsUpgradeFor(up, b, playerId, upgradeType);
      } else if found.None? && b == next && a != next {
        assert IsUpgradeFor(up, a, playerId, upgradeType);
      }
    }
  }

  /** Writing row `t` of player `p`, whose key no other row of the
      player shares, sets that key's entry of the dictionary. */
  lemma LevelsAfterWrite(a: map<int, Upgrade>, t: int, row: Upgrade, p: string, key: string -> string)
    requires row.playerId == p && TypesDistinct(a, p, key)
    requires t in a ==> a[t].playerId == p && key(a[t].upgradeType) == key(row.upgradeType)
    requires forall u :: u in a && u != t && a[u].playerId == p ==> key(a[u].upgradeType) != key(row.upgradeType)
    ensures TypesDistinct(a[t := row], p, key)
    ensures Levels(a[t := row], p, key) == Levels(a, p, key)[key(row.upgradeType) := row.level.GetOr(1)]
  {
    var b := a[t := row];
    assert TypesDistinct(b, p, key);
    var m, m0 := Levels(b, p, key), Levels(a, p, key)[key(row.upgradeType) := row.level.GetOr(1)];
    forall k | k in m ensures k in m0 && m[k] == m0[k] {
      WrittenKeyKept(a, t, row, p, key, k);
    }
    forall k | k in m0 ensures k in m {
      WrittenKeyNew(a, t, row, p, key, k);
    }
    MapsAgree(m, m0);
  }

  /** Two maps with the same entries are equal. */
  lemma MapsAgree<K, V>(m: map<K, V>, m0: map<K, V>)
    requires forall k :: k in m ==> k in m0 && m[k] == m0[k]
    requires forall k :: k in m0 ==> k in m
    ensures m == m0
  {
  }

  /** An entry of the dictionary after the write was an entry before, or
      is the written one. */
  lemma WrittenKeyKept(a: map<int, Upgrade>, t: int, row: Upgrade, p: string, key: string -> string, k: string)
    requires row.playerId == p && TypesDistinct(a, p, key) && TypesDistinct(a[t := row], p, key)
    requires k in Levels(a[t := row], p, key)
    ensures var m0 := Levels(a, p, key)[key(row.upgradeType) := row.level.GetOr(1)];
      k in m0 && Levels(a[t := row], p, key)[k] == m0[k]
  {
    var b := a[t := row];
    var u := LevelsSource(b, p, key, k);
    if u != t {
      assert b[u] == a[u];
      assert k != key(row.upgradeType) by {
        assert t in b && b[t] == row;
      }
      LevelsEntry(a, p, key, u);
    }
  }

  /** An entry of the dictionary before the write, or the written one, is
      an entry after it. */
  lemma WrittenKeyNew(a: map<int, Upgrade>, t: int, row: Upgrade, p: string, key: string -> string, k: string)
    requires row.playerId == p && TypesDistinct(a, p, key) && TypesDistinct(a[t := row], p, key)
    requires t in a ==> a[t].playerId == p && key(a[t].upgradeType) == key(row.upgradeType)
    requires k in Levels(a, p, key) || k == key(row.upgradeType)
    ensures k in Levels(a[t := row], p, key)
  {
    var b := a[t := row];
    if k != key(row.upgradeType) {
      var u := LevelsSource(a, p, key, k);
      assert u != t;
      assert b[u] == a[u];
      LevelsEntry(b, p, key, u);
    } else {
      LevelsEntry(b, p, key, t);
    }
  }

  /** The dictionary of player `q` depends only on q's own rows. */
  lemma LevelsOwnRows(a: map<int, Upgrade>, b: map<int, Upgrade>, q: string, key: string -> string)
    requires forall u :: u in a && a[u].playerId == q ==> u in b && b[u] == a[u]
    requires forall u :: u in b && b[u].playerId == q ==> u in a && a[u] == b[u]
    requires TypesDistinct(a, q, key)
    ensures TypesDistinct(b, q, key)
    ensures Levels(b, q, key) == Levels(a, q, key)
  {
    assert TypesDistinct(b, q, key);
    forall k | k in Levels(b, q, key) ensures k in Levels(a, q, key) && Levels(b, q, key)[k] == Levels(a, q, key)[k] {
      LevelsIncluded(a, b, q, key, k);
    }
    forall k | k in Levels(a, q, key) ensures k in Levels(b, q, key) {
      LevelsIncluded(b, a, q, key, k);
    }
    MapsAgree(Levels(b, q, key), Levels(a, q, key));
  }

  /** An entry of `b`'s dictionary for `q` is one of `a`'s when q's rows
      in `b` are rows of `a`. */
  lemma LevelsIncluded(a: map<int, Upgrade>, b: map<int, Upgrade>, q: string, key: string -> string, k: string)
    requires forall u :: u in b && b[u].playerId == q ==> u in a && a[u] == b[u]
    requires TypesDistinct(a, q, key) && TypesDistinct(b, q, key)
    requires k in Levels(b, q, key)
    ensures k in Levels(a, q, key) && Levels(b, q, key)[k] == Levels(a, q, key)[k]
  {
    var u := LevelsSource(b, q, key, k);
    LevelsEntry(a, q, key, u);
  }

  /** After an upsert the player's dictionary is the old one with the
      lower-cased requested type mapped to the requested level. */
  lemma UpsertedLevels(up: map<int, Upgrade>, found: Option<int>, next: int, playerId: string,
                       upgradeType: string, level: Int32, now: Time)
    requires OneUpgradePerType(up) && next !in up
    requires found.Some? ==> IsUpgradeFor(up, found.value, playerId, upgradeType)
    requires found.None? ==> forall u :: !IsUpgradeFor(up, u, playerId, upgradeType)
    ensures OneUpgradePerType(Upserted(up, found, next, playerId, upgradeType, level, now))
    ensures TypesDistinct(Upserted(up, found, next, playerId, upgradeType, level, now), playerId, Text.Lower)
    ensures Levels(Upserted(up, found, next, playerId, upgradeType, level, now), playerId, Text.Lower) ==
      Levels(up, playerId, Text.Lower)[Text.Lower(upgradeType) := level]
  {
    UpsertedUnique(up, found, next, playerId, upgradeType, level, now);
    StoredTypesDistinct(up, playerId);
    if found.Some? {
      var t := found.value;
      var row := up[t].(level := Some(level), updatedDate := Some(now));
      LevelsAfterWrite(up, t, row, playerId, Text.Lower);
    } else {
      var row := Upgrade(next, playerId, upgradeType, Some(level), Some(now), Some(now));
      forall u | u in up && u != next && up[u].playerId == playerId
        ensures Text.Lower(up[u].upgradeType) != Text.Lower(upgradeType)
      {
        assert !IsUpgradeFor(up, u, playerId, upgradeType);
      }
      LevelsAfterWrite(up, next, row, playerId, Text.Lower);
    }
  }

  /** An upsert leaves the dictionaries of other players unchanged. */
  lemma UpsertedOthers(up: map<int, Upgrade>, found: Option<int>, next: int, playerId: string,
                       upgradeType: string, level: Int32, now: Time, other: string)
    requires OneUpgradePerType(up) && next !in up && other != playerId
    requires found.Some? ==> IsUpgradeFor(up, found.value, playerId, upgradeType)
    ensures TypesDistinct(Upserted(up, found, next, playerId, upgradeType, level, now), other, Text.Lower)
    ensures Levels(Upserted(up, found, next, playerId, upgradeType, level, now), other, Text.Lower) ==
      Levels(up, other, Text.Lower)
  {
    StoredTypesDistinct(up, other);
    var after := Upserted(up, found, next, playerId, upgradeType, level, now);
    LevelsOwnRows(up, after, other, Text.Lower);
  }

  /** The row an upsert writes is the player's only upgrade of the type,
      holds the requested level, and every other row is kept; the table
      stays valid with the identity counter advanced on an insert. */
  lemma UpsertedRow(up: map<int, Upgrade>, players: map<string, Player>, found: Option<int>, next: int,
                    playerId: string, upgradeType: string, level: Int32, now: Time)
    requires UpgradesValid(up, players, next) && playerId in players
    requires found.Some? ==> IsUpgradeFor(up, found.value, playerId, upgradeType)
    requires found.None? ==> forall u :: !IsUpgradeFor(up, u, playerId, upgradeType)
    ensures var after, u := Upserted(up, found, next, playerId, upgradeType, level, now),
                            if found.Some? then found.value else next;
      && IsUpgradeFor(after, u, playerId, upgradeType) && after[u].upgradeId == u
      && after[u].level == Some(level)
      && (forall v :: IsUpgradeFor(after, v, playerId, upgradeType) ==> v == u)
      && (forall v :: v in up && v != u ==> v in after && after[v] == up[v])
      && UpgradesValid(after, players, if found.Some? then next else next + 1)
  {
    var after := Upserted(up, found, next, playerId, upgradeType, level, now);
    var u := if found.Some? then found.value else next;
    assert next !in up;
    UpsertedUnique(up, found, next, playerId, upgradeType, level, now);
    assert IsUpgradeFor(after, u, playerId, upgradeType);
    forall v | IsUpgradeFor(after, v, playerId, upgradeType) ensures v == u {
    }
  }

  /** After an upsert, GET api/Player/{id}/upgrades answers the old
      dictionary with the lower-cased requested type set to the level. */
  lemma UpsertedLookup(players: map<string, Player>, up: map<int, Upgrade>, found: Option<int>, next: int,
                       playerId: string, upgradeType: string, level: Int32, now: Time)
    requires OneUpgradePerType(up) && next !in up && playerId in players
    requires found.Some? ==> IsUpgradeFor(up, found.value, playerId, upgradeType)
    requires found.None? ==> forall u :: !IsUpgradeFor(up, u, playerId, upgradeType)
    ensures TypesDistinct(up, playerId, Text.Lower)
    ensures GetPlayerUpgrades(players, Upserted(up, found, next, playerId, upgradeType, level, now), playerId) ==
      Success(Levels(up, playerId, Text.Lower)[Text.Lower(upgradeType) := level])
  {
    StoredTypesDistinct(up, playerId);
    UpsertedLevels(up, found, next, playerId, upgradeType, level, now);
  }

  /** POST api/Player/{id}/upgrades: NotFound for an unknown player;
      otherwise the player's upgrade of that type (compared through
      `ToLower`) gets the level, or a new one is added. There is no cost,
      no cap and no check that the level rises. A new type longer than its
      column fails the save (500). */
  method UpdatePlayerUpgrade(db: Store, id: string, upgradeType: string, level: Int32, now: Time)
    returns (r: Result<Upgrade, ApiError>)
    requires db.Valid()
    modifies db`upgrades, db`nextUpgradeId
    ensures db.Valid()
    ensures r == Failure(NotFound) <==> id !in old(db.players)
    ensures r == Failure(ServerError) <==>
      id in old(db.players) && |upgradeType| > 20 &&
      forall u :: !IsUpgradeFor(old(db.upgrades), u, id, upgradeType)
    ensures r.Failure? ==> db.upgrades == old(db.upgrades) && db.nextUpgradeId == old(db.nextUpgradeId)
    ensures r.Success? ==>
      var u := r.value.upgradeId;
      && IsUpgradeFor(db.upgrades, u, id, upgradeType) && db.upgrades[u] == r.value
      && r.value.level == Some(level)
      && (forall v :: IsUpgradeFor(db.upgrades, v, id, upgradeType) ==> v == u)
      && (forall v :: v in old(db.upgrades) && v != u ==> v in db.upgrades && db.upgrades[v] == old(db.upgrades)[v])
      && (u in old(db.upgrades) ==>
            db.nextUpgradeId == old(db.nextUpgradeId) &&
            db.upgrades == old(db.upgrades)[u := old(db.upgrades)[u].(level := Some(level), updatedDate := Some(now))])
      && (u !in old(db.upgrades) ==>
            u == old(db.nextUpgradeId) && db.nextUpgradeId == u + 1 &&
            db.upgrades == old(db.upgrades)[u := Upgrade(u, id, upgradeType, Some(level), Some(now), Some(now))])
    ensures r.Success? ==>
      var u := r.value.upgradeId;
      db.upgrades == Upserted(old(db.upgrades), if u in old(db.upgrades) then Some(u) else None,
                              old(db.nextUpgradeId), id, upgradeType, level, now)
  {
    if id !in db.players {
      return Failure(NotFound);
    }
    var found := FindUpgrade(db.upgrades, id, upgradeType);
    if found.None? && |upgradeType| > 20 {
      return Failure(ServerError);
    }
    var next := db.nextUpgradeId;
    UpsertedRow(db.upgrades, db.players, found, next, id, upgradeType, level, now);
    var after := Upserted(db.upgrades, found, next, id, upgradeType, level, now);
    var u := if found.Some? then found.value else next;
    db.upgrades := after;
    if found.None? {
      db.nextUpgradeId := next + 1;
    }
    r := Success(after[u]);
  }

  // Player ids.

  /** The id built from one draw: "PLR" and the draw's decimal digits. */
  function PlayerIdFor(n: nat): string {
    "PLR" + Text.DecimalString(n)
  }

  /** Every draw is a value `Random.Shared.Next(10000000, 99999999)` can return. */
  predicate Drawable(draws: seq<int>) {
    forall i :: 0 <= i < |draws| ==> 10000000 <= draws[i] < 99999999
  }

  /** Some draw gives an id nobody has, so the retry loop stops. */
  predicate HasFreeDraw(players: map<string, Player>, draws: seq<int>)
    requires Drawable(draws)
  {
    exists i :: 0 <= i < |draws| && PlayerIdFor(draws[i]) !in players
  }

  /** An id built from a draw is 11 characters, "PLR" and eight digits,
      and different draws give different ids. */
  lemma PlayerIdShape(a: int, b: int)
    requires 10000000 <= a < 99999999 && 10000000 <= b < 99999999
    ensures |PlayerIdFor(a)| == 11 && PlayerIdFor(a)[..3] == "PLR"
    ensures forall i :: 3 <= i < 11 ==> '0' <= PlayerIdFor(a)[i] <= '9'
    ensures PlayerIdFor(a) == PlayerIdFor(b) ==> a == b
  {
    assert Text.Pow10(7) == 10000000 && Text.Pow10(8) == 100000000;
    Text.DecimalLength(a, 8);
    if PlayerIdFor(a) == PlayerIdFor(b) {
      assert PlayerIdFor(a)[3..] == Text.DecimalString(a);
      assert PlayerIdFor(b)[3..] == Text.DecimalString(b);
      Text.DecimalInjective(a, b);
    }
  }

  /** The id the retry loop settles on: the first draw not yet taken. */
  function FirstFreeId(players: map<string, Player>, draws: seq<int>): (id: string)
    requires Drawable(draws) && HasFreeDraw(players, draws)
    ensures id !in players
    ensures exists i :: 0 <= i < |draws| && id == PlayerIdFor(draws[i])
    decreases |draws|
  {
    if PlayerIdFor(draws[0]) !in players then PlayerIdFor(draws[0])
    else
      var rest := draws[1..];
      assert HasFreeDraw(players, rest) by {
        var i :| 0 <= i < |draws| && PlayerIdFor(draws[i]) !in players;
        assert rest[i - 1] == draws[i];
      }
      var id := FirstFreeId(players, rest);
      var i :| 0 <= i < |rest| && id == PlayerIdFor(rest[i]);
      assert rest[i] == draws[i + 1];
      id
  }

  /** GenerateUniquePlayerId: draws until the id is not a player's. */
  method GenerateUniquePlayerId(players: map<string, Player>, draws: seq<int>) returns (id: string)
    requires Drawable(draws) && HasFreeDraw(players, draws)
    ensures id == FirstFreeId(players, draws)
    ensures id !in players && |id| == 11
  {
    var i := 0;
    id := PlayerIdFor(draws[0]);
    while id in players
      invariant 0 <= i < |draws| && id == PlayerIdFor(draws[i])
      invariant HasFreeDraw(players, draws[i..])
      invariant FirstFreeId(players, draws[i..]) == FirstFreeId(players, draws)
      decreases |draws| - i
    {
      var j :| 0 <= j < |draws[i..]| && PlayerIdFor(draws[i..][j]) !in players;
      assert j != 0;
      assert draws[i..][1..] == draws[i + 1..];
      i := i + 1;
      id := PlayerIdFor(draws[i]);
    }
    assert draws[i..][0] == draws[i];
    PlayerIdShape(draws[i], draws[i]);
  }

  // Registration and creation.

  /** A non-empty email some player already has. The comparison is exact
      equality. */
  predicate EmailTaken(players: map<string, Player>, email: Option<string>) {
    Supplied(email) && exists k :: k in players && players[k].email == email
  }

  /** The row RegisterPlayer inserts: 100 starting coins, tower record 0,
      active, created and logged in now; a null gender, language or weapon
      takes its column default. */
  function Registered(id: string, playerName: string, password: string, email: Option<string>,
                      gender: Option<string>, language: Option<string>, now: Time): (p: Player)
    ensures p.playerId == id && p.playerName == playerName && p.password == password && p.email == email
    ensures p.coins == Some(100) && p.towerRecord == Some(0) && p.isActive == Some(true)
    ensures p.createdDate == Some(now) && p.lastLoginDate == Some(now)
    ensures p.gender == (if gender.Some? then gender else Some("Male"))
    ensures p.languagePreference == (if language.Some? then language else Some("English"))
    ensures p.equippedWeapon == Some("Sword")
  {
    Player(id, playerName, password, email, StoredOrDefault(gender, "Male"),
           StoredOrDefault(language, "English"), Some(0), Some(100), Some("Sword"),
           Some(now), Some(now), Some(true))
  }

  /** POST api/Player/register: the id is generated first; a non-empty
      email already in use is a Conflict; a value too long for its column
      fails the save (500); otherwise the new player is added. */
  method RegisterPlayer(db: Store, playerName: string, password: string, email: Option<string>,
                        gender: Option<string>, language: Option<string>, draws: seq<int>, now: Time)
    returns (r: Result<Player, ApiError>)
    requires db.Valid()
    requires Drawable(draws) && HasFreeDraw(db.players, draws)
    modifies db`players
    ensures db.Valid()
    ensures r == Failure(Conflict) <==> EmailTaken(old(db.players), email)
    ensures r.Failure? ==> db.players == old(db.players)
    ensures var p := Registered(FirstFreeId(old(db.players), draws), playerName, password, email, gender, language, now);
      && (r == Failure(ServerError) <==> !EmailTaken(old(db.players), email) && !PlayerFitsColumns(p))
      && (r.Success? ==> r.value == p && p.playerId !in old(db.players) && db.players == old(db.players)[p.playerId := p])
  {
    var id := GenerateUniquePlayerId(db.players, draws);
    if EmailTaken(db.players, email) {
      return Failure(Conflict);
    }
    var p := Registered(id, playerName, password, email, gender, language, now);
    if !PlayerFitsColumns(p) {
      return Failure(ServerError);
    }
    AddPlayerValid(db, p);
    db.players := db.players[id := p];
    r := Success(p);
  }

  /** The row PostPlayer inserts: the client's row, created and logged in
      now, active, with 0 coins and tower record 0; a null gender, language
      or weapon takes its column default. */
  function Posted(p: Player, now: Time): (r: Player)
    ensures r.createdDate == Some(now) && r.lastLoginDate == Some(now) && r.isActive == Some(true)
    ensures r.coins == Some(0) && r.towerRecord == Some(0)
    ensures r.gender == (if p.gender.Some? then p.gender else Some("Male"))
    ensures r.languagePreference == (if p.languagePreference.Some? then p.languagePreference else Some("English"))
    ensures r.equippedWeapon == (if p.equippedWeapon.Some? then p.equippedWeapon else Some("Sword"))
    ensures r.(gender := p.gender, languagePreference := p.languagePreference, equippedWeapon := p.equippedWeapon,
               createdDate := p.createdDate, lastLoginDate := p.lastLoginDate, isActive := p.isActive,
               coins := p.coins, towerRecord := p.towerRecord) == p
  {
    p.(createdDate := Some(now), lastLoginDate := Some(now), isActive := Some(true), coins := Some(0),
       towerRecord := Some(0), gender := StoredOrDefault(p.gender, "Male"),
       languagePreference := StoredOrDefault(p.languagePreference, "English"),
       equippedWeapon := StoredOrDefault(p.equippedWeapon, "Sword"))
  }

  /** POST api/Player: the bound `Player` entity is validated against its
      `[StringLength]` attributes before the action runs (a 400); a valid
      row whose id is taken makes the save fail, which is a Conflict. */
  method PostPlayer(db: Store, p: Player, now: Time) returns (r: Result<Player, ApiError>)
    requires db.Valid()
    modifies db`players
    ensures db.Valid()
    ensures r == Failure(Invalid) <==> !PlayerFitsColumns(p)
    ensures r == Failure(Conflict) <==> PlayerFitsColumns(p) && p.playerId in old(db.players)
    ensures r.Success? <==> PlayerFitsColumns(p) && p.playerId !in old(db.players)
    ensures r.Failure? ==> db.players == old(db.players)
    ensures r.Success? ==> r.value == Posted(p, now) && db.players == old(db.players)[p.playerId := Posted(p, now)]
  {
    if !PlayerFitsColumns(p) {
      return Failure(Invalid);
    }
    if p.playerId in db.players {
      return Failure(Conflict);
    }
    var row := Posted(p, now);
    PostedFits(p, now);
    AddPlayerValid(db, row);
    db.players := db.players[p.playerId := row];
    r := Success(row);
  }

  /** The defaults PostPlayer fills in fit their columns, so a row that
      passed validation still fits once posted. */
  lemma PostedFits(p: Player, now: Time)
    requires PlayerFitsColumns(p)
    ensures PlayerFitsColumns(Posted(p, now))
  {
  }

  // Profile.

  /** The row after a profile update: each of name, gender and language
      replaced when supplied non-empty, and the login time stamped. */
  function Profiled(p: Player, playerName: Option<string>, gender: Option<string>,
                    language: Option<string>, now: Time): (r: Player)
    ensures r.playerName == if Supplied(playerName) then playerName.value else p.playerName
    ensures r.gender == if Supplied(gender) then gender else p.gender
    ensures r.languagePreference == if Supplied(language) then language else p.languagePreference
    ensures r.lastLoginDate == Some(now)
    ensures r.(playerName := p.playerName, gender := p.gender, languagePreference := p.languagePreference,
               lastLoginDate := p.lastLoginDate) == p
  {
    var named := if Supplied(playerName) then p.(playerName := playerName.value) else p;
    var gendered := if Supplied(gender) then named.(gender := gender) else named;
    var spoken := if Supplied(language) then gendered.(languagePreference := language) else gendered;
    spoken.(lastLoginDate := Some(now))
  }

  /** Sending the same profile again changes nothing more, and an empty
      request only stamps the login time. */
  lemma ProfiledTwice(p: Player, playerName: Option<string>, gender: Option<string>,
                      language: Option<string>, now: Time, later: Time)
    ensures Profiled(Profiled(p, playerName, gender, language, now), playerName, gender, language, later) ==
      Profiled(p, playerName, gender, language, later)
    ensures Profiled(p, None, None, None, now) == p.(lastLoginDate := Some(now))
  {
    var once := Profiled(p, playerName, gender, language, now);
    assert Profiled(once, playerName, gender, language, later).(lastLoginDate := p.lastLoginDate) ==
      Profiled(p, playerName, gender, language, later).(lastLoginDate := p.lastLoginDate);
  }

  /** PUT api/Player/{id}/updateProfile: NotFound for an unknown player; a
      value too long for its column fails the save (500); otherwise the
      updated row is stored and returned. */
  method UpdatePlayerProfile(db: Store, id: string, playerName: Option<string>, gender: Option<string>,
                             language: Option<string>, now: Time) returns (r: Result<Player, ApiError>)
    requires db.Valid()
    modifies db`players
    ensures db.Valid()
    ensures r == Failure(NotFound) <==> id !in old(db.players)
    ensures r == Failure(ServerError) <==>
      id in old(db.players) && !PlayerFitsColumns(Profiled(old(db.players)[id], playerName, gender, language, now))
    ensures r.Failure? ==> db.players == old(db.players)
    ensures r.Success? ==>
      r.value == Profiled(old(db.players)[id], playerName, gender, language, now) &&
      db.players == old(db.players)[id := r.value]
  {
    if id !in db.players {
      return Failure(NotFound);
    }
    var p := Profiled(db.players[id], playerName, gender, language, now);
    if !PlayerFitsColumns(p) {
      return Failure(ServerError);
    }
    ReplacePlayerValid(db, id, p);
    db.players := db.players[id := p];
    r := Success(p);
  }
}
