/**
 * The demo-data seeder (api/app/seed.py): get-or-create helpers for players,
 * games and stat lines that write straight to the store, so that only the
 * database's own constraints guard them, and the fixed data set it loads.
 */
module Seed {
  import opened Wrappers
  import opened Dates
  import opened Collections
  import opened Schemas
  import opened Models
  import Stats

  /** Why a seed helper fails: the store refuses the write, or the lookup finds more than one row. */
  datatype SeedError = Rejected(cause: StoreError) | MultipleResultsFound

  // ---------- Players ----------

  function NamedPlayer(first: string, last: string): Player -> bool {
    (p: Player) => p.firstName == first && p.lastName == last
  }

  /** `upsert_player`: the one player with these names, or a new one. */
  method UpsertPlayer(store: Store, first: string, last: string, num: Option<int>, now: Timestamp)
    returns (r: Result<Player, SeedError>)
    requires store.Valid()
    modifies store
    ensures store.Valid()
    ensures store.games == old(store.games) && store.stats == old(store.stats)
    ensures store.nextGameId == old(store.nextGameId) && store.nextStatId == old(store.nextStatId)
    ensures old(store.players) <= store.players
    ensures var found := Filter(old(store.players), NamedPlayer(first, last));
      && (|found| > 1 ==> r == Err(MultipleResultsFound))
      && (|found| == 1 ==> r == Ok(found[0]))
      && (|found| == 0 && (|first| > 100 || |last| > 100) ==> r == Err(Rejected(DataTooLong)))
      && (|found| == 0 && |first| <= 100 && |last| <= 100 ==>
            r == Ok(Player(old(store.nextPlayerId), first, last, num, now))
            && store.players == old(store.players) + [r.value]
            && store.nextPlayerId == old(store.nextPlayerId) + 1)
      && (|found| != 0 || r.Err? ==> store.players == old(store.players) && store.nextPlayerId == old(store.nextPlayerId))
    ensures r.Ok? ==> r.value in store.players && r.value.firstName == first && r.value.lastName == last
  {
    var found := Filter(store.players, NamedPlayer(first, last));
    if |found| > 1 {
      return Err(MultipleResultsFound);
    }
    if |found| == 1 {
      assert found[0] in found;
      return Ok(found[0]);
    }
    if |first| > 100 || |last| > 100 {
      return Err(Rejected(DataTooLong));
    }
    var p := Player(store.nextPlayerId, first, last, num, now);
    AppendPlayerConsistent(store.players, store.games, store.stats, p);
    store.players := store.players + [p];
    store.nextPlayerId := store.nextPlayerId + 1;
    r := Ok(p);
  }

  // ---------- Games ----------

  function ScheduledGame(opponent: string, when: Date): Game -> bool {
    (g: Game) => g.opponent == opponent && g.date == when
  }

  /** `upsert_game`: the one game against this opponent on this date, or a new one. */
  method UpsertGame(store: Store, opponent: string, when: Date, location: Option<string>, notes: Option<string>, now: Timestamp)
    returns (r: Result<Game, SeedError>)
    requires store.Valid()
    modifies store
    ensures store.Valid()
    ensures store.players == old(store.players) && store.stats == old(store.stats)
    ensures store.nextPlayerId == old(store.nextPlayerId) && store.nextStatId == old(store.nextStatId)
    ensures old(store.games) <= store.games
    ensures var found := Filter(old(store.games), ScheduledGame(opponent, when));
      var fits := |opponent| <= 150 && (location.None? || |location.value| <= 200);
      && (|found| > 1 ==> r == Err(MultipleResultsFound))
      && (|found| == 1 ==> r == Ok(found[0]))
      && (|found| == 0 && !fits ==> r == Err(Rejected(DataTooLong)))
      && (|found| == 0 && fits ==>
            r == Ok(Game(old(store.nextGameId), opponent, when, None, location, notes, None, None, now))
            && store.games == old(store.games) + [r.value]
            && store.nextGameId == old(store.nextGameId) + 1)
      && (|found| != 0 || r.Err? ==> store.games == old(store.games) && store.nextGameId == old(store.nextGameId))
    ensures r.Ok? ==> r.value in store.games && r.value.opponent == opponent && r.value.date == when
  {
    var found := Filter(store.games, ScheduledGame(opponent, when));
    if |found| > 1 {
      return Err(MultipleResultsFound);
    }
    if |found| == 1 {
      assert found[0] in found;
      return Ok(found[0]);
    }
    if |opponent| > 150 || (location.Some? && |location.value| > 200) {
      return Err(Rejected(DataTooLong));
    }
    var g := Game(store.nextGameId, opponent, when, None, location, notes, None, None, now);
    AppendGameConsistent(store.players, store.games, store.stats, g);
    store.games := store.games + [g];
    store.nextGameId := store.nextGameId + 1;
    r := Ok(g);
  }

  // ---------- Stat lines ----------

  /** The keyword arguments of `upsert_stat`: count columns and their values. */
  type Keywords = map<StatField, int>

  predicate NonNegative(kws: Keywords) {
    forall f | f in kws :: kws[f] >= 0
  }

  function Pick(c: Counts, kws: Keywords, f: StatField): nat
    requires NonNegative(kws)
  {
    if f in kws then kws[f] else Get(c, f)
  }

  /** The counts after `setattr(line, k, v)` for every keyword: named columns take the value, the rest are kept. */
  function Patched(c: Counts, kws: Keywords): (r: Counts)
    requires NonNegative(kws)
    ensures forall f :: Get(r, f) == if f in kws then kws[f] else Get(c, f)
  {
    Counts(Pick(c, kws, AtBats), Pick(c, kws, Hits), Pick(c, kws, Singles), Pick(c, kws, Doubles),
           Pick(c, kws, Triples), Pick(c, kws, HomeRuns), Pick(c, kws, Rbis), Pick(c, kws, Walks),
           Pick(c, kws, Strikeouts), Pick(c, kws, SacFlies), Pick(c, kws, SacBunts),
           Pick(c, kws, HitByPitches), Pick(c, kws, Errors))
  }

  /** Writing the same keywords twice is the same as writing them once. */
  lemma PatchedIdempotent(c: Counts, kws: Keywords)
    requires NonNegative(kws)
    ensures Patched(Patched(c, kws), kws) == Patched(c, kws)
  {
    CountsExt(Patched(Patched(c, kws), kws), Patched(c, kws));
  }

  /** The `for k, v in kws.items(): setattr(existing, k, v)` loop; the columns are distinct, so their order does not matter. */
  method ApplyKeywords(c0: Counts, kws: Keywords) returns (c: Counts)
    requires NonNegative(kws)
    ensures c == Patched(c0, kws)
  {
    c := c0;
    var todo := kws.Keys;
    while todo != {}
      invariant todo <= kws.Keys
      invariant forall f :: Get(c, f) == if f in kws && f !in todo then kws[f] else Get(c0, f)
      decreases |todo|
    {
      var f :| f in todo;
      c := Set(c, f, kws[f]);
      todo := todo - {f};
    }
    CountsExt(c, Patched(c0, kws));
  }

  /** The counts the keywords are written over: the existing line's, or the column defaults for a new line. */
  function PriorCounts(ls: seq<StatLine>, playerId: int, gameId: int): Counts {
    match FindLine(ls, playerId, gameId)
    case Some(i) => ls[i].counts
    case None => ZeroCounts()
  }

  /** The stats table after `upsert_stat` with keywords the CHECK constraints accept. */
  function KeywordUpserted(ls: seq<StatLine>, playerId: int, gameId: int, kws: Keywords, newId: int, now: Timestamp): seq<StatLine>
    requires NonNegative(kws)
  {
    var counts := Patched(PriorCounts(ls, playerId, gameId), kws);
    match FindLine(ls, playerId, gameId)
    case Some(i) => ls[i := ls[i].(counts := counts)]
    case None => ls + [StatLine(newId, playerId, gameId, counts, now)]
  }

  /**
   * The seed's upsert keeps the store's rules and every other line, and leaves
   * exactly one line for the key, carrying the keywords over the prior counts.
   */
  lemma KeywordUpsertedLine(ps: seq<Player>, gs: seq<Game>, ls: seq<StatLine>,
                            playerId: int, gameId: int, kws: Keywords, newId: int, now: Timestamp)
    requires Models.Consistent(ps, gs, ls) && NonNegative(kws)
    requires forall l :: l in ls ==> l.id < newId
    requires FindLine(ls, playerId, gameId).Some? || (HasPlayer(ps, playerId) && HasGame(gs, gameId))
    ensures var r := KeywordUpserted(ls, playerId, gameId, kws, newId, now);
      && Models.Consistent(ps, gs, r)
      && (forall l :: l in r ==> l.id < newId + 1)
      && (forall l :: l in ls && LineKey(l) != (playerId, gameId) ==> l in r)
      && FindLine(r, playerId, gameId).Some?
      && r[FindLine(r, playerId, gameId).value].counts == Patched(PriorCounts(ls, playerId, gameId), kws)
  {
    var counts := Patched(PriorCounts(ls, playerId, gameId), kws);
    match FindLine(ls, playerId, gameId)
    case Some(i) =>
      ReplaceCountsConsistent(ps, gs, ls, i, counts, newId);
      assert forall l :: l in ls ==> l.id < newId + 1;
    case None =>
      AppendLineConsistent(ps, gs, ls, StatLine(newId, playerId, gameId, counts, now));
  }

  /** `upsert_stat`: overwrite the named columns of the line for (player, game), or add the line. */
  method UpsertStat(store: Store, playerId: int, gameId: int, kws: Keywords, now: Timestamp)
    returns (r: Result<StatLine, SeedError>)
    requires store.Valid()
    modifies store
    ensures store.Valid()
    ensures store.players == old(store.players) && store.games == old(store.games)
    ensures store.nextPlayerId == old(store.nextPlayerId) && store.nextGameId == old(store.nextGameId)
    ensures !NonNegative(kws) ==> r == Err(Rejected(CheckViolation))
    ensures NonNegative(kws) && FindLine(old(store.stats), playerId, gameId).None?
            && !(HasPlayer(store.players, playerId) && HasGame(store.games, gameId)) ==>
              r == Err(Rejected(ForeignKeyViolation))
    ensures r.Ok? <==> NonNegative(kws) && (FindLine(old(store.stats), playerId, gameId).Some?
                                            || (HasPlayer(store.players, playerId) && HasGame(store.games, gameId)))
    ensures r.Err? ==> store.stats == old(store.stats) && store.nextStatId == old(store.nextStatId)
    ensures r.Ok? ==>
      && store.stats == KeywordUpserted(old(store.stats), playerId, gameId, kws, old(store.nextStatId), now)
      && store.nextStatId == old(store.nextStatId) + (if FindLine(old(store.stats), playerId, gameId).None? then 1 else 0)
      && |store.stats| == |old(store.stats)| + (if FindLine(old(store.stats), playerId, gameId).None? then 1 else 0)
      && r.value in store.stats && LineKey(r.value) == (playerId, gameId)
      && r.value.counts == Patched(PriorCounts(old(store.stats), playerId, gameId), kws)
    ensures forall l :: l in old(store.stats) && LineKey(l) != (playerId, gameId) ==> l in store.stats
  {
    if exists f | f in kws :: kws[f] < 0 {
      return Err(Rejected(CheckViolation));
    }
    var existing := FindLine(store.stats, playerId, gameId);
    if existing.None? && !(HasPlayer(store.players, playerId) && HasGame(store.games, gameId)) {
      return Err(Rejected(ForeignKeyViolation));
    }
    var line := WriteKeywords(store, playerId, gameId, kws, now);
    r := Ok(line);
  }

  /** The write of `upsert_stat` once the store's constraints are known to accept it. */
  method WriteKeywords(store: Store, playerId: int, gameId: int, kws: Keywords, now: Timestamp)
    returns (line: StatLine)
    requires store.Valid() && NonNegative(kws)
    requires FindLine(store.stats, playerId, gameId).Some? || (HasPlayer(store.players, playerId) && HasGame(store.games, gameId))
    modifies store
    ensures store.Valid()
    ensures store.players == old(store.players) && store.games == old(store.games)
    ensures store.nextPlayerId == old(store.nextPlayerId) && store.nextGameId == old(store.nextGameId)
    ensures store.stats == KeywordUpserted(old(store.stats), playerId, gameId, kws, old(store.nextStatId), now)
    ensures store.nextStatId == old(store.nextStatId) + (if FindLine(old(store.stats), playerId, gameId).None? then 1 else 0)
    ensures line in store.stats && LineKey(line) == (playerId, gameId)
    ensures line.counts == Patched(PriorCounts(old(store.stats), playerId, gameId), kws)
    ensures forall l :: l in old(store.stats) && LineKey(l) != (playerId, gameId) ==> l in store.stats
  {
    var existing := FindLine(store.stats, playerId, gameId);
    var counts := ApplyKeywords(PriorCounts(store.stats, playerId, gameId), kws);
    var ls: seq<StatLine>;
    if existing.Some? {
      ls := store.stats[existing.value := store.stats[existing.value].(counts := counts)];
    } else {
      ls := store.stats + [StatLine(store.nextStatId, playerId, gameId, counts, now)];
    }
    KeywordUpsertedLine(store.players, store.games, store.stats, playerId, gameId, kws, store.nextStatId, now);
    line := ls[FindLine(ls, playerId, gameId).value];
    store.stats := ls;
    if existing.None? {
      store.nextStatId := store.nextStatId + 1;
    }
  }

  // ---------- The data set ----------

  datatype SeedPlayer = SeedPlayer(first: string, last: string, num: int)
  datatype SeedGame = SeedGame(opponent: string, when: Date, location: string)
  /** A stat line of the data set: which seed player, which seed game, and the twelve counts. */
  datatype SeedLine = SeedLine(player: nat, game: nat, box: BoxScore)

  const SeedPlayers: seq<SeedPlayer> :=
    [SeedPlayer("Alex", "Morgan", 10), SeedPlayer("Riley", "Parker", 7), SeedPlayer("Taylor", "Kim", 22)]

  const SeedGames: seq<SeedGame> :=
    [SeedGame("Blue Jays", Date(2025, 4, 12), "Field 1"), SeedGame("Cardinals", Date(2025, 4, 19), "Field 2")]

  const SeedLines: seq<SeedLine> :=
    [ SeedLine(0, 0, BoxScore(4, 2, 1, 1, 0, 0, 2, 1, 1, 0, 0, 0)),
      SeedLine(1, 0, BoxScore(3, 1, 1, 0, 0, 0, 1, 0, 1, 0, 0, 1)),
      SeedLine(2, 1, BoxScore(4, 3, 1, 1, 0, 1, 3, 0, 0, 0, 0, 0)) ]

  /** The keyword arguments a box score is passed as: all twelve payload columns. */
  function AsKeywords(b: BoxScore): Keywords {
    map[AtBats := b.atBats, Hits := b.hits, Singles := b.singles, Doubles := b.doubles,
        Triples := b.triples, HomeRuns := b.homeRuns, Rbis := b.rbis, Walks := b.walks,
        Strikeouts := b.strikeouts, SacFlies := b.sacFlies, HitByPitches := b.hitByPitches,
        Errors := b.errors]
  }

  /** The box score of seed line `k`; none of its counts is negative. */
  function SeedBox(k: nat): (b: BoxScore)
    requires k < |SeedLines|
    ensures b == SeedLines[k].box && AllNonNegative(b)
  {
    assert SeedLines[k].box in [SeedLines[0].box, SeedLines[1].box, SeedLines[2].box];
    SeedLines[k].box
  }

  /** Every line of the data set would also pass the API's own consistency check. */
  lemma SeedLinesConsistent()
    ensures forall k :: 0 <= k < |SeedLines| ==> CheckConsistency(SeedLines[k].box).Ok?
  {
    forall k | 0 <= k < |SeedLines| ensures CheckConsistency(SeedLines[k].box).Ok? {
      var b := SeedLines[k].box;
      assert b in [SeedLines[0].box, SeedLines[1].box, SeedLines[2].box];
    }
  }

  /** The counts of a stored line equal the box score on all twelve payload columns. */
  predicate Carries(c: Counts, b: BoxScore) {
    && c.atBats == b.atBats && c.hits == b.hits && c.singles == b.singles && c.doubles == b.doubles
    && c.triples == b.triples && c.homeRuns == b.homeRuns && c.rbis == b.rbis && c.walks == b.walks
    && c.strikeouts == b.strikeouts && c.sacFlies == b.sacFlies && c.hitByPitches == b.hitByPitches
    && c.errors == b.errors
  }

  predicate IsSeedPlayer(p: Player, k: nat) {
    k < |SeedPlayers| && p.firstName == SeedPlayers[k].first && p.lastName == SeedPlayers[k].last
  }

  predicate IsSeedGame(g: Game, k: nat) {
    k < |SeedGames| && g.opponent == SeedGames[k].opponent && g.date == SeedGames[k].when
  }

  /** Seed line `k` is stored: a line joins a seed player and a seed game and carries the seed counts. */
  ghost predicate LineSeeded(ps: seq<Player>, gs: seq<Game>, ls: seq<StatLine>, k: nat) {
    k < |SeedLines| &&
    exists l :: l in ls && Carries(l.counts, SeedLines[k].box) &&
      exists p, g :: p in ps && g in gs && IsSeedPlayer(p, SeedLines[k].player) && IsSeedGame(g, SeedLines[k].game)
                     && LineKey(l) == (p.id, g.id)
  }

  ghost predicate PlayerSeeded(ps: seq<Player>, k: nat) {
    exists p :: p in ps && IsSeedPlayer(p, k)
  }

  ghost predicate GameSeeded(gs: seq<Game>, k: nat) {
    exists g :: g in gs && IsSeedGame(g, k)
  }

  /** The whole data set is in the store. */
  ghost predicate Seeded(ps: seq<Player>, gs: seq<Game>, ls: seq<StatLine>) {
    && (forall k :: 0 <= k < |SeedPlayers| ==> PlayerSeeded(ps, k))
    && (forall k :: 0 <= k < |SeedGames| ==> GameSeeded(gs, k))
    && (forall k :: 0 <= k < |SeedLines| ==> LineSeeded(ps, gs, ls, k))
  }

  /** Two rows of a table with unique ids and the same id are the same row. */
  lemma SameIdSameRow(ps: seq<Player>, p: Player, q: Player)
    requires Injective(ps, PlayerKey) && p in ps && q in ps && p.id == q.id
    ensures p == q
  {
    FindPlayerUnique(ps, p);
    FindPlayerUnique(ps, q);
  }

  /** A full box score passed as keywords writes what the API's upsert writes. */
  lemma KeywordsOfBox(c: Counts, b: BoxScore)
    requires AllNonNegative(b)
    ensures NonNegative(AsKeywords(b))
    ensures Patched(c, AsKeywords(b)) == Stats.Overwritten(c, b)
    ensures Carries(Patched(c, AsKeywords(b)), b)
  {
    var kws := AsKeywords(b);
    AsKeywordsLookup(b);
    assert NonNegative(kws) by {
      forall f | f in kws ensures kws[f] >= 0 {
        assert f != SacBunts;
      }
    }
  }

  /** The keywords of a box score name every payload column, with its value, and not sac_bunts. */
  lemma AsKeywordsLookup(b: BoxScore)
    ensures var kws := AsKeywords(b);
      && SacBunts !in kws
      && AtBats in kws && kws[AtBats] == b.atBats && Hits in kws && kws[Hits] == b.hits
      && Singles in kws && kws[Singles] == b.singles && Doubles in kws && kws[Doubles] == b.doubles
      && Triples in kws && kws[Triples] == b.triples && HomeRuns in kws && kws[HomeRuns] == b.homeRuns
      && Rbis in kws && kws[Rbis] == b.rbis && Walks in kws && kws[Walks] == b.walks
      && Strikeouts in kws && kws[Strikeouts] == b.strikeouts && SacFlies in kws && kws[SacFlies] == b.sacFlies
      && HitByPitches in kws && kws[HitByPitches] == b.hitByPitches && Errors in kws && kws[Errors] == b.errors
  {
  }

  /** So the seeder's upsert of a full box score changes the table exactly as POST /stats would. */
  lemma SeedUpsertIsApiUpsert(ls: seq<StatLine>, playerId: int, gameId: int, b: BoxScore, newId: int, now: Timestamp)
    requires AllNonNegative(b)
    ensures NonNegative(AsKeywords(b))
    ensures KeywordUpserted(ls, playerId, gameId, AsKeywords(b), newId, now) == Stats.Upserted(ls, playerId, gameId, b, newId, now)
  {
    KeywordsOfBox(PriorCounts(ls, playerId, gameId), b);
  }

  /** A line carrying one of the data set's box scores passes the check StatRead runs, so it never fails a listing. */
  lemma SeedLineReadable(l: StatLine, k: nat)
    requires k < |SeedLines| && Carries(l.counts, SeedLines[k].box)
    ensures Stats.Readable(l)
  {
    SeedLinesConsistent();
    assert Stats.BoxOf(l.counts) == SeedLines[k].box;
  }

  /**
   * `upsert_stat` checks nothing beyond the table's constraints: a new line given
   * hits alone is stored, but StatRead refuses it (hits is not the sum of the
   * hit types), so every listing page that holds it fails.
   */
  lemma HitsAloneUnreadable(ls: seq<StatLine>, playerId: int, gameId: int, newId: int, now: Timestamp)
    requires FindLine(ls, playerId, gameId).None?
    ensures var kws: Keywords := map[Hits := 5];
      && NonNegative(kws)
      && var r := KeywordUpserted(ls, playerId, gameId, kws, newId, now);
         r[|ls|].counts.hits == 5 && !Stats.Readable(r[|ls|])
  {
    var kws: Keywords := map[Hits := 5];
    var c := Patched(ZeroCounts(), kws);
    assert c.hits == 5 && c.singles == 0 && c.doubles == 0 && c.triples == 0 && c.homeRuns == 0;
  }

  /** The lookup of seed player `k`: first and last name. */
  function SeedNamed(k: nat): Player -> bool
    requires k < |SeedPlayers|
  {
    NamedPlayer(SeedPlayers[k].first, SeedPlayers[k].last)
  }

  /** The lookup of seed game `k`: opponent and date. */
  function SeedScheduled(k: nat): Game -> bool
    requires k < |SeedGames|
  {
    ScheduledGame(SeedGames[k].opponent, SeedGames[k].when)
  }

  /** The row `upsert_player` adds for seed player `k`. */
  function NewSeedPlayer(k: nat, id: int, now: Timestamp): Player
    requires k < |SeedPlayers|
  {
    Player(id, SeedPlayers[k].first, SeedPlayers[k].last, Some(SeedPlayers[k].num), now)
  }

  /** The row `upsert_game` adds for seed game `k`: no time, no notes, no scores. */
  function NewSeedGame(k: nat, id: int, now: Timestamp): Game
    requires k < |SeedGames|
  {
    Game(id, SeedGames[k].opponent, SeedGames[k].when, None, Some(SeedGames[k].location), None, None, None, now)
  }

  /** Seed player `k`, got or created; afterwards the player's names pick out that player alone. */
  method UpsertSeedPlayer(store: Store, k: nat, now: Timestamp) returns (r: Result<Player, SeedError>)
    requires store.Valid() && k < |SeedPlayers|
    modifies store
    ensures store.Valid()
    ensures store.games == old(store.games) && store.stats == old(store.stats)
    ensures store.nextGameId == old(store.nextGameId) && store.nextStatId == old(store.nextStatId)
    ensures forall p :: p in old(store.players) ==> p in store.players
    ensures r.Ok? <==> |Filter(old(store.players), SeedNamed(k))| <= 1
    ensures r.Ok? ==> r.value in store.players && IsSeedPlayer(r.value, k) && Filter(store.players, SeedNamed(k)) == [r.value]
    ensures |Filter(old(store.players), SeedNamed(k))| != 0 ==> store.players == old(store.players)
    ensures k != 0 ==> Filter(store.players, SeedNamed(0)) == Filter(old(store.players), SeedNamed(0))
    ensures k != 1 ==> Filter(store.players, SeedNamed(1)) == Filter(old(store.players), SeedNamed(1))
    ensures k != 2 ==> Filter(store.players, SeedNamed(2)) == Filter(old(store.players), SeedNamed(2))
    ensures |Filter(old(store.players), SeedNamed(k))| == 0 ==>
              && r == Ok(NewSeedPlayer(k, old(store.nextPlayerId), now))
              && store.players == old(store.players) + [r.value] && store.nextPlayerId == old(store.nextPlayerId) + 1
    ensures |Filter(old(store.players), SeedNamed(k))| != 0 ==> store.nextPlayerId == old(store.nextPlayerId)
    ensures store.nextPlayerId - |store.players| == old(store.nextPlayerId) - |old(store.players)|
    ensures old(store.players) <= store.players
  {
    var sp := SeedPlayers[k];
    ghost var ps0 := store.players;
    ghost var found := Filter(ps0, SeedNamed(k));
    assert |sp.first| <= 100 && |sp.last| <= 100 by { SeedPlayerFits(k); }
    r := UpsertPlayer(store, sp.first, sp.last, Some(sp.num), now);
    if |found| == 0 {
      AppendSeedPlayer(ps0, r.value, k);
    } else if |found| == 1 {
      assert found == [found[0]];
    }
  }

  /** Adding seed player `k` to a table without it makes one match for `k` and changes no other seed player's matches. */
  lemma AppendSeedPlayer(ps: seq<Player>, p: Player, k: nat)
    requires k < |SeedPlayers| && IsSeedPlayer(p, k) && |Filter(ps, SeedNamed(k))| == 0
    ensures Filter(ps + [p], SeedNamed(k)) == [p]
    ensures forall j :: 0 <= j < |SeedPlayers| && j != k ==> Filter(ps + [p], SeedNamed(j)) == Filter(ps, SeedNamed(j))
  {
    FilterAppend(ps, [p], SeedNamed(k));
    FilterSingle(p, SeedNamed(k));
    forall j | 0 <= j < |SeedPlayers| && j != k
      ensures Filter(ps + [p], SeedNamed(j)) == Filter(ps, SeedNamed(j))
    {
      SeedNamesDistinct(p, k, j);
      FilterAppend(ps, [p], SeedNamed(j));
      FilterSingle(p, SeedNamed(j));
    }
  }

  /** The seed players' names fit their columns. */
  lemma SeedPlayerFits(k: nat)
    requires k < |SeedPlayers|
    ensures |SeedPlayers[k].first| <= 100 && |SeedPlayers[k].last| <= 100
  {
  }

  /** No player carries the names of two seed players. */
  lemma SeedNamesDistinct(p: Player, k: nat, j: nat)
    requires k < |SeedPlayers| && j < |SeedPlayers| && j != k && IsSeedPlayer(p, k)
    ensures !SeedNamed(j)(p)
  {
  }

  /** Seed game `k`, got or created; afterwards its opponent and date pick out that game alone. */
  method UpsertSeedGame(store: Store, k: nat, now: Timestamp) returns (r: Result<Game, SeedError>)
    requires store.Valid() && k < |SeedGames|
    modifies store
    ensures store.Valid()
    ensures store.players == old(store.players) && store.stats == old(store.stats)
    ensures store.nextPlayerId == old(store.nextPlayerId) && store.nextStatId == old(store.nextStatId)
    ensures forall g :: g in old(store.games) ==> g in store.games
    ensures r.Ok? <==> |Filter(old(store.games), SeedScheduled(k))| <= 1
    ensures r.Ok? ==> r.value in store.games && IsSeedGame(r.value, k) && Filter(store.games, SeedScheduled(k)) == [r.value]
    ensures |Filter(old(store.games), SeedScheduled(k))| != 0 ==> store.games == old(store.games)
    ensures k != 0 ==> Filter(store.games, SeedScheduled(0)) == Filter(old(store.games), SeedScheduled(0))
    ensures k != 1 ==> Filter(store.games, SeedScheduled(1)) == Filter(old(store.games), SeedScheduled(1))
    ensures |Filter(old(store.games), SeedScheduled(k))| == 0 ==>
              && r == Ok(NewSeedGame(k, old(store.nextGameId), now))
              && store.games == old(store.games) + [r.value] && store.nextGameId == old(store.nextGameId) + 1
    ensures |Filter(old(store.games), SeedScheduled(k))| != 0 ==> store.nextGameId == old(store.nextGameId)
    ensures store.nextGameId - |store.games| == old(store.nextGameId) - |old(store.games)|
    ensures old(store.games) <= store.games
  {
    var sg := SeedGames[k];
    ghost var gs0 := store.games;
    ghost var found := Filter(gs0, SeedScheduled(k));
    assert |sg.opponent| <= 150 && |sg.location| <= 200 by { SeedGameFits(k); }
    r := UpsertGame(store, sg.opponent, sg.when, Some(sg.location), None, now);
    if |found| == 0 {
      AppendSeedGame(gs0, r.value, k);
    } else if |found| == 1 {
      assert found == [found[0]];
    }
  }

  lemma AppendSeedGame(gs: seq<Game>, g: Game, k: nat)
    requires k < |SeedGames| && IsSeedGame(g, k) && |Filter(gs, SeedScheduled(k))| == 0
    ensures Filter(gs + [g], SeedScheduled(k)) == [g]
    ensures forall j :: 0 <= j < |SeedGames| && j != k ==> Filter(gs + [g], SeedScheduled(j)) == Filter(gs, SeedScheduled(j))
  {
    FilterAppend(gs, [g], SeedScheduled(k));
    FilterSingle(g, SeedScheduled(k));
    forall j | 0 <= j < |SeedGames| && j != k
      ensures Filter(gs + [g], SeedScheduled(j)) == Filter(gs, SeedScheduled(j))
    {
      SeedGamesDistinct(g, k, j);
      FilterAppend(gs, [g], SeedScheduled(j));
      FilterSingle(g, SeedScheduled(j));
    }
  }

  /** The seed games' opponents and locations fit their columns. */
  lemma SeedGameFits(k: nat)
    requires k < |SeedGames|
    ensures |SeedGames[k].opponent| <= 150 && |SeedGames[k].location| <= 200
  {
  }

  /** No game has the opponent and date of two seed games. */
  lemma SeedGamesDistinct(g: Game, k: nat, j: nat)
    requires k < |SeedGames| && j < |SeedGames| && j != k && IsSeedGame(g, k)
    ensures !SeedScheduled(j)(g)
  {
  }

  /** The first part of `main`: the three players. */
  method SeedRoster(store: Store, now: Timestamp) returns (r: Result<(Player, Player, Player), SeedError>)
    requires store.Valid()
    modifies store
    ensures store.Valid()
    ensures store.games == old(store.games) && store.stats == old(store.stats)
    ensures store.nextGameId == old(store.nextGameId) && store.nextStatId == old(store.nextStatId)
    ensures PlayersAtMostOnce(old(store.players)) ==> r.Ok?
    ensures r.Ok? ==> && PlayersOnce(store.players)
                      && r.value == (TheSeedPlayer(store.players, 0), TheSeedPlayer(store.players, 1),
                                     TheSeedPlayer(store.players, 2))
    ensures PlayersOnce(old(store.players)) ==> store.players == old(store.players)
    ensures store.nextPlayerId - |store.players| == old(store.nextPlayerId) - |old(store.players)|
    ensures old(store.players) <= store.players
  {
    ghost var ps0 := store.players;
    var alex := UpsertSeedPlayer(store, 0, now);
    if alex.Err? { return Err(alex.error); }
    ghost var ps1 := store.players;
    var riley := UpsertSeedPlayer(store, 1, now);
    PrefixTrans(ps0, ps1, store.players);
    if riley.Err? { return Err(riley.error); }
    ghost var ps2 := store.players;
    var taylor := UpsertSeedPlayer(store, 2, now);
    PrefixTrans(ps0, ps2, store.players);
    if taylor.Err? { return Err(taylor.error); }
    PlayersOnceOf(store.players, alex.value, riley.value, taylor.value);
    r := Ok((alex.value, riley.value, taylor.value));
  }

  /** The second part of `main`: the two games. */
  method SeedSchedule(store: Store, now: Timestamp) returns (r: Result<(Game, Game), SeedError>)
    requires store.Valid()
    modifies store
    ensures store.Valid()
    ensures store.players == old(store.players) && store.stats == old(store.stats)
    ensures store.nextPlayerId == old(store.nextPlayerId) && store.nextStatId == old(store.nextStatId)
    ensures GamesAtMostOnce(old(store.games)) ==> r.Ok?
    ensures r.Ok? ==> GamesOnce(store.games) && r.value == (TheSeedGame(store.games, 0), TheSeedGame(store.games, 1))
    ensures GamesOnce(old(store.games)) ==> store.games == old(store.games)
    ensures store.nextGameId - |store.games| == old(store.nextGameId) - |old(store.games)|
    ensures old(store.games) <= store.games
  {
    ghost var gs0 := store.games;
    var g1 := UpsertSeedGame(store, 0, now);
    if g1.Err? { return Err(g1.error); }
    ghost var gs1 := store.games;
    var g2 := UpsertSeedGame(store, 1, now);
    PrefixTrans(gs0, gs1, store.games);
    if g2.Err? { return Err(g2.error); }
    GamesOnceOf(store.games, g1.value, g2.value);
    r := Ok((g1.value, g2.value));
  }

  /** One stat line of the data set, for players and games already stored: the write always succeeds. */
  method SeedLineOf(store: Store, k: nat, p: Player, g: Game, now: Timestamp) returns (r: Result<StatLine, SeedError>)
    requires store.Valid() && k < |SeedLines|
    requires p in store.players && g in store.games
    modifies store
    ensures store.Valid()
    ensures store.players == old(store.players) && store.games == old(store.games)
    ensures forall l :: l in old(store.stats) && LineKey(l) != (p.id, g.id) ==> l in store.stats
    ensures r.Ok? && r.value in store.stats && LineKey(r.value) == (p.id, g.id) && Carries(r.value.counts, SeedLines[k].box)
    ensures |store.stats| == |old(store.stats)| + (if LinePresent(old(store.stats), p.id, g.id) then 0 else 1)
    ensures store.nextPlayerId == old(store.nextPlayerId) && store.nextGameId == old(store.nextGameId)
    ensures store.nextStatId - |store.stats| == old(store.nextStatId) - |old(store.stats)|
  {
    var box := SeedBox(k);
    KeywordsOfBox(PriorCounts(store.stats, p.id, g.id), box);
    ghost var present := FindLine(store.stats, p.id, g.id).Some?;
    assert present <==> LinePresent(store.stats, p.id, g.id) by {
      if present {
        assert store.stats[FindLine(store.stats, p.id, g.id).value] in store.stats;
      }
    }
    r := UpsertStat(store, p.id, g.id, AsKeywords(box), now);
  }

  // ---------- Running `main` again ----------

  /** Seed player `k`'s names pick out exactly one stored player. */
  predicate PlayerOnce(ps: seq<Player>, k: nat) {
    k < |SeedPlayers| && |Filter(ps, SeedNamed(k))| == 1
  }

  predicate PlayersOnce(ps: seq<Player>) {
    PlayerOnce(ps, 0) && PlayerOnce(ps, 1) && PlayerOnce(ps, 2)
  }

  /** No seed player's names pick out more than one stored player, so no lookup of `main` fails. */
  predicate PlayersAtMostOnce(ps: seq<Player>) {
    |Filter(ps, SeedNamed(0))| <= 1 && |Filter(ps, SeedNamed(1))| <= 1 && |Filter(ps, SeedNamed(2))| <= 1
  }

  /** The one player `upsert_player` then returns for seed player `k`. */
  function TheSeedPlayer(ps: seq<Player>, k: nat): Player
    requires PlayerOnce(ps, k)
  {
    Filter(ps, SeedNamed(k))[0]
  }

  /** Seed game `k`'s opponent and date pick out exactly one stored game. */
  predicate GameOnce(gs: seq<Game>, k: nat) {
    k < |SeedGames| && |Filter(gs, SeedScheduled(k))| == 1
  }

  predicate GamesOnce(gs: seq<Game>) {
    GameOnce(gs, 0) && GameOnce(gs, 1)
  }

  predicate GamesAtMostOnce(gs: seq<Game>) {
    |Filter(gs, SeedScheduled(0))| <= 1 && |Filter(gs, SeedScheduled(1))| <= 1
  }

  function TheSeedGame(gs: seq<Game>, k: nat): Game
    requires GameOnce(gs, k)
  {
    Filter(gs, SeedScheduled(k))[0]
  }

  lemma PlayersOnceOf(ps: seq<Player>, a: Player, b: Player, t: Player)
    requires Filter(ps, SeedNamed(0)) == [a] && Filter(ps, SeedNamed(1)) == [b] && Filter(ps, SeedNamed(2)) == [t]
    ensures PlayersOnce(ps)
    ensures TheSeedPlayer(ps, 0) == a && TheSeedPlayer(ps, 1) == b && TheSeedPlayer(ps, 2) == t
  {
  }

  lemma GamesOnceOf(gs: seq<Game>, x: Game, y: Game)
    requires Filter(gs, SeedScheduled(0)) == [x] && Filter(gs, SeedScheduled(1)) == [y]
    ensures GamesOnce(gs)
    ensures TheSeedGame(gs, 0) == x && TheSeedGame(gs, 1) == y
  {
  }

  ghost predicate LinePresent(ls: seq<StatLine>, playerId: int, gameId: int) {
    exists l :: l in ls && LineKey(l) == (playerId, gameId)
  }

  /**
   * Every natural key of the data set names exactly one row, and the stat
   * line of each seed (player, game) pair exists: the state in which `main`
   * finds everything it would write.
   */
  ghost predicate SeededOnce(ps: seq<Player>, gs: seq<Game>, ls: seq<StatLine>) {
    && PlayersOnce(ps) && GamesOnce(gs)
    && LinePresent(ls, TheSeedPlayer(ps, 0).id, TheSeedGame(gs, 0).id)
    && LinePresent(ls, TheSeedPlayer(ps, 1).id, TheSeedGame(gs, 0).id)
    && LinePresent(ls, TheSeedPlayer(ps, 2).id, TheSeedGame(gs, 1).id)
  }

  /** `l` is keyed by one of the three (player, game) pairs of the data set, for the seed rows of `ps` and `gs`. */
  ghost predicate SeedKeyed(ps: seq<Player>, gs: seq<Game>, l: StatLine) {
    && PlayersOnce(ps) && GamesOnce(gs)
    && (|| LineKey(l) == (TheSeedPlayer(ps, 0).id, TheSeedGame(gs, 0).id)
        || LineKey(l) == (TheSeedPlayer(ps, 1).id, TheSeedGame(gs, 0).id)
        || LineKey(l) == (TheSeedPlayer(ps, 2).id, TheSeedGame(gs, 1).id))
  }

  /** The witnesses of Seeded: the seed rows and the three lines joining them. */
  lemma SeededBy(ps: seq<Player>, gs: seq<Game>, ls: seq<StatLine>,
                 a: Player, b: Player, t: Player, x: Game, y: Game, l1: StatLine, l2: StatLine, l3: StatLine)
    requires a in ps && b in ps && t in ps && x in gs && y in gs && l1 in ls && l2 in ls && l3 in ls
    requires IsSeedPlayer(a, 0) && IsSeedPlayer(b, 1) && IsSeedPlayer(t, 2)
    requires IsSeedGame(x, 0) && IsSeedGame(y, 1)
    requires LineKey(l1) == (a.id, x.id) && Carries(l1.counts, SeedLines[0].box)
    requires LineKey(l2) == (b.id, x.id) && Carries(l2.counts, SeedLines[1].box)
    requires LineKey(l3) == (t.id, y.id) && Carries(l3.counts, SeedLines[2].box)
    ensures Seeded(ps, gs, ls)
  {
    assert LineSeeded(ps, gs, ls, 0) && LineSeeded(ps, gs, ls, 1) && LineSeeded(ps, gs, ls, 2);
    assert PlayerSeeded(ps, 0) && PlayerSeeded(ps, 1) && PlayerSeeded(ps, 2);
    assert GameSeeded(gs, 0) && GameSeeded(gs, 1);
    forall k | 0 <= k < |SeedLines| ensures LineSeeded(ps, gs, ls, k) {
      assert k == 0 || k == 1 || k == 2;
    }
    forall k | 0 <= k < |SeedPlayers| ensures PlayerSeeded(ps, k) {
      assert k == 0 || k == 1 || k == 2;
    }
    forall k | 0 <= k < |SeedGames| ensures GameSeeded(gs, k) {
      assert k == 0 || k == 1;
    }
  }

  /** The third part of `main`: the three stat lines, for the seed rows the lookups pick out. */
  method SeedStatLines(store: Store, now: Timestamp)
    requires store.Valid() && PlayersOnce(store.players) && GamesOnce(store.games)
    modifies store
    ensures store.Valid()
    ensures store.players == old(store.players) && store.games == old(store.games)
    ensures Seeded(store.players, store.games, store.stats) && SeededOnce(store.players, store.games, store.stats)
    ensures old(SeededOnce(store.players, store.games, store.stats)) ==> |store.stats| == |old(store.stats)|
    ensures store.nextPlayerId == old(store.nextPlayerId) && store.nextGameId == old(store.nextGameId)
    ensures store.nextStatId - |store.stats| == old(store.nextStatId) - |old(store.stats)|
    ensures forall l :: l in old(store.stats) && !SeedKeyed(store.players, store.games, l) ==> l in store.stats
  {
    var a, b, t := TheSeedPlayer(store.players, 0), TheSeedPlayer(store.players, 1), TheSeedPlayer(store.players, 2);
    var x, y := TheSeedGame(store.games, 0), TheSeedGame(store.games, 1);
    SeedRowsStored(store.players, store.games);
    ghost var ls0 := store.stats;
    var s1 := SeedLineOf(store, 0, a, x, now);
    var l1 := s1.value;
    ghost var ls1 := store.stats;
    var s2 := SeedLineOf(store, 1, b, x, now);
    var l2 := s2.value;
    assert LineKey(l1) != (b.id, x.id);
    ghost var ls2 := store.stats;
    var s3 := SeedLineOf(store, 2, t, y, now);
    var l3 := s3.value;
    assert LineKey(l1) != (t.id, y.id) && LineKey(l2) != (t.id, y.id);
    SeededBy(store.players, store.games, store.stats, a, b, t, x, y, l1, l2, l3);
    assert LinePresent(store.stats, a.id, x.id) && LinePresent(store.stats, b.id, x.id);
    if LinePresent(ls0, a.id, x.id) && LinePresent(ls0, b.id, x.id) && LinePresent(ls0, t.id, y.id) {
      var w2 :| w2 in ls0 && LineKey(w2) == (b.id, x.id);
      var w3 :| w3 in ls0 && LineKey(w3) == (t.id, y.id);
      assert w2 in ls1 && w3 in ls1 && w3 in ls2;
      assert LinePresent(ls1, b.id, x.id) && LinePresent(ls2, t.id, y.id);
    }
  }

  /**
   * `main`: the three players, the two games and the three stat lines, each got
   * or created in turn. It cannot fail while no natural key of the data set
   * names two rows; once it succeeds, each key names one row and each seed line
   * exists, and a run on such a store adds no player, no game and no stat line.
   */
  method SeedMain(store: Store, now: Timestamp) returns (r: Result<(), SeedError>)
    requires store.Valid()
    modifies store
    ensures store.Valid()
    ensures PlayersAtMostOnce(old(store.players)) && GamesAtMostOnce(old(store.games)) ==> r.Ok?
    ensures r.Ok? ==> Seeded(store.players, store.games, store.stats) && SeededOnce(store.players, store.games, store.stats)
    ensures old(SeededOnce(store.players, store.games, store.stats)) ==>
              && r.Ok?
              && store.players == old(store.players) && store.games == old(store.games)
              && |store.stats| == old(|store.stats|)
    ensures old(store.players) <= store.players && old(store.games) <= store.games
    ensures store.nextPlayerId - |store.players| == old(store.nextPlayerId) - |old(store.players)|
    ensures store.nextGameId - |store.games| == old(store.nextGameId) - |old(store.games)|
    ensures store.nextStatId - |store.stats| == old(store.nextStatId) - |old(store.stats)|
    ensures r.Err? ==> store.stats == old(store.stats)
    ensures r.Ok? ==> forall l :: l in old(store.stats) && !SeedKeyed(store.players, store.games, l) ==> l in store.stats
  {
    if SeededOnce(store.players, store.games, store.stats) {
      OnceAtMostOnce(store.players, store.games);
    }
    var roster := SeedRoster(store, now);
    if roster.Err? { return Err(roster.error); }
    var schedule := SeedSchedule(store, now);
    if schedule.Err? { return Err(schedule.error); }
    SeedStatLines(store, now);
    r := Ok(());
  }

  /** Keys that name exactly one row name at most one, so `main`'s lookups cannot fail on them. */
  lemma OnceAtMostOnce(ps: seq<Player>, gs: seq<Game>)
    requires PlayersOnce(ps) && GamesOnce(gs)
    ensures PlayersAtMostOnce(ps) && GamesAtMostOnce(gs)
  {
  }

  /** The rows the lookups pick out are stored, are the seed rows, and the three players are three rows. */
  lemma SeedRowsStored(ps: seq<Player>, gs: seq<Game>)
    requires PlayersOnce(ps) && GamesOnce(gs) && Injective(ps, PlayerKey)
    ensures var (a, b, t) := (TheSeedPlayer(ps, 0), TheSeedPlayer(ps, 1), TheSeedPlayer(ps, 2));
      && a in ps && b in ps && t in ps
      && IsSeedPlayer(a, 0) && IsSeedPlayer(b, 1) && IsSeedPlayer(t, 2)
      && a.id != b.id && a.id != t.id && b.id != t.id
    ensures TheSeedGame(gs, 0) in gs && TheSeedGame(gs, 1) in gs
    ensures IsSeedGame(TheSeedGame(gs, 0), 0) && IsSeedGame(TheSeedGame(gs, 1), 1)
  {
    var a, b, t := TheSeedPlayer(ps, 0), TheSeedPlayer(ps, 1), TheSeedPlayer(ps, 2);
    assert a in Filter(ps, SeedNamed(0)) && b in Filter(ps, SeedNamed(1)) && t in Filter(ps, SeedNamed(2));
    assert TheSeedGame(gs, 0) in Filter(gs, SeedScheduled(0)) && TheSeedGame(gs, 1) in Filter(gs, SeedScheduled(1));
    if a.id == b.id { SameIdSameRow(ps, a, b); }
    if a.id == t.id { SameIdSameRow(ps, a, t); }
    if b.id == t.id { SameIdSameRow(ps, b, t); }
  }
}
