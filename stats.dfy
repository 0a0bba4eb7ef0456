/**
 * The stat-line endpoints (api/app/routers/stats.py): the upsert keyed by
 * (player, game), the filtered listing, and the filtered aggregate with its
 * derived metrics.
 */
module Stats {
  import opened Wrappers
  import opened Dates
  import opened Collections
  import opened Schemas
  import opened Models
  import opened Metrics

  // ---------- Upsert ----------

  datatype StatCreate = StatCreate(playerId: int, gameId: int, box: BoxScore)

  /** A stat line with its owner's name attached (StatRead). */
  datatype StatRead = StatRead(line: StatLine, playerFirstName: string, playerLastName: string)

  /** The twelve columns StatRead inherits from StatBase, read off stored counts; sac_bunts is not one. */
  function BoxOf(c: Counts): (b: BoxScore)
    ensures AllNonNegative(b)
    ensures forall f :: f in PayloadFields ==> PayloadValue(b, f) == Get(c, f)
  {
    BoxScore(c.atBats, c.hits, c.singles, c.doubles, c.triples, c.homeRuns, c.rbis, c.walks,
             c.strikeouts, c.sacFlies, c.hitByPitches, c.errors)
  }

  /** A stored line StatRead accepts: building the response runs check_consistency on its twelve columns. */
  predicate Readable(l: StatLine) {
    CheckConsistency(BoxOf(l.counts)).Ok?
  }

  /** The columns the upsert copies from the payload, in the order it copies them; sac_bunts is not one. */
  const PayloadFields: seq<StatField> :=
    [AtBats, Hits, Singles, Doubles, Triples, HomeRuns, Rbis, Walks, Strikeouts, SacFlies, HitByPitches, Errors]

  /** `getattr(payload, f)`; the payload has no sac_bunts, so that column is never asked for. */
  function PayloadValue(b: BoxScore, f: StatField): int {
    match f
    case AtBats => b.atBats
    case Hits => b.hits
    case Singles => b.singles
    case Doubles => b.doubles
    case Triples => b.triples
    case HomeRuns => b.homeRuns
    case Rbis => b.rbis
    case Walks => b.walks
    case Strikeouts => b.strikeouts
    case SacFlies => b.sacFlies
    case SacBunts => 0
    case HitByPitches => b.hitByPitches
    case Errors => b.errors
  }

  /** The counts after the payload's twelve fields are copied over `c`: sac_bunts keeps its value. */
  function Overwritten(c: Counts, b: BoxScore): (r: Counts)
    requires AllNonNegative(b)
    ensures forall f :: f in PayloadFields ==> Get(r, f) == PayloadValue(b, f)
    ensures r.sacBunts == c.sacBunts
  {
    Counts(b.atBats, b.hits, b.singles, b.doubles, b.triples, b.homeRuns, b.rbis, b.walks,
           b.strikeouts, b.sacFlies, c.sacBunts, b.hitByPitches, b.errors)
  }

  /**
   * A line the upsert wrote reads back as the validated payload, so the StatRead
   * upsert_stat returns always passes check_consistency, whatever sac_bunts holds.
   */
  lemma OverwrittenReadable(c: Counts, b: BoxScore, l: StatLine)
    requires Schemas.Consistent(b) && l.counts == Overwritten(c, b)
    ensures BoxOf(l.counts) == b
    ensures Readable(l)
  {
  }

  /** The `for field in [...]: setattr(stat, field, getattr(payload, field))` loop. */
  method CopyPayload(c0: Counts, b: BoxScore) returns (c: Counts)
    requires AllNonNegative(b)
    ensures c == Overwritten(c0, b)
  {
    c := c0;
    for i := 0 to |PayloadFields|
      invariant forall j :: 0 <= j < i ==> Get(c, PayloadFields[j]) == PayloadValue(b, PayloadFields[j])
      invariant forall f :: f !in PayloadFields[..i] ==> Get(c, f) == Get(c0, f)
    {
      var f := PayloadFields[i];
      assert PayloadValue(b, f) >= 0;
      c := Set(c, f, PayloadValue(b, f));
      assert PayloadFields[..i + 1] == PayloadFields[..i] + [f];
    }
    assert PayloadFields[..|PayloadFields|] == PayloadFields;
    forall f ensures Get(c, f) == Get(Overwritten(c0, b), f) {
      if f in PayloadFields {
        var j :| 0 <= j < |PayloadFields| && PayloadFields[j] == f;
      } else {
        assert f == SacBunts;
      }
    }
    CountsExt(c, Overwritten(c0, b));
  }

  /** The stats table after an upsert of `b` at (playerId, gameId). */
  function Upserted(ls: seq<StatLine>, playerId: int, gameId: int, b: BoxScore, newId: int, now: Timestamp): seq<StatLine>
    requires AllNonNegative(b)
  {
    match FindLine(ls, playerId, gameId)
    case Some(i) => ls[i := ls[i].(counts := Overwritten(ls[i].counts, b))]
    case None => ls + [StatLine(newId, playerId, gameId, Overwritten(ZeroCounts(), b), now)]
  }

  /**
   * The upsert keeps one line per (player, game): it updates the existing line in
   * place (id and creation time kept) or adds exactly one; the line for the key
   * then carries the payload's twelve counts, and every other line is untouched.
   */
  lemma UpsertedLine(ls: seq<StatLine>, playerId: int, gameId: int, b: BoxScore, newId: int, now: Timestamp)
    requires AllNonNegative(b) && Injective(ls, LineKey)
    ensures var r := Upserted(ls, playerId, gameId, b, newId, now);
      && Injective(r, LineKey)
      && |r| == (if FindLine(ls, playerId, gameId).Some? then |ls| else |ls| + 1)
      && (exists l :: l in r && LineKey(l) == (playerId, gameId))
      && (forall l :: l in r && LineKey(l) == (playerId, gameId) ==>
            (forall f :: f in PayloadFields ==> Get(l.counts, f) == PayloadValue(b, f)))
      && (forall l :: l in r && LineKey(l) != (playerId, gameId) <==> l in ls && LineKey(l) != (playerId, gameId))
      && (match FindLine(ls, playerId, gameId)
          case Some(i) => FindLine(r, playerId, gameId) == Some(i)
            && r[i].id == ls[i].id && r[i].createdAt == ls[i].createdAt
            && r[i].counts.sacBunts == ls[i].counts.sacBunts
          case None => (FindLine(r, playerId, gameId) == Some(|ls|)
            && r[|ls|].id == newId && r[|ls|].counts.sacBunts == 0))
  {
    var r := Upserted(ls, playerId, gameId, b, newId, now);
    match FindLine(ls, playerId, gameId)
    case Some(i) =>
      assert forall j :: 0 <= j < |r| ==> LineKey(r[j]) == LineKey(ls[j]);
      assert r[i] in r;
      forall l | l in r && LineKey(l) == (playerId, gameId) ensures l == r[i] {
        var j :| 0 <= j < |r| && r[j] == l;
        assert LineKey(ls[j]) == LineKey(ls[i]);
      }
      forall l ensures l in r && LineKey(l) != (playerId, gameId) <==> l in ls && LineKey(l) != (playerId, gameId) {
        if l in r && LineKey(l) != (playerId, gameId) {
          var j :| 0 <= j < |r| && r[j] == l;
          assert j != i && ls[j] == l;
        }
        if l in ls && LineKey(l) != (playerId, gameId) {
          var j :| 0 <= j < |ls| && ls[j] == l;
          assert j != i && r[j] == l;
        }
      }
      FindLineUnique(r, i);
    case None =>
      var nl := StatLine(newId, playerId, gameId, Overwritten(ZeroCounts(), b), now);
      assert r == ls + [nl];
      forall i, j | 0 <= i < j < |r| ensures LineKey(r[i]) != LineKey(r[j]) {
        if j == |ls| {
          assert r[i] == ls[i] && ls[i] in ls;
        } else {
          assert r[i] == ls[i] && r[j] == ls[j];
        }
      }
      assert r[|ls|] == nl;
      FindLineUnique(r, |ls|);
  }

  /** An upsert that the endpoint lets through keeps every rule of the store. */
  lemma UpsertedConsistent(ps: seq<Player>, gs: seq<Game>, ls: seq<StatLine>,
                           playerId: int, gameId: int, b: BoxScore, newId: int, now: Timestamp)
    requires Models.Consistent(ps, gs, ls) && AllNonNegative(b)
    requires HasPlayer(ps, playerId) && HasGame(gs, gameId)
    requires forall l :: l in ls ==> l.id < newId
    ensures Models.Consistent(ps, gs, Upserted(ls, playerId, gameId, b, newId, now))
    ensures forall l :: l in Upserted(ls, playerId, gameId, b, newId, now) ==> l.id < newId + 1
    ensures FindLine(Upserted(ls, playerId, gameId, b, newId, now), playerId, gameId).Some?
  {
    match FindLine(ls, playerId, gameId)
    case Some(i) =>
      ReplaceCountsConsistent(ps, gs, ls, i, Overwritten(ls[i].counts, b), newId);
    case None =>
      AppendLineConsistent(ps, gs, ls, StatLine(newId, playerId, gameId, Overwritten(ZeroCounts(), b), now));
  }

  /**
   * POST /stats: validate the payload, require the player and the game, then
   * update the existing line for (player, game) or add one, and answer it with
   * the player's name.
   */
  method UpsertStat(store: Store, req: StatCreate, now: Timestamp) returns (r: Result<StatRead, RequestError>)
    requires store.Valid()
    modifies store
    ensures store.Valid()
    ensures store.players == old(store.players) && store.games == old(store.games)
    ensures store.nextPlayerId == old(store.nextPlayerId) && store.nextGameId == old(store.nextGameId)
    ensures CheckConsistency(req.box).Err? ==> r == Err(InvalidBody(Message(CheckConsistency(req.box).error)))
    ensures CheckConsistency(req.box).Ok? && !HasPlayer(old(store.players), req.playerId) ==>
              r == Err(NotFound("Player not found"))
    ensures CheckConsistency(req.box).Ok? && HasPlayer(old(store.players), req.playerId)
              && !HasGame(old(store.games), req.gameId) ==>
              r == Err(NotFound("Game not found"))
    ensures r.Err? ==> store.stats == old(store.stats) && store.nextStatId == old(store.nextStatId)
    ensures r.Ok? ==>
              && Schemas.Consistent(req.box)
              && HasPlayer(old(store.players), req.playerId) && HasGame(old(store.games), req.gameId)
              && store.stats == Upserted(old(store.stats), req.playerId, req.gameId, req.box, old(store.nextStatId), now)
              && store.nextStatId == old(store.nextStatId) + (if FindLine(old(store.stats), req.playerId, req.gameId).None? then 1 else 0)
              && r.value.line in store.stats && LineKey(r.value.line) == (req.playerId, req.gameId)
              && FindPlayer(store.players, req.playerId).Some?
              && r.value.playerFirstName == FindPlayer(store.players, req.playerId).value.firstName
              && r.value.playerLastName == FindPlayer(store.players, req.playerId).value.lastName
  {
    var check := CheckConsistency(req.box);
    if check.Err? {
      return Err(InvalidBody(Message(check.error)));
    }
    var player := FindPlayer(store.players, req.playerId);
    if player.None? {
      return Err(NotFound("Player not found"));
    }
    var game := FindGame(store.games, req.gameId);
    if game.None? {
      return Err(NotFound("Game not found"));
    }
    var line := StoreUpsert(store, req.playerId, req.gameId, req.box, now);
    r := Ok(StatRead(line, player.value.firstName, player.value.lastName));
  }

  /** The write of POST /stats, once the payload, the player and the game have been accepted. */
  method StoreUpsert(store: Store, playerId: int, gameId: int, b: BoxScore, now: Timestamp) returns (line: StatLine)
    requires store.Valid() && AllNonNegative(b)
    requires HasPlayer(store.players, playerId) && HasGame(store.games, gameId)
    modifies store
    ensures store.Valid()
    ensures store.players == old(store.players) && store.games == old(store.games)
    ensures store.nextPlayerId == old(store.nextPlayerId) && store.nextGameId == old(store.nextGameId)
    ensures store.stats == Upserted(old(store.stats), playerId, gameId, b, old(store.nextStatId), now)
    ensures store.nextStatId == old(store.nextStatId) + (if FindLine(old(store.stats), playerId, gameId).None? then 1 else 0)
    ensures line in store.stats && LineKey(line) == (playerId, gameId)
  {
    var ls, added := UpsertLine(store.stats, playerId, gameId, b, store.nextStatId, now);
    UpsertedConsistent(store.players, store.games, store.stats, playerId, gameId, b, store.nextStatId, now);
    line := ls[FindLine(ls, playerId, gameId).value];
    store.stats := ls;
    if added {
      store.nextStatId := store.nextStatId + 1;
    }
  }

  /** The update-or-insert on the table itself: find the line, add a zeroed one if missing, copy the payload. */
  method UpsertLine(ls0: seq<StatLine>, playerId: int, gameId: int, b: BoxScore, newId: int, now: Timestamp)
    returns (ls: seq<StatLine>, added: bool)
    requires AllNonNegative(b)
    ensures ls == Upserted(ls0, playerId, gameId, b, newId, now)
    ensures added <==> FindLine(ls0, playerId, gameId).None?
  {
    ls := ls0;
    var i: nat;
    var existing := FindLine(ls, playerId, gameId);
    added := existing.None?;
    if added {
      ls := ls + [StatLine(newId, playerId, gameId, ZeroCounts(), now)];
      i := |ls| - 1;
    } else {
      i := existing.value;
    }
    var line := ls[i];
    var counts := CopyPayload(line.counts, b);
    ls := ls[i := line.(counts := counts)];
  }

  /** A second upsert at the same key overwrites the first: only the last payload counts. */
  lemma UpsertTwice(ls: seq<StatLine>, playerId: int, gameId: int, b1: BoxScore, b2: BoxScore,
                    newId: int, newId2: int, now: Timestamp, now2: Timestamp)
    requires AllNonNegative(b1) && AllNonNegative(b2)
    ensures Upserted(Upserted(ls, playerId, gameId, b1, newId, now), playerId, gameId, b2, newId2, now2)
         == Upserted(ls, playerId, gameId, b2, newId, now)
  {
    var r1 := Upserted(ls, playerId, gameId, b1, newId, now);
    match FindLine(ls, playerId, gameId)
    case Some(i) =>
      assert forall k :: 0 <= k < |r1| ==> LineKey(r1[k]) == LineKey(ls[k]);
      assert r1[i] in r1;
      var j := FindLine(r1, playerId, gameId).value;
      assert LineKey(ls[j]) == (playerId, gameId);
    case None =>
      var nl := StatLine(newId, playerId, gameId, Overwritten(ZeroCounts(), b1), now);
      assert r1 == ls + [nl];
      FindLineAfter(ls, nl);
  }

  /** Appending a line whose key is new makes FindLine find it at the end. */
  lemma {:induction false} FindLineAfter(ls: seq<StatLine>, nl: StatLine)
    requires FindLine(ls, nl.playerId, nl.gameId).None?
    ensures FindLine(ls + [nl], nl.playerId, nl.gameId) == Some(|ls|)
  {
    if ls != [] {
      assert (ls + [nl])[1..] == ls[1..] + [nl];
      FindLineAfter(ls[1..], nl);
    }
  }
}

module StatsQuery {
  import opened Wrappers
  import opened Dates
  import opened Collections
  import opened Schemas
  import opened Models
  import opened Metrics
  import opened Stats

  // ---------- Listing ----------

  /** A stat line joined with its player (the inner join of the listing). */
  type Row = (StatLine, Player)

  function JoinPlayers(ls: seq<StatLine>, ps: seq<Player>): (r: seq<Row>)
    ensures |r| <= |ls|
    ensures forall row :: row in r <==> row.0 in ls && FindPlayer(ps, row.0.playerId) == Some(row.1)
  {
    if ls == [] then []
    else
      assert ls == [ls[0]] + ls[1..];
      var rest := JoinPlayers(ls[1..], ps);
      match FindPlayer(ps, ls[0].playerId)
      case None => rest
      case Some(p) => [(ls[0], p)] + rest
  }

  /** The optional `player_id` and `game_id` filters, combined with AND. */
  function RowMatches(playerId: Option<int>, gameId: Option<int>): Row -> bool {
    (row: Row) =>
      (playerId.None? || row.0.playerId == playerId.value)
      && (gameId.None? || row.0.gameId == gameId.value)
  }

  /** ORDER BY game_id DESC, player_id ASC. */
  predicate StatRowLe(a: Row, b: Row) {
    a.0.gameId > b.0.gameId || (a.0.gameId == b.0.gameId && a.0.playerId <= b.0.playerId)
  }

  lemma StatOrder()
    ensures Total(StatRowLe) && Transitive(StatRowLe)
  {
  }

  /** With one line per (player, game), two different rows never tie in the listing order. */
  lemma StatOrderStrict(ls: seq<StatLine>, ps: seq<Player>, a: Row, b: Row)
    requires Injective(ls, LineKey)
    requires a in JoinPlayers(ls, ps) && b in JoinPlayers(ls, ps)
    requires StatRowLe(a, b) && StatRowLe(b, a)
    ensures a == b
  {
    var i :| 0 <= i < |ls| && ls[i] == a.0;
    var j :| 0 <= j < |ls| && ls[j] == b.0;
    assert LineKey(ls[i]) == LineKey(ls[j]);
    assert i == j;
  }

  /** Every joined row that passes the filters, in listing order. */
  function StatRows(ls: seq<StatLine>, ps: seq<Player>, playerId: Option<int>, gameId: Option<int>): seq<Row> {
    StatOrder();
    SortBy(Filter(JoinPlayers(ls, ps), RowMatches(playerId, gameId)), StatRowLe)
  }

  /** What the listing holds before paging: the matching lines with their owners, sorted. */
  lemma StatRowsContents(ls: seq<StatLine>, ps: seq<Player>, playerId: Option<int>, gameId: Option<int>)
    ensures var r := StatRows(ls, ps, playerId, gameId);
      && SortedBy(r, StatRowLe)
      && (forall row :: row in r <==>
            && row.0 in ls && FindPlayer(ps, row.0.playerId) == Some(row.1)
            && (playerId.None? || row.0.playerId == playerId.value)
            && (gameId.None? || row.0.gameId == gameId.value))
  {
    StatOrder();
    SortByElements(Filter(JoinPlayers(ls, ps), RowMatches(playerId, gameId)), StatRowLe);
  }

  /** In a consistent store no line is lost by the join: each matching line is listed once, with its player. */
  lemma StatRowsComplete(ps: seq<Player>, gs: seq<Game>, ls: seq<StatLine>,
                         playerId: Option<int>, gameId: Option<int>, l: StatLine)
    requires Models.Consistent(ps, gs, ls)
    requires l in ls && (playerId.None? || l.playerId == playerId.value) && (gameId.None? || l.gameId == gameId.value)
    ensures exists p :: p in ps && p.id == l.playerId && (l, p) in StatRows(ls, ps, playerId, gameId)
  {
    StatRowsContents(ls, ps, playerId, gameId);
    var p := FindPlayer(ps, l.playerId).value;
    assert (l, p) in StatRows(ls, ps, playerId, gameId);
  }

  /** The listing's `limit` and `offset` query bounds. */
  const DefaultStatsLimit := 200
  const MaxStatsLimit := 1000

  predicate StatsPagingValid(limit: int, offset: int) {
    1 <= limit <= MaxStatsLimit && offset >= 0
  }

  function ReadOf(row: Row): StatRead {
    StatRead(row.0, row.1.firstName, row.1.lastName)
  }

  /** The rows GET /stats answers for paging that passed validation. */
  function StatsPage(ls: seq<StatLine>, ps: seq<Player>, playerId: Option<int>, gameId: Option<int>,
                     limit: nat, offset: nat): seq<Row> {
    Page(StatRows(ls, ps, playerId, gameId), offset, limit)
  }

  /** A page is a window of the listing: it matches the filters, keeps the order and holds at most `limit` rows. */
  lemma StatsPageWindow(ls: seq<StatLine>, ps: seq<Player>, playerId: Option<int>, gameId: Option<int>,
                        limit: nat, offset: nat)
    ensures var page := StatsPage(ls, ps, playerId, gameId, limit, offset);
      && |page| <= limit
      && SortedBy(page, StatRowLe)
      && (forall row :: row in page ==>
            && row.0 in ls && row.1.id == row.0.playerId
            && (playerId.None? || row.0.playerId == playerId.value)
            && (gameId.None? || row.0.gameId == gameId.value))
  {
    var all := StatRows(ls, ps, playerId, gameId);
    var page := StatsPage(ls, ps, playerId, gameId, limit, offset);
    StatRowsContents(ls, ps, playerId, gameId);
    PageElements(all, offset, limit);
    forall i, j | 0 <= i < j < |page| ensures StatRowLe(page[i], page[j]) {
      assert page[i] == all[offset + i] && page[j] == all[offset + j];
    }
  }

  /**
   * GET /stats: validate the paging, run the query, and build one StatRead per row.
   * A page row whose stored counts fail check_consistency fails the whole request.
   */
  method ListStats(store: Store, playerId: Option<int>, gameId: Option<int>, limit: Option<int>, offset: Option<int>)
    returns (r: Result<seq<StatRead>, RequestError>)
    ensures var lim := limit.GetOr(DefaultStatsLimit); var off := offset.GetOr(0);
      && (!StatsPagingValid(lim, off) ==> r == Err(InvalidQuery))
      && (StatsPagingValid(lim, off) ==>
            var page := StatsPage(store.stats, store.players, playerId, gameId, lim, off);
            && (r.Ok? <==> forall k :: 0 <= k < |page| ==> Readable(page[k].0))
            && (r.Err? ==> r.error == InvalidResponse)
            && (r.Ok? ==> |r.value| == |page| && forall k :: 0 <= k < |page| ==> r.value[k] == ReadOf(page[k])))
  {
    var lim := limit.GetOr(DefaultStatsLimit);
    var off := offset.GetOr(0);
    if !StatsPagingValid(lim, off) {
      return Err(InvalidQuery);
    }
    var page := StatsPage(store.stats, store.players, playerId, gameId, lim, off);
    r := ReadRows(page);
  }

  /** The response model built row by row: one StatRead per joined row, in order, or a failure at the first row it refuses. */
  method ReadRows(rows: seq<Row>) returns (r: Result<seq<StatRead>, RequestError>)
    ensures r.Ok? <==> forall k :: 0 <= k < |rows| ==> Readable(rows[k].0)
    ensures r.Err? ==> r.error == InvalidResponse
    ensures r.Ok? ==> |r.value| == |rows| && forall k :: 0 <= k < |rows| ==> r.value[k] == ReadOf(rows[k])
  {
    var out := [];
    for k := 0 to |rows|
      invariant |out| == k
      invariant forall j :: 0 <= j < k ==> Readable(rows[j].0) && out[j] == ReadOf(rows[j])
    {
      if CheckConsistency(BoxOf(rows[k].0.counts)).Err? {
        return Err(InvalidResponse);
      }
      out := out + [ReadOf(rows[k])];
    }
    return Ok(out);
  }

  /** When every stored line passes check_consistency, no page of the listing is refused. */
  lemma ReadableStorePages(ls: seq<StatLine>, ps: seq<Player>, playerId: Option<int>, gameId: Option<int>,
                           limit: nat, offset: nat)
    requires forall l :: l in ls ==> Readable(l)
    ensures var page := StatsPage(ls, ps, playerId, gameId, limit, offset);
      forall k :: 0 <= k < |page| ==> Readable(page[k].0)
  {
    var page := StatsPage(ls, ps, playerId, gameId, limit, offset);
    StatsPageWindow(ls, ps, playerId, gameId, limit, offset);
    forall k | 0 <= k < |page| ensures Readable(page[k].0) {
      assert page[k] in page;
    }
  }

  // ---------- Aggregate ----------

  /** The aggregate's optional filters; all given ones must hold. */
  datatype AggregateQuery = AggregateQuery(playerId: Option<int>, gameId: Option<int>,
                                           dateFrom: Option<Date>, dateTo: Option<Date>)

  const NoFilters := AggregateQuery(None, None, None, None)

  /** The game's date lies within the inclusive bounds given. */
  predicate InDateRange(d: Date, q: AggregateQuery) {
    (q.dateFrom.None? || DateLe(q.dateFrom.value, d)) && (q.dateTo.None? || DateLe(d, q.dateTo.value))
  }

  /** The line joins with its game and passes every filter given. */
  predicate Selects(gs: seq<Game>, q: AggregateQuery, l: StatLine) {
    match FindGame(gs, l.gameId)
    case None => false
    case Some(g) =>
      && (q.playerId.None? || l.playerId == q.playerId.value)
      && (q.gameId.None? || l.gameId == q.gameId.value)
      && InDateRange(g.date, q)
  }

  function Selection(gs: seq<Game>, q: AggregateQuery): StatLine -> bool {
    (l: StatLine) => Selects(gs, q, l)
  }

  function AggregateLines(ls: seq<StatLine>, gs: seq<Game>, q: AggregateQuery): seq<StatLine> {
    Filter(ls, Selection(gs, q))
  }

  /** AggregateRead: column totals and the rates derived from them. */
  datatype AggregateRead = AggregateRead(totals: Counts, metrics: Derived)

  /** GET /stats/aggregate. */
  function AggregateStats(ls: seq<StatLine>, gs: seq<Game>, q: AggregateQuery): AggregateRead {
    var t := SumLines(AggregateLines(ls, gs, q));
    AggregateRead(t, Derive(t))
  }

  /** Each total is the column's sum over exactly the lines that pass the filters. */
  lemma AggregateTotals(ls: seq<StatLine>, gs: seq<Game>, q: AggregateQuery)
    ensures forall l :: l in AggregateLines(ls, gs, q) <==> l in ls && Selects(gs, q, l)
    ensures forall f :: Get(AggregateStats(ls, gs, q).totals, f) == ColumnSum(AggregateLines(ls, gs, q), f)
  {
    SumLinesColumns(AggregateLines(ls, gs, q));
  }

  /** When no line passes the filters, every total and every rate is zero. */
  lemma AggregateOfNothing(ls: seq<StatLine>, gs: seq<Game>, q: AggregateQuery)
    requires forall l :: l in ls ==> !Selects(gs, q, l)
    ensures AggregateStats(ls, gs, q) == AggregateRead(ZeroCounts(), Derived(0, 0, 0.0, 0.0, 0.0, 0.0))
  {
    FilterNone(ls, Selection(gs, q));
    var t := SumLines(AggregateLines(ls, gs, q));
    assert t == ZeroCounts();
    ZeroDerived();
    assert Derive(t) == Derived(0, 0, 0.0, 0.0, 0.0, 0.0);
  }

  /** A date range that ends before it starts selects nothing. */
  lemma EmptyDateRange(ls: seq<StatLine>, gs: seq<Game>, q: AggregateQuery)
    requires q.dateFrom.Some? && q.dateTo.Some? && !DateLe(q.dateFrom.value, q.dateTo.value)
    ensures AggregateStats(ls, gs, q) == AggregateRead(ZeroCounts(), Derived(0, 0, 0.0, 0.0, 0.0, 0.0))
  {
    forall l | l in ls ensures !Selects(gs, q, l) {
      match FindGame(gs, l.gameId)
      case None =>
      case Some(g) =>
        if DateLe(q.dateFrom.value, g.date) {
          DateLeTotal(g.date, q.dateTo.value);
          DateLeTotal(q.dateFrom.value, q.dateTo.value);
        }
    }
    AggregateOfNothing(ls, gs, q);
  }

  /** Filters combine with AND: adding a player filter narrows the selection to that player's lines. */
  lemma PlayerFilterNarrows(ls: seq<StatLine>, gs: seq<Game>, q: AggregateQuery, playerId: int)
    requires q.playerId.None?
    ensures AggregateLines(ls, gs, q.(playerId := Some(playerId))) == Filter(AggregateLines(ls, gs, q), OfPlayer(playerId))
  {
    FilterConjunction(ls, Selection(gs, q), OfPlayer(playerId), Selection(gs, q.(playerId := Some(playerId))));
  }

  /** Adding a game filter narrows the selection to that game's lines. */
  lemma GameFilterNarrows(ls: seq<StatLine>, gs: seq<Game>, q: AggregateQuery, gameId: int)
    requires q.gameId.None?
    ensures AggregateLines(ls, gs, q.(gameId := Some(gameId))) == Filter(AggregateLines(ls, gs, q), OfGame(gameId))
  {
    FilterConjunction(ls, Selection(gs, q), OfGame(gameId), Selection(gs, q.(gameId := Some(gameId))));
  }

  function OfGame(gameId: int): StatLine -> bool { (l: StatLine) => l.gameId == gameId }

  /** In a consistent store the unfiltered aggregate covers every line. */
  lemma AggregateAll(ps: seq<Player>, gs: seq<Game>, ls: seq<StatLine>)
    requires LinesReferenced(ps, gs, ls)
    ensures AggregateLines(ls, gs, NoFilters) == ls
    ensures AggregateStats(ls, gs, NoFilters).totals == SumLines(ls)
  {
    forall l | l in ls ensures Selects(gs, NoFilters, l) {
      var g :| g in gs && g.id == l.gameId;
    }
    FilterAll(ls, Selection(gs, NoFilters));
  }

  /** In a consistent store the aggregate for one player sums exactly that player's lines. */
  lemma AggregateOfPlayer(ps: seq<Player>, gs: seq<Game>, ls: seq<StatLine>, playerId: int)
    requires LinesReferenced(ps, gs, ls)
    ensures AggregateLines(ls, gs, NoFilters.(playerId := Some(playerId))) == Filter(ls, OfPlayer(playerId))
  {
    AggregateAll(ps, gs, ls);
    PlayerFilterNarrows(ls, gs, NoFilters, playerId);
  }
}
