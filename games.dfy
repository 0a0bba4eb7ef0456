/**
 * The game endpoints (api/app/routers/games.py): creating a game from a
 * validated payload, and the schedule filtered by opponent and date range,
 * newest first.
 */
module Games {
  import opened Wrappers
  import opened Dates
  import opened Collections
  import opened Text
  import opened Schemas
  import opened Models

  /** The detail of a body that fails its field bounds. */
  const GameFieldOutOfBounds := "field out of bounds"

  /**
   * The row a valid payload becomes: the opponent stripped, a non-empty location
   * stripped and an empty or absent one dropped, the notes as given. The payload's
   * `time` is not copied, and no score is set.
   */
  function NewGame(req: GameCreate, id: int, now: Timestamp): Game {
    var location := if req.location.Some? && req.location.value != "" then Some(Strip(req.location.value)) else None;
    Game(id, Strip(req.opponent), req.date, None, location, req.notes, None, None, now)
  }

  /** What a stored game looks like. */
  lemma NewGameShape(req: GameCreate, id: int, now: Timestamp)
    requires GameCreateValid(req)
    ensures var g := NewGame(req, id, now);
      && |g.opponent| <= 150
      && (g.opponent == [] || (!IsSpace(g.opponent[0]) && !IsSpace(g.opponent[|g.opponent| - 1])))
      && g.date == req.date
      && g.time.None? && g.scoreOurs.None? && g.scoreOpponent.None?
      && g.notes == req.notes
      && (g.location.Some? <==> req.location.Some? && req.location.value != "")
      && (g.location.Some? ==> |g.location.value| <= 200 && g.location.value == Strip(req.location.value))
      && g.id == id
  {
  }

  /** A location of spaces is kept as an empty string, not dropped: it is stripped only after the emptiness test. */
  lemma BlankLocationStoredEmpty(d: Date, now: Timestamp)
    ensures NewGame(GameCreate("Blue Jays", d, None, Some("  "), None), 1, now).location == Some("")
  {
    StripBlank("  ");
  }

  /** POST /games. */
  method CreateGame(store: Store, req: GameCreate, now: Timestamp) returns (r: Result<Game, RequestError>)
    requires store.Valid()
    modifies store
    ensures store.Valid()
    ensures store.players == old(store.players) && store.stats == old(store.stats)
    ensures store.nextPlayerId == old(store.nextPlayerId) && store.nextStatId == old(store.nextStatId)
    ensures !GameCreateValid(req) ==>
              r == Err(InvalidBody(GameFieldOutOfBounds))
              && store.games == old(store.games) && store.nextGameId == old(store.nextGameId)
    ensures GameCreateValid(req) ==>
              r == Ok(NewGame(req, old(store.nextGameId), now))
              && store.games == old(store.games) + [r.value]
              && store.nextGameId == old(store.nextGameId) + 1
  {
    if !GameCreateValid(req) {
      return Err(InvalidBody(GameFieldOutOfBounds));
    }
    var g := NewGame(req, store.nextGameId, now);
    NewGameShape(req, store.nextGameId, now);
    AppendGameConsistent(store.players, store.games, store.stats, g);
    store.games := store.games + [g];
    store.nextGameId := store.nextGameId + 1;
    r := Ok(g);
  }

  // ---------- The schedule ----------

  /** The schedule's filters: a search on the opponent and inclusive date bounds. */
  datatype GameQuery = GameQuery(dateFrom: Option<Date>, dateTo: Option<Date>, opponent: Option<string>)

  /** An absent or empty opponent search keeps every game; otherwise the stripped term must occur in the opponent, ignoring case. */
  function GameMatches(q: GameQuery): Game -> bool {
    (g: Game) =>
      && (q.opponent.None? || q.opponent.value == "" || ContainsIgnoringCase(g.opponent, Strip(q.opponent.value)))
      && (q.dateFrom.None? || DateLe(q.dateFrom.value, g.date))
      && (q.dateTo.None? || DateLe(g.date, q.dateTo.value))
  }

  /** ORDER BY date DESC. */
  predicate NewestFirst(a: Game, b: Game) {
    DateLe(b.date, a.date)
  }

  lemma NewestFirstOrder()
    ensures Total(NewestFirst) && Transitive(NewestFirst)
  {
    forall a: Game, b: Game ensures NewestFirst(a, b) || NewestFirst(b, a) {
      DateLeTotal(a.date, b.date);
    }
  }

  /** The schedule's `limit` and `offset` query bounds. */
  const DefaultGamesLimit := 100
  const MaxGamesLimit := 500

  predicate GamesPagingValid(limit: int, offset: int) {
    1 <= limit <= MaxGamesLimit && offset >= 0
  }

  /** Every game the filters keep, newest first. */
  function Schedule(gs: seq<Game>, q: GameQuery): (r: seq<Game>)
    ensures SortedBy(r, NewestFirst)
    ensures multiset(r) == multiset(Filter(gs, GameMatches(q)))
    ensures forall g :: g in r <==> g in gs && GameMatches(q)(g)
  {
    NewestFirstOrder();
    SortByElements(Filter(gs, GameMatches(q)), NewestFirst);
    SortBy(Filter(gs, GameMatches(q)), NewestFirst)
  }

  /** GET /games: the paging is validated, then one page of the schedule is answered. */
  function ListGames(gs: seq<Game>, q: GameQuery, limit: Option<int>, offset: Option<int>): (r: Result<seq<Game>, RequestError>)
    ensures var lim := limit.GetOr(DefaultGamesLimit); var off := offset.GetOr(0);
      && (r.Err? <==> !GamesPagingValid(lim, off))
      && (r.Err? ==> r.error == InvalidQuery)
      && (r.Ok? ==>
            && r.value == Page(Schedule(gs, q), off, lim)
            && SortedBy(r.value, NewestFirst)
            && (forall g :: g in r.value ==> g in gs && GameMatches(q)(g))
            && (off == 0 && |Schedule(gs, q)| <= lim ==> r.value == Schedule(gs, q)))
  {
    var lim := limit.GetOr(DefaultGamesLimit);
    var off := offset.GetOr(0);
    if !GamesPagingValid(lim, off) then Err(InvalidQuery)
    else
      SchedulePage(gs, q, lim, off);
      Ok(Page(Schedule(gs, q), off, lim))
  }

  /**
   * A page of the schedule skips the first `offset` games and holds the next ones, at most `limit`
   * of them; it matches the filters and keeps the order.
   */
  lemma SchedulePage(gs: seq<Game>, q: GameQuery, limit: nat, offset: nat)
    ensures var page := Page(Schedule(gs, q), offset, limit); var all := Schedule(gs, q);
      && |page| == (if offset >= |all| then 0 else Min(limit, |all| - offset))
      && (forall k :: 0 <= k < |page| ==> page[k] == all[offset + k])
      && SortedBy(page, NewestFirst)
      && (forall g :: g in page ==> g in gs && GameMatches(q)(g))
      && (offset == 0 && |Schedule(gs, q)| <= limit ==> page == Schedule(gs, q))
  {
    var all := Schedule(gs, q);
    var page := Page(all, offset, limit);
    PageElements(all, offset, limit);
    forall i, j | 0 <= i < j < |page| ensures NewestFirst(page[i], page[j]) {
      assert page[i] == all[offset + i] && page[j] == all[offset + j];
    }
  }

  /** With no filters the schedule lists every game, as often as the table holds it. */
  lemma ScheduleUnfiltered(gs: seq<Game>)
    ensures multiset(Schedule(gs, GameQuery(None, None, None))) == multiset(gs)
  {
    FilterAll(gs, GameMatches(GameQuery(None, None, None)));
  }

  /** A date range that ends before it starts lists nothing. */
  lemma ScheduleEmptyRange(gs: seq<Game>, q: GameQuery)
    requires q.dateFrom.Some? && q.dateTo.Some? && !DateLe(q.dateFrom.value, q.dateTo.value)
    ensures Schedule(gs, q) == []
  {
    forall g | g in gs ensures !GameMatches(q)(g) {
      if DateLe(q.dateFrom.value, g.date) {
        DateLeTotal(q.dateFrom.value, q.dateTo.value);
        DateLeTotal(g.date, q.dateTo.value);
      }
    }
    FilterNone(gs, GameMatches(q));
  }
}
