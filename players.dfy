/**
 * The player endpoints (api/app/routers/players.py): creating a player from a
 * validated payload, and the name-searchable, paged roster with each player's
 * season totals and rates.
 */
module Players {
  import opened Wrappers
  import opened Collections
  import opened Text
  import opened Schemas
  import opened Models
  import opened Metrics
  import opened StatsQuery

  /** The detail of a body that fails its field bounds; the layout of pydantic's error list is not modelled. */
  const FieldOutOfBounds := "field out of bounds"

  /** The row a valid payload becomes: both names stripped, the jersey number as given. */
  function NewPlayer(req: PlayerCreate, id: int, now: Timestamp): Player {
    Player(id, Strip(req.firstName), Strip(req.lastName), req.jerseyNumber, now)
  }

  /** What a stored player looks like: names without surrounding whitespace that fit their columns, the jersey number kept. */
  lemma NewPlayerShape(req: PlayerCreate, id: int, now: Timestamp)
    requires PlayerCreateValid(req)
    ensures var p := NewPlayer(req, id, now);
      && p.id == id
      && |p.firstName| <= 100 && |p.lastName| <= 100
      && (p.firstName == [] || (!IsSpace(p.firstName[0]) && !IsSpace(p.firstName[|p.firstName| - 1])))
      && (p.lastName == [] || (!IsSpace(p.lastName[0]) && !IsSpace(p.lastName[|p.lastName| - 1])))
      && p.jerseyNumber == req.jerseyNumber
  {
  }

  /** The length bound is checked before stripping: a name of spaces passes and is stored empty. */
  lemma BlankNameStoredEmpty(now: Timestamp)
    ensures PlayerCreateValid(PlayerCreate("  ", "Smith", None))
    ensures NewPlayer(PlayerCreate("  ", "Smith", None), 1, now).firstName == ""
  {
    StripBlank("  ");

  }

  /** POST /players. */
  method CreatePlayer(store: Store, req: PlayerCreate, now: Timestamp) returns (r: Result<Player, RequestError>)
    requires store.Valid()
    modifies store
    ensures store.Valid()
    ensures store.games == old(store.games) && store.stats == old(store.stats)
    ensures store.nextGameId == old(store.nextGameId) && store.nextStatId == old(store.nextStatId)
    ensures !PlayerCreateValid(req) ==>
              r == Err(InvalidBody(FieldOutOfBounds))
              && store.players == old(store.players) && store.nextPlayerId == old(store.nextPlayerId)
    ensures PlayerCreateValid(req) ==>
              r == Ok(NewPlayer(req, old(store.nextPlayerId), now))
              && store.players == old(store.players) + [r.value]
              && store.nextPlayerId == old(store.nextPlayerId) + 1
  {
    if !PlayerCreateValid(req) {
      return Err(InvalidBody(FieldOutOfBounds));
    }
    var p := NewPlayer(req, store.nextPlayerId, now);
    NewPlayerShape(req, store.nextPlayerId, now);
    AppendPlayerConsistent(store.players, store.games, store.stats, p);
    store.players := store.players + [p];
    store.nextPlayerId := store.nextPlayerId + 1;
    r := Ok(p);
  }

  // ---------- The roster ----------

  /** `if q:` -- an absent or empty search keeps everyone; otherwise the stripped term must occur in either name, ignoring case. */
  function NameMatches(q: Option<string>): Player -> bool {
    (p: Player) =>
      if q.Some? && q.value != "" then
        var term := Strip(q.value);
        ContainsIgnoringCase(p.firstName, term) || ContainsIgnoringCase(p.lastName, term)
      else true
  }

  /** A search made of whitespace only is stripped to the empty term, which matches every player. */
  lemma BlankSearchMatchesAll(q: string, p: Player)
    requires forall k :: 0 <= k < |q| ==> IsSpace(q[k])
    ensures NameMatches(Some(q))(p)
  {
    StripBlank(q);
    ContainsEmpty(Lower(p.firstName));
  }

  /** ORDER BY last_name, first_name. */
  predicate NameLe(a: Player, b: Player) {
    LexLess(a.lastName, b.lastName)
    || (a.lastName == b.lastName && (LexLess(a.firstName, b.firstName) || a.firstName == b.firstName))
  }

  lemma NameOrder()
    ensures Total(NameLe) && Transitive(NameLe)
  {
    forall a: Player, b: Player ensures NameLe(a, b) || NameLe(b, a) {
      LexTrichotomy(a.lastName, b.lastName);
      LexTrichotomy(a.firstName, b.firstName);
    }
    forall a: Player, b: Player, c: Player | NameLe(a, b) && NameLe(b, c) ensures NameLe(a, c) {
      if LexLess(a.lastName, b.lastName) && LexLess(b.lastName, c.lastName) {
        LexTransitive(a.lastName, b.lastName, c.lastName);
      }
      if a.lastName == b.lastName == c.lastName
         && LexLess(a.firstName, b.firstName) && LexLess(b.firstName, c.firstName) {
        LexTransitive(a.firstName, b.firstName, c.firstName);
      }
    }
  }

  /** Every player the search keeps, in name order. */
  function Roster(ps: seq<Player>, q: Option<string>): seq<Player> {
    NameOrder();
    SortBy(Filter(ps, NameMatches(q)), NameLe)
  }

  lemma RosterContents(ps: seq<Player>, q: Option<string>)
    ensures SortedBy(Roster(ps, q), NameLe)
    ensures multiset(Roster(ps, q)) == multiset(Filter(ps, NameMatches(q)))
    ensures forall p :: p in Roster(ps, q) <==> p in ps && NameMatches(q)(p)
  {
    NameOrder();
    SortByElements(Filter(ps, NameMatches(q)), NameLe);
  }

  /** Without a search term the roster holds every player exactly as often as the table does. */
  lemma RosterWithoutSearch(ps: seq<Player>, q: Option<string>)
    requires q.None? || q.value == ""
    ensures multiset(Roster(ps, q)) == multiset(ps)
  {
    RosterContents(ps, q);
    FilterAll(ps, NameMatches(q));
  }

  /** PlayerRead: the player with games played, season totals and derived rates. */
  datatype PlayerRead = PlayerRead(player: Player, gamesPlayed: nat, totals: Counts, metrics: Derived)

  function LineGame(l: StatLine): int { l.gameId }

  /** The per-player aggregate: the player's stat lines counted and summed. */
  function Rollup(p: Player, ls: seq<StatLine>): PlayerRead {
    var lines := Filter(ls, OfPlayer(p.id));
    var t := SumLines(lines);
    PlayerRead(p, |lines|, t, Derive(t))
  }

  /** A player without stat lines reads zero everywhere. */
  lemma RollupWithoutLines(p: Player, ls: seq<StatLine>)
    requires forall l :: l in ls ==> l.playerId != p.id
    ensures Rollup(p, ls) == PlayerRead(p, 0, ZeroCounts(), Derived(0, 0, 0.0, 0.0, 0.0, 0.0))
  {
    FilterNone(ls, OfPlayer(p.id));
    var t := SumLines(Filter(ls, OfPlayer(p.id)));
    assert t == ZeroCounts();
    ZeroDerived();
    assert Derive(t) == Derived(0, 0, 0.0, 0.0, 0.0, 0.0);
  }

  /** With one line per (player, game), games played is the number of distinct games the player has a line in. */
  lemma GamesPlayedCountsGames(p: Player, ls: seq<StatLine>)
    requires Injective(ls, LineKey)
    ensures Rollup(p, ls).gamesPlayed == |KeysOf(Filter(ls, OfPlayer(p.id)), LineGame)|
    ensures forall g :: g in KeysOf(Filter(ls, OfPlayer(p.id)), LineGame) <==> exists l :: l in ls && l.playerId == p.id && l.gameId == g
  {
    var lines := Filter(ls, OfPlayer(p.id));
    FilterInjective(ls, OfPlayer(p.id), LineKey);
    assert Injective(lines, LineGame) by {
      forall i, j | 0 <= i < j < |lines| ensures LineGame(lines[i]) != LineGame(lines[j]) {
        assert lines[i] in lines && lines[j] in lines;
        assert LineKey(lines[i]) != LineKey(lines[j]);
      }
    }
    KeysOfInjective(lines, LineGame);
    forall g ensures g in KeysOf(lines, LineGame) <==> exists l :: l in ls && l.playerId == p.id && l.gameId == g {
      if g in KeysOf(lines, LineGame) {
        var i :| 0 <= i < |lines| && LineGame(lines[i]) == g;
        assert lines[i] in lines;
      }
      if exists l :: l in ls && l.playerId == p.id && l.gameId == g {
        var l :| l in ls && l.playerId == p.id && l.gameId == g;
        assert l in lines;
        var i :| 0 <= i < |lines| && lines[i] == l;
        assert LineGame(lines[i]) == g;
      }
    }
  }

  /** In a consistent store a player's roster totals and rates are the aggregate filtered by that player. */
  lemma RollupIsPlayerAggregate(ps: seq<Player>, gs: seq<Game>, ls: seq<StatLine>, p: Player)
    requires LinesReferenced(ps, gs, ls)
    ensures Rollup(p, ls).totals == AggregateStats(ls, gs, NoFilters.(playerId := Some(p.id))).totals
    ensures Rollup(p, ls).metrics == AggregateStats(ls, gs, NoFilters.(playerId := Some(p.id))).metrics
  {
    AggregateOfPlayer(ps, gs, ls, p.id);
  }

  /** The roster's `limit` and `offset` query bounds. */
  const DefaultPlayersLimit := 100
  const MaxPlayersLimit := 500

  predicate PlayersPagingValid(limit: int, offset: int) {
    1 <= limit <= MaxPlayersLimit && offset >= 0
  }

  /** GET /players: validate the paging, search and sort, page, then roll up each listed player. */
  method ListPlayers(store: Store, q: Option<string>, limit: Option<int>, offset: Option<int>)
    returns (r: Result<seq<PlayerRead>, RequestError>)
    ensures var lim := limit.GetOr(DefaultPlayersLimit); var off := offset.GetOr(0);
      && (r.Err? <==> !PlayersPagingValid(lim, off))
      && (r.Err? ==> r.error == InvalidQuery)
      && (r.Ok? ==>
            var page := Page(Roster(store.players, q), off, lim);
            |r.value| == |page| && forall k :: 0 <= k < |page| ==> r.value[k] == Rollup(page[k], store.stats))
  {
    var lim := limit.GetOr(DefaultPlayersLimit);
    var off := offset.GetOr(0);
    if !PlayersPagingValid(lim, off) {
      return Err(InvalidQuery);
    }
    var out := RollupPage(store, Page(Roster(store.players, q), off, lim));
    r := Ok(out);
  }

  /** The loop over the listed players, rolling each one up. */
  method RollupPage(store: Store, page: seq<Player>) returns (out: seq<PlayerRead>)
    ensures |out| == |page| && forall k :: 0 <= k < |page| ==> out[k] == Rollup(page[k], store.stats)
  {
    out := [];
    for k := 0 to |page|
      invariant |out| == k
      invariant forall j :: 0 <= j < k ==> out[j] == Rollup(page[j], store.stats)
    {
      out := out + [Rollup(page[k], store.stats)];
    }
  }
}
