/**
 * The persisted records (api/app/models.py) and the store that holds them:
 * a table of players, a table of games and a table of stat lines, with the
 * store's rules (unique ids, one line per player and game, references that
 * resolve, column lengths, non-negative counts) and its cascading deletes.
 */
module Models {
  import opened Wrappers
  import opened Dates
  import opened Collections

  /** The thirteen count columns of a stat line, in column order. */
  datatype StatField =
    | AtBats | Hits | Singles | Doubles | Triples | HomeRuns | Rbis
    | Walks | Strikeouts | SacFlies | SacBunts | HitByPitches | Errors

  /** The counts of a stat line; the store's CHECK constraints make every one non-negative. */
  datatype Counts = Counts(
    atBats: nat, hits: nat, singles: nat, doubles: nat, triples: nat, homeRuns: nat,
    rbis: nat, walks: nat, strikeouts: nat, sacFlies: nat, sacBunts: nat,
    hitByPitches: nat, errors: nat)

  /** Every column defaults to 0. */
  function ZeroCounts(): Counts { Counts(0, 0, 0, 0, 0, 0, 0, 0, 0, 0, 0, 0, 0) }

  function Get(c: Counts, f: StatField): nat {
    match f
    case AtBats => c.atBats
    case Hits => c.hits
    case Singles => c.singles
    case Doubles => c.doubles
    case Triples => c.triples
    case HomeRuns => c.homeRuns
    case Rbis => c.rbis
    case Walks => c.walks
    case Strikeouts => c.strikeouts
    case SacFlies => c.sacFlies
    case SacBunts => c.sacBunts
    case HitByPitches => c.hitByPitches
    case Errors => c.errors
  }

  /** `setattr(line, f, v)` on one count column. */
  function Set(c: Counts, f: StatField, v: nat): (r: Counts)
    ensures Get(r, f) == v
    ensures forall g :: g != f ==> Get(r, g) == Get(c, g)
  {
    match f
    case AtBats => c.(atBats := v)
    case Hits => c.(hits := v)
    case Singles => c.(singles := v)
    case Doubles => c.(doubles := v)
    case Triples => c.(triples := v)
    case HomeRuns => c.(homeRuns := v)
    case Rbis => c.(rbis := v)
    case Walks => c.(walks := v)
    case Strikeouts => c.(strikeouts := v)
    case SacFlies => c.(sacFlies := v)
    case SacBunts => c.(sacBunts := v)
    case HitByPitches => c.(hitByPitches := v)
    case Errors => c.(errors := v)
  }

  /** Two count records that agree on every column are the same record. */
  lemma CountsExt(a: Counts, b: Counts)
    requires forall f :: Get(a, f) == Get(b, f)
    ensures a == b
  {
    assert Get(a, AtBats) == Get(b, AtBats) && Get(a, Hits) == Get(b, Hits);
    assert Get(a, Singles) == Get(b, Singles) && Get(a, Doubles) == Get(b, Doubles);
    assert Get(a, Triples) == Get(b, Triples) && Get(a, HomeRuns) == Get(b, HomeRuns);
    assert Get(a, Rbis) == Get(b, Rbis) && Get(a, Walks) == Get(b, Walks);
    assert Get(a, Strikeouts) == Get(b, Strikeouts) && Get(a, SacFlies) == Get(b, SacFlies);
    assert Get(a, SacBunts) == Get(b, SacBunts) && Get(a, HitByPitches) == Get(b, HitByPitches);
    assert Get(a, Errors) == Get(b, Errors);
  }

  /** Timestamps are supplied by the caller; the store never reads a clock. */
  type Timestamp = int

  datatype Player = Player(
    id: int, firstName: string, lastName: string, jerseyNumber: Option<int>, createdAt: Timestamp)

  datatype Game = Game(
    id: int, opponent: string, date: Date, time: Option<string>, location: Option<string>,
    notes: Option<string>, scoreOurs: Option<int>, scoreOpponent: Option<int>, createdAt: Timestamp)

  datatype StatLine = StatLine(id: int, playerId: int, gameId: int, counts: Counts, createdAt: Timestamp)

  /** What the store refuses to commit (the database's own constraints). */
  datatype StoreError = CheckViolation | ForeignKeyViolation | DataTooLong

  function PlayerKey(p: Player): int { p.id }
  function GameKey(g: Game): int { g.id }
  function LineId(l: StatLine): int { l.id }
  /** The natural key of a stat line. */
  function LineKey(l: StatLine): (int, int) { (l.playerId, l.gameId) }

  predicate HasPlayer(ps: seq<Player>, id: int) {
    exists p | p in ps :: p.id == id
  }

  predicate HasGame(gs: seq<Game>, id: int) {
    exists g | g in gs :: g.id == id
  }

  /** `db.get(Player, id)`. */
  function FindPlayer(ps: seq<Player>, id: int): (r: Option<Player>)
    ensures r.Some? <==> HasPlayer(ps, id)
    ensures r.Some? ==> r.value in ps && r.value.id == id
  {
    if ps == [] then None
    else if ps[0].id == id then Some(ps[0])
    else
      assert ps == [ps[0]] + ps[1..];
      FindPlayer(ps[1..], id)
  }

  /** `db.get(Game, id)`. */
  function FindGame(gs: seq<Game>, id: int): (r: Option<Game>)
    ensures r.Some? <==> HasGame(gs, id)
    ensures r.Some? ==> r.value in gs && r.value.id == id
  {
    if gs == [] then None
    else if gs[0].id == id then Some(gs[0])
    else
      assert gs == [gs[0]] + gs[1..];
      FindGame(gs[1..], id)
  }

  /** With unique ids, the player found is the only one with that id. */
  lemma FindPlayerUnique(ps: seq<Player>, p: Player)
    requires Injective(ps, PlayerKey) && p in ps
    ensures FindPlayer(ps, p.id) == Some(p)
  {
    var q := FindPlayer(ps, p.id).value;
    var i :| 0 <= i < |ps| && ps[i] == p;
    var j :| 0 <= j < |ps| && ps[j] == q;
    assert PlayerKey(ps[i]) == PlayerKey(ps[j]);
  }

  /** The index of the stat line for (player, game), if there is one. */
  function FindLine(ls: seq<StatLine>, playerId: int, gameId: int): (r: Option<nat>)
    ensures r.Some? ==> r.value < |ls| && LineKey(ls[r.value]) == (playerId, gameId)
    ensures r.Some? ==> forall j :: 0 <= j < r.value ==> LineKey(ls[j]) != (playerId, gameId)
    ensures r.None? ==> forall l :: l in ls ==> LineKey(l) != (playerId, gameId)
  {
    if ls == [] then None
    else if LineKey(ls[0]) == (playerId, gameId) then Some(0)
    else
      assert ls == [ls[0]] + ls[1..];
      match FindLine(ls[1..], playerId, gameId)
      case None => None
      case Some(i) => Some(i + 1)
  }

  /** With unique natural keys, FindLine finds the one line with that key. */
  lemma FindLineUnique(ls: seq<StatLine>, i: nat)
    requires Injective(ls, LineKey) && i < |ls|
    ensures FindLine(ls, ls[i].playerId, ls[i].gameId) == Some(i)
  {
    assert ls[i] in ls;
    var r := FindLine(ls, ls[i].playerId, ls[i].gameId);
    assert LineKey(ls[r.value]) == LineKey(ls[i]);
  }

  /** The length limits of the String columns. */
  ghost predicate ColumnsFit(ps: seq<Player>, gs: seq<Game>) {
    && (forall p :: p in ps ==> |p.firstName| <= 100 && |p.lastName| <= 100)
    && (forall g :: g in gs ==>
          |g.opponent| <= 150
          && (g.time.None? || |g.time.value| <= 10)
          && (g.location.None? || |g.location.value| <= 200))
  }

  /** Every stat line belongs to a stored player and a stored game. */
  ghost predicate LinesReferenced(ps: seq<Player>, gs: seq<Game>, ls: seq<StatLine>) {
    forall l :: l in ls ==> HasPlayer(ps, l.playerId) && HasGame(gs, l.gameId)
  }

  /** The rules the store keeps at rest. */
  ghost predicate Consistent(ps: seq<Player>, gs: seq<Game>, ls: seq<StatLine>) {
    && Injective(ps, PlayerKey)
    && Injective(gs, GameKey)
    && Injective(ls, LineId)
    && Injective(ls, LineKey)
    && LinesReferenced(ps, gs, ls)
    && ColumnsFit(ps, gs)
  }

  /** Adding a player with a fresh id and names that fit their columns keeps every rule. */
  lemma AppendPlayerConsistent(ps: seq<Player>, gs: seq<Game>, ls: seq<StatLine>, p: Player)
    requires Consistent(ps, gs, ls)
    requires forall q :: q in ps ==> q.id < p.id
    requires |p.firstName| <= 100 && |p.lastName| <= 100
    ensures Consistent(ps + [p], gs, ls)
    ensures !HasPlayer(ps, p.id)
  {
    var r := ps + [p];
    forall i, j | 0 <= i < j < |r| ensures PlayerKey(r[i]) != PlayerKey(r[j]) {
      assert r[i] == ps[i] && ps[i] in ps;
    }
    forall l | l in ls ensures HasPlayer(r, l.playerId) {
      var q :| q in ps && q.id == l.playerId;
      assert q in r;
    }
  }

  /** Adding a game with a fresh id and text that fits its columns keeps every rule. */
  lemma AppendGameConsistent(ps: seq<Player>, gs: seq<Game>, ls: seq<StatLine>, g: Game)
    requires Consistent(ps, gs, ls)
    requires forall h :: h in gs ==> h.id < g.id
    requires |g.opponent| <= 150 && (g.time.None? || |g.time.value| <= 10)
    requires g.location.None? || |g.location.value| <= 200
    ensures Consistent(ps, gs + [g], ls)
    ensures !HasGame(gs, g.id)
  {
    var r := gs + [g];
    forall i, j | 0 <= i < j < |r| ensures GameKey(r[i]) != GameKey(r[j]) {
      assert r[i] == gs[i] && gs[i] in gs;
    }
    forall l | l in ls ensures HasGame(r, l.gameId) {
      var h :| h in gs && h.id == l.gameId;
      assert h in r;
    }
  }

  /** Rewriting the counts of one line keeps every rule and every id and key. */
  lemma ReplaceCountsConsistent(ps: seq<Player>, gs: seq<Game>, ls: seq<StatLine>, i: nat, c: Counts, bound: int)
    requires Consistent(ps, gs, ls) && i < |ls|
    requires forall l :: l in ls ==> l.id < bound
    ensures var r := ls[i := ls[i].(counts := c)];
      && Consistent(ps, gs, r)
      && (forall l :: l in r ==> l.id < bound)
      && (forall l :: l in r && LineKey(l) != LineKey(ls[i]) <==> l in ls && LineKey(l) != LineKey(ls[i]))
      && FindLine(r, ls[i].playerId, ls[i].gameId) == Some(i)
  {
    var r := ls[i := ls[i].(counts := c)];
    assert forall j :: 0 <= j < |r| ==> LineId(r[j]) == LineId(ls[j]) && LineKey(r[j]) == LineKey(ls[j]);
    forall l | l in r ensures HasPlayer(ps, l.playerId) && HasGame(gs, l.gameId) && l.id < bound {
      var j :| 0 <= j < |r| && r[j] == l;
      assert ls[j] in ls;
    }
    forall l ensures l in r && LineKey(l) != LineKey(ls[i]) <==> l in ls && LineKey(l) != LineKey(ls[i]) {
      if l in r && LineKey(l) != LineKey(ls[i]) {
        var j :| 0 <= j < |r| && r[j] == l;
        assert j != i && ls[j] == l;
      }
      if l in ls && LineKey(l) != LineKey(ls[i]) {
        var j :| 0 <= j < |ls| && ls[j] == l;
        assert j != i && r[j] == l;
      }
    }
    FindLineUnique(r, i);
  }

  /** Adding a line with a fresh id, a new key and resolving references keeps every rule. */
  lemma AppendLineConsistent(ps: seq<Player>, gs: seq<Game>, ls: seq<StatLine>, nl: StatLine)
    requires Consistent(ps, gs, ls)
    requires forall l :: l in ls ==> l.id < nl.id
    requires HasPlayer(ps, nl.playerId) && HasGame(gs, nl.gameId)
    requires FindLine(ls, nl.playerId, nl.gameId).None?
    ensures var r := ls + [nl];
      && Consistent(ps, gs, r)
      && (forall l :: l in r ==> l.id < nl.id + 1)
      && (forall l :: l in r && LineKey(l) != LineKey(nl) <==> l in ls && LineKey(l) != LineKey(nl))
      && FindLine(r, nl.playerId, nl.gameId) == Some(|ls|)
  {
    var r := ls + [nl];
    forall i, j | 0 <= i < j < |r| ensures LineId(r[i]) != LineId(r[j]) && LineKey(r[i]) != LineKey(r[j]) {
      assert r[i] == ls[i] && ls[i] in ls;
      if j < |ls| {
        assert r[j] == ls[j];
      }
    }
    assert r[|ls|] == nl;
    FindLineUnique(r, |ls|);
  }

  function OfPlayer(playerId: int): StatLine -> bool { (l: StatLine) => l.playerId == playerId }
  function NotOfPlayer(playerId: int): StatLine -> bool { (l: StatLine) => l.playerId != playerId }
  function NotOfGame(gameId: int): StatLine -> bool { (l: StatLine) => l.gameId != gameId }
  function OtherPlayer(id: int): Player -> bool { (p: Player) => p.id != id }
  function OtherGame(id: int): Game -> bool { (g: Game) => g.id != id }

  /** The store: three tables and the auto-increment counters of their ids. */
  class Store {
    var players: seq<Player>
    var games: seq<Game>
    var stats: seq<StatLine>
    var nextPlayerId: int
    var nextGameId: int
    var nextStatId: int

    ghost predicate Valid()
      reads this
    {
      && Consistent(players, games, stats)
      && (forall p :: p in players ==> p.id < nextPlayerId)
      && (forall g :: g in games ==> g.id < nextGameId)
      && (forall l :: l in stats ==> l.id < nextStatId)
    }

    constructor ()
      ensures Valid()
      ensures players == [] && games == [] && stats == []
      ensures nextPlayerId == 1 && nextGameId == 1 && nextStatId == 1
    {
      players, games, stats := [], [], [];
      nextPlayerId, nextGameId, nextStatId := 1, 1, 1;
    }

    /** Deleting a player cascades to exactly that player's stat lines. */
    method DeletePlayer(id: int)
      requires Valid()
      modifies this
      ensures Valid()
      ensures players == Filter(old(players), OtherPlayer(id))
      ensures stats == Filter(old(stats), NotOfPlayer(id))
      ensures forall l :: l in stats <==> l in old(stats) && l.playerId != id
      ensures games == old(games)
      ensures nextPlayerId == old(nextPlayerId) && nextGameId == old(nextGameId)
      ensures nextStatId == old(nextStatId)
    {
      var ps := Filter(players, OtherPlayer(id));
      var ls := Filter(stats, NotOfPlayer(id));
      FilterInjective(players, OtherPlayer(id), PlayerKey);
      FilterInjective(stats, NotOfPlayer(id), LineId);
      FilterInjective(stats, NotOfPlayer(id), LineKey);
      forall l | l in ls ensures HasPlayer(ps, l.playerId) {
        var p :| p in players && p.id == l.playerId;
        assert p in ps;
      }
      players, stats := ps, ls;
    }

    /** Deleting a game cascades to exactly that game's stat lines. */
    method DeleteGame(id: int)
      requires Valid()
      modifies this
      ensures Valid()
      ensures games == Filter(old(games), OtherGame(id))
      ensures stats == Filter(old(stats), NotOfGame(id))
      ensures forall l :: l in stats <==> l in old(stats) && l.gameId != id
      ensures players == old(players)
      ensures nextPlayerId == old(nextPlayerId) && nextGameId == old(nextGameId)
      ensures nextStatId == old(nextStatId)
    {
      var gs := Filter(games, OtherGame(id));
      var ls := Filter(stats, NotOfGame(id));
      FilterInjective(games, OtherGame(id), GameKey);
      FilterInjective(stats, NotOfGame(id), LineId);
      FilterInjective(stats, NotOfGame(id), LineKey);
      forall l | l in ls ensures HasGame(gs, l.gameId) {
        var g :| g in games && g.id == l.gameId;
        assert g in gs;
      }
      games, stats := gs, ls;
    }
  }

  /** Deleting a player leaves every other player's lines where they were. */
  lemma {:induction false} DeletePlayerKeepsOthers(ls: seq<StatLine>, id: int, other: int)
    requires other != id
    ensures Filter(Filter(ls, NotOfPlayer(id)), OfPlayer(other)) == Filter(ls, OfPlayer(other))
  {
    if ls != [] {
      DeletePlayerKeepsOthers(ls[1..], id, other);
    }
  }
}
