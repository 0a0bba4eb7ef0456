# Softball stats API — a Dafny model

This project models the core of a small softball statistics service. The service keeps three tables:

- players;
- games;
- one line of batting counts per player per game (the box score).

The model covers:

- the request payloads and their validation: field bounds, and the box-score consistency check (hits are the sum of singles, doubles, triples and home runs; no negative counts; a loose plate-appearance bound);
- the store's own rules:
  - unique surrogate ids;
  - one stat line per (player, game);
  - references that resolve;
  - column lengths;
  - non-negative counts;
  - cascading deletes;
- the write endpoints: create a player, create a game, and upsert a stat line;
- the read endpoints:
  - the roster with per-player totals and rates;
  - the schedule;
  - the stat listing;
  - the filtered team or player aggregate;
- the admin bearer-token guard on writes;
- the construction of the database URL from the environment;
- the idempotent seeding script.

Each module follows one file of the service:

| module | covers |
|---|---|
| `Schemas` | the payloads and the validator |
| `Models` | the records and the `Store` class |
| `Metrics` | sums and derived rates shared by two routers |
| `Players`, `Games`, `Stats` / `StatsQuery` | the routers |
| `Security` | the admin guard |
| `Db` | the URL |
| `Seed` | the seeding script |
| `Text`, `Dates`, `Collections` | Python's string operations, date order, and the filter / order-by / offset-limit steps of a query |

The store is a class whose tables are `seq` fields and whose auto-increment counters are integer fields. `Store.Valid()` is the set of database constraints plus "every id is below its counter". Every state-changing operation keeps `Valid()` and states its new state: the endpoints and the store's own methods state it in full. The seeding steps that run several writes in a row state what they keep and how the counters move, but not every added row; "## Left out" names each of these.

A few places where the code and its documentation differ; the model follows the code:

- The stat payload has no `sac_bunts` field. The upsert never writes that column, so an upsert over an existing line keeps its `sac_bunts` and a new line starts at 0.
- Name and opponent lengths are checked before stripping. A name of spaces passes validation and is stored as `""` (`Players.BlankNameStoredEmpty`).
- A location of spaces is stored as `Some("")`, not dropped (`Games.BlankLocationStoredEmpty`).
- `create_game` does not copy the payload's `time`.
- A search term of whitespace matches every player (`Players.BlankSearchMatchesAll`).
- The validator's plate-appearance rule is loose: it admits lines whose on-base events exceed their plate appearances (`Schemas.LooseBoundExample`).
- The aggregate's on-base denominator `ab + bb + hbp + sf` is the same plate-appearance count the roster uses (`Metrics.DeriveMeaning`).

## Model

| member | source | states |
|---|---|---|
| Schemas.CheckConsistency | api/app/schemas.py:77-92 | A payload is accepted exactly when each of its twelve counts is non-negative, hits equal singles + doubles + triples + home runs, and hits do not exceed AB + HBP + BB + SF. An accepted payload is returned unchanged. Each rule's error is raised exactly when that rule is the first to fail. |
| Schemas.DefaultAccepted | api/app/schemas.py:63-75 | The payload with every field at its default of 0 is accepted. |
| Schemas.CheckIdempotent | api/app/schemas.py:77-92 | Validating an accepted payload again gives the same answer. |
| Schemas.LooseBoundExample | api/app/schemas.py:89-91 | The plate-appearance rule accepts a line whose hits plus walks plus hit-by-pitches exceed its plate appearances. |
| Schemas.PlayerCreateValid | api/app/schemas.py:6-9 | The player payload bounds: each name of 1 to 100 characters, and the jersey number absent or in 0..999. Players.CreatePlayer refuses exactly the payloads outside them. |
| Schemas.GameCreateValid | api/app/schemas.py:42-47 | The game payload bounds: opponent of 1 to 150 characters, time of at most 10 and location of at most 200. Games.CreateGame refuses exactly the payloads outside them. |
| Models.Set | api/app/seed.py:46-47 | Setting one count column gives that column the new value and leaves every other column as it was. |
| Models.FindPlayer | api/app/routers/stats.py:18-19 | The lookup finds a player exactly when a row with that id exists, and what it finds is such a row. |
| Models.FindGame | api/app/routers/stats.py:20-21 | The lookup finds a game exactly when a row with that id exists, and what it finds is such a row. |
| Models.FindPlayerUnique | api/app/routers/stats.py:47 | With unique ids, looking up a stored player's id returns that very player. |
| Models.FindLine | api/app/routers/stats.py:23-28 | The search returns the first index whose line has the given (player, game). It returns nothing only when no line has that key. |
| Models.FindLineUnique | api/app/models.py:81 | With one line per (player, game), searching for a stored line's key finds that line's index. |
| Models.AppendPlayerConsistent | api/app/models.py:12-14 | Appending a player with a fresh, larger id and names of at most 100 characters keeps every store constraint. |
| Models.AppendGameConsistent | api/app/models.py:32-36 | Appending a game with a fresh, larger id, an opponent of at most 150 characters, a time of at most 10 and a location of at most 200 keeps every store constraint. |
| Models.ReplaceCountsConsistent | api/app/models.py:80-85 | Overwriting the counts of one stored line keeps the constraints, keeps every line with another key, and leaves the line findable at the same index. |
| Models.AppendLineConsistent | api/app/models.py:57-58 | Appending a line keeps the constraints when its player and game exist and no line has its key yet. Lines with other keys are kept, and the new line is found at the end. |
| Models.Store.constructor | api/app/models.py:9-85 | A new store has empty tables, counters at 1, and satisfies the constraints. |
| Models.Store.DeletePlayer | api/app/models.py:22-24 | Deleting a player removes that row and, by cascade, exactly the player's stat lines. Games and counters are unchanged, and the constraints still hold. |
| Models.Store.DeleteGame | api/app/models.py:45-47 | Deleting a game removes that row and, by cascade, exactly the game's stat lines. Players and counters are unchanged, and the constraints still hold. |
| Models.DeletePlayerKeepsOthers | api/app/models.py:22-24 | Deleting one player's lines leaves every other player's lines exactly as they were, in the same order. |
| Metrics.SafeDivMeaning | api/app/routers/stats.py:91-92 | The safe quotient is 0 on a zero denominator. Otherwise it times the denominator gives the numerator. |
| Metrics.SafeDivBounds | api/app/routers/players.py:10-11 | The safe quotient of non-negative numbers is non-negative, and at most 1 when the numerator does not exceed the denominator. |
| Metrics.SafeDivMonotone | api/app/routers/stats.py:91-92 | For a fixed denominator, a larger numerator never gives a smaller quotient. |
| Metrics.SafeDiv | api/app/routers/players.py:10-11 | `_safe_div`: the quotient, or 0 on a zero denominator. Its meaning and bounds are stated by Metrics.SafeDivMeaning and Metrics.SafeDivBounds. |
| Metrics.SumLinesColumns | api/app/routers/stats.py:109-121 | Each column of the summed counts is the sum of that column over the lines. With no lines every total is 0. |
| Metrics.SumLines | api/app/routers/stats.py:109-121 | The `coalesce(sum(...), 0)` of every column over a group of lines. Its column sums, append and order independence are stated by Metrics.SumLinesColumns, Metrics.SumAppend and Metrics.SumPermutation. |
| Metrics.SumAppend | api/app/routers/stats.py:109-121 | The totals of two groups of lines together are the sum of each group's totals. |
| Metrics.SumPermutation | api/app/routers/stats.py:109-121 | The totals do not depend on the order of the lines. |
| Metrics.SumKeepsRules | api/app/schemas.py:86-91 | If every line has hits equal to its hit types and within its plate-appearance bound, so do the totals. |
| Metrics.DeriveMeaning | api/app/routers/stats.py:135-139 | Plate appearances are AB + BB + HBP + SF, and total bases are 1B + 2·2B + 3·3B + 4·HR. AVG·AB = H and SLG·AB = TB, both 0 without at-bats. OBP·PA = H + BB + HBP, 0 without plate appearances. OPS = OBP + SLG. |
| Metrics.Derive | api/app/routers/stats.py:133-139 | The derived metrics of a set of totals. What each metric is, and its bounds, are stated by Metrics.DeriveMeaning, Metrics.RatesNonNegative and Metrics.SluggingAtLeastAverage. |
| Metrics.ZeroDerived | api/app/routers/players.py:71-76 | Zero totals derive zero for every metric. |
| Metrics.SluggingAtLeastAverage | api/app/routers/players.py:72-74 | When hits decompose into hit types, total bases are at least hits, so slugging is never below average. |
| Metrics.RatesNonNegative | api/app/routers/players.py:73-76 | Average, slugging, on-base and OPS are never negative. |
| Metrics.SeededLineMetrics | api/app/seed.py:71-74 | The first seeded line (4 AB, 2 H, 1 BB) derives PA 5, TB 3, AVG .5, SLG .75, OBP .6 and OPS 1.35. |
| Text.Strip | api/app/routers/players.py:18-19 | The result is the input with its leading and trailing whitespace removed: it is a contiguous piece of the input, and what was dropped on either side is whitespace. The result neither starts nor ends with whitespace. |
| Text.StripIdempotent | api/app/routers/players.py:18-19 | Stripping twice is stripping once. |
| Text.StripBlank | api/app/routers/players.py:36 | A string of whitespace strips to the empty string. |
| Text.StripUnchanged | api/app/db.py:10 | A string without surrounding whitespace is unchanged by stripping. |
| Text.Lower | api/app/security.py:12 | Lower-casing keeps the length and maps each character by itself. |
| Text.ContainsAt | api/app/routers/players.py:36-38 | The `%term%` containment holds exactly when the term occurs at some position of the text. |
| Text.ContainsEmpty | api/app/routers/players.py:36 | The empty term occurs in every text. |
| Text.LexTrichotomy | api/app/routers/players.py:40 | Two names are equal, or one sorts before the other. |
| Text.LexTransitive | api/app/routers/players.py:40 | Name order is transitive. |
| Text.LexIrreflexive | api/app/routers/players.py:40 | No name sorts strictly before itself. |
| Dates.DateLeTotal | api/app/routers/games.py:41 | Date order is total and antisymmetric. |
| Collections.Filter | api/app/routers/games.py:35-40 | A query filter keeps exactly the rows that satisfy the condition, in their order, and never adds one. |
| Collections.Page | api/app/routers/players.py:40-41 | Offset-then-limit returns at most `limit` rows: the rows from `offset` on, in order, and none when the offset is past the end. |
| Collections.SortBy | api/app/routers/players.py:40 | Ordering returns the same rows, as often as they occur, and in order. |
| Players.NewPlayerShape | api/app/routers/players.py:17-21 | A new player from a valid payload has the given id and both names stripped. The names fit their 100-character columns, and the jersey number is as given. |
| Players.NewPlayer | api/app/routers/players.py:17-21 | The row `create_player` inserts. Its shape is stated by Players.NewPlayerShape. |
| Players.BlankNameStoredEmpty | api/app/routers/players.py:18-19 | A first name of spaces passes the length bound and is stored empty. |
| Players.CreatePlayer | api/app/routers/players.py:15-25 | An out-of-bounds payload is refused and nothing changes. A valid one appends exactly the new player with the next id and advances one counter. Nothing else changes. |
| Players.BlankSearchMatchesAll | api/app/routers/players.py:35-39 | A search term of whitespace matches every player. |
| Players.NameMatches | api/app/routers/players.py:35-39 | The `ilike` search on either name. What it admits is stated by Players.RosterContents and Players.BlankSearchMatchesAll. |
| Players.NameOrder | api/app/routers/players.py:40 | Ordering by last name and then first name is total and transitive. |
| Players.Roster | api/app/routers/players.py:34-40 | The searched, name-ordered roster before paging. Its contents and order are stated by Players.RosterContents. |
| Players.RosterContents | api/app/routers/players.py:34-40 | The roster is in name order. It holds exactly the players matching the search on either name, as often as the table holds them. |
| Players.RosterWithoutSearch | api/app/routers/players.py:35 | Without a search, or with an empty one, the roster lists every player. |
| Players.RollupWithoutLines | api/app/routers/players.py:47-68 | A player without stat lines reads 0 games and 0 for every total and rate. |
| Players.Rollup | api/app/routers/players.py:47-76 | A roster entry: the player's totals, rates and games played. Its meaning is stated by Players.RollupIsPlayerAggregate and Players.GamesPlayedCountsGames. |
| Players.GamesPlayedCountsGames | api/app/routers/players.py:66-68 | Games played equals the number of distinct games the player has a line for. |
| Players.RollupIsPlayerAggregate | api/app/routers/players.py:47-76 | A roster entry's totals and rates equal the stats aggregate filtered to that player. |
| Players.ListPlayers | api/app/routers/players.py:27-104 | Out-of-bounds limit or offset is refused. Otherwise the answer is the requested page of the roster, each player with their rollup. |
| Players.RollupPage | api/app/routers/players.py:44-102 | Each listed player gets their own totals, rates and games played, in page order. |
| Games.NewGameShape | api/app/routers/games.py:14-19 | A new game from a valid payload has the stripped opponent and the given date and notes. It has no time and no scores. Its location is present exactly when a non-empty one was sent, and stripped. Lengths fit their columns. |
| Games.NewGame | api/app/routers/games.py:14-19 | The row `create_game` inserts. Its shape is stated by Games.NewGameShape. |
| Games.BlankLocationStoredEmpty | api/app/routers/games.py:17 | A location of spaces is stored as an empty string. |
| Games.CreateGame | api/app/routers/games.py:12-23 | An out-of-bounds payload is refused and nothing changes. A valid one appends exactly the new game with the next id. Nothing else changes. |
| Games.NewestFirstOrder | api/app/routers/games.py:41 | Newest-first date order is total and transitive. |
| Games.Schedule | api/app/routers/games.py:34-41 | The schedule is newest first. It holds exactly the games matching the opponent search and the inclusive date bounds, as often as stored. |
| Games.GameMatches | api/app/routers/games.py:34-40 | The schedule's optional opponent and date filters. What they admit is stated by Games.Schedule. |
| Games.ListGames | api/app/routers/games.py:25-43 | Out-of-bounds limit or offset is refused. Otherwise the answer is exactly the `offset`/`limit` window of the schedule: matching games only, newest first. With offset 0 and a short schedule, the whole schedule is returned. |
| Games.SchedulePage | api/app/routers/games.py:41-42 | A page holds min(`limit`, what remains after `offset`) games, or none when `offset` is past the end. Its k-th game is the schedule's (`offset` + k)-th. It keeps the order and holds only matching games. |
| Games.ScheduleUnfiltered | api/app/routers/games.py:34 | Without filters the schedule lists every game. |
| Games.ScheduleEmptyRange | api/app/routers/games.py:37-40 | A date range that ends before it starts lists no game. |
| Stats.BoxOf | api/app/schemas.py:63-75 | The twelve columns StatRead validates are read off the stored counts, and none is negative. |
| Stats.Overwritten | api/app/routers/stats.py:38-42 | Copying the payload sets its twelve columns to the payload's values and keeps `sac_bunts`. |
| Stats.OverwrittenReadable | api/app/routers/stats.py:38-54 | A line written from a validated payload reads back as that payload, so the StatRead the upsert returns always passes check_consistency. |
| Stats.CopyPayload | api/app/routers/stats.py:38-42 | The field-by-field copy loop produces the overwritten counts. |
| Stats.UpsertedLine | api/app/routers/stats.py:23-42 | After an upsert there is still one line per key, and a line with the key exists. It carries the payload's counts. Every line with another key is kept. The table grows by one only when the key was new. An existing line keeps its id, creation time and `sac_bunts`; a new one gets the next id and `sac_bunts` 0. |
| Stats.Upserted | api/app/routers/stats.py:23-42 | The stats table after an upsert. What it holds is stated by Stats.UpsertedLine. |
| Stats.UpsertedConsistent | api/app/routers/stats.py:30-35 | Upserting for an existing player and game keeps every store constraint. |
| Stats.UpsertStat | api/app/routers/stats.py:15-54 | An inconsistent payload is refused with its validator message. An unknown player gives "Player not found" and an unknown game "Game not found". An error changes nothing. Success means the payload is consistent and both rows exist; the table becomes the upserted table; the answer is the stored line with its player's names. |
| Stats.StoreUpsert | api/app/routers/stats.py:23-45 | The store's stat table becomes the upserted table, and the counter advances only for a new line. Players and games are unchanged. |
| Stats.UpsertLine | api/app/routers/stats.py:23-42 | The upsert on the table gives the upserted table, and reports a new line exactly when the key was absent. |
| Stats.UpsertTwice | api/app/routers/stats.py:23-42 | Upserting the same key twice is the second upsert alone: the last payload wins. |
| StatsQuery.JoinPlayers | api/app/routers/stats.py:64-68 | The join pairs each line with its player; a line whose player is missing is dropped. |
| StatsQuery.StatOrder | api/app/routers/stats.py:75-77 | Game id descending, then player id ascending, is total and transitive. |
| StatsQuery.StatOrderStrict | api/app/routers/stats.py:75-77 | With one line per key the order has no ties, so the listing order is fully determined. |
| StatsQuery.StatRowsContents | api/app/routers/stats.py:64-77 | The listing is in order and holds exactly the joined lines that pass the player and game filters. |
| StatsQuery.StatRowsComplete | api/app/routers/stats.py:64-73 | In a consistent store every line passing the filters is listed with its player. |
| StatsQuery.StatRows | api/app/routers/stats.py:64-77 | The joined, filtered, ordered listing before paging. Its contents are stated by StatsQuery.StatRowsContents and StatsQuery.StatRowsComplete. |
| StatsQuery.StatsPage | api/app/routers/stats.py:75-78 | The `offset`/`limit` window of the listing. Its bounds and order are stated by StatsQuery.StatsPageWindow. |
| StatsQuery.StatsPageWindow | api/app/routers/stats.py:75-78 | A page holds at most `limit` rows, keeps the order, and holds only filtered lines with their own player. |
| StatsQuery.ListStats | api/app/routers/stats.py:56-89 | Out-of-bounds limit or offset is refused with 422. Otherwise the request succeeds exactly when every row of the requested page passes check_consistency, and fails with 500 when one does not. On success the answer is that page, each row read with its player's names. |
| StatsQuery.ReadRows | api/app/routers/stats.py:80-87 | Building StatRead succeeds exactly when every row passes check_consistency, and fails with 500 otherwise. On success each result row is the corresponding joined row read out, in order. |
| StatsQuery.ReadableStorePages | api/app/routers/stats.py:78-87 | When every stored line passes check_consistency, every page of the listing does too, so a valid request is answered. |
| StatsQuery.AggregateTotals | api/app/routers/stats.py:109-131 | The aggregate sums exactly the lines whose game exists and that pass every filter given. Each total is that column's sum over those lines. |
| StatsQuery.AggregateStats | api/app/routers/stats.py:94-139 | The aggregate response. Its totals and rates are stated by StatsQuery.AggregateTotals, and its edge cases by the lemmas below. |
| StatsQuery.AggregateOfNothing | api/app/routers/stats.py:109-139 | When no line passes the filters, every total and every rate is 0. |
| StatsQuery.EmptyDateRange | api/app/routers/stats.py:128-131 | A date range that ends before it starts aggregates to all zeros. |
| StatsQuery.PlayerFilterNarrows | api/app/routers/stats.py:124-125 | Adding the player filter keeps exactly that player's lines of the wider selection. |
| StatsQuery.GameFilterNarrows | api/app/routers/stats.py:126-127 | Adding the game filter keeps exactly that game's lines of the wider selection. |
| StatsQuery.AggregateAll | api/app/routers/stats.py:122 | In a consistent store, the unfiltered aggregate covers every line and its totals are the whole table's. |
| StatsQuery.AggregateOfPlayer | api/app/routers/stats.py:122-125 | In a consistent store, the player-filtered aggregate covers exactly that player's lines. |
| Security.RequireAdmin | api/app/security.py:8-16 | A write passes exactly when a token is configured, a bearer header (scheme in any case) is present, and its credential equals the token. The errors come in that order: 503 without a token, 401 for a missing or malformed header, 403 for a wrong token. |
| Security.AdminToken | api/app/security.py:5 | ADMIN_TOKEN, stripped, or "" when unset. Its effect is stated by Security.BlankTokenBlocksWrites and Security.ConfiguredTokenIsStripped. |
| Security.BlankTokenBlocksWrites | api/app/security.py:5-11 | An unset or whitespace-only ADMIN_TOKEN refuses every write with 503. |
| Security.SchemeCaseIgnored | api/app/security.py:12 | "BEARER" and "Bearer" are accepted like "bearer". |
| Security.ConfiguredTokenIsStripped | api/app/security.py:5 | Whitespace around the configured token is ignored: the stripped token is the one that must be sent. |
| Db.Missing | api/app/db.py:14-18 | The missing list names exactly the empty settings. Their ranks in HOST, PORT, DATABASE, USER, PASSWORD strictly increase, so the list keeps that order and names each setting once. It is empty exactly when all five are set. |
| Db.DefaultsMissing | api/app/db.py:14-18 | Four blank settings and port 3306 report HOST, DATABASE, USER, PASSWORD, in that order. |
| Db.BuildUrl | api/app/db.py:5-20 | A non-blank DATABASE_URL is used as given (stripped). Otherwise the MySQL URL is built exactly when all five settings are non-blank. If not, the error lists the missing names after "DB config missing: ". |
| Db.BlankPortIsMissing | api/app/db.py:10 | A MYSQL_PORT that is set but blank is reported missing: the 3306 default applies only when it is unset. |
| Db.Setting | api/app/db.py:9-13 | One stripped environment setting with its default. Its cases are stated by Db.DefaultPort, Db.UnsetIsBlank and Db.BlankPortIsMissing. |
| Db.ReadConfig | api/app/db.py:9-13 | The five MYSQL_* settings. With nothing set, they are stated by Db.EmptyEnvironment. |
| Db.DefaultPort | api/app/db.py:10 | Without MYSQL_PORT the port is 3306. |
| Db.UnsetIsBlank | api/app/db.py:9 | An unset setting with an empty default reads as empty. |
| Db.EmptyEnvironment | api/app/db.py:9-13 | An empty environment reads as four blank settings and port 3306. |
| Db.NothingConfigured | api/app/db.py:14-19 | With nothing configured, HOST, DATABASE, USER and PASSWORD are reported missing, in that order. |
| Seed.UpsertPlayer | api/app/seed.py:10-22 | When more than one player has the name, the result is MultipleResultsFound. When exactly one has it, that player is returned and nothing changes. Otherwise the player is inserted with the next id, or refused when a name is too long for its column. The games, the stat lines and every old player are kept. |
| Seed.UpsertGame | api/app/seed.py:24-36 | The same for games, keyed by opponent and date: an existing match is returned, otherwise a game is inserted with the given location and notes, or refused when too long. |
| Seed.Patched | api/app/seed.py:46-47 | Each column named in the keywords takes the keyword's value; every other column keeps its value. |
| Seed.PatchedIdempotent | api/app/seed.py:46-47 | Applying the same keywords twice is applying them once. |
| Seed.ApplyKeywords | api/app/seed.py:46-47 | The `setattr` loop produces the patched counts. |
| Seed.KeywordUpsertedLine | api/app/seed.py:38-55 | When the line exists, or the player and game both exist, the keyword upsert keeps the constraints. The line with the key then holds the base counts patched with the keywords, and lines with other keys are kept. |
| Seed.KeywordUpserted | api/app/seed.py:38-55 | The stats table after the seeder's upsert. What it holds is stated by Seed.KeywordUpsertedLine. |
| Seed.UpsertStat | api/app/seed.py:38-55 | A negative keyword is refused by the CHECK constraint. A new line for a missing player or game is refused by the foreign key. It succeeds exactly when neither applies, and an error changes nothing. On success the stored line is the prior line (or a fresh zero line) patched with the keywords, and the table grows only for a new key. |
| Seed.WriteKeywords | api/app/seed.py:45-55 | The store's stat table becomes the keyword-upserted table, and the returned line carries the patched counts. |
| Seed.SeedLinesConsistent | api/app/seed.py:70-82 | The three seeded box scores would pass the API's validator. |
| Seed.SeedLineReadable | api/app/seed.py:70-82 | A line carrying a seeded box score passes the check StatRead runs. |
| Seed.HitsAloneUnreadable | api/app/seed.py:38-55 | A new line seeded with hits alone (5) is stored, but StatRead refuses it, since hits is not the sum of the hit types. |
| Seed.KeywordsOfBox | api/app/seed.py:71-82 | Patching with the keywords of a box score is the API's payload copy, and the resulting counts carry the box score. |
| Seed.AsKeywordsLookup | api/app/seed.py:71-73 | The seed's keywords name the twelve payload columns with the box score's values, and not `sac_bunts`. |
| Seed.SeedUpsertIsApiUpsert | api/app/seed.py:38-55 | Seeding a line with a box score's keywords changes the table exactly as the API's upsert of that box score would. |
| Seed.UpsertSeedPlayer | api/app/seed.py:62-64 | Seeding one roster player succeeds exactly when at most one row has the name. The result is then the only row with it, and a player already present leaves the table unchanged. The other seed names are unaffected. When no row had the name, exactly that seed player (its number, created now) is appended under the next id, and the counter advances by one. Otherwise the table and the counter are unchanged. |
| Seed.SeedPlayerFits | api/app/seed.py:62-64 | The seeded names fit their columns. |
| Seed.SeedNamesDistinct | api/app/seed.py:62-64 | A row with one seed player's name does not have another's. |
| Seed.UpsertSeedGame | api/app/seed.py:67-68 | Seeding one game succeeds exactly when at most one row has its opponent and date. The result is then the only such row, and an existing game leaves the table unchanged. The other seed game is unaffected. When no row matched, exactly that seed game (its location, created now) is appended under the next id, and the counter advances by one. Otherwise the table and the counter are unchanged. |
| Seed.SeedGameFits | api/app/seed.py:67-68 | The seeded opponents and locations fit their columns. |
| Seed.SeedGamesDistinct | api/app/seed.py:67-68 | A row matching one seed game does not match the other. |
| Seed.SeedRoster | api/app/seed.py:62-64 | When no seed name is held by two rows, the three players are seeded. Each name is then held by exactly one row, and those rows are returned. A table already holding each once is unchanged. Every earlier player stays in place, and the player counter advances by exactly the number of rows added. Games, stat lines and their counters are unchanged. |
| Seed.SeedSchedule | api/app/seed.py:67-68 | When no seed game is matched by two rows, both games are seeded. Each is then held by exactly one row, and those rows are returned. A table already holding each once is unchanged. Every earlier game stays in place, and the game counter advances by exactly the number of rows added. Players, stat lines and their counters are unchanged. |
| Seed.SeedLineOf | api/app/seed.py:71-82 | Seeding one line always succeeds. It leaves a line for the pair carrying the seeded counts, keeps every other line, and grows the table only when the pair had no line. Players, games and both their counters are unchanged, and the stat counter advances with the table. |
| Seed.SeededBy | api/app/seed.py:70-82 | Three stored lines for the right players and games, carrying the seeded counts, make the store seeded. |
| Seed.SeedStatLines | api/app/seed.py:70-82 | With each seed player and game held once, the three lines are seeded. A store already seeded once gains no line. Every line not keyed by a seed pair is kept. The player and game counters are unchanged, and the stat counter advances with the table. |
| Seed.SeedMain | api/app/seed.py:57-85 | When no seed key is held by two rows, the run succeeds. A successful run leaves the store seeded, with each seed row held once. A rerun on such a store succeeds and adds nothing. Earlier players and games stay in place, and each counter advances by exactly the rows added to its table. A failed run changes no stat line; a successful one keeps every line not keyed by a seed pair. |

## Left out

- Rates are exact rationals. Python's floats and `round(x, 3)` are not modelled, so the rates are the unrounded quotients.
- SQL execution is not modelled:
  - sessions, `commit`/`refresh` and transactions;
  - the engine and connection pool (`pool_pre_ping`, `pool_recycle`), and `get_db`;
  - `create_all` / `ensure_tables`. The tables are taken to exist.
- When SQL rows tie on the sort key, their order is unspecified. The model keeps ties in table order. The stat listing has no ties (`StatsQuery.StatOrderStrict`); two players with the same full name can tie.
- `ilike` is modelled as substring containment after ASCII lower-casing of both sides. A `%` or `_` inside the search term is matched literally, and the database collation's case and accent folding is not modelled.
- Concurrency and races between requests are not modelled. Each operation runs alone on the store.
- The HTTP layer is not modelled:
  - FastAPI routing, status codes on success, and response serialisation;
  - the `HTTPBearer` header parser. Credentials arrive already split, or absent.
- Pydantic's layout of validation errors is reduced to one detail string; the payload type checks (strings, ints, dates) are carried by the Dafny types.
- The clock and the environment become parameters: a `now` timestamp, an environment map, and the configured admin token.
- The seeding script does not model its `print` or closing its session.
- api/app/main.py, api/app/routers/health.py and the web front end are not part of this model.
- Python's `str.lower()` is modelled on ASCII letters only. For the comparison with "bearer" this changes nothing, because no other character lower-cases to one of its letters.
- Integers are unbounded. MySQL's 32-bit `INTEGER` columns and their overflow are not modelled.
- Seed.UpsertStat: only count columns can be passed as keywords. Its error order (CHECK before foreign key) is one fixed choice for what the database reports first.
- StatsQuery.AggregateStats: the response carries all thirteen totals plus plate appearances. The service's AggregateRead drops `sac_bunts` and plate appearances.
- Seed.SeedMain: it states success when no seed key is held by two rows, but not the converse (that a duplicated key makes it fail), because proving the converse across every error path is costly.
- Seed.SeedRoster: it states success when no seed name is held by two rows, but not the converse.
- Seed.SeedSchedule: it states success when no seed game is matched by two rows, but not the converse.
- Seed.SeedRoster: it states that earlier players are kept and the counter tracks the rows added, but not that each added row is a seed player (Seed.UpsertSeedPlayer states that for each single step).
- Seed.SeedSchedule: it states that earlier games are kept and the counter tracks the rows added, but not that each added row is a seed game (Seed.UpsertSeedGame states that for each single step).
- Seed.SeedLineOf: it states the seeded line's twelve counts, the kept lines of other keys and the counters, but not the whole table as a sequence (where the line sits, its `sac_bunts`). Seed.UpsertStat states that.
- Seed.SeedStatLines: it states the seeded lines and the kept lines of other keys, but not the whole table as a sequence.
- Seed.SeedMain: the same as Seed.SeedRoster, Seed.SeedSchedule and Seed.SeedStatLines, for the three steps together.
- Players.NameOrder: names are ordered by character code. MySQL's default collation (`utf8mb4_0900_ai_ci`) ignores case and accents, so the service sorts "adams" before "Brown" and lets "smith" tie with "Smith", where the model sorts "Brown" first and separates the two.
- Seed.UpsertPlayer: the lookup by first and last name compares exactly. Under the same collation the database also matches "alex" to "Alex", so the service can find a row where the model inserts a new one. The same holds for Seed.UpsertGame's opponent lookup.
