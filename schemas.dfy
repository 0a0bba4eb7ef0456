/**
 * Request payloads and their validation (pydantic models in api/app/schemas.py):
 * the box-score consistency check and the field bounds of new players and games.
 */
module Schemas {
  import opened Wrappers
  import opened Dates

  /** A request that fails: rejected before it reaches the store (HTTP 422 or 404), or a stored row the response model refuses (500). */
  datatype RequestError =
    | InvalidBody(reason: string)   // 422: the payload fails validation
    | InvalidQuery                  // 422: a query parameter is out of its bounds
    | NotFound(detail: string)      // 404
    | InvalidResponse               // 500: a stored row fails the response model's own validation

  function Status(e: RequestError): int {
    match e
    case InvalidBody(_) => 422
    case InvalidQuery => 422
    case NotFound(_) => 404
    case InvalidResponse => 500
  }

  // ---------- Players ----------

  datatype PlayerCreate = PlayerCreate(firstName: string, lastName: string, jerseyNumber: Option<int>)

  /** Names of 1..100 characters (before any stripping), jersey number absent or in 0..999. */
  predicate PlayerCreateValid(p: PlayerCreate) {
    && 1 <= |p.firstName| <= 100
    && 1 <= |p.lastName| <= 100
    && (p.jerseyNumber.None? || 0 <= p.jerseyNumber.value <= 999)
  }

  // ---------- Games ----------

  datatype GameCreate = GameCreate(
    opponent: string, date: Date, time: Option<string>, location: Option<string>, notes: Option<string>)

  /** Opponent of 1..150 characters, time at most 10 and location at most 200 characters. */
  predicate GameCreateValid(g: GameCreate) {
    && 1 <= |g.opponent| <= 150
    && (g.time.None? || |g.time.value| <= 10)
    && (g.location.None? || |g.location.value| <= 200)
  }

  // ---------- Player game stats ----------

  /** The twelve counts a stat payload carries (StatBase); there is no sac_bunts field. */
  datatype BoxScore = BoxScore(
    atBats: int, hits: int, singles: int, doubles: int, triples: int, homeRuns: int,
    rbis: int, walks: int, strikeouts: int, sacFlies: int, hitByPitches: int, errors: int)

  /** Every field omitted from a payload is 0. */
  const DefaultBoxScore := BoxScore(0, 0, 0, 0, 0, 0, 0, 0, 0, 0, 0, 0)

  /** The counts in the order the validator lists them. */
  function Nums(b: BoxScore): seq<int> {
    [b.atBats, b.hits, b.singles, b.doubles, b.triples, b.homeRuns,
     b.rbis, b.walks, b.strikeouts, b.sacFlies, b.hitByPitches, b.errors]
  }

  datatype ValidationError = NegativeValue | HitDecompositionMismatch | HitsExceedPlateAppearances

  function Message(e: ValidationError): string {
    match e
    case NegativeValue => "All stat fields must be >= 0"
    case HitDecompositionMismatch => "hits must equal singles + doubles + triples + home_runs"
    case HitsExceedPlateAppearances => "hits cannot exceed plate appearances"
  }

  // The three rules of a consistent box score, stated field by field.

  ghost predicate AllNonNegative(b: BoxScore) {
    && b.atBats >= 0 && b.hits >= 0 && b.singles >= 0 && b.doubles >= 0
    && b.triples >= 0 && b.homeRuns >= 0 && b.rbis >= 0 && b.walks >= 0
    && b.strikeouts >= 0 && b.sacFlies >= 0 && b.hitByPitches >= 0 && b.errors >= 0
  }

  ghost predicate HitsDecompose(b: BoxScore) {
    b.hits == b.singles + b.doubles + b.triples + b.homeRuns
  }

  ghost predicate HitsWithinPlateAppearances(b: BoxScore) {
    b.hits <= b.atBats + b.hitByPitches + b.walks + b.sacFlies
  }

  ghost predicate Consistent(b: BoxScore) {
    AllNonNegative(b) && HitsDecompose(b) && HitsWithinPlateAppearances(b)
  }

  /**
   * StatBase.check_consistency: the three rules in order, the first that fails
   * decides the error; a consistent payload is returned unchanged.
   */
  function CheckConsistency(b: BoxScore): (r: Result<BoxScore, ValidationError>)
    ensures r.Ok? <==> Consistent(b)
    ensures r.Ok? ==> r.value == b
    ensures r == Err(NegativeValue) <==> !AllNonNegative(b)
    ensures r == Err(HitDecompositionMismatch) <==> AllNonNegative(b) && !HitsDecompose(b)
    ensures r == Err(HitsExceedPlateAppearances) <==>
      AllNonNegative(b) && HitsDecompose(b) && !HitsWithinPlateAppearances(b)
  {
    var nums := Nums(b);
    if exists i :: 0 <= i < |nums| && nums[i] < 0 then
      Err(NegativeValue)
    else
      assert nums[0] >= 0 && nums[1] >= 0 && nums[2] >= 0 && nums[3] >= 0;
      assert nums[4] >= 0 && nums[5] >= 0 && nums[6] >= 0 && nums[7] >= 0;
      assert nums[8] >= 0 && nums[9] >= 0 && nums[10] >= 0 && nums[11] >= 0;
      if b.hits != b.singles + b.doubles + b.triples + b.homeRuns then Err(HitDecompositionMismatch)
      else if b.hits > b.atBats + b.hitByPitches + b.walks + b.sacFlies then Err(HitsExceedPlateAppearances)
      else Ok(b)
  }

  /** The payload with every field left at its default is accepted unchanged. */
  lemma DefaultAccepted()
    ensures CheckConsistency(DefaultBoxScore) == Ok(DefaultBoxScore)
  {
  }

  /** Validation is a pure check: running it on its own output changes nothing. */
  lemma CheckIdempotent(b: BoxScore)
    requires CheckConsistency(b).Ok?
    ensures CheckConsistency(CheckConsistency(b).value) == CheckConsistency(b)
  {
  }

  /**
   * The plate-appearance rule is loose: it admits a line whose hits, walks and
   * hit-by-pitches together exceed its plate appearances (no at-bats, one walk, one single).
   */
  lemma LooseBoundExample()
    ensures var b := BoxScore(0, 1, 1, 0, 0, 0, 0, 1, 0, 0, 0, 0);
      CheckConsistency(b).Ok? && b.hits + b.walks + b.hitByPitches > b.atBats + b.walks + b.hitByPitches + b.sacFlies
  {
  }
}
