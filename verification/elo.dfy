/**
 * The Elo arithmetic of the rating calculator: expected score, rating change
 * and new rating, with the calculator's fixed K-factor and initial rating,
 * and the mapping of a result token to the two actual scores.
 */
module Elo {

  /** K-factor used when a caller passes none. */
  const K_FACTOR: real := 32.0

  /**
   * Rating the registration form offers for a new player. The calculator's
   * own initial-rating attribute holds the same value but is never read.
   */
  const INITIAL_RATING: real := 1200.0

  /**
   * The two properties of x ↦ 10^x that the rating formulas rely on:
   * it is positive, and 10^(-x) is the reciprocal of 10^x.
   */
  ghost predicate IsPow10(pow10: real -> real) {
    && (forall x :: pow10(x) > 0.0)
    && (forall x :: pow10(-x) * pow10(x) == 1.0)
  }

  /** 10^x is also strictly increasing; only the monotonicity lemma needs it. */
  ghost predicate Increasing(pow10: real -> real) {
    forall x, y :: x < y ==> pow10(x) < pow10(y)
  }

  /** A rational stand-in with the properties of IsPow10; it only witnesses that the type is inhabited. */
  function StandIn(x: real): (y: real)
    ensures y > 0.0
  {
    if x >= 0.0 then 1.0 + x else 1.0 / (1.0 - x)
  }

  /**
   * The exponential the runtime provides (`10 ** x`). The model is parametric in it:
   * every fact below holds for any function with the properties of IsPow10.
   */
  type Pow10 = f: real -> real | IsPow10(f) witness StandIn

  /** The value of 10^0 is 1: it is positive and its own reciprocal. */
  lemma Pow10Zero(pow10: Pow10)
    ensures pow10(0.0) == 1.0
  {
    var z := pow10(0.0);
    assert -0.0 == 0.0;
    assert z * z == 1.0 && z > 0.0;
    var w, c := z - 1.0, z + 1.0;
    assert w * c == z * z - 1.0 == 0.0;
    assert c * (1.0 / c) == 1.0;
    assert w == w * (c * (1.0 / c)) == (w * c) * (1.0 / c) == 0.0;
  }

  /** Expected score of a player rated `ratingA` against one rated `ratingB`. */
  function ExpectedScore(pow10: Pow10, ratingA: real, ratingB: real): (e: real)
    ensures 0.0 < e < 1.0
    ensures ratingA == ratingB ==> e == 0.5
  {
    var p := pow10((ratingB - ratingA) / 400.0);
    if ratingA == ratingB then
      Pow10Zero(pow10);
      assert p == 1.0;
      1.0 / (1.0 + p)
    else
      1.0 / (1.0 + p)
  }

  /** The two players' expected scores always sum to 1. */
  lemma ExpectedScoresComplementary(pow10: Pow10, a: real, b: real)
    ensures ExpectedScore(pow10, a, b) + ExpectedScore(pow10, b, a) == 1.0
  {
    // 1 / (1 + 1/p) == p / (p + 1), using that 10^(-d) is the reciprocal of 10^d
    assert (a - b) / 400.0 == -((b - a) / 400.0);
  }

  /** A stronger opponent lowers one's expected score. */
  lemma ExpectedScoreDecreasing(pow10: Pow10, a: real, b1: real, b2: real)
    requires Increasing(pow10)
    requires b1 < b2
    ensures ExpectedScore(pow10, a, b2) < ExpectedScore(pow10, a, b1)
  {
    var p1, p2 := pow10((b1 - a) / 400.0), pow10((b2 - a) / 400.0);
    assert p1 < p2;
    assert 1.0 + p1 < 1.0 + p2;
    assert ExpectedScore(pow10, a, b1) == 1.0 / (1.0 + p1);
    assert ExpectedScore(pow10, a, b2) == 1.0 / (1.0 + p2);
    var e1, e2 := 1.0 / (1.0 + p1), 1.0 / (1.0 + p2);
    assert e1 * (1.0 + p1) == 1.0;
    assert e2 * (1.0 + p2) == 1.0;
    assert e2 * (1.0 + p1) < e2 * (1.0 + p2);
    assert e2 * (1.0 + p1) < e1 * (1.0 + p1);
  }

  /** The higher-rated player is expected to score more than half. */
  lemma FavouriteExpectsMoreThanHalf(pow10: Pow10, a: real, b: real)
    requires Increasing(pow10)
    requires a > b
    ensures ExpectedScore(pow10, a, b) > 0.5
  {
    ExpectedScoreDecreasing(pow10, a, b, a);
  }

  /** Python's `k_factor=None`: the caller may pass a K-factor or leave it out. */
  datatype KOption = Default | Given(k: real)

  /** The K-factor in force: the one passed, or K_FACTOR when none is. */
  function KFactor(k: KOption): real {
    match k
    case Default => K_FACTOR
    case Given(v) => v
  }

  /**
   * Rating change for one game. The current rating is accepted but,
   * as in the calculator, does not enter the result.
   */
  function RatingChange(currentRating: real, expected: real, actual: real, k: KOption): (d: real)
    ensures KFactor(k) > 0.0 ==> (d > 0.0 <==> actual > expected)
    ensures KFactor(k) > 0.0 ==> (d < 0.0 <==> actual < expected)
    ensures actual == expected ==> d == 0.0
  {
    KFactor(k) * (actual - expected)
  }

  /** New rating after one game: the current rating moved by the rating change. */
  function NewRating(currentRating: real, expected: real, actual: real, k: KOption): (r: real)
    ensures r == currentRating + RatingChange(currentRating, expected, actual, k)
    ensures k.Default? ==> r == currentRating + 32.0 * (actual - expected)
  {
    var kf := if k.Default? then K_FACTOR else k.k;
    currentRating + kf * (actual - expected)
  }

  /**
   * Actual scores of player 1 and player 2 for a result token:
   * "1-0" is a win for player 1, "0-1" a win for player 2,
   * and any other token is scored as a draw.
   */
  function ActualScores(result: string): (s: (real, real))
    ensures s.0 + s.1 == 1.0
    ensures s.0 in {0.0, 0.5, 1.0} && s.1 in {0.0, 0.5, 1.0}
    ensures s.0 == 1.0 <==> result == "1-0"
    ensures s.1 == 1.0 <==> result == "0-1"
  {
    if result == "1-0" then (1.0, 0.0)
    else if result == "0-1" then (0.0, 1.0)
    else (0.5, 0.5)
  }

  /**
   * Zero-sum: with one K-factor and complementary expected scores, the two
   * rating changes of a game cancel, whatever the result token.
   */
  lemma ZeroSum(pow10: Pow10, r1: real, r2: real, result: string, k: KOption)
    ensures
      var (a1, a2) := ActualScores(result);
      RatingChange(r1, ExpectedScore(pow10, r1, r2), a1, k)
      + RatingChange(r2, ExpectedScore(pow10, r2, r1), a2, k) == 0.0
  {
    ExpectedScoresComplementary(pow10, r1, r2);
  }
}
