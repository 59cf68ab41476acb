/** The Elo arithmetic of internal/film/film.go, in exact real arithmetic.

    `Curve` stands for the map x -> 10^(x / 400).  Only two facts about it are ever
    used: it is positive, and g(x) * g(-x) == 1.  Whatever is proved for every
    `Curve` therefore holds of the power function. */
module Elo {

  ghost predicate IsCurve(g: real -> real) {
    forall x: real :: g(x) > 0.0 && g(x) * g(-x) == 1.0
  }

  ghost predicate Increasing(g: real -> real) {
    forall x: real, y: real :: x < y ==> g(x) < g(y)
  }

  type Curve = g: real -> real | IsCurve(g) witness (x: real) => 1.0

  const STD_RATING: real := 1400.0
  const BASE_K: int := 20
  const NEW_FILM_K: int := 40

  /** Go's conversion to int16: keep the low 16 bits, read them as two's complement. */
  function ToInt16(x: int): int {
    (x + 0x8000) % 0x1_0000 - 0x8000
  }

  /** FilmKFromDuelCount, with the int16 conversion and subtraction it performs. */
  function FilmK(duelCount: int): int {
    if duelCount < 20 then ToInt16(NEW_FILM_K - ToInt16(duelCount)) else BASE_K
  }

  /** The K a film has above the base K: 20, 19, .., 1 over its first twenty duels. */
  function Excess(duelCount: int): nat {
    if 0 <= duelCount < 20 then 20 - duelCount else 0
  }

  /** The duel counts the schema admits never reach the wrap-around. */
  lemma KIsBasePlusExcess(duelCount: int)
    requires 0 <= duelCount
    ensures FilmK(duelCount) == BASE_K + Excess(duelCount)
    ensures BASE_K <= FilmK(duelCount) <= NEW_FILM_K
    ensures FilmK(duelCount) == BASE_K <==> 20 <= duelCount
  {
  }

  /** K in figures: forty less the duels so far, and twenty from the twentieth on. */
  lemma KInFigures(duelCount: int)
    requires 0 <= duelCount
    ensures FilmK(duelCount) == if duelCount < 20 then 40 - duelCount else 20
  {
  }

  /** The expected score of a film rated `own` against one rated `other`. */
  function Expected(g: Curve, own: real, other: real): (e: real)
    ensures 0.0 < e < 1.0
  {
    var p := g(other - own);
    assert p > 0.0;
    UnitFraction(p);
    1.0 / (1.0 + p)
  }

  lemma UnitFraction(p: real)
    requires p > 0.0
    ensures 0.0 < 1.0 / (1.0 + p) < 1.0
  {
    ReciprocalFalls(1.0, 1.0 + p);
  }

  /** Reciprocals of positive numbers are positive and fall as the number grows. */
  lemma ReciprocalFalls(a: real, b: real)
    requires 0.0 < a < b
    ensures 0.0 < 1.0 / b < 1.0 / a
  {
    var x, y := 1.0 / a, 1.0 / b;
    assert x * a == 1.0 && y * b == 1.0;
    assert y > 0.0;
    assert x > 0.0;
    calc {
      (x - y) * (a * b);
      (x * a) * b - (y * b) * a;
      b - a;
    }
    assert a * b > 0.0;
  }

  /** CalculateRatings: the winner's and the loser's new rating. */
  function CalculateRatings(g: Curve, winner: real, loser: real, winnerK: int, loserK: int): (real, real) {
    var ea := Expected(g, winner, loser);
    var eb := Expected(g, loser, winner);
    (winner + winnerK as real * (1.0 - ea), loser + loserK as real * (0.0 - eb))
  }

  lemma ReciprocalShares(p: real, q: real)
    requires p > 0.0 && q > 0.0 && p * q == 1.0
    ensures 1.0 / (1.0 + p) + 1.0 / (1.0 + q) == 1.0
  {
    var a := 1.0 / (1.0 + p);
    var b := 1.0 / (1.0 + q);
    assert (1.0 + p) * (1.0 + q) == 2.0 + p + q;
    calc {
      (a + b) * ((1.0 + p) * (1.0 + q));
      (a * (1.0 + p)) * (1.0 + q) + (b * (1.0 + q)) * (1.0 + p);
      2.0 + p + q;
    }
  }

  /** The two expected scores of a duel share exactly one point. */
  lemma ExpectedSharesOnePoint(g: Curve, a: real, b: real)
    ensures Expected(g, a, b) + Expected(g, b, a) == 1.0
  {
    var x := b - a;
    assert g(x) * g(-x) == 1.0;
    assert -x == a - b;
    ReciprocalShares(g(x), g(-x));
  }

  /** The curve is read at the difference of the two ratings: the expected scores of a duel
      are in the proportion g(a - b) to one. */
  lemma OddsLaw(g: Curve, a: real, b: real)
    ensures Expected(g, a, b) == g(a - b) * Expected(g, b, a)
    ensures Expected(g, b, a) * (1.0 + g(a - b)) == 1.0
  {
    var x := a - b;
    assert g(x) > 0.0 && g(x) * g(-x) == 1.0;
    assert -x == b - a;
    ReciprocalOdds(g(x), g(-x));
  }

  lemma ReciprocalOdds(p: real, q: real)
    requires p > 0.0 && q > 0.0 && p * q == 1.0
    ensures 1.0 / (1.0 + q) == p * (1.0 / (1.0 + p))
    ensures (1.0 / (1.0 + p)) * (1.0 + p) == 1.0
  {
    var a, b := 1.0 / (1.0 + q), 1.0 / (1.0 + p);
    assert a * (1.0 + q) == 1.0 && b * (1.0 + p) == 1.0;
    ReciprocalShares(p, q);
    assert b + p * b == 1.0;
  }

  lemma ShareOfK(k: real, e: real, odds: real)
    requires e * odds == 1.0
    ensures (k * e) * odds == k
  {
    assert (k * e) * odds == k * (e * odds);
  }

  /** The moves in terms of the curve: one in 1 + g(winner - loser) of each K. */
  lemma ExchangeAtOdds(g: Curve, winner: real, loser: real, winnerK: int, loserK: int)
    ensures (CalculateRatings(g, winner, loser, winnerK, loserK).0 - winner) * (1.0 + g(winner - loser))
            == winnerK as real
    ensures (loser - CalculateRatings(g, winner, loser, winnerK, loserK).1) * (1.0 + g(winner - loser))
            == loserK as real
  {
    var eb := Expected(g, loser, winner);
    OddsLaw(g, winner, loser);
    ShareOfK(winnerK as real, eb, 1.0 + g(winner - loser));
    ShareOfK(loserK as real, eb, 1.0 + g(winner - loser));
    MovesAreShares(g, winner, loser, winnerK, loserK);
  }

  lemma MovesAreShares(g: Curve, winner: real, loser: real, winnerK: int, loserK: int)
    ensures CalculateRatings(g, winner, loser, winnerK, loserK).0 - winner
            == winnerK as real * Expected(g, loser, winner)
    ensures loser - CalculateRatings(g, winner, loser, winnerK, loserK).1
            == loserK as real * Expected(g, loser, winner)
  {
    ExpectedSharesOnePoint(g, winner, loser);
  }

  /** What one vote does to the two ratings: the winner gains Kw * Eb, the loser
      loses Kl * Eb, both strictly, neither as much as its whole K, and the two
      moves are in the ratio of the two K factors.  Eb is one in 1 + g(winner - loser). */
  lemma VoteExchange(g: Curve, winner: real, loser: real, winnerK: int, loserK: int)
    requires winnerK > 0 && loserK > 0
    ensures var (w, l) := CalculateRatings(g, winner, loser, winnerK, loserK);
            var eb := Expected(g, loser, winner);
            && w - winner == winnerK as real * eb
            && loser - l == loserK as real * eb
            && 0.0 < w - winner < winnerK as real
            && 0.0 < loser - l < loserK as real
            && (w - winner) * loserK as real == (loser - l) * winnerK as real
            && (w + l) - (winner + loser) == (winnerK - loserK) as real * eb
    ensures var (w, l) := CalculateRatings(g, winner, loser, winnerK, loserK);
            && (w - winner) * (1.0 + g(winner - loser)) == winnerK as real
            && (loser - l) * (1.0 + g(winner - loser)) == loserK as real
  {
    var eb := Expected(g, loser, winner);
    ExchangeAtOdds(g, winner, loser, winnerK, loserK);
    ExpectedSharesOnePoint(g, winner, loser);
    ScaleBelow(winnerK as real, eb);
    ScaleBelow(loserK as real, eb);
    var kw, kl := winnerK as real, loserK as real;
    assert (winnerK - loserK) as real == kw - kl;
    assert (kw * eb) * kl == (kl * eb) * kw;
  }

  lemma ScaleBelow(k: real, e: real)
    requires k > 0.0 && 0.0 < e < 1.0
    ensures 0.0 < k * e < k
  {
  }

  /** With a strictly increasing curve (10^(x/400) is one) the expected score rises with the
      film's own rating and falls with the other's. */
  lemma ExpectedOrder(g: Curve, own: real, other: real, own': real, other': real)
    requires Increasing(g) && other' - own' < other - own
    ensures Expected(g, own, other) < Expected(g, own', other')
  {
    var p, q := g(other' - own'), g(other - own);
    assert 0.0 < p < q;
    ReciprocalFalls(1.0 + p, 1.0 + q);
  }

  /** What a winner with factor k gains. */
  function Gain(g: Curve, winner: real, loser: real, k: int): real {
    k as real * (1.0 - Expected(g, winner, loser))
  }

  lemma GainIs(g: Curve, winner: real, loser: real, winnerK: int, loserK: int)
    ensures CalculateRatings(g, winner, loser, winnerK, loserK).0 - winner == Gain(g, winner, loser, winnerK)
  {
  }

  lemma GainOrder(k: real, x: real, y: real)
    requires k > 0.0 && x < y
    ensures k * (1.0 - y) < k * (1.0 - x)
  {
  }

  lemma UpsetGainsMore(g: Curve, winner: real, loser: real, winner': real, loser': real, k: int)
    requires Increasing(g) && k > 0
    requires loser - winner < loser' - winner'
    ensures Gain(g, winner, loser, k) < Gain(g, winner', loser', k)
  {
    ExpectedOrder(g, winner', loser', winner, loser);
    GainOrder(k as real, Expected(g, winner', loser'), Expected(g, winner, loser));
  }

  /** So beating a stronger film pays strictly more: the winner's gain grows with the
      loser's rating and falls with the winner's own. */
  lemma UpsetPaysMore(g: Curve, winner: real, loser: real, winner': real, loser': real, winnerK: int, loserK: int)
    requires Increasing(g) && winnerK > 0
    requires loser - winner < loser' - winner'
    ensures CalculateRatings(g, winner, loser, winnerK, loserK).0 - winner
            < CalculateRatings(g, winner', loser', winnerK, loserK).0 - winner'
  {
    UpsetGainsMore(g, winner, loser, winner', loser', winnerK);
    GainIs(g, winner, loser, winnerK, loserK);
    GainIs(g, winner', loser', winnerK, loserK);
  }

  /** A strictly increasing curve, so that the hypotheses above can all be met at once. */
  function Ramp(x: real): real {
    if x >= 0.0 then 1.0 + x else 1.0 / (1.0 - x)
  }

  lemma RampReciprocal(x: real)
    ensures Ramp(x) > 0.0 && Ramp(x) * Ramp(-x) == 1.0
  {
    if x < 0.0 { UnitFraction(-x); }
  }

  lemma RampIncreases(x: real, y: real)
    requires x < y
    ensures Ramp(x) < Ramp(y)
  {
    if y < 0.0 {
      ReciprocalFalls(1.0 - y, 1.0 - x);
    } else if x < 0.0 {
      UnitFraction(-x);
    }
  }

  lemma RampIsIncreasingCurve()
    ensures IsCurve(Ramp) && Increasing(Ramp)
  {
    RampIsCurve();
    forall x: real, y: real | x < y ensures Ramp(x) < Ramp(y) {
      RampIncreases(x, y);
    }
  }

  lemma RampIsCurve()
    ensures IsCurve(Ramp)
  {
    forall x: real ensures Ramp(x) > 0.0 && Ramp(x) * Ramp(-x) == 1.0 {
      RampReciprocal(x);
    }
  }
}
