/** The composite quality score of a deal: a clamped normalisation of the
    price, the rating scaled to [0,1] and a logarithmic review-volume term,
    blended with fixed weights and rounded to four decimal places.
    Floats are modelled as exact reals; the base-10 logarithm is a parameter. */
module Scoring {
  import opened Deals

  /** The assumed catalogue price range of the price term. */
  const PriceLo: real := 100.0
  const PriceHi: real := 50000.0

  /** `_norm`: the position of `v` in [lo, hi] clamped into [0, 1]; 0 when the
      value is missing or the range is degenerate. */
  function Norm(v: Option<real>, lo: real, hi: real): (r: real)
    ensures 0.0 <= r <= 1.0
    ensures v.None? || hi == lo ==> r == 0.0
    ensures v.Some? && hi != lo ==>
      var t := (v.value - lo) / (hi - lo);
      (t <= 0.0 ==> r == 0.0) && (t >= 1.0 ==> r == 1.0) && (0.0 <= t <= 1.0 ==> r == t)
  {
    if v.None? then 0.0
    else if hi == lo then 0.0
    else MaxReal(0.0, MinReal(1.0, (v.value - lo) / (hi - lo)))
  }

  /** On a proper range, normalisation never decreases as the value grows. */
  lemma NormMonotone(v1: real, v2: real, lo: real, hi: real)
    requires lo < hi && v1 <= v2
    ensures Norm(Some(v1), lo, hi) <= Norm(Some(v2), lo, hi)
  {
    var d := hi - lo;
    assert (v1 - lo) / d <= (v2 - lo) / d by {
      assert (v2 - lo) / d - (v1 - lo) / d == (v2 - v1) / d;
    }
  }

  /** The price term of `score_deal`: 0 when the price is missing, otherwise
      one minus the normalised price, so cheaper is better. */
  function PriceScore(price: Option<real>): (r: real)
    ensures 0.0 <= r <= 1.0
    ensures price.None? ==> r == 0.0
    ensures price.Some? && price.value <= PriceLo ==> r == 1.0
    ensures price.Some? && price.value >= PriceHi ==> r == 0.0
    ensures price.Some? && PriceLo <= price.value <= PriceHi ==>
      r == 1.0 - (price.value - PriceLo) / (PriceHi - PriceLo)
  {
    if price.None? then 0.0 else 1.0 - Norm(price, PriceLo, PriceHi)
  }

  /** A higher price never earns a higher price term. */
  lemma PriceScoreNonIncreasing(p1: real, p2: real)
    requires p1 <= p2
    ensures PriceScore(Some(p1)) >= PriceScore(Some(p2))
  {
    NormMonotone(p1, p2, PriceLo, PriceHi);
  }

  /** The rating term: the rating over 5, 0 when missing. No clamp. */
  function RatingScore(rating: Option<real>): (r: real)
    ensures rating.None? ==> r == 0.0
    ensures rating.Some? ==> r * 5.0 == rating.value
    ensures rating.Some? && 0.0 <= rating.value <= 5.0 ==> 0.0 <= r <= 1.0
  {
    if rating.None? then 0.0 else rating.value / 5.0
  }

  /** What the score needs of the base-10 logarithm it is given. */
  ghost predicate IsLog10(log10: int -> real)
  {
    && log10(1) == 0.0
    && log10(1000) == 3.0
    && forall m, n :: 1 <= m <= n ==> log10(m) <= log10(n)
  }

  /** The review-volume term: log10 of the count (at least 1) over 3, capped at 1. */
  function ReviewsScore(reviews: Option<int>, log10: int -> real): (r: real)
    ensures r <= 1.0
    ensures reviews.None? ==> r == 0.0
    ensures reviews.Some? ==>
      var n := if reviews.value >= 1 then reviews.value else 1;
      && (log10(n) <= 3.0 ==> r == log10(n) / 3.0)
      && (log10(n) >= 3.0 ==> r == 1.0)
  {
    if reviews.None? then 0.0
    else MinReal(1.0, log10(if reviews.value >= 1 then reviews.value else 1) / 3.0)
  }

  lemma ReviewsScoreBounds(reviews: Option<int>, log10: int -> real)
    requires IsLog10(log10)
    ensures 0.0 <= ReviewsScore(reviews, log10) <= 1.0
    ensures reviews.Some? && reviews.value >= 1000 ==> ReviewsScore(reviews, log10) == 1.0
  {
    if reviews.Some? {
      var n := if reviews.value >= 1 then reviews.value else 1;
      assert log10(1) <= log10(n);
      if reviews.value >= 1000 {
        assert log10(1000) <= log10(n);
      }
    }
  }

  /** The weighted blend before rounding. The weights add up to 1, so the
      blend lies between the smallest and the largest of the three terms. */
  function Blend(price: Option<real>, rating: Option<real>, reviews: Option<int>, log10: int -> real): (r: real)
    ensures MinReal(PriceScore(price), MinReal(RatingScore(rating), ReviewsScore(reviews, log10))) <= r
    ensures r <= MaxReal(PriceScore(price), MaxReal(RatingScore(rating), ReviewsScore(reviews, log10)))
  {
    0.5 * PriceScore(price) + 0.35 * RatingScore(rating) + 0.15 * ReviewsScore(reviews, log10)
  }

  /** The integer nearest to `x`, ties going to the even neighbour. */
  function RoundHalfEven(x: real): (n: int)
    ensures -0.5 <= n as real - x <= 0.5
    ensures (n as real - x == 0.5 || x - n as real == 0.5) ==> n % 2 == 0
  {
    var f := x.Floor;
    var frac := x - f as real;
    if frac < 0.5 then f
    else if frac > 0.5 then f + 1
    else if f % 2 == 0 then f
    else f + 1
  }

  /** Rounding to the nearest integer is monotone. */
  lemma RoundHalfEvenMonotone(x: real, y: real)
    requires x <= y
    ensures RoundHalfEven(x) <= RoundHalfEven(y)
  {
    var fx, fy := x.Floor, y.Floor;
    if fx < fy {
      assert RoundHalfEven(x) <= fx + 1 <= fy <= RoundHalfEven(y);
    }
  }

  /** An integer rounds to itself. */
  lemma RoundHalfEvenOfInt(k: int)
    ensures RoundHalfEven(k as real) == k
  {
  }

  /** Python's `round(x, 4)` on the exact value `x`: a whole number of
      ten-thousandths, at most half of one away from `x`; an exact tie
      goes to the even number of ten-thousandths. */
  function Round4(x: real): (r: real)
    ensures (r * 10000.0).Floor as real == r * 10000.0
    ensures -0.00005 <= r - x <= 0.00005
    ensures var n := (r * 10000.0).Floor;
      (n as real - x * 10000.0 == 0.5 || x * 10000.0 - n as real == 0.5) ==> n % 2 == 0
  {
    var n := RoundHalfEven(x * 10000.0);
    assert n as real / 10000.0 * 10000.0 == n as real;
    n as real / 10000.0
  }

  /** Python's `round(x, 2)` on the exact value `x`: a whole number of
      hundredths, at most half of one away from `x`; an exact tie goes to
      the even number of hundredths. */
  function Round2(x: real): (r: real)
    ensures (r * 100.0).Floor as real == r * 100.0
    ensures -0.005 <= r - x <= 0.005
    ensures var n := (r * 100.0).Floor;
      (n as real - x * 100.0 == 0.5 || x * 100.0 - n as real == 0.5) ==> n % 2 == 0
  {
    var n := RoundHalfEven(x * 100.0);
    assert n as real / 100.0 * 100.0 == n as real;
    n as real / 100.0
  }

  /** Rounding to four places is monotone. */
  lemma Round4Monotone(x: real, y: real)
    requires x <= y
    ensures Round4(x) <= Round4(y)
  {
    RoundHalfEvenMonotone(x * 10000.0, y * 10000.0);
  }

  /** Rounding to four places keeps a value of the unit interval inside it. */
  lemma Round4Unit(x: real)
    requires 0.0 <= x <= 1.0
    ensures 0.0 <= Round4(x) <= 1.0
  {
    Round4Monotone(0.0, x);
    Round4Monotone(x, 1.0);
    RoundHalfEvenOfInt(0);
    RoundHalfEvenOfInt(10000);
  }

  /** A value with at most four decimals is left as it is by `round(x, 4)`. */
  lemma Round4Exact(k: int)
    ensures Round4(k as real / 10000.0) == k as real / 10000.0
  {
    RoundHalfEvenOfInt(k);
  }

  /** An exact tie rounds to even: `round(0.03125, 4)` is 0.0312, not 0.0313. */
  lemma Round4TieToEven()
    ensures Round4(0.03125) == 0.0312
  {
    assert (0.03125 * 10000.0).Floor == 312;
  }

  /** A whole number of cents is left as it is by `round(x, 2)`. */
  lemma Round2Exact(k: int)
    ensures Round2(k as real / 100.0) == k as real / 100.0
  {
    RoundHalfEvenOfInt(k);
  }

  /** `score_deal`: the blend of the three terms rounded to 4 decimal places. */
  function ScoreDeal(price: Option<real>, rating: Option<real>, reviews: Option<int>, log10: int -> real): (r: real)
    ensures (r * 10000.0).Floor as real == r * 10000.0
    ensures -0.00005 <= r - Blend(price, rating, reviews, log10) <= 0.00005
    ensures var n, b := (r * 10000.0).Floor, Blend(price, rating, reviews, log10) * 10000.0;
      (n as real - b == 0.5 || b - n as real == 0.5) ==> n % 2 == 0
  {
    Round4(Blend(price, rating, reviews, log10))
  }

  /** With a rating in [0, 5] the score is in [0, 1]. */
  lemma ScoreInUnit(price: Option<real>, rating: Option<real>, reviews: Option<int>, log10: int -> real)
    requires IsLog10(log10)
    requires rating.Some? ==> 0.0 <= rating.value <= 5.0
    ensures 0.0 <= ScoreDeal(price, rating, reviews, log10) <= 1.0
  {
    ReviewsScoreBounds(reviews, log10);
    Round4Unit(Blend(price, rating, reviews, log10));
  }

  /** Lower price never lowers the score, all else equal. */
  lemma ScoreNonIncreasingInPrice(p1: real, p2: real, rating: Option<real>, reviews: Option<int>, log10: int -> real)
    requires p1 <= p2
    ensures ScoreDeal(Some(p1), rating, reviews, log10) >= ScoreDeal(Some(p2), rating, reviews, log10)
  {
    PriceScoreNonIncreasing(p1, p2);
    Round4Monotone(Blend(Some(p2), rating, reviews, log10), Blend(Some(p1), rating, reviews, log10));
  }

  /** Boundary values: the cheapest price with no rating or reviews scores 0.5;
      the top of the price range with a perfect rating and 1000 reviews scores
      0.35 + 0.15 = 0.5 as well. */
  lemma ScoreBoundaryValues(log10: int -> real)
    requires IsLog10(log10)
    ensures ScoreDeal(Some(100.0), Some(0.0), Some(0), log10) == 0.5
    ensures ScoreDeal(Some(50000.0), Some(5.0), Some(1000), log10) == 0.5
  {
    Round4Exact(5000);
  }

  /** The rating term is not clamped: a rating above 5 pushes the score past 1. */
  lemma ScoreExceedsOneAboveFiveStars(log10: int -> real)
    requires IsLog10(log10)
    ensures ScoreDeal(Some(100.0), Some(10.0), Some(1000), log10) == 1.35
  {
    Round4Exact(13500);
  }
}
