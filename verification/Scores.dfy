/**
 * The score arithmetic of a burger: reviewer trust, recency decay, weighted average and
 * confidence, over exact reals. Times are integers on one clock; the exponential is any
 * positive function of a review's age.
 */
module Scores {
  import opened Rounding
  import opened Sums

  type Decay = f: int -> real | forall age :: f(age) > 0.0 witness (age: int) => 1.0

  datatype ReviewFact = ReviewFact(rating: real, createdAt: int, history: seq<real>)

  datatype BurgerScore = BurgerScore(weightedAverage: real, confidence: real, sampleSize: nat)

  datatype BurgerStat = BurgerStat(reviewCount: nat, averageRating: real, weightedScore: real,
                                   confidence: real, calculatedAt: int)

  const LOW_VARIANCE_THRESHOLD := 0.3
  const LOW_VARIANCE_PENALTY := 0.7

  function Value(): real -> real { x => x }

  function Mean(ratings: seq<real>): real
    requires ratings != []
  {
    Sum(ratings, Value()) / |ratings| as real
  }

  function SquaredDeviation(mean: real): real -> real { x => (x - mean) * (x - mean) }

  function Variance(ratings: seq<real>): real
    requires ratings != []
  {
    Sum(ratings, SquaredDeviation(Mean(ratings))) / |ratings| as real
  }

  function BaseTrust(count: nat): real
  {
    if count >= 20 then 1.0 else if count >= 10 then 0.9 else if count >= 3 then 0.7 else 0.5
  }

  /** How much a reviewer with this rating history is trusted. */
  function TrustScore(history: seq<real>): real
  {
    var suspicious := |history| >= 3 && Variance(history) < LOW_VARIANCE_THRESHOLD;
    Clamp(BaseTrust(|history|) * (if suspicious then LOW_VARIANCE_PENALTY else 1.0), 0.0, 1.0)
  }

  /** Trust in the reviewer times the recency of the review. */
  function ReviewWeight(fact: ReviewFact, now: int, decay: Decay): (w: real)
    ensures w > 0.0
  {
    assert decay(now - fact.createdAt) > 0.0;
    ProductPositive(TrustScore(fact.history), decay(now - fact.createdAt));
    TrustScore(fact.history) * decay(now - fact.createdAt)
  }

  function Weight(now: int, decay: Decay): ReviewFact -> real
  {
    (fact: ReviewFact) => ReviewWeight(fact, now, decay)
  }

  function WeightedRating(now: int, decay: Decay): ReviewFact -> real
  {
    (fact: ReviewFact) => fact.rating * ReviewWeight(fact, now, decay)
  }

  function TotalWeight(facts: seq<ReviewFact>, now: int, decay: Decay): real
  {
    Sum(facts, Weight(now, decay))
  }

  lemma TrustRange(history: seq<real>)
    ensures 0.35 <= TrustScore(history) <= 1.0
  {
  }

  lemma ProductPositive(a: real, b: real)
    requires a > 0.0 && b > 0.0
    ensures a * b > 0.0
  {
  }

  lemma {:induction false} TotalWeightPositive(facts: seq<ReviewFact>, now: int, decay: Decay)
    requires facts != []
    ensures TotalWeight(facts, now, decay) > 0.0
  {
    var init := facts[..|facts| - 1];
    if init == [] {
      assert TotalWeight(init, now, decay) == 0.0;
    } else {
      TotalWeightPositive(init, now, decay);
    }
  }

  /** The weighted mean of a non-empty fact list, before rounding. */
  function WeightedAverage(facts: seq<ReviewFact>, now: int, decay: Decay): real
    requires facts != []
  {
    TotalWeightPositive(facts, now, decay);
    Sum(facts, WeightedRating(now, decay)) / TotalWeight(facts, now, decay)
  }

  /** The plain mean in two decimals, 0 without reviews. */
  function AverageRating(facts: seq<ReviewFact>): real
  {
    if facts == [] then 0.0
    else RoundHalfAwayFromZero(Sum(facts, Rating()) / |facts| as real, 100.0)
  }

  function Rating(): ReviewFact -> real { (fact: ReviewFact) => fact.rating }

  function Confidence(count: nat, totalWeight: real): real
    requires count > 0
  {
    Min(count as real / 10.0, 1.0) * 0.6 + Min(totalWeight / count as real, 1.0) * 0.4
  }

  function BurgerScoreOf(facts: seq<ReviewFact>, now: int, decay: Decay): BurgerScore
  {
    if facts == [] then BurgerScore(0.0, 0.0, 0)
    else
      var confidence := Confidence(|facts|, TotalWeight(facts, now, decay));
      BurgerScore(RoundHalfAwayFromZero(WeightedAverage(facts, now, decay), 100.0),
                  RoundHalfAwayFromZero(Clamp(confidence, 0.0, 1.0), 10000.0),
                  |facts|)
  }

  function BurgerStatOf(facts: seq<ReviewFact>, now: int, decay: Decay): BurgerStat
  {
    var score := BurgerScoreOf(facts, now, decay);
    BurgerStat(|facts|, AverageRating(facts), score.weightedAverage, score.confidence, now)
  }

  // ---- The loops ----

  /** Two passes over the history: the mean, then the squared deviations from it. */
  method VarianceOf(history: seq<real>) returns (variance: real)
    requires history != []
    ensures variance == Variance(history)
  {
    hide Sum;
    var count := |history|;
    var sum := 0.0;
    NothingSummed(history[..0], Value());
    for i := 0 to count
      invariant sum == Sum(history[..i], Value())
    {
      SumStep(history, Value(), i);
      sum := sum + history[i];
    }
    assert history[..count] == history;
    var mean := sum / count as real;
    var squaredDeviations := 0.0;
    NothingSummed(history[..0], SquaredDeviation(mean));
    for i := 0 to count
      invariant squaredDeviations == Sum(history[..i], SquaredDeviation(mean))
    {
      SumStep(history, SquaredDeviation(mean), i);
      var deviation := history[i] - mean;
      squaredDeviations := squaredDeviations + deviation * deviation;
    }
    variance := squaredDeviations / count as real;
  }

  method ReviewerTrustScore(history: seq<real>) returns (score: real)
    ensures score == TrustScore(history)
  {
    hide Variance;
    var count := |history|;
    var base := BaseTrust(count);
    var factor := 1.0;
    if count >= 3 {
      var variance := VarianceOf(history);
      if variance < LOW_VARIANCE_THRESHOLD {
        factor := LOW_VARIANCE_PENALTY;
      }
    }
    score := Clamp(base * factor, 0.0, 1.0);
  }

  method WeighReview(fact: ReviewFact, now: int, decay: Decay) returns (weight: real)
    ensures weight == ReviewWeight(fact, now, decay)
  {
    var trust := ReviewerTrustScore(fact.history);
    weight := trust * decay(now - fact.createdAt);
  }

  method WeightedAverageRating(facts: seq<ReviewFact>, now: int, decay: Decay)
    returns (average: real, totalWeight: real)
    requires facts != []
    ensures average == WeightedAverage(facts, now, decay)
    ensures totalWeight == TotalWeight(facts, now, decay)
  {
    hide ReviewWeight, TrustScore;
    var weightedSum := 0.0;
    totalWeight := 0.0;
    for i := 0 to |facts|
      invariant totalWeight == TotalWeight(facts[..i], now, decay)
      invariant weightedSum == Sum(facts[..i], WeightedRating(now, decay))
    {
      SumStep(facts, Weight(now, decay), i);
      SumStep(facts, WeightedRating(now, decay), i);
      var weight := WeighReview(facts[i], now, decay);
      totalWeight := totalWeight + weight;
      weightedSum := weightedSum + facts[i].rating * weight;
    }
    assert facts[..|facts|] == facts;
    TotalWeightPositive(facts, now, decay);
    average := weightedSum / totalWeight;
  }

  method CalculateBurgerStat(facts: seq<ReviewFact>, now: int, decay: Decay) returns (stat: BurgerStat)
    ensures stat == BurgerStatOf(facts, now, decay)
  {
    if facts == [] {
      return BurgerStat(0, 0.0, 0.0, 0.0, now);
    }
    var weightedAverage, totalWeight := WeightedAverageRating(facts, now, decay);
    var sum := 0.0;
    for i := 0 to |facts|
      invariant sum == Sum(facts[..i], Rating())
    {
      SumStep(facts, Rating(), i);
      sum := sum + facts[i].rating;
    }
    assert facts[..|facts|] == facts;
    var confidence := Confidence(|facts|, totalWeight);
    stat := BurgerStat(|facts|,
                       RoundHalfAwayFromZero(sum / |facts| as real, 100.0),
                       RoundHalfAwayFromZero(weightedAverage, 100.0),
                       RoundHalfAwayFromZero(Clamp(confidence, 0.0, 1.0), 10000.0),
                       now);
  }

  // ---- What the scores mean ----

  /** Every rating of the list lies between `lo` and `hi`. */
  predicate RatingsWithin(facts: seq<ReviewFact>, lo: real, hi: real)
  {
    forall i :: 0 <= i < |facts| ==> lo <= facts[i].rating <= hi
  }

  lemma TermWithin(fact: ReviewFact, now: int, decay: Decay, lo: real, hi: real)
    requires lo <= fact.rating <= hi
    ensures Scaled(lo, Weight(now, decay))(fact) <= WeightedRating(now, decay)(fact)
            <= Scaled(hi, Weight(now, decay))(fact)
  {
    var w := ReviewWeight(fact, now, decay);
    hide ReviewWeight;
    assert Weight(now, decay)(fact) == w;
    ProductsOrdered(lo, fact.rating, hi, w);
  }

  lemma ProductsOrdered(lo: real, x: real, hi: real, w: real)
    requires w > 0.0 && lo <= x <= hi
    ensures lo * w <= x * w <= hi * w
  {
    TimesMonotone(lo, x, w);
    TimesMonotone(x, hi, w);
  }

  lemma WeightedSumWithin(facts: seq<ReviewFact>, now: int, decay: Decay, lo: real, hi: real)
    requires RatingsWithin(facts, lo, hi)
    ensures Sum(facts, Scaled(lo, Weight(now, decay))) <= Sum(facts, WeightedRating(now, decay))
            <= Sum(facts, Scaled(hi, Weight(now, decay)))
  {
    forall i | 0 <= i < |facts|
      ensures Scaled(lo, Weight(now, decay))(facts[i]) <= WeightedRating(now, decay)(facts[i])
              <= Scaled(hi, Weight(now, decay))(facts[i])
    {
      TermWithin(facts[i], now, decay, lo, hi);
    }
    SumBounds(facts, WeightedRating(now, decay), Scaled(lo, Weight(now, decay)), Scaled(hi, Weight(now, decay)));
  }

  lemma QuotientWithin(lo: real, sum: real, hi: real, total: real)
    requires total > 0.0 && lo * total <= sum <= hi * total
    ensures lo <= sum / total <= hi
  {
    var q := sum / total;
    DivideBack(sum, total);
    if q < lo {
      ProductPositive(lo - q, total);
    } else if hi < q {
      ProductPositive(q - hi, total);
    }
  }

  lemma WeightedSumBounds(facts: seq<ReviewFact>, now: int, decay: Decay, lo: real, hi: real)
    requires RatingsWithin(facts, lo, hi)
    ensures var total := TotalWeight(facts, now, decay);
            lo * total <= Sum(facts, WeightedRating(now, decay)) <= hi * total
  {
    hide Sum, RatingsWithin, Scaled;
    WeightedSumWithin(facts, now, decay, lo, hi);
    SumScaled(facts, lo, Weight(now, decay));
    SumScaled(facts, hi, Weight(now, decay));
  }

  lemma UnroundedWithin(facts: seq<ReviewFact>, now: int, decay: Decay, lo: real, hi: real)
    requires facts != [] && RatingsWithin(facts, lo, hi)
    ensures lo <= WeightedAverage(facts, now, decay) <= hi
  {
    hide Sum, TotalWeight, RatingsWithin;
    TotalWeightPositive(facts, now, decay);
    WeightedSumBounds(facts, now, decay, lo, hi);
    QuotientWithin(lo, Sum(facts, WeightedRating(now, decay)), hi, TotalWeight(facts, now, decay));
  }

  /**
   * Whatever the weights, the weighted average of a non-empty list lies between any bounds of its
   * ratings; ratings are whole stars, so it still does after rounding to two decimals.
   */
  lemma WeightedAverageWithin(facts: seq<ReviewFact>, now: int, decay: Decay, lo: int, hi: int)
    requires facts != [] && RatingsWithin(facts, lo as real, hi as real)
    ensures lo as real <= WeightedAverage(facts, now, decay) <= hi as real
    ensures lo as real <= BurgerStatOf(facts, now, decay).weightedScore <= hi as real
  {
    UnroundedWithin(facts, now, decay, lo as real, hi as real);
    RoundingStaysWithin(WeightedAverage(facts, now, decay), 100, lo, hi);
  }

  lemma TimesNext(k: real, n: nat)
    ensures k * (n + 1) as real == k * n as real + k
  {
    Distribute(k, n as real, 1.0);
  }

  lemma BoundsStep(lo: real, sum: real, hi: real, x: real, n: nat)
    requires lo * n as real <= sum <= hi * n as real && lo <= x <= hi
    ensures lo * (n + 1) as real <= sum + x <= hi * (n + 1) as real
  {
    TimesNext(lo, n);
    TimesNext(hi, n);
  }

  lemma {:induction false} RatingSumWithin(facts: seq<ReviewFact>, lo: real, hi: real)
    requires RatingsWithin(facts, lo, hi)
    ensures lo * |facts| as real <= Sum(facts, Rating()) <= hi * |facts| as real
  {
    if facts != [] {
      var n: nat := |facts| - 1;
      RatingSumWithin(facts[..n], lo, hi);
      BoundsStep(lo, Sum(facts[..n], Rating()), hi, facts[n].rating, n);
      assert n + 1 == |facts|;
    }
  }

  lemma AverageRatingWithin(facts: seq<ReviewFact>, lo: int, hi: int)
    requires facts != [] && RatingsWithin(facts, lo as real, hi as real)
    ensures lo as real <= AverageRating(facts) <= hi as real
  {
    RatingSumWithin(facts, lo as real, hi as real);
    QuotientWithin(lo as real, Sum(facts, Rating()), hi as real, |facts| as real);
    RoundingStaysWithin(Sum(facts, Rating()) / |facts| as real, 100, lo, hi);
  }

  /** Confidence stays in [0, 1], and only an empty list has none. */
  lemma ConfidenceRange(facts: seq<ReviewFact>, now: int, decay: Decay)
    ensures 0.0 <= BurgerStatOf(facts, now, decay).confidence <= 1.0
    ensures facts != [] ==> Confidence(|facts|, TotalWeight(facts, now, decay)) > 0.0
  {
    if facts != [] {
      TotalWeightPositive(facts, now, decay);
      var total, count := TotalWeight(facts, now, decay), |facts| as real;
      QuotientBelow(0.0, total, count);
      RoundingStaysWithin(Clamp(Confidence(|facts|, total), 0.0, 1.0), 10000, 0, 1);
    }
  }

  /** The order in which the reviews are listed changes nothing. */
  lemma StatOrderIndependent(a: seq<ReviewFact>, b: seq<ReviewFact>, now: int, decay: Decay)
    requires multiset(a) == multiset(b)
    ensures BurgerStatOf(a, now, decay) == BurgerStatOf(b, now, decay)
    ensures a != [] ==> b != [] && WeightedAverage(a, now, decay) == WeightedAverage(b, now, decay)
  {
    PermutedLength(a, b);
    SumPermuted(a, b, Weight(now, decay));
    SumPermuted(a, b, WeightedRating(now, decay));
    SumPermuted(a, b, Rating());
  }

  /** The order of a reviewer's past ratings does not change the trust in them. */
  lemma TrustOrderIndependent(a: seq<real>, b: seq<real>)
    requires multiset(a) == multiset(b)
    ensures TrustScore(a) == TrustScore(b)
  {
    PermutedLength(a, b);
    SumPermuted(a, b, Value());
    if a != [] {
      SumPermuted(a, b, SquaredDeviation(Mean(a)));
    }
  }
}
