/**
 * What the score arithmetic amounts to, in numbers: how trust depends on a history, how weight
 * depends on trust and age, how one more review moves an average, and how exact the published
 * numbers are.
 */
module ScoreLaws {
  import opened Rounding
  import opened Scores
  import opened ShopSummaries
  import opened Sums
  import opened Wrappers

  // ---- Trust ----

  function Square(): real -> real { x => x * x }

  /** The sum of squared deviations from `m` in terms of the sums of the squares and of the values. */
  function Spread(squares: real, sum: real, m: real, n: real): real
  {
    squares - 2.0 * m * sum + n * (m * m)
  }

  lemma SpreadStep(squares: real, sum: real, m: real, x: real, n: real)
    ensures Spread(squares, sum, m, n) + (x - m) * (x - m) == Spread(squares + x * x, sum + x, m, n + 1.0)
  {
  }

  lemma SumLast<T>(xs: seq<T>, f: T -> real)
    requires xs != []
    ensures Sum(xs, f) == Sum(xs[..|xs| - 1], f) + f(xs[|xs| - 1])
  {
  }

  lemma {:induction false} DeviationsSum(xs: seq<real>, m: real)
    ensures Sum(xs, SquaredDeviation(m)) == Spread(Sum(xs, Square()), Sum(xs, Value()), m, |xs| as real)
  {
    hide Sum, Spread, SquaredDeviation, Square, Value;
    if xs != [] {
      var n: nat := |xs| - 1;
      var init, x := xs[..n], xs[n];
      DeviationsSum(init, m);
      SumLast(xs, SquaredDeviation(m));
      SumLast(xs, Square());
      SumLast(xs, Value());
      TermsAt(x, m);
      assert |xs| as real == n as real + 1.0;
      SpreadStep(Sum(init, Square()), Sum(init, Value()), m, x, n as real);
    } else {
      NothingSummed(xs, SquaredDeviation(m));
      NothingSummed(xs, Square());
      NothingSummed(xs, Value());
      NoSpread(m);
    }
  }

  lemma TermsAt(x: real, m: real)
    ensures SquaredDeviation(m)(x) == (x - m) * (x - m) && Square()(x) == x * x && Value()(x) == x
  {
  }

  lemma NoSpread(m: real)
    ensures Spread(0.0, 0.0, m, 0.0) == 0.0
  {
  }

  /** Around the mean itself the spread is the squares less `n` squares of the mean. */
  lemma SpreadAroundMean(squares: real, sum: real, m: real, n: real)
    requires m * n == sum
    ensures Spread(squares, sum, m, n) == squares - (m * m) * n
  {
    assert m * sum == (m * m) * n;
  }

  lemma DivideDifference(a: real, b: real, n: real)
    requires n > 0.0
    ensures (a - b * n) / n == a / n - b
  {
    var q := a / n;
    DivideBack(a, n);
    assert (q - b) * n == a - b * n;
    TimesDivide(q - b, n);
  }

  lemma SpreadDivided(squares: real, sum: real, m: real, n: real)
    requires n > 0.0 && m == sum / n
    ensures Spread(squares, sum, m, n) / n == squares / n - m * m
  {
    hide Spread;
    DivideBack(sum, n);
    SpreadAroundMean(squares, sum, m, n);
    DivideDifference(squares, m * m, n);
  }

  /** The variance is the mean of the squares less the square of the mean. */
  lemma VarianceIsSpread(history: seq<real>)
    requires history != []
    ensures Variance(history) == Sum(history, Square()) / |history| as real - Mean(history) * Mean(history)
  {
    hide Sum, Spread;
    DeviationsSum(history, Mean(history));
    SpreadDivided(Sum(history, Square()), Sum(history, Value()), Mean(history), |history| as real);
  }

  /**
   * Newcomers with fewer than 3 ratings are trusted by half; from 3, 10 and 20 ratings on by 0.7, 0.9
   * and 1, and by 0.7 times that if the ratings hardly vary.
   */
  lemma TrustTable(history: seq<real>)
    ensures |history| < 3 ==> TrustScore(history) == 0.5
    ensures 3 <= |history| < 10 ==> TrustScore(history) == if Variance(history) < 0.3 then 0.49 else 0.7
    ensures 10 <= |history| < 20 ==> TrustScore(history) == if Variance(history) < 0.3 then 0.63 else 0.9
    ensures 20 <= |history| ==> TrustScore(history) == if Variance(history) < 0.3 then 0.7 else 1.0
  {
    hide Variance;
  }

  // ---- Weight ----

  lemma Halved(trust: real, older: real, newer: real)
    requires 2.0 * older == newer
    ensures 2.0 * (trust * older) == trust * newer
  {
  }

  /** With a half-life, a review that is one half-life older weighs half as much. */
  lemma OlderWeighsHalf(fact: ReviewFact, now: int, decay: Decay, halfLife: int)
    requires forall age :: 2.0 * decay(age + halfLife) == decay(age)
    ensures var older := fact.(createdAt := fact.createdAt - halfLife);
            2.0 * ReviewWeight(older, now, decay) == ReviewWeight(fact, now, decay)
  {
    var age := now - fact.createdAt;
    hide TrustScore;
    assert now - (fact.createdAt - halfLife) == age + halfLife;
    Halved(TrustScore(fact.history), decay(age + halfLife), decay(age));
  }

  /** A review posted at the moment of the calculation weighs what its author is trusted. */
  lemma NewWeighsTrust(fact: ReviewFact, now: int, decay: Decay)
    requires decay(0) == 1.0 && fact.createdAt == now
    ensures ReviewWeight(fact, now, decay) == TrustScore(fact.history)
  {
    hide TrustScore;
  }

  // ---- Averages ----

  lemma TotalTimesAverage(facts: seq<ReviewFact>, now: int, decay: Decay)
    requires facts != []
    ensures TotalWeight(facts, now, decay) * WeightedAverage(facts, now, decay) ==
            Sum(facts, WeightedRating(now, decay))
  {
    var sum, total := Sum(facts, WeightedRating(now, decay)), TotalWeight(facts, now, decay);
    TotalWeightPositive(facts, now, decay);
    assert WeightedAverage(facts, now, decay) == sum / total;
    hide Sum, TotalWeight, WeightedAverage;
    DivideBack(sum, total);
  }

  /** One more review pulls the average towards its own stars by exactly its share of the weight. */
  lemma OneMoreReview(facts: seq<ReviewFact>, fact: ReviewFact, now: int, decay: Decay)
    requires facts != []
    ensures var total, w := TotalWeight(facts, now, decay), ReviewWeight(fact, now, decay);
            && TotalWeight(facts + [fact], now, decay) == total + w
            && (total + w) * WeightedAverage(facts + [fact], now, decay) ==
               total * WeightedAverage(facts, now, decay) + w * fact.rating
  {
    var longer := facts + [fact];
    assert longer[..|longer| - 1] == facts;
    assert TotalWeight(longer, now, decay) == TotalWeight(facts, now, decay) + Weight(now, decay)(fact);
    assert Sum(longer, WeightedRating(now, decay)) ==
           Sum(facts, WeightedRating(now, decay)) + WeightedRating(now, decay)(fact);
    hide Sum, ReviewWeight, TotalWeight;
    TotalTimesAverage(facts, now, decay);
    TotalTimesAverage(longer, now, decay);
  }

  /** A single review's average is its own stars. */
  lemma OnlyReview(fact: ReviewFact, now: int, decay: Decay)
    ensures WeightedAverage([fact], now, decay) == fact.rating
  {
    UnroundedWithin([fact], now, decay, fact.rating, fact.rating);
  }

  // ---- Published numbers ----

  /** Confidence grows by 0.06 for each of the first ten reviews, and by at most 0.4 with their mean weight. */
  lemma ConfidenceIs(count: nat, totalWeight: real)
    requires count > 0
    ensures Confidence(count, totalWeight) ==
            0.06 * (if count < 10 then count as real else 10.0) +
            0.4 * (if totalWeight / count as real < 1.0 then totalWeight / count as real else 1.0)
  {
  }

  lemma TimesStrict(a: real, b: real, scale: real)
    requires scale > 0.0 && a < b
    ensures a * scale < b * scale
  {
    ProductPositive(b - a, scale);
    DifferenceTimes(b, a, scale);
  }

  lemma CancelScale(a: real, b: real, scale: real)
    requires scale > 0.0 && a * scale <= b * scale
    ensures a <= b
  {
    if b < a {
      TimesStrict(b, a, scale);
    }
  }

  lemma PublishedWithin(exact: real, scale: real, step: real)
    requires scale > 0.0 && step * scale == 0.5
    ensures Abs(RoundHalfAwayFromZero(exact, scale) - exact) <= step
  {
    hide RoundHalfAwayFromZero, Abs;
    RoundingWithinHalfStep(exact, scale);
    CancelScale(Abs(RoundHalfAwayFromZero(exact, scale) - exact), step, scale);
  }

  /** What is published differs from the exact numbers by less than the last digit shown. */
  lemma StatPrecision(facts: seq<ReviewFact>, now: int, decay: Decay)
    requires facts != []
    ensures var stat := BurgerStatOf(facts, now, decay);
            && stat.reviewCount == |facts| && stat.calculatedAt == now
            && Abs(stat.averageRating - Sum(facts, Rating()) / |facts| as real) <= 0.005
            && Abs(stat.weightedScore - WeightedAverage(facts, now, decay)) <= 0.005
            && Abs(stat.confidence - Confidence(|facts|, TotalWeight(facts, now, decay))) <= 0.00005
  {
    var mean, weighted := Sum(facts, Rating()) / |facts| as real, WeightedAverage(facts, now, decay);
    var confidence := Confidence(|facts|, TotalWeight(facts, now, decay));
    ConfidenceWithin(facts, now, decay);
    hide Sum, TotalWeight, WeightedAverage, Confidence, RoundHalfAwayFromZero, Abs;
    PublishedWithin(mean, 100.0, 0.005);
    PublishedWithin(weighted, 100.0, 0.005);
    PublishedWithin(confidence, 10000.0, 0.00005);
  }

  lemma ConfidenceWithin(facts: seq<ReviewFact>, now: int, decay: Decay)
    requires facts != []
    ensures 0.0 <= Confidence(|facts|, TotalWeight(facts, now, decay)) <= 1.0
  {
    TotalWeightPositive(facts, now, decay);
    hide TotalWeight;
    QuotientBelow(0.0, TotalWeight(facts, now, decay), |facts| as real);
  }

  lemma EmptyStat(now: int, decay: Decay)
    ensures BurgerStatOf([], now, decay) == BurgerStat(0, 0.0, 0.0, 0.0, now)
  {
  }

  /** The same for a shop, whose average has one digit. */
  lemma ShopPrecision(facts: seq<ShopReviewFact>, now: int, decay: Decay, stat: ShopStat)
    requires IsSummary(facts, now, decay, stat) && facts != []
    ensures stat.reviewCount == |facts| && stat.averageRating.Some?
    ensures Abs(stat.averageRating.value - WeightedAverage(WeighedAll(facts), now, decay)) <= 0.05
  {
    var weighted := WeightedAverage(WeighedAll(facts), now, decay);
    hide WeightedAverage, RoundHalfAwayFromZero, IsNewestPhoto, Abs;
    PublishedWithin(weighted, 10.0, 0.05);
  }
}
