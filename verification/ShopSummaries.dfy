/** The single-pass shop summary and its order-free meaning. */
module ShopSummaries {
  import opened Rounding
  import opened Scores
  import opened Sums
  import opened Wrappers

  /** Review ids are the positions of the UUIDs in their order. */
  datatype ShopReviewFact = ShopReviewFact(id: nat, rating: real, createdAt: int,
                                           photoKey: Option<nat>, history: seq<real>)

  datatype ShopStat = ShopStat(reviewCount: nat, averageRating: Option<real>,
                               photoKey: Option<nat>, calculatedAt: int)

  /** The part of a shop fact that the weighted average uses. */
  function Weighed(fact: ShopReviewFact): ReviewFact
  {
    ReviewFact(fact.rating, fact.createdAt, fact.history)
  }

  function WeighedAll(facts: seq<ShopReviewFact>): (all: seq<ReviewFact>)
    ensures |all| == |facts|
  {
    seq(|facts|, i requires 0 <= i < |facts| => Weighed(facts[i]))
  }

  predicate NewerPhoto(a: ShopReviewFact, b: ShopReviewFact)
  {
    if a.createdAt != b.createdAt then a.createdAt > b.createdAt else a.id > b.id
  }

  /** `key` is the photo of the newest review with one, and absent only if none has one. */
  ghost predicate IsNewestPhoto(facts: seq<ShopReviewFact>, key: Option<nat>)
  {
    match key
    case None => forall i :: 0 <= i < |facts| ==> facts[i].photoKey.None?
    case Some(_) => exists i :: 0 <= i < |facts| && facts[i].photoKey == key && NewestAt(facts, i)
  }

  ghost predicate NewestAt(facts: seq<ShopReviewFact>, i: int)
    requires 0 <= i < |facts|
  {
    forall j :: 0 <= j < |facts| && facts[j].photoKey.Some? ==> !NewerPhoto(facts[j], facts[i])
  }

  /** What a summary of `facts` must be; at most one value qualifies (SummaryIsUnique). */
  ghost predicate IsSummary(facts: seq<ShopReviewFact>, now: int, decay: Decay, stat: ShopStat)
  {
    && stat.reviewCount == |facts|
    && stat.averageRating == (if facts == [] then None
                              else Some(RoundHalfAwayFromZero(WeightedAverage(WeighedAll(facts), now, decay), 10.0)))
    && IsNewestPhoto(facts, stat.photoKey)
    && stat.calculatedAt == now
  }

  /** One list never holds two reviews with the same id. */
  ghost predicate DistinctIds(facts: seq<ShopReviewFact>)
  {
    forall i, j :: 0 <= i < j < |facts| ==> facts[i].id != facts[j].id
  }

  method CalculateShopStat(facts: seq<ShopReviewFact>, now: int, decay: Decay) returns (stat: ShopStat)
    ensures IsSummary(facts, now, decay, stat)
  {
    if facts == [] {
      return ShopStat(0, None, None, now);
    }
    var weighted: seq<ReviewFact> := [];
    var latest: Option<int> := None;
    for i := 0 to |facts|
      invariant weighted == WeighedAll(facts)[..i]
      invariant latest.Some? ==> 0 <= latest.value < i && facts[latest.value].photoKey.Some?
      invariant latest.None? ==> forall j :: 0 <= j < i ==> facts[j].photoKey.None?
      invariant latest.Some? ==>
                  forall j :: 0 <= j < i && facts[j].photoKey.Some? ==> !NewerPhoto(facts[j], facts[latest.value])
    {
      weighted := weighted + [Weighed(facts[i])];
      if facts[i].photoKey.Some? && (latest.None? || NewerPhoto(facts[i], facts[latest.value])) {
        latest := Some(i);
      }
    }
    assert weighted == WeighedAll(facts);
    var average, _ := WeightedAverageRating(weighted, now, decay);
    var key := if latest.Some? then facts[latest.value].photoKey else None;
    stat := ShopStat(|facts|, Some(RoundHalfAwayFromZero(average, 10.0)), key, now);
    if latest.Some? {
      assert NewestAt(facts, latest.value);
    }
  }

  function OnShopFact(f: ReviewFact -> real): ShopReviewFact -> real { x => f(Weighed(x)) }

  lemma {:induction false} SumWeighed(facts: seq<ShopReviewFact>, f: ReviewFact -> real)
    ensures Sum(WeighedAll(facts), f) == Sum(facts, OnShopFact(f))
  {
    if facts != [] {
      var init := facts[..|facts| - 1];
      assert WeighedAll(facts)[..|facts| - 1] == WeighedAll(init);
      SumWeighed(init, f);
    }
  }

  lemma SameAverage(a: seq<ShopReviewFact>, b: seq<ShopReviewFact>, now: int, decay: Decay)
    requires multiset(a) == multiset(b) && a != []
    ensures b != [] && WeightedAverage(WeighedAll(a), now, decay) == WeightedAverage(WeighedAll(b), now, decay)
  {
    PermutedLength(a, b);
    SameSum(a, b, Weight(now, decay));
    SameSum(a, b, WeightedRating(now, decay));
  }

  lemma SameSum(a: seq<ShopReviewFact>, b: seq<ShopReviewFact>, f: ReviewFact -> real)
    requires multiset(a) == multiset(b)
    ensures Sum(WeighedAll(a), f) == Sum(WeighedAll(b), f)
  {
    SumWeighed(a, f);
    SumWeighed(b, f);
    SumPermuted(a, b, OnShopFact(f));
  }

  /** Two lists with the same reviews in any order have one and the same summary. */
  lemma SummaryIsUnique(a: seq<ShopReviewFact>, b: seq<ShopReviewFact>, now: int, decay: Decay,
                        sa: ShopStat, sb: ShopStat)
    requires multiset(a) == multiset(b) && DistinctIds(a)
    requires IsSummary(a, now, decay, sa) && IsSummary(b, now, decay, sb)
    ensures sa == sb
  {
    PermutedLength(a, b);
    if a != [] {
      SameAverage(a, b, now, decay);
    }
    forall x: ShopReviewFact
      ensures x in a <==> x in b
    {
      assert x in a <==> x in multiset(a);
      assert x in b <==> x in multiset(b);
    }
    assert forall j :: 0 <= j < |b| ==> b[j] in a;
    if sa.photoKey.Some? {
      var i :| 0 <= i < |a| && a[i].photoKey == sa.photoKey && NewestAt(a, i);
      assert a[i] in b;
      assert sb.photoKey.Some?;
      var j :| 0 <= j < |b| && b[j].photoKey == sb.photoKey && NewestAt(b, j);
      assert b[j] in a;
      SameNewest(a, b, i, j);
    }
  }

  lemma SameNewest(a: seq<ShopReviewFact>, b: seq<ShopReviewFact>, i: nat, j: nat)
    requires DistinctIds(a) && i < |a| && j < |b| && a[i] in b && b[j] in a
    requires a[i].photoKey.Some? && b[j].photoKey.Some? && NewestAt(a, i) && NewestAt(b, j)
    ensures a[i] == b[j]
  {
  }

  /** The published average keeps within the stars given, so it fits the column's 1 to 5 check. */
  lemma ShopAverageWithin(facts: seq<ShopReviewFact>, now: int, decay: Decay, stat: ShopStat, lo: int, hi: int)
    requires IsSummary(facts, now, decay, stat) && facts != []
    requires forall i :: 0 <= i < |facts| ==> lo as real <= facts[i].rating <= hi as real
    ensures stat.averageRating.Some? && lo as real <= stat.averageRating.value <= hi as real
  {
    UnroundedWithin(WeighedAll(facts), now, decay, lo as real, hi as real);
    RoundingStaysWithin(WeightedAverage(WeighedAll(facts), now, decay), 10, lo, hi);
  }
}
