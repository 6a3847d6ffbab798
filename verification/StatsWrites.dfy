/**
 * What each writer transaction does to the reviews that are counted: a post adds exactly its row, an
 * edit replaces exactly one by the new rating, a discard removes exactly one, a deletion exactly
 * those of its user. And what a request for a recalculation looks like afterwards.
 */
module StatsWrites {
  import opened Rounding
  import opened Scores
  import opened ShopSummaries
  import opened StatsQueue
  import opened StatsTables
  import opened Sums
  import opened Wrappers

  // ---- Requests touch nothing else ----

  lemma RequestsChangeNoReviews(t: Tables, es: seq<Entity>)
    ensures var t' := RequestedAll(t, es);
            && t'.reviews == t.reviews && t'.links == t.links && t'.burgers == t.burgers
            && t'.discarded == t.discarded && t'.shops == t.shops && t'.stats == t.stats
  {
    RequestsRaised(t, es);
  }

  /** The counted rows after a transaction are those after its writes. */
  lemma WrittenCounts(t: Tables, w: Write, e: Entity)
    requires Allowed(t, w)
    ensures var t', t1 := Written(t, w).value, Changed(t, w);
            && t'.reviews == t1.reviews && t'.links == t1.links && t'.burgers == t1.burgers
            && t'.discarded == t1.discarded && t'.shops == t1.shops && t'.stats == t1.stats
            && Counted(t', e) == Counted(t1, e)
  {
    RequestsChangeNoReviews(Changed(t, w), TouchedBy(t, w));
    RequestsLeaveCounted(Changed(t, w), TouchedBy(t, w), e);
  }

  // ---- Reviews are of known burgers ----

  /** So a burger that comes with a new link has no review yet. */
  ghost predicate BurgersKnown(t: Tables)
  {
    forall id :: id in t.reviews ==> t.reviews[id].burger in t.burgers
  }

  lemma ChangeKeepsKnown(t: Tables, w: Write)
    requires Allowed(t, w) && BurgersKnown(t)
    ensures BurgersKnown(Changed(t, w))
  {
  }

  /** Steps of workers, and the removal of a shop, leave reviews and links alone. */
  lemma OthersChangeNoReviews(s: System, step: Step, decay: Decay)
    requires Enabled(s, step, decay) && !step.WriteStep?
    ensures var t' := After(s, step, decay).db;
            t'.reviews == s.db.reviews && t'.links == s.db.links && t'.burgers == s.db.burgers
  {
  }

  lemma QueueStepKeepsKnown(s: System, step: Step, decay: Decay)
    requires Enabled(s, step, decay) && BurgersKnown(s.db)
    ensures BurgersKnown(After(s, step, decay).db)
  {
    if step.WriteStep? {
      ChangeKeepsKnown(s.db, step.write);
      RequestsChangeNoReviews(Changed(s.db, step.write), TouchedBy(s.db, step.write));
      hide Changed, RequestedAll;
    } else {
      OthersChangeNoReviews(s, step, decay);
      hide After;
    }
  }

  lemma {:induction false} ReachedKnown(s: System, n: nat, decay: Decay)
    requires Reached(s, n, decay)
    ensures BurgersKnown(s.db)
    decreases n
  {
    if n > 0 {
      var before, step :| Reached(before, n - 1, decay) && Takes(before, step, s, decay);
      hide Enabled, After, BurgersKnown, Reached;
      ReachedKnown(before, n - 1, decay);
      QueueStepKeepsKnown(before, step, decay);
    }
  }

  // ---- What each transaction does to the counted rows ----

  /** Whether a review of a burger served at these places counts for `e`. */
  predicate WouldCount(t: Tables, review: Review, e: Entity, newBurgerAt: Option<nat>)
  {
    && review.kept && review.author !in t.discarded
    && if e.kind == Burgers then e.id == review.burger
       else (e.id, review.burger) in t.links || newBurgerAt == Some(e.id)
  }

  /** A post adds its row to its burger and to the shops that serve it, the new one among them, and no other. */
  lemma PostAddsRow(t: Tables, id: nat, review: Review, newBurgerAt: Option<nat>, e: Entity)
    requires BurgersKnown(t) && id !in t.reviews && Allowed(t, CreateReview(id, review, newBurgerAt))
    ensures var t' := Written(t, CreateReview(id, review, newBurgerAt)).value;
            && Counted(t', e) ==
               Counted(t, e) + (if WouldCount(t, review, e, newBurgerAt) then {Row(id, review)} else {})
            && t'.reviews == t.reviews[id := review]
            && t'.burgers == t.burgers + {review.burger}
            && t'.links == t.links + (if newBurgerAt.Some? then {(newBurgerAt.value, review.burger)} else {})
  {
    WrittenCounts(t, CreateReview(id, review, newBurgerAt), e);
    hide Written, BurgersKnown, Counted, WouldCount;
    PostChanges(t, id, review, newBurgerAt, e);
  }

  lemma PostChanges(t: Tables, id: nat, review: Review, newBurgerAt: Option<nat>, e: Entity)
    requires BurgersKnown(t) && id !in t.reviews && Allowed(t, CreateReview(id, review, newBurgerAt))
    ensures var t1 := Changed(t, CreateReview(id, review, newBurgerAt));
            && Counted(t1, e) ==
               Counted(t, e) + (if WouldCount(t, review, e, newBurgerAt) then {Row(id, review)} else {})
            && t1.reviews == t.reviews[id := review]
            && t1.burgers == t.burgers + {review.burger}
            && t1.links == t.links + (if newBurgerAt.Some? then {(newBurgerAt.value, review.burger)} else {})
  {
    var t1 := Changed(t, CreateReview(id, review, newBurgerAt));
    assert t1.burgers == t.burgers + {review.burger};
    assert t1.links == t.links + (if newBurgerAt.Some? then {(newBurgerAt.value, review.burger)} else {});
    assert t1.reviews == t.reviews[id := review] && t1.discarded == t.discarded;
    hide Changed;
    forall x
      ensures CountsFor(t1, e, x) <==> if x == id then WouldCount(t, review, e, newBurgerAt) else CountsFor(t, e, x)
    {
    }
    CountedOneMore(t, t1, id, review, e);
  }

  lemma CountedOneMore(t: Tables, t1: Tables, id: nat, review: Review, e: Entity)
    requires t1.reviews == t.reviews[id := review] && id !in t.reviews
    requires forall x :: x != id ==> (CountsFor(t1, e, x) <==> CountsFor(t, e, x))
    ensures Counted(t1, e) == Counted(t, e) + (if CountsFor(t1, e, id) then {Row(id, review)} else {})
  {
    hide CountsFor;
  }

  /** What an edit leaves of a review: everything but its stars, and its photo if a new one came. */
  predicate EditOf(before: Review, after: Review, rating: int, photoKey: Option<nat>)
  {
    && after.rating == rating
    && after.burger == before.burger && after.author == before.author
    && after.createdAt == before.createdAt && after.kept == before.kept
    && after.photoKey == (if photoKey.Some? then photoKey else before.photoKey)
  }

  /** The reviews apart from `id` are the same. */
  ghost predicate OthersSame(before: map<nat, Review>, after: map<nat, Review>, id: nat)
  {
    after.Keys == before.Keys && forall x :: x in before && x != id ==> after[x] == before[x]
  }

  /** An edit replaces the review's row by one with the new rating wherever it counts, and no other row. */
  lemma EditReplacesRow(t: Tables, id: nat, rating: int, photoKey: Option<nat>, e: Entity)
    requires Allowed(t, EditReview(id, rating, photoKey))
    ensures var t' := Written(t, EditReview(id, rating, photoKey)).value;
            && OthersSame(t.reviews, t'.reviews, id)
            && EditOf(t.reviews[id], t'.reviews[id], rating, photoKey)
            && Counted(t', e) == if CountsFor(t, e, id)
                                 then Counted(t, e) - {Row(id, t.reviews[id])} + {Row(id, t'.reviews[id])}
                                 else Counted(t, e)
  {
    WrittenCounts(t, EditReview(id, rating, photoKey), e);
    hide Written, Counted, CountsFor;
    EditChanges(t, id, rating, photoKey, e);
  }

  lemma EditChanges(t: Tables, id: nat, rating: int, photoKey: Option<nat>, e: Entity)
    requires Allowed(t, EditReview(id, rating, photoKey))
    ensures var t1 := Changed(t, EditReview(id, rating, photoKey));
            && OthersSame(t.reviews, t1.reviews, id)
            && EditOf(t.reviews[id], t1.reviews[id], rating, photoKey)
            && Counted(t1, e) == if CountsFor(t, e, id)
                                 then Counted(t, e) - {Row(id, t.reviews[id])} + {Row(id, t1.reviews[id])}
                                 else Counted(t, e)
  {
    var t1 := Changed(t, EditReview(id, rating, photoKey));
    hide Counted;
    assert forall x :: CountsFor(t1, e, x) <==> CountsFor(t, e, x);
    CountedReplaced(t, t1, id, e);
  }

  /** One row of the table changed, and what counts did not. */
  lemma CountedReplaced(t: Tables, t1: Tables, id: nat, e: Entity)
    requires id in t.reviews && OthersSame(t.reviews, t1.reviews, id)
    requires forall x :: CountsFor(t1, e, x) <==> CountsFor(t, e, x)
    ensures Counted(t1, e) == if CountsFor(t, e, id)
                              then Counted(t, e) - {Row(id, t.reviews[id])} + {Row(id, t1.reviews[id])}
                              else Counted(t, e)
  {
    hide CountsFor;
  }

  /** A discard removes the review's row wherever it counted, and no other. */
  lemma DiscardRemovesRow(t: Tables, id: nat, e: Entity)
    requires Allowed(t, DiscardReview(id))
    ensures var t' := Written(t, DiscardReview(id)).value;
            && OthersSame(t.reviews, t'.reviews, id) && t'.reviews[id] == t.reviews[id].(kept := false)
            && Counted(t', e) == Counted(t, e) - {Row(id, t.reviews[id])}
  {
    WrittenCounts(t, DiscardReview(id), e);
    hide Written, Counted, CountsFor;
    DiscardChanges(t, id, e);
  }

  lemma DiscardChanges(t: Tables, id: nat, e: Entity)
    requires Allowed(t, DiscardReview(id))
    ensures var t1 := Changed(t, DiscardReview(id));
            && OthersSame(t.reviews, t1.reviews, id) && t1.reviews[id] == t.reviews[id].(kept := false)
            && Counted(t1, e) == Counted(t, e) - {Row(id, t.reviews[id])}
  {
    var t1 := Changed(t, DiscardReview(id));
    hide Counted;
    assert forall x :: CountsFor(t1, e, x) <==> x != id && CountsFor(t, e, x);
    CountedOneLess(t, t1, id, e);
  }

  lemma CountedOneLess(t: Tables, t1: Tables, id: nat, e: Entity)
    requires id in t.reviews && OthersSame(t.reviews, t1.reviews, id)
    requires forall x :: CountsFor(t1, e, x) <==> x != id && CountsFor(t, e, x)
    ensures Counted(t1, e) == Counted(t, e) - {Row(id, t.reviews[id])}
  {
    hide CountsFor;
  }

  /** A deletion removes the rows of its user everywhere, and no other; the reviews stay in the table. */
  lemma DeletionRemovesRows(t: Tables, user: nat, e: Entity)
    requires Allowed(t, DeleteUser(user))
    ensures var t' := Written(t, DeleteUser(user)).value;
            && t'.reviews == t.reviews && t'.discarded == t.discarded + {user}
            && Counted(t', e) == set r | r in Counted(t, e) && r.review.author != user
  {
    WrittenCounts(t, DeleteUser(user), e);
    hide Written, Counted, CountsFor;
    DeletionChanges(t, user, e);
  }

  lemma DeletionChanges(t: Tables, user: nat, e: Entity)
    requires Allowed(t, DeleteUser(user))
    ensures var t1 := Changed(t, DeleteUser(user));
            && t1.reviews == t.reviews && t1.discarded == t.discarded + {user}
            && Counted(t1, e) == set r | r in Counted(t, e) && r.review.author != user
  {
    var t1 := Changed(t, DeleteUser(user));
    assert t1.reviews == t.reviews && t1.discarded == t.discarded + {user} && t1.links == t.links;
    hide Changed, Counted;
    assert forall x :: CountsFor(t1, e, x) <==> CountsFor(t, e, x) && t.reviews[x].author != user;
    CountedWithout(t, t1, user, e);
  }

  lemma CountedWithout(t: Tables, t1: Tables, user: nat, e: Entity)
    requires t1.reviews == t.reviews
    requires forall x :: CountsFor(t1, e, x) <==> CountsFor(t, e, x) && t.reviews[x].author != user
    ensures Counted(t1, e) == set r | r in Counted(t, e) && r.review.author != user
  {
    forall r
      ensures r in Counted(t1, e) <==> r in Counted(t, e) && r.review.author != user
    {
      hide CountsFor;
    }
  }

  // ---- What a request looks like ----

  /** Nothing stands in the way of the next cycle: no failure and no time to wait for. */
  predicate DueAtOnce(r: Request)
  {
    r.attempts == 0 && r.nextAttemptAt == None
  }

  lemma {:induction false} RequestedDueAtOnce(t: Tables, es: seq<Entity>, e: Entity)
    requires e in es
    ensures e in RequestedAll(t, es).requests && DueAtOnce(RequestedAll(t, es).requests[e])
  {
    var init, last := es[..|es| - 1], es[|es| - 1];
    RequestRaised(RequestedAll(t, init), last);
    OneDueAtOnce(RequestedAll(t, init), last);
    hide Requested, DueAtOnce;
    if e != last {
      RequestedDueAtOnce(t, init, e);
    }
  }

  lemma OneDueAtOnce(t: Tables, e: Entity)
    ensures e in Requested(t, e).requests && DueAtOnce(Requested(t, e).requests[e])
  {
  }

  /**
   * However often its recalculation failed before, even if it was given up: an entity that a writer
   * touches is due at once, and no other request is touched.
   */
  lemma WriteRevives(t: Tables, w: Write, e: Entity)
    requires Allowed(t, w)
    ensures var t' := Written(t, w).value;
            if e in TouchedBy(t, w) then e in t'.requests && DueAtOnce(t'.requests[e])
            else (e in t'.requests <==> e in t.requests) && (e in t.requests ==> t'.requests[e] == t.requests[e])
  {
    RequestsRaised(Changed(t, w), TouchedBy(t, w));
    if e in TouchedBy(t, w) {
      RequestedDueAtOnce(Changed(t, w), TouchedBy(t, w), e);
    }
  }

  // ---- What the published numbers are ----

  lemma PlainRatings(rows: set<Row>, lo: real, hi: real)
    requires Keyed(rows) && forall r :: r in rows ==> lo <= r.review.rating as real <= hi
    ensures |PlainFacts(Rows(rows))| == |rows| && RatingsWithin(PlainFacts(Rows(rows)), lo, hi)
  {
    var xs := Rows(rows);
    assert forall i :: 0 <= i < |xs| ==> xs[i] in rows;
  }

  /**
   * In every run, a burger without a pending request shows the number of its counted reviews and an
   * average between their smallest and largest rating, so exactly the rating they all have.
   */
  lemma ShownAverage(s: System, n: nat, decay: Decay, burger: nat, lo: int, hi: int)
    requires Reached(s, n, decay) && Entity(Burgers, burger) !in s.db.requests
    requires forall r :: r in Counted(s.db, Entity(Burgers, burger)) ==> lo <= r.review.rating <= hi
    ensures var e := Entity(Burgers, burger);
            match StoredNumbers(s.db, e)
            case BurgerNumbers(count, average) =>
              && count == |Counted(s.db, e)|
              && (if Counted(s.db, e) == {} then average == 0.0 else lo as real <= average <= hi as real)
            case ShopNumbers(_, _) => false
  {
    var e := Entity(Burgers, burger);
    var rows := Counted(s.db, e);
    ReachedInv(s, n, decay);
    assert Fresh(s.db, e) && WellFormed(s.db);
    hide Reached, Counted;
    PlainRatings(rows, lo as real, hi as real);
    if rows != {} {
      AverageRatingWithin(PlainFacts(Rows(rows)), lo, hi);
    }
  }

  /** In every run, a shop without a pending request shows the photo of the newest counted review that has one. */
  lemma ShownPhoto(s: System, n: nat, decay: Decay, shop: nat)
    requires Reached(s, n, decay) && Entity(Shops, shop) !in s.db.requests
    ensures var e := Entity(Shops, shop);
            match StoredNumbers(s.db, e)
            case BurgerNumbers(_, _) => false
            case ShopNumbers(count, key) => count == |Counted(s.db, e)| && OfNewest(Counted(s.db, e), key)
  {
    var e := Entity(Shops, shop);
    ReachedInv(s, n, decay);
    assert Fresh(s.db, e) && WellFormed(s.db);
    hide Reached, Counted;
  }

  /** The photo of the review posted last among those with one, the greater id deciding between equal times. */
  ghost predicate OfNewest(rows: set<Row>, key: Option<nat>)
  {
    if forall r :: r in rows ==> r.review.photoKey.None? then key == None
    else
      exists r ::
        && r in rows && r.review.photoKey == key && key.Some?
        && forall q :: q in rows && q.review.photoKey.Some? ==>
             q.review.createdAt < r.review.createdAt || (q.review.createdAt == r.review.createdAt && q.id <= r.id)
  }

  // ---- What the scores are computed from ----

  /** An author's history is one rating for each of their kept reviews, whatever burger it is of. */
  lemma HistoryIs(t: Tables, user: nat)
    ensures |History(t, user)| == |set id | id in t.reviews && t.reviews[id].kept && t.reviews[id].author == user|
    ensures forall id :: id in t.reviews && t.reviews[id].kept && t.reviews[id].author == user ==>
              t.reviews[id].rating as real in History(t, user)
  {
    var ids := set id | id in t.reviews && t.reviews[id].kept && t.reviews[id].author == user;
    var kept := KeptBy(t, {user});
    KeptIsOnePerId(t, user, ids);
    var rows := Rows(kept);
    forall id | id in ids
      ensures t.reviews[id].rating as real in History(t, user)
    {
      assert Row(id, t.reviews[id]) in rows;
      var i :| 0 <= i < |rows| && rows[i] == Row(id, t.reviews[id]);
      assert History(t, user)[i] == t.reviews[id].rating as real;
    }
  }

  lemma KeptIsOnePerId(t: Tables, user: nat, ids: set<nat>)
    requires ids == set id | id in t.reviews && t.reviews[id].kept && t.reviews[id].author == user
    ensures |KeptBy(t, {user})| == |ids|
  {
    assert KeptBy(t, {user}) == set id | id in ids :: Row(id, t.reviews[id]);
    OnePerId(t, ids);
  }

  lemma {:induction false} OnePerId(t: Tables, ids: set<nat>)
    requires ids <= t.reviews.Keys
    ensures |set id | id in ids :: Row(id, t.reviews[id])| == |ids|
    decreases |ids|
  {
    var rows := set id | id in ids :: Row(id, t.reviews[id]);
    if ids != {} {
      var x :| x in ids;
      OnePerId(t, ids - {x});
      var fewer := set id | id in ids - {x} :: Row(id, t.reviews[id]);
      assert rows == fewer + {Row(x, t.reviews[x])} && Row(x, t.reviews[x]) !in fewer;
    }
  }

  /** A counted review enters the score with its stars, its time and its author's history. */
  lemma FactOfReview(t: Tables, burger: nat, id: nat)
    requires CountsFor(t, Entity(Burgers, burger), id)
    ensures |BurgerFacts(t, burger)| == |Counted(t, Entity(Burgers, burger))|
    ensures var r := t.reviews[id];
            ReviewFact(r.rating as real, r.createdAt, History(t, r.author)) in BurgerFacts(t, burger)
  {
    var rows := Rows(Counted(t, Entity(Burgers, burger)));
    assert Row(id, t.reviews[id]) in rows;
    var i :| 0 <= i < |rows| && rows[i] == Row(id, t.reviews[id]);
    hide CountsFor, Counted, History;
    assert BurgerFacts(t, burger)[i] ==
           ReviewFact(t.reviews[id].rating as real, t.reviews[id].createdAt, History(t, t.reviews[id].author));
  }

  lemma ShopFactOfReview(t: Tables, shop: nat, id: nat)
    requires CountsFor(t, Entity(Shops, shop), id)
    ensures |ShopFacts(t, shop)| == |Counted(t, Entity(Shops, shop))|
    ensures var r := t.reviews[id];
            ShopReviewFact(id, r.rating as real, r.createdAt, r.photoKey, History(t, r.author)) in ShopFacts(t, shop)
  {
    var rows, r := Rows(Counted(t, Entity(Shops, shop))), t.reviews[id];
    assert Row(id, r) in rows;
    var i :| 0 <= i < |rows| && rows[i] == Row(id, r);
    hide CountsFor, Counted, History;
    assert ShopFacts(t, shop)[i] == ShopReviewFact(id, r.rating as real, r.createdAt, r.photoKey, History(t, r.author));
  }
}
