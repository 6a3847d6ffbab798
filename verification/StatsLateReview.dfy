/**
 * Account deletion lists the user's burgers, then lists them again for their shops, and commits
 * later. A review posted and recalculated in between escapes the lists. This module gives the exact
 * condition under which the commit keeps the statistics right, and two runs that break it.
 */
module StatsLateReview {
  import opened Listings
  import opened Scores
  import opened StatsQueue
  import opened StatsTables
  import opened Wrappers

  /** The request rows of a deletion that found these burgers first and these shops afterwards. */
  ghost function Lists(burgers: set<nat>, shops: set<nat>): seq<Entity>
  {
    Entities(Burgers, Ascending(burgers)) + Entities(Shops, Ascending(shops))
  }

  /** The deletion commits on `t` after having found `burgers` and `shops` at earlier times. */
  ghost function Left(t: Tables, user: nat, burgers: set<nat>, shops: set<nat>): Tables
  {
    RequestedAll(t.(discarded := t.discarded + {user}), Lists(burgers, shops))
  }

  ghost function Committed(s: System, user: nat, burgers: set<nat>, shops: set<nat>): System
  {
    s.(db := Left(s.db, user, burgers, shops))
  }

  /** The atomic transaction is the special case that lists at commit time. */
  lemma LeftIsWritten(t: Tables, user: nat)
    requires user !in t.discarded
    ensures var burgers := ReviewedBurgers(t, user);
            Written(t, DeleteUser(user)) == Ok(Left(t, user, burgers, LinkedShops(t, burgers)))
  {
    var t1, burgers := t.(discarded := t.discarded + {user}), ReviewedBurgers(t, user);
    assert LinkedShops(t1, burgers) == LinkedShops(t, burgers);
  }

  /** Whether `id` is a review of the user that `e` still counts. */
  predicate CountedOf(t: Tables, user: nat, e: Entity, id: nat)
  {
    CountsFor(t, e, id) && t.reviews[id].author == user
  }

  /** A worker is about to save facts it loaded under version `version` of the request for `e`. */
  predicate LoadedUnder(w: Worker, e: Entity, version: nat)
  {
    w.phase.Loaded? && w.todo != [] && w.todo[0].entity == e && w.todo[0].version == version
  }

  /** A request is pending that nobody is about to complete with facts loaded before. */
  ghost predicate Awaited(s: System, e: Entity)
  {
    && e in s.db.requests
    && forall w :: w in s.workers ==> !LoadedUnder(s.workers[w], e, s.db.requests[e].version)
  }

  /** Whatever counts a review of the user was found by the deletion or is awaited anyway. */
  ghost predicate Covered(s: System, user: nat, burgers: set<nat>, shops: set<nat>)
  {
    forall id, e :: CountedOf(s.db, user, e, id) ==> e in Lists(burgers, shops) || Awaited(s, e)
  }

  lemma LeftCounted(t: Tables, user: nat, burgers: set<nat>, shops: set<nat>, e: Entity)
    ensures Counted(Left(t, user, burgers, shops), e) == Counted(t, e) - KeptBy(t, {user})
  {
    DiscardCounted(t, user, e);
    hide Counted, KeptBy, Lists;
    RequestsLeaveCounted(t.(discarded := t.discarded + {user}), Lists(burgers, shops), e);
  }

  lemma DiscardCounted(t: Tables, user: nat, e: Entity)
    ensures Counted(t.(discarded := t.discarded + {user}), e) == Counted(t, e) - KeptBy(t, {user})
  {
  }

  lemma UnaffectedCounted(t: Tables, user: nat, burgers: set<nat>, shops: set<nat>, e: Entity)
    requires forall id :: !CountedOf(t, user, e, id)
    ensures Counted(Left(t, user, burgers, shops), e) == Counted(t, e)
  {
    LeftCounted(t, user, burgers, shops, e);
    assert forall r :: r in Counted(t, e) && r in KeptBy(t, {user}) ==> CountedOf(t, user, e, r.id);
  }

  lemma SmallerDiffers(rows: set<Row>, fewer: set<Row>, n: Numbers)
    requires Keyed(rows) && Keyed(fewer) && fewer < rows && Agrees(rows, n)
    ensures !Agrees(fewer, n)
  {
    ProperSubsetSmaller(fewer, rows);
  }

  lemma ProperSubsetSmaller<T>(a: set<T>, b: set<T>)
    requires a < b
    ensures |a| < |b|
  {
    var x :| x in b && x !in a;
    assert a <= b - {x};
    SubsetNotLarger(a, b - {x});
  }

  lemma {:induction false} SubsetNotLarger<T>(a: set<T>, b: set<T>)
    requires a <= b
    ensures |a| <= |b|
    decreases |a|
  {
    if a != {} {
      var x :| x in a;
      SubsetNotLarger(a - {x}, b - {x});
    }
  }

  // ---- A covered deletion keeps the invariant ----

  lemma WorkerStaysCurrent(s: System, user: nat, burgers: set<nat>, shops: set<nat>, v: nat)
    requires Inv(s) && Covered(s, user, burgers, shops) && v in s.workers
    ensures CurrentOrOutdated(Left(s.db, user, burgers, shops), s.workers[v])
  {
    var w, t1 := s.workers[v], s.db.(discarded := s.db.discarded + {user});
    RequestsRaised(t1, Lists(burgers, shops));
    assert CurrentOrOutdated(s.db, w);
    if w.phase.Loaded? {
      var e := w.todo[0].entity;
      assert w.todo[0] in w.todo;
      if e !in Lists(burgers, shops) && forall id :: !CountedOf(s.db, user, e, id) {
        UnaffectedCounted(s.db, user, burgers, shops, e);
      } else if e !in Lists(burgers, shops) {
        assert Awaited(s, e);
        assert !LoadedUnder(w, e, s.db.requests[e].version);
      }
    }
  }

  lemma SettledStaysFresh(s: System, user: nat, burgers: set<nat>, shops: set<nat>)
    requires Inv(s) && Covered(s, user, burgers, shops)
    ensures SettledIsFresh(Left(s.db, user, burgers, shops))
  {
    var t' := Left(s.db, user, burgers, shops);
    RequestsRaised(s.db.(discarded := s.db.discarded + {user}), Lists(burgers, shops));
    forall e | e !in t'.requests
      ensures Fresh(t', e)
    {
      UnaffectedCounted(s.db, user, burgers, shops, e);
      hide Left, Agrees;
      assert Fresh(s.db, e);
    }
  }

  lemma CommitKeepsNumbers(s: System, user: nat, burgers: set<nat>, shops: set<nat>)
    requires VersionsBelow(s) && WellFormed(s.db)
    ensures VersionsBelow(Committed(s, user, burgers, shops)) && WellFormed(Left(s.db, user, burgers, shops))
  {
    RequestsRaised(s.db.(discarded := s.db.discarded + {user}), Lists(burgers, shops));
    hide Lists;
  }

  lemma CoveredKeepsInv(s: System, user: nat, burgers: set<nat>, shops: set<nat>)
    requires Inv(s) && Covered(s, user, burgers, shops)
    ensures Inv(Committed(s, user, burgers, shops))
  {
    var s' := Committed(s, user, burgers, shops);
    CommitKeepsNumbers(s, user, burgers, shops);
    SettledStaysFresh(s, user, burgers, shops);
    hide CurrentOrOutdated, SettledIsFresh, Covered, Left, VersionsBelow, WellFormed;
    forall v | v in s'.workers
      ensures CurrentOrOutdated(s'.db, s'.workers[v])
    {
      WorkerStaysCurrent(s, user, burgers, shops, v);
    }
    assert OneHolder(s');
  }

  // ---- An uncovered one goes wrong at once or with a worker's next step ----

  /** `s` follows from `from` by some `n` steps. */
  ghost predicate Follows(from: System, s: System, n: nat, decay: Decay)
    decreases n
  {
    if n == 0 then s == from
    else exists before, step :: Follows(from, before, n - 1, decay) && Takes(before, step, s, decay)
  }

  lemma {:induction false} FollowsInv(from: System, s: System, n: nat, decay: Decay)
    requires Inv(from) && Follows(from, s, n, decay)
    ensures Inv(s)
    decreases n
  {
    hide Inv, Takes;
    if n != 0 {
      var before, step :| Follows(from, before, n - 1, decay) && Takes(before, step, s, decay);
      FollowsInv(from, before, n - 1, decay);
      TakesKeepsInv(before, step, s, decay);
    }
  }

  /** Numbers that were current before the deletion are not after it. */
  lemma LosesReview(t: Tables, user: nat, burgers: set<nat>, shops: set<nat>, id: nat, e: Entity, n: Numbers)
    requires CountedOf(t, user, e, id) && Agrees(Counted(t, e), n)
    ensures !Agrees(Counted(Left(t, user, burgers, shops), e), n)
  {
    LeftCounted(t, user, burgers, shops, e);
    hide Left, Agrees;
    assert Row(id, t.reviews[id]) in Counted(t, e) && Row(id, t.reviews[id]) in KeptBy(t, {user});
    SmallerDiffers(Counted(t, e), Counted(Left(t, user, burgers, shops), e), n);
  }

  lemma UnlistedGoesStale(s: System, user: nat, burgers: set<nat>, shops: set<nat>, id: nat, e: Entity)
    requires Inv(s) && CountedOf(s.db, user, e, id) && e !in Lists(burgers, shops) && e !in s.db.requests
    ensures !SettledIsFresh(Left(s.db, user, burgers, shops))
  {
    var t' := Left(s.db, user, burgers, shops);
    RequestsRaised(s.db.(discarded := s.db.discarded + {user}), Lists(burgers, shops));
    assert Fresh(s.db, e) && e !in t'.requests;
    LosesReview(s.db, user, burgers, shops, id, e, StoredNumbers(s.db, e));
    assert !Fresh(t', e);
  }

  /** Finishing does not change what counts, and a matching version leaves no request. */
  lemma MatchingFinish(t: Tables, k: Ticket, row: StatRow)
    requires k.entity in t.requests && t.requests[k.entity].version == k.version
    requires !Agrees(Counted(t, k.entity), NumbersOf(row))
    ensures !SettledIsFresh(Finished(t, k, Some(row)))
  {
    var t' := Finished(t, k, Some(row));
    assert Counted(t', k.entity) == Counted(t, k.entity);
    assert k.entity !in t'.requests && !Fresh(t', k.entity);
  }

  /** The worker saves the count it loaded before the deletion and completes the request. */
  lemma LoadedGoesStale(s: System, user: nat, burgers: set<nat>, shops: set<nat>, id: nat, e: Entity, v: nat,
                        decay: Decay)
    requires Inv(s) && CountedOf(s.db, user, e, id) && e !in Lists(burgers, shops)
    requires e in s.db.requests && v in s.workers && LoadedUnder(s.workers[v], e, s.db.requests[e].version)
    ensures var s1 := Committed(s, user, burgers, shops);
            Enabled(s1, FinishStep(v), decay) && !SettledIsFresh(After(s1, FinishStep(v), decay).db)
  {
    var t', w := Left(s.db, user, burgers, shops), s.workers[v];
    RequestsRaised(s.db.(discarded := s.db.discarded + {user}), Lists(burgers, shops));
    assert CurrentOrOutdated(s.db, w);
    assert e.kind == Shops ==> (e.id, s.db.reviews[id].burger) in s.db.links;
    LosesReview(s.db, user, burgers, shops, id, e, NumbersOf(w.phase.row.value));
    MatchingFinish(t', w.todo[0], w.phase.row.value);
  }

  lemma UncoveredGoesStale(s: System, user: nat, burgers: set<nat>, shops: set<nat>, decay: Decay)
    returns (s': System, n: nat)
    requires Inv(s) && !Covered(s, user, burgers, shops)
    ensures n <= 1 && Follows(Committed(s, user, burgers, shops), s', n, decay) && !SettledIsFresh(s'.db)
  {
    s', n := Committed(s, user, burgers, shops), 0;
    var id, e :| CountedOf(s.db, user, e, id) && e !in Lists(burgers, shops) && !Awaited(s, e);
    hide Inv, Covered, CountedOf, Committed, Lists, SettledIsFresh, Enabled, After;
    if e !in s.db.requests {
      UnlistedGoesStale(s, user, burgers, shops, id, e);
    } else {
      var v :| v in s.workers && LoadedUnder(s.workers[v], e, s.db.requests[e].version);
      LoadedGoesStale(s, user, burgers, shops, id, e, v, decay);
      var s1 := s';
      s', n := After(s1, FinishStep(v), decay), 1;
      assert Follows(s1, s1, 0, decay) && Takes(s1, FinishStep(v), s', decay);
    }
  }

  /** A deletion that commits keeps the invariant of the queue exactly when it is covered. */
  lemma LateDeletionKeepsInv(s: System, user: nat, burgers: set<nat>, shops: set<nat>, decay: Decay)
    requires Inv(s)
    ensures Inv(Committed(s, user, burgers, shops)) <==> Covered(s, user, burgers, shops)
  {
    if Covered(s, user, burgers, shops) {
      CoveredKeepsInv(s, user, burgers, shops);
    } else {
      var s', n := UncoveredGoesStale(s, user, burgers, shops, decay);
      hide Covered, CurrentOrOutdated, SettledIsFresh;
      if Inv(Committed(s, user, burgers, shops)) {
        FollowsInv(Committed(s, user, burgers, shops), s', n, decay);
        assert false;
      }
    }
  }

  /**
   * In any run, after a deletion commits with what it found earlier, entities without a request stay
   * current in every continuation exactly when the commit is covered.
   */
  lemma LateDeletionExactly(s: System, n: nat, user: nat, burgers: set<nat>, shops: set<nat>, decay: Decay)
    requires Reached(s, n, decay)
    ensures (forall s', m :: Follows(Committed(s, user, burgers, shops), s', m, decay) ==> SettledIsFresh(s'.db))
            <==> Covered(s, user, burgers, shops)
  {
    ReachedInv(s, n, decay);
    hide Reached, Covered, Committed;
    if Covered(s, user, burgers, shops) {
      CoveredKeepsInv(s, user, burgers, shops);
      forall s', m | Follows(Committed(s, user, burgers, shops), s', m, decay)
        ensures SettledIsFresh(s'.db)
      {
        FollowsInv(Committed(s, user, burgers, shops), s', m, decay);
      }
    } else {
      var s', m := UncoveredGoesStale(s, user, burgers, shops, decay);
    }
  }

  // ---- Two runs in which a deletion that found nothing goes wrong ----

  const START := System(Tables(map[], {}, {1}, {}, {}, map[], map[], 1, 1), map[0 := Worker([], Between)])
  const POSTED := CreateReview(5, Review(1, 7, 4, 100, None, true), None)
  const BURGER := Entity(Burgers, 1)

  const POSTED_TABLES := START.db.(
    reviews := map[5 := POSTED.review], requests := map[BURGER := Request(1, 0, None)], burgerSeq := 2)
  const TICKET := Ticket(BURGER, 1, 0)

  function StateWith(phase: Phase): System
  {
    System(POSTED_TABLES, map[0 := Worker([TICKET], phase)])
  }

  lemma PostStep(decay: Decay)
    ensures Takes(START, WriteStep(POSTED), System(POSTED_TABLES, START.workers), decay)
  {
  }

  lemma ListAndLockSteps(decay: Decay)
    ensures Takes(System(POSTED_TABLES, START.workers), ListStep(0, [TICKET]), StateWith(Between), decay)
    ensures Takes(StateWith(Between), LockStep(0), StateWith(Locked), decay)
  {
  }

  lemma LoadingStep(decay: Decay, row: Option<StatRow>)
    requires Computed(POSTED_TABLES, BURGER, 200, decay, row)
    ensures Takes(StateWith(Locked), LoadStep(0, 200, row), StateWith(Loaded(row)), decay)
  {
    hide Computed;
  }

  lemma FinishingStep(decay: Decay, row: Option<StatRow>) returns (s: System)
    ensures Takes(StateWith(Loaded(row)), FinishStep(0), s, decay)
    ensures s.db.reviews == POSTED_TABLES.reviews && s.db.requests == map[]
    ensures s.db.discarded == {} && s.db.links == {}
  {
    s := System(Finished(POSTED_TABLES, TICKET, row), map[0 := Worker([], Between)]);
    assert NextTicket(Worker([TICKET], Loaded(row))) == Worker([], Between);
    assert POSTED_TABLES.requests - {BURGER} == map[];
  }

  lemma StartIsReached(decay: Decay)
    ensures Reached(START, 0, decay) && ReviewedBurgers(START.db, 7) == {}
  {
  }

  /** Up to the moment a worker has loaded the burger's one review. */
  lemma PostedAndLoaded(decay: Decay) returns (row: Option<StatRow>)
    ensures Computed(POSTED_TABLES, BURGER, 200, decay, row)
    ensures Reached(StateWith(Loaded(row)), 4, decay)
  {
    row := Some(BurgerRow(BurgerStatOf(BurgerFacts(POSTED_TABLES, 1), 200, decay)));
    PostStep(decay);
    ListAndLockSteps(decay);
    LoadingStep(decay, row);
    StartIsReached(decay);
    hide Reached, Takes, Computed;
    OneMore(START, WriteStep(POSTED), System(POSTED_TABLES, START.workers), 0, decay);
    OneMore(System(POSTED_TABLES, START.workers), ListStep(0, [TICKET]), StateWith(Between), 1, decay);
    OneMore(StateWith(Between), LockStep(0), StateWith(Locked), 2, decay);
    OneMore(StateWith(Locked), LoadStep(0, 200, row), StateWith(Loaded(row)), 3, decay);
  }

  lemma BurgerNotFound(t: Tables)
    requires t.reviews == POSTED_TABLES.reviews && t.discarded == {}
    ensures CountedOf(t, 7, BURGER, 5) && BURGER !in Lists({}, {})
  {
  }

  lemma CompletedGoesStale(s: System)
    requires Inv(s) && s.db.reviews == POSTED_TABLES.reviews && s.db.requests == map[] && s.db.discarded == {}
    ensures !SettledIsFresh(Left(s.db, 7, {}, {}))
  {
    BurgerNotFound(s.db);
    hide Inv, SettledIsFresh, CountedOf, Lists;
    UnlistedGoesStale(s, 7, {}, {}, 5, BURGER);
  }

  lemma LoadedBurgerGoesStale(row: Option<StatRow>, decay: Decay)
    requires Inv(StateWith(Loaded(row)))
    ensures var s1 := Committed(StateWith(Loaded(row)), 7, {}, {});
            Enabled(s1, FinishStep(0), decay) && !SettledIsFresh(After(s1, FinishStep(0), decay).db)
  {
    var s := StateWith(Loaded(row));
    BurgerNotFound(s.db);
    assert LoadedUnder(s.workers[0], BURGER, s.db.requests[BURGER].version);
    hide Inv, SettledIsFresh, CountedOf, Lists, LoadedUnder, Enabled, After, Committed;
    LoadedGoesStale(s, 7, {}, {}, 5, BURGER, 0, decay);
  }

  /** At the commit itself nothing is wrong: the only burger with a review has a request. */
  lemma StillSettled(s: System)
    requires Inv(s) && s.db == POSTED_TABLES
    ensures Left(s.db, 7, {}, {}) == POSTED_TABLES.(discarded := {7}) && SettledIsFresh(Left(s.db, 7, {}, {}))
  {
    var t' := Left(s.db, 7, {}, {});
    assert Lists({}, {}) == [];
    forall e | e !in t'.requests
      ensures Fresh(t', e)
    {
      assert forall id :: !CountedOf(s.db, 7, e, id);
      UnaffectedCounted(s.db, 7, {}, {}, e);
      assert Fresh(s.db, e);
    }
  }

  /**
   * User 7 has no reviews when the deletion lists them. Before it commits, the user's review is
   * posted, listed, recalculated and completed by a worker. Committing the deletion then leaves a
   * stale burger and no request to repair it.
   */
  lemma LateReviewBreaksDeletion(decay: Decay) returns (last: System)
    ensures Reached(START, 0, decay) && ReviewedBurgers(START.db, 7) == {}
    ensures Reached(last, 5, decay) && !SettledIsFresh(Left(last.db, 7, {}, {}))
  {
    StartIsReached(decay);
    hide Reached, Inv, SettledIsFresh, Left, Computed, Takes;
    var row := PostedAndLoaded(decay);
    last := FinishingStep(decay, row);
    OneMore(StateWith(Loaded(row)), FinishStep(0), last, 4, decay);
    ReachedInv(last, 5, decay);
    CompletedGoesStale(last);
  }

  /**
   * The same, but the deletion commits while the worker holds the loaded count. The request is then
   * still pending, and the worker's next step saves the stale count and completes the request.
   */
  lemma LoadedReviewBreaksDeletion(decay: Decay) returns (s: System, last: System)
    ensures Reached(s, 4, decay) && BURGER in s.db.requests && SettledIsFresh(Left(s.db, 7, {}, {}))
    ensures Takes(Committed(s, 7, {}, {}), FinishStep(0), last, decay)
    ensures !SettledIsFresh(last.db) && last.db.requests == map[]
  {
    var row := PostedAndLoaded(decay);
    s := StateWith(Loaded(row));
    hide Reached, Inv, SettledIsFresh, Left, Computed;
    ReachedInv(s, 4, decay);
    StillSettled(s);
    LoadedBurgerGoesStale(row, decay);
    last := After(Committed(s, 7, {}, {}), FinishStep(0), decay);
  }

  lemma OneMore(s: System, step: Step, s': System, n: nat, decay: Decay)
    requires Reached(s, n, decay) && Takes(s, step, s', decay)
    ensures Reached(s', n + 1, decay)
  {
  }
}
