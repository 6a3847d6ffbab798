/**
 * The code of the queue: repository statements, writer transactions, the recalculation and the
 * worker cycle as methods over mutable tables, each proved against its function on `Tables`.
 * A method is one transaction, or one cycle with no other transaction in between.
 */
module StatsService {
  import opened Listings
  import opened Scores
  import opened ShopSummaries
  import opened StatsQueue
  import opened StatsTables
  import opened StatsWrites
  import opened Wrappers

  // ---- Due requests ----

  datatype Due = Due(ticket: Ticket, nextAttemptAt: Option<int>)

  /** ORDER BY next_attempt_at NULLS FIRST, id */
  predicate DueBefore(a: Due, b: Due)
  {
    if a.nextAttemptAt == b.nextAttemptAt then a.ticket.entity.id < b.ticket.entity.id
    else a.nextAttemptAt.None? || (b.nextAttemptAt.Some? && a.nextAttemptAt.value < b.nextAttemptAt.value)
  }

  predicate IsDue(request: Request, now: int, maxAttempts: nat)
  {
    request.attempts < maxAttempts && (request.nextAttemptAt.None? || request.nextAttemptAt.value <= now)
  }

  function DueOf(e: Entity, request: Request): Due
  {
    Due(Ticket(e, request.version, request.attempts), request.nextAttemptAt)
  }

  function DueSet(t: Tables, kind: Kind, now: int, maxAttempts: nat): set<Due>
  {
    set e | e in t.requests && e.kind == kind && IsDue(t.requests[e], now, maxAttempts) :: DueOf(e, t.requests[e])
  }

  lemma DueOrders(t: Tables, kind: Kind, now: int, maxAttempts: nat)
    ensures Orders(DueBefore, DueSet(t, kind, now, maxAttempts))
  {
  }

  ghost function DueList(t: Tables, kind: Kind, now: int, maxAttempts: nat, batch: nat): (due: seq<Due>)
    ensures |due| <= batch && forall d :: d in due ==> d in DueSet(t, kind, now, maxAttempts)
    ensures DueSet(t, kind, now, maxAttempts) != {} && batch > 0 ==> due != []
  {
    DueOrders(t, kind, now, maxAttempts);
    var all := Listed(DueSet(t, kind, now, maxAttempts), DueBefore);
    if |all| <= batch then all else all[..batch]
  }

  /** `a` is tried before `b`: what never failed first, then by the time of the next attempt, then by id. */
  predicate TriedBefore(a: Due, b: Due)
  {
    match (a.nextAttemptAt, b.nextAttemptAt)
    case (None, Some(_)) => true
    case (Some(_), None) => false
    case (None, None) => a.ticket.entity.id < b.ticket.entity.id
    case (Some(x), Some(y)) => x < y || (x == y && a.ticket.entity.id < b.ticket.entity.id)
  }

  predicate EarliestFirst(due: seq<Due>)
  {
    forall i, j :: 0 <= i < j < |due| ==> TriedBefore(due[i], due[j])
  }

  /** The ticket carries the request's entity, version, failures and time. */
  predicate ListsRequest(requests: map<Entity, Request>, d: Due)
  {
    && d.ticket.entity in requests
    && var r := requests[d.ticket.entity];
       r.version == d.ticket.version && r.attempts == d.ticket.attempts && r.nextAttemptAt == d.nextAttemptAt
  }

  /** The request is listed, or the batch is full of requests to be tried before it. */
  predicate Served(due: seq<Due>, batch: nat, e: Entity, r: Request)
  {
    var own := Due(Ticket(e, r.version, r.attempts), r.nextAttemptAt);
    own in due || (|due| == batch && forall d :: d in due ==> TriedBefore(d, own))
  }

  /** A request of this queue that was not given up and whose time has come. */
  predicate Awaits(e: Entity, requests: map<Entity, Request>, kind: Kind, now: int, maxAttempts: nat)
  {
    && e in requests && e.kind == kind && requests[e].attempts < maxAttempts
    && (requests[e].nextAttemptAt.Some? ==> requests[e].nextAttemptAt.value <= now)
  }

  /** The list is the earliest of exactly the awaiting requests. */
  lemma ListedEarliestFirst(t: Tables, kind: Kind, now: int, maxAttempts: nat, batch: nat)
    ensures var due := DueList(t, kind, now, maxAttempts, batch);
            && EarliestFirst(due)
            && (forall d :: d in due ==>
                  ListsRequest(t.requests, d) && Awaits(d.ticket.entity, t.requests, kind, now, maxAttempts))
            && forall e :: Awaits(e, t.requests, kind, now, maxAttempts) ==> Served(due, batch, e, t.requests[e])
  {
    DueOrders(t, kind, now, maxAttempts);
    var due, all := DueList(t, kind, now, maxAttempts, batch), Listed(DueSet(t, kind, now, maxAttempts), DueBefore);
    OrderedAsTried(all);
    hide DueBefore, TriedBefore;
    forall e | Awaits(e, t.requests, kind, now, maxAttempts)
      ensures Served(due, batch, e, t.requests[e])
    {
      var d := DueOf(e, t.requests[e]);
      assert d in DueSet(t, kind, now, maxAttempts);
      hide DueSet, IsDue, Awaits;
      PrefixServes(all, batch, d);
    }
  }

  lemma OrderedAsTried(all: seq<Due>)
    requires Listings.Sorted(all, DueBefore)
    ensures EarliestFirst(all)
  {
  }

  lemma PrefixServes(all: seq<Due>, batch: nat, d: Due)
    requires EarliestFirst(all) && d in all
    ensures var due := if |all| <= batch then all else all[..batch];
            d in due || (|due| == batch && forall x :: x in due ==> TriedBefore(x, d))
  {
    hide TriedBefore;
    var i :| 0 <= i < |all| && all[i] == d;
    if |all| > batch {
      if i < batch {
        assert all[..batch][i] == d;
      } else {
        forall x | x in all[..batch]
          ensures TriedBefore(x, d)
        {
          var j :| 0 <= j < batch && all[j] == x;
        }
      }
    }
  }

  // ---- One cycle ----

  /** A burger that is gone cannot be locked; a shop that is gone needs no recalculation. */
  predicate Missing(t: Tables, e: Entity)
  {
    e.kind == Burgers && e.id !in t.burgers
  }

  /** What a cycle does with one due request: recompute and complete, or record the failure. */
  ghost predicate Handled(t: Tables, t': Tables, k: Ticket, fails: bool, now: int, decay: Decay)
  {
    if fails then t' == FailureRecorded(t, k.entity, k.version, now + RetryDelay(k.attempts + 1))
    else !Missing(t, k.entity) && exists row :: Computed(t, k.entity, now, decay, row) && t' == Finished(t, k, row)
  }

  /** The clock is read once for the listing and once for each request. */
  type Clock = nat -> int

  /** Each request in turn; a failure that cannot be recorded leaves nothing at all. */
  ghost predicate HandledAll(trace: seq<Tables>, due: seq<Due>, failing: set<Entity>, unrecorded: set<Entity>,
                             clock: Clock, decay: Decay)
  {
    && |trace| == |due| + 1
    && forall i :: 0 <= i < |due| ==>
         if due[i].ticket.entity in failing * unrecorded then trace[i + 1] == trace[i]
         else Handled(trace[i], trace[i + 1], due[i].ticket, due[i].ticket.entity in failing, clock(i + 1), decay)
  }

  /** The recalculations that fail: those made to, and those of missing burgers. */
  ghost function Failing(t: Tables, due: seq<Due>, failing: set<Entity>): set<Entity>
  {
    failing + set d | d in due && Missing(t, d.ticket.entity) :: d.ticket.entity
  }

  function Successes(due: seq<Due>, failing: set<Entity>): nat
  {
    if due == [] then 0
    else Successes(due[..|due| - 1], failing) + (if due[|due| - 1].ticket.entity in failing then 0 else 1)
  }

  lemma {:induction false} RequestedAllConcat(t: Tables, a: seq<Entity>, b: seq<Entity>)
    ensures RequestedAll(t, a + b) == RequestedAll(RequestedAll(t, a), b)
  {
    if b == [] {
      assert a + b == a;
    } else {
      assert (a + b)[..|a + b| - 1] == a + b[..|b| - 1];
      RequestedAllConcat(t, a, b[..|b| - 1]);
    }
  }

  lemma RequestedStep(t: Tables, es: seq<Entity>, i: nat)
    requires i < |es|
    ensures RequestedAll(t, es[..i + 1]) == Requested(RequestedAll(t, es[..i]), es[i])
  {
    assert es[..i + 1][..i] == es[..i];
  }

  /** One ordered read of all ratings dealt out to their authors. */
  method DealtOut(rows: seq<Row>, users: set<nat>) returns (histories: map<nat, seq<real>>)
    requires forall r :: r in rows ==> r.review.author in users
    ensures histories.Keys == users
    ensures forall u :: u in users ==> histories[u] == RatingsOf(ByAuthor(rows, u))
  {
    hide RatingsOf, ByAuthor;
    histories := map u | u in users :: [];
    forall u | u in users
      ensures RatingsOf(ByAuthor(rows[..0], u)) == []
    {
      NoRatings(rows, u);
    }
    for i := 0 to |rows|
      invariant histories.Keys == users
      invariant forall u :: u in users ==> histories[u] == RatingsOf(ByAuthor(rows[..i], u))
    {
      assert rows[i] in rows;
      forall u | u in users
        ensures RatingsOf(ByAuthor(rows[..i + 1], u)) == RatingsOf(ByAuthor(rows[..i], u)) +
                (if rows[i].review.author == u then [rows[i].review.rating as real] else [])
      {
        RatingsStep(rows, i, u);
      }
      var author := rows[i].review.author;
      histories := histories[author := histories[author] + [rows[i].review.rating as real]];
    }
    assert rows[..|rows|] == rows;
  }

  class StatsDatabase {
    var reviews: map<nat, Review>
    var discarded: set<nat>
    var burgers: set<nat>
    var shops: set<nat>
    var links: set<(nat, nat)>
    var requests: map<Entity, Request>
    var stats: map<Entity, StatRow>
    var burgerSeq: nat
    var shopSeq: nat

    ghost function T(): Tables
      reads this
    {
      Tables(reviews, discarded, burgers, shops, links, requests, stats, burgerSeq, shopSeq)
    }

    // ---- Statements ----

    method RequestRecalc(e: Entity)
      modifies this`requests, this`burgerSeq, this`shopSeq
      ensures T() == Requested(old(T()), e)
      ensures requests == old(requests)[e := requests[e]] && DueAtOnce(requests[e])
    {
      var next := if e.kind == Burgers then burgerSeq else shopSeq;
      if e in requests {
        next := next + 1;
      }
      requests := requests[e := Request(next, 0, None)];
      if e.kind == Burgers {
        burgerSeq := next + 1;
      } else {
        shopSeq := next + 1;
      }
    }

    method CompleteRecalc(e: Entity, version: nat) returns (deleted: bool)
      modifies this`requests
      ensures T() == Completed(old(T()), e, version)
      ensures deleted <==> requests != old(requests)
    {
      deleted := e in requests && requests[e].version == version;
      if deleted {
        requests := requests - {e};
        assert e !in requests;
      }
    }

    method RecordRecalcFailure(e: Entity, version: nat, nextAttemptAt: int) returns (updated: bool)
      modifies this`requests
      ensures T() == FailureRecorded(old(T()), e, version, nextAttemptAt)
      ensures updated <==> e in old(requests) && old(requests[e].version) == version
    {
      updated := e in requests && requests[e].version == version;
      if updated {
        requests := requests[e := Request(version, requests[e].attempts + 1, Some(nextAttemptAt))];
      }
    }

    method ListBurgerShopIDs(burger: nat) returns (ids: seq<nat>)
      ensures ids == Ascending(LinkedShops(T(), {burger}))
    {
      var linked := set p | p in links && p.1 in {burger} :: p.0;
      assert linked == LinkedShops(T(), {burger});
      ids := List(linked, Less);
    }

    method ListReviewedBurgerIDsByUser(user: nat) returns (ids: seq<nat>)
      ensures ids == Ascending(ReviewedBurgers(T(), user))
    {
      var reviewed := set id | id in reviews && reviews[id].kept && reviews[id].author == user :: reviews[id].burger;
      assert reviewed == ReviewedBurgers(T(), user);
      ids := List(reviewed, Less);
    }

    // ---- Requests of a writer transaction ----

    method RequestInOrder(kind: Kind, ids: seq<nat>)
      modifies this`requests, this`burgerSeq, this`shopSeq
      ensures T() == RequestedAll(old(T()), Entities(kind, ids))
    {
      ghost var es := Entities(kind, ids);
      for i := 0 to |ids|
        invariant T() == RequestedAll(old(T()), es[..i])
      {
        RequestedStep(old(T()), es, i);
        RequestRecalc(Entity(kind, ids[i]));
      }
      assert es[..|ids|] == es;
    }

    method RequestRecalculationReviewedBy(user: nat)
      modifies this`requests, this`burgerSeq, this`shopSeq
      ensures T() == RequestedAll(old(T()), Entities(Burgers, Ascending(ReviewedBurgers(old(T()), user))))
    {
      var ids := ListReviewedBurgerIDsByUser(user);
      RequestInOrder(Burgers, ids);
    }

    /** Adds the shops of one burger that are not in the list yet. */
    method AddUnseen(seen: set<nat>, shopIDs: seq<nat>, ids: seq<nat>) returns (seen': set<nat>, shopIDs': seq<nat>)
      requires seen == Elements(shopIDs)
      ensures seen' == seen + Elements(ids) == Elements(shopIDs')
    {
      seen', shopIDs' := seen, shopIDs;
      for j := 0 to |ids|
        invariant seen' == seen + Elements(ids[..j]) == Elements(shopIDs')
      {
        ElementsStep(ids, j);
        if ids[j] !in seen' {
          seen' := seen' + {ids[j]};
          shopIDs' := shopIDs' + [ids[j]];
        }
      }
      assert ids[..|ids|] == ids;
    }

    /** Collects the shops of all the burgers without duplicates, sorts them, and requests each. */
    method RequestRecalculationForBurgers(burgerIDs: seq<nat>)
      modifies this`requests, this`burgerSeq, this`shopSeq
      ensures T() == RequestedAll(old(T()), Entities(Shops, Ascending(LinkedShops(old(T()), Elements(burgerIDs)))))
    {
      hide T;
      var seen: set<nat> := {};
      var shopIDs: seq<nat> := [];
      for i := 0 to |burgerIDs|
        invariant T() == old(T())
        invariant seen == LinkedShops(T(), Elements(burgerIDs[..i])) == Elements(shopIDs)
      {
        hide LinkedShops, Elements;
        var ids := ListBurgerShopIDs(burgerIDs[i]);
        AscendingElements(LinkedShops(T(), {burgerIDs[i]}));
        seen, shopIDs := AddUnseen(seen, shopIDs, ids);
        ElementsStep(burgerIDs, i);
        LinkedShopsUnion(T(), Elements(burgerIDs[..i]), {burgerIDs[i]});
      }
      assert burgerIDs[..|burgerIDs|] == burgerIDs;
      var distinct := set x | x in shopIDs;
      assert distinct == Elements(shopIDs);
      var sorted := List(distinct, Less);
      RequestInOrder(Shops, sorted);
    }

    method RequestForBurger(burger: nat)
      modifies this`requests, this`burgerSeq, this`shopSeq
      ensures T() == RequestedAll(old(T()), Touched(old(T()), {burger}))
    {
      RequestRecalc(Entity(Burgers, burger));
      RequestRecalculationForBurgers([burger]);
      BurgerRequests(old(T()), burger);
    }

    // ---- Writer transactions ----

    method CreateReview(id: nat, review: Review, newBurgerAt: Option<nat>) returns (r: Result<(), Error>)
      requires id !in reviews
      modifies this
      ensures var w := Written(old(T()), Write.CreateReview(id, review, newBurgerAt));
              r.Ok? == w.Ok? && T() == (if w.Ok? then w.value else old(T()))
      ensures r.Ok? <==> match newBurgerAt
                         case None => review.burger in old(burgers)
                         case Some(shop) => review.burger !in old(burgers) && shop in old(shops)
      ensures r.Ok? ==> reviews == old(reviews)[id := review] && burgers == old(burgers) + {review.burger}
      ensures r.Ok? ==> links == old(links) + if newBurgerAt.Some? then {(newBurgerAt.value, review.burger)} else {}
    {
      match newBurgerAt {
        case None =>
          if review.burger !in burgers {
            return Err(NotFound);
          }
        case Some(shop) =>
          if review.burger in burgers || shop !in shops {
            return Err(NotFound);
          }
          burgers := burgers + {review.burger};
          links := links + {(shop, review.burger)};
      }
      reviews := reviews[id := review];
      assert T() == Changed(old(T()), Write.CreateReview(id, review, newBurgerAt));
      ghost var t1 := T();
      RequestForBurger(review.burger);
      RequestsChangeNoReviews(t1, Touched(t1, {review.burger}));
      return Ok(());
    }

    method UpdateReview(id: nat, rating: int, photoKey: Option<nat>) returns (r: Result<(), Error>)
      modifies this
      ensures var w := Written(old(T()), EditReview(id, rating, photoKey));
              r.Ok? == w.Ok? && T() == (if w.Ok? then w.value else old(T()))
      ensures r.Ok? <==> id in old(reviews) && old(reviews)[id].kept
      ensures r.Ok? ==> OthersSame(old(reviews), reviews, id) && EditOf(old(reviews)[id], reviews[id], rating, photoKey)
    {
      if id !in reviews || !reviews[id].kept {
        return Err(NotFound);
      }
      var updated := reviews[id].(rating := rating);
      if photoKey.Some? {
        updated := updated.(photoKey := photoKey);
      }
      reviews := reviews[id := updated];
      assert T() == Changed(old(T()), EditReview(id, rating, photoKey));
      ghost var t1 := T();
      RequestForBurger(updated.burger);
      RequestsChangeNoReviews(t1, Touched(t1, {updated.burger}));
      return Ok(());
    }

    method DeleteReview(id: nat) returns (r: Result<(), Error>)
      modifies this
      ensures var w := Written(old(T()), DiscardReview(id));
              r.Ok? == w.Ok? && T() == (if w.Ok? then w.value else old(T()))
      ensures r.Ok? <==> id in old(reviews) && old(reviews)[id].kept
      ensures r.Ok? ==> OthersSame(old(reviews), reviews, id) && reviews[id] == old(reviews)[id].(kept := false)
    {
      if id !in reviews || !reviews[id].kept {
        return Err(NotFound);
      }
      var burger := reviews[id].burger;
      reviews := reviews[id := reviews[id].(kept := false)];
      assert T() == Changed(old(T()), DiscardReview(id));
      ghost var t1 := T();
      RequestForBurger(burger);
      RequestsChangeNoReviews(t1, Touched(t1, {burger}));
      return Ok(());
    }

    /** The part of an account deletion that concerns the statistics. */
    method DeleteAccount(user: nat) returns (r: Result<(), Error>)
      modifies this
      ensures var w := Written(old(T()), DeleteUser(user));
              r.Ok? == w.Ok? && T() == (if w.Ok? then w.value else old(T()))
      ensures r.Ok? <==> user !in old(discarded)
      ensures r.Ok? ==> discarded == old(discarded) + {user} && reviews == old(reviews)
    {
      if user in discarded {
        return Err(NotFound);
      }
      discarded := discarded + {user};
      ghost var t1 := T();
      assert t1 == Changed(old(T()), DeleteUser(user));
      RequestRecalculationReviewedBy(user);
      var ids := ListReviewedBurgerIDsByUser(user);
      RequestRecalculationForBurgers(ids);
      DeletionRequests(t1, user);
      RequestsChangeNoReviews(t1, Touched(t1, ReviewedBurgers(t1, user)));
      return Ok(());
    }

    // ---- The recalculation ----

    /** The past ratings of each listed user, from one ordered read dealt out per user. */
    method LoadReviewerHistories(userIDs: seq<nat>) returns (histories: map<nat, seq<real>>)
      ensures forall u :: u in userIDs ==> u in histories && histories[u] == History(T(), u)
    {
      var users := set u | u in userIDs;
      var read := set id | id in reviews && reviews[id].kept && reviews[id].author in users :: Row(id, reviews[id]);
      assert read == KeptBy(T(), users);
      KeyedOrders(read);
      var rows := List(read, RowBefore);
      histories := DealtOut(rows, users);
      forall u | u in users
        ensures histories[u] == History(T(), u)
      {
        HistoryOfRead(T(), users, u);
      }
    }

    method ListBurgerReviewFacts(burger: nat) returns (facts: seq<ReviewFact>)
      ensures facts == BurgerFacts(T(), burger)
    {
      hide History, Counted, KeptBy, T, Rows;
      var rows := ListCounted(Entity(Burgers, burger));
      var userIDs := seq(|rows|, i requires 0 <= i < |rows| => rows[i].review.author);
      var histories := LoadReviewerHistories(userIDs);
      facts := [];
      for i := 0 to |rows|
        invariant facts == BurgerFacts(T(), burger)[..i]
      {
        assert userIDs[i] in userIDs;
        facts := facts + [ReviewFact(rows[i].review.rating as real, rows[i].review.createdAt, histories[userIDs[i]])];
      }
    }

    method ListShopReviewFacts(shop: nat) returns (facts: seq<ShopReviewFact>)
      ensures facts == ShopFacts(T(), shop)
    {
      hide History, Counted, KeptBy, T, Rows;
      var rows := ListCounted(Entity(Shops, shop));
      var userIDs := seq(|rows|, i requires 0 <= i < |rows| => rows[i].review.author);
      var histories := LoadReviewerHistories(userIDs);
      facts := [];
      for i := 0 to |rows|
        invariant facts == ShopFacts(T(), shop)[..i]
      {
        assert userIDs[i] in userIDs;
        facts := facts + [ShopReviewFact(rows[i].id, rows[i].review.rating as real, rows[i].review.createdAt,
                                         rows[i].review.photoKey, histories[userIDs[i]])];
      }
    }

    method ListCounted(e: Entity) returns (rows: seq<Row>)
      ensures rows == Rows(Counted(T(), e))
    {
      var counted := set id | id in reviews && reviews[id].kept && reviews[id].author !in discarded &&
        (if e.kind == Burgers then reviews[id].burger == e.id else (e.id, reviews[id].burger) in links) ::
          Row(id, reviews[id]);
      assert counted == Counted(T(), e);
      KeyedOrders(counted);
      rows := List(counted, RowBefore);
    }

    /** One worker transaction: lock, read facts, save, and delete the request if unchanged. */
    method Recalculate(k: Ticket, now: int, decay: Decay) returns (r: Result<Option<StatRow>, Error>)
      modifies this`stats, this`requests
      ensures r.Err? <==> k.entity.kind == Burgers && k.entity.id !in old(burgers)
      ensures T() == if r.Ok? then Finished(old(T()), k, r.value) else old(T())
      ensures r.Ok? ==> Computed(old(T()), k.entity, now, decay, r.value)
    {
      var e, row := k.entity, None;
      if e.kind == Burgers {
        if e.id !in burgers {
          return Err(NotFound);
        }
        var facts := ListBurgerReviewFacts(e.id);
        var stat := CalculateBurgerStat(facts, now, decay);
        row := Some(BurgerRow(stat));
      } else if e.id in shops {
        var facts := ListShopReviewFacts(e.id);
        var stat := CalculateShopStat(facts, now, decay);
        row := Some(ShopRow(stat));
      }
      if row.Some? {
        stats := stats[e := row.value];
      }
      var _ := CompleteRecalc(e, k.version);
      return Ok(row);
    }

    method ListDue(kind: Kind, now: int, maxAttempts: nat, batch: nat) returns (due: seq<Due>)
      ensures due == DueList(T(), kind, now, maxAttempts, batch)
      ensures |due| <= batch && EarliestFirst(due)
      ensures forall d :: d in due ==>
                ListsRequest(requests, d) && Awaits(d.ticket.entity, requests, kind, now, maxAttempts)
      ensures forall e :: Awaits(e, requests, kind, now, maxAttempts) ==> Served(due, batch, e, requests[e])
    {
      var all :=
        set e | e in requests && e.kind == kind && IsDue(requests[e], now, maxAttempts) :: DueOf(e, requests[e]);
      assert all == DueSet(T(), kind, now, maxAttempts);
      DueOrders(T(), kind, now, maxAttempts);
      due := List(all, DueBefore);
      if |due| > batch {
        due := due[..batch];
      }
      ListedEarliestFirst(T(), kind, now, maxAttempts, batch);
      assert T().requests == requests;
      hide T, DueList, EarliestFirst, ListsRequest, Awaits, Served;
    }

    /** A failed recalculation leaves no trace but the record of its failure, if that can be recorded. */
    method Handle(k: Ticket, fails: bool, recorded: bool, now: int, decay: Decay) returns (ok: bool)
      modifies this`stats, this`requests
      ensures ok <==> !fails && !Missing(old(T()), k.entity)
      ensures if ok || recorded then Handled(old(T()), T(), k, !ok, now, decay) else T() == old(T())
      ensures SameBurgers(old(T()), T())
    {
      ok := !fails;
      if ok {
        var r := Recalculate(k, now, decay);
        ok := r.Ok?;
        assert ok ==> Computed(old(T()), k.entity, now, decay, r.value);
      }
      if !ok && recorded {
        var _ := RecordRecalcFailure(k.entity, k.version, now + RetryDelay(k.attempts + 1));
      }
    }

    /**
     * One cycle in which the recalculations of `failing` fail, the failures of `unrecorded` cannot be
     * recorded, and the context is cancelled after `stop` requests (a recalculation it interrupts is
     * rolled back and not recorded). The trace is the tables in between.
     */
    method RunOnce(kind: Kind, clock: Clock, maxAttempts: nat, batch: nat, failing: set<Entity>,
                   unrecorded: set<Entity>, stop: nat, decay: Decay)
      returns (done: nat, cancelled: bool, ghost trace: seq<Tables>)
      modifies this`stats, this`requests
      ensures var all := DueList(old(T()), kind, clock(0), maxAttempts, batch);
              var due := if stop < |all| then all[..stop] else all;
              var failed := Failing(old(T()), all, failing);
              && HandledAll(trace, due, failed, unrecorded, clock, decay)
              && trace[0] == old(T()) && trace[|due|] == T()
              && done == |set i | 0 <= i < |due| && due[i].ticket.entity !in failed| && (cancelled <==> stop < |all|)
    {
      hide T, Handled, DueList, HandledAll, Failing, EarliestFirst, ListsRequest, Awaits, Served;
      ghost var before := T();
      var due := ListDue(kind, clock(0), maxAttempts, batch);
      ghost var failed := Failing(before, due, failing);
      done, cancelled := 0, false;
      trace := [T()];
      NothingHandledYet(before, due, failed, unrecorded, clock, decay);
      var i := 0;
      while i < |due|
        invariant 0 <= i <= |due| && i <= stop && !cancelled
        invariant SameBurgers(before, T())
        invariant HandledAll(trace, due[..i], failed, unrecorded, clock, decay)
        invariant |trace| == i + 1 && trace[0] == before && trace[i] == T()
        invariant done == Successes(due[..i], failed)
      {
        if i == stop {
          CountSuccesses(due[..i], failed);
          return done, true, trace;
        }
        assert due[..i + 1][..i] == due[..i];
        var k := due[i].ticket;
        ghost var t := T();
        FailingMember(before, t, due, failing, i);
        var ok := Handle(k, k.entity in failing, k.entity !in unrecorded, clock(i + 1), decay);
        if ok {
          done := done + 1;
        }
        HandledOneMore(trace, due, i, t, T(), failed, unrecorded, clock, decay);
        trace := trace + [T()];
        i := i + 1;
      }
      assert due[..|due|] == due;
      CountSuccesses(due, failed);
    }
  }

  lemma {:induction false} CountSuccesses(due: seq<Due>, failing: set<Entity>)
    ensures Successes(due, failing) == |set i | 0 <= i < |due| && due[i].ticket.entity !in failing|
  {
    var at := set i | 0 <= i < |due| && due[i].ticket.entity !in failing;
    if due != [] {
      var n := |due| - 1;
      var init := due[..n];
      CountSuccesses(init, failing);
      var before := set i | 0 <= i < |init| && init[i].ticket.entity !in failing;
      assert at == before + (if due[n].ticket.entity in failing then {} else {n});
      assert n !in before;
    } else {
      assert at == {};
    }
  }

  ghost predicate SameBurgers(t: Tables, t': Tables) { t'.burgers == t.burgers }

  lemma NothingHandledYet(t: Tables, due: seq<Due>, failing: set<Entity>, unrecorded: set<Entity>, clock: Clock,
                          decay: Decay)
    ensures HandledAll([t], due[..0], failing, unrecorded, clock, decay)
  {
  }

  lemma HandledOneMore(trace: seq<Tables>, due: seq<Due>, i: nat, t: Tables, t': Tables, failing: set<Entity>,
                       unrecorded: set<Entity>, clock: Clock, decay: Decay)
    requires i < |due| && HandledAll(trace, due[..i], failing, unrecorded, clock, decay) && trace[i] == t
    requires if due[i].ticket.entity in failing * unrecorded then t' == t
             else Handled(t, t', due[i].ticket, due[i].ticket.entity in failing, clock(i + 1), decay)
    ensures HandledAll(trace + [t'], due[..i + 1], failing, unrecorded, clock, decay)
  {
    hide Handled;
    assert forall j :: 0 <= j < i ==> due[..i + 1][j] == due[..i][j];
  }

  lemma FailingMember(t: Tables, t': Tables, due: seq<Due>, failing: set<Entity>, i: nat)
    requires SameBurgers(t, t') && i < |due|
    ensures var e := due[i].ticket.entity; e in Failing(t, due, failing) <==> e in failing || Missing(t', e)
  {
    assert due[i] in due;
  }

  ghost function Elements(xs: seq<nat>): set<nat> { set x | x in xs }

  lemma ElementsStep(xs: seq<nat>, i: nat)
    requires i < |xs|
    ensures Elements(xs[..i + 1]) == Elements(xs[..i]) + {xs[i]}
  {
  }

  lemma AscendingElements(s: set<nat>)
    ensures Elements(Ascending(s)) == s
  {
  }

  lemma BurgerRequests(t: Tables, burger: nat)
    ensures var t1 := Requested(t, Entity(Burgers, burger));
            RequestedAll(t1, Entities(Shops, Ascending(LinkedShops(t1, Elements([burger]))))) ==
            RequestedAll(t, Touched(t, {burger}))
  {
    var one := Entities(Burgers, Ascending({burger}));
    assert Ascending({burger}) == [burger];
    assert one == [Entity(Burgers, burger)] && one[..0] == [] && one[..1] == one;
    RequestedStep(t, one, 0);
    assert Elements([burger]) == {burger};
    var t1 := Requested(t, Entity(Burgers, burger));
    assert LinkedShops(t1, {burger}) == LinkedShops(t, {burger});
    RequestedAllConcat(t, one, Entities(Shops, Ascending(LinkedShops(t, {burger}))));
  }

  lemma SameReviews(t: Tables, t1: Tables, user: nat)
    requires t1.reviews == t.reviews && t1.links == t.links
    ensures ReviewedBurgers(t1, user) == ReviewedBurgers(t, user)
    ensures forall burgers :: LinkedShops(t1, burgers) == LinkedShops(t, burgers)
  {
  }

  lemma DeletionRequests(t: Tables, user: nat)
    ensures var t1 := RequestedAll(t, Entities(Burgers, Ascending(ReviewedBurgers(t, user))));
            var again := Elements(Ascending(ReviewedBurgers(t1, user)));
            RequestedAll(t1, Entities(Shops, Ascending(LinkedShops(t1, again)))) ==
            RequestedAll(t, Touched(t, ReviewedBurgers(t, user)))
  {
    var burgers := ReviewedBurgers(t, user);
    var first := Entities(Burgers, Ascending(burgers));
    var t1 := RequestedAll(t, first);
    RequestsRaised(t, first);
    SameReviews(t, t1, user);
    AscendingElements(burgers);
    hide ReviewedBurgers, LinkedShops, Elements, RequestedAll;
    RequestedAllConcat(t, first, Entities(Shops, Ascending(LinkedShops(t, burgers))));
  }

  lemma LinkedShopsUnion(t: Tables, a: set<nat>, b: set<nat>)
    ensures LinkedShops(t, a + b) == LinkedShops(t, a) + LinkedShops(t, b)
  {
  }

  function ByAuthor(rows: seq<Row>, author: nat): seq<Row>
  {
    if rows == [] then []
    else ByAuthor(rows[..|rows| - 1], author) +
         (if rows[|rows| - 1].review.author == author then [rows[|rows| - 1]] else [])
  }

  lemma NoRatings(rows: seq<Row>, author: nat)
    ensures RatingsOf(ByAuthor(rows[..0], author)) == []
  {
  }

  lemma RatingsStep(rows: seq<Row>, i: nat, author: nat)
    requires i < |rows|
    ensures RatingsOf(ByAuthor(rows[..i + 1], author)) == RatingsOf(ByAuthor(rows[..i], author)) +
            (if rows[i].review.author == author then [rows[i].review.rating as real] else [])
  {
    assert rows[..i + 1][..i] == rows[..i];
  }

  lemma {:induction false} ByAuthorSorted(rows: seq<Row>, author: nat)
    requires Sorted(rows, RowBefore)
    ensures Sorted(ByAuthor(rows, author), RowBefore)
    ensures forall r :: r in ByAuthor(rows, author) <==> r in rows && r.review.author == author
  {
    if rows != [] {
      var init, last := rows[..|rows| - 1], rows[|rows| - 1];
      ByAuthorSorted(init, author);
      assert forall r :: r in rows <==> r in init || r == last;
      assert forall r :: r in init ==> RowBefore(r, last);
    }
  }

  /** Dealing out one ordered read gives each user the same list as reading that user alone. */
  lemma HistoryOfRead(t: Tables, users: set<nat>, user: nat)
    requires user in users
    ensures RatingsOf(ByAuthor(Rows(KeptBy(t, users)), user)) == History(t, user)
  {
    KeyedOrders(KeptBy(t, users));
    KeyedOrders(KeptBy(t, {user}));
    var rows := Rows(KeptBy(t, users));
    ByAuthorSorted(rows, user);
    SortedUnique(ByAuthor(rows, user), Rows(KeptBy(t, {user})), RowBefore);
  }
}
