/**
 * The tables behind the derived statistics of burgers and shops, and what one transaction does to
 * them: writers change reviews and upsert versioned recalculation requests, a worker recomputes a
 * row and deletes the request only if its version is still the one it listed.
 *
 * Burger and shop queues are the same mechanism, so one entity type serves both. Ids are natural
 * numbers in the order of the UUIDs they stand for.
 */
module StatsTables {
  import opened Listings
  import opened Scores
  import opened ShopSummaries
  import opened Wrappers

  datatype Kind = Burgers | Shops

  datatype Entity = Entity(kind: Kind, id: nat)

  datatype Review = Review(burger: nat, author: nat, rating: int, createdAt: int,
                           photoKey: Option<nat>, kept: bool)

  datatype Request = Request(version: nat, attempts: nat, nextAttemptAt: Option<int>)

  datatype StatRow = BurgerRow(burger: BurgerStat) | ShopRow(shop: ShopStat)

  datatype Tables = Tables(
    reviews: map<nat, Review>,
    discarded: set<nat>,            // users that deleted their account
    burgers: set<nat>,
    shops: set<nat>,
    links: set<(nat, nat)>,         // (shop, burger)
    requests: map<Entity, Request>,
    stats: map<Entity, StatRow>,
    burgerSeq: nat,                 // the next value of each version sequence
    shopSeq: nat
  )

  datatype Error = NotFound

  // ---- What counts ----

  /** A review is counted while neither it nor its author is discarded. */
  predicate CountsFor(t: Tables, e: Entity, id: nat)
  {
    && id in t.reviews
    && var r := t.reviews[id];
       && r.kept
       && r.author !in t.discarded
       && (if e.kind == Burgers then r.burger == e.id else (e.id, r.burger) in t.links)
  }

  datatype Row = Row(id: nat, review: Review)

  function Counted(t: Tables, e: Entity): set<Row>
  {
    set id | id in t.reviews && CountsFor(t, e, id) :: Row(id, t.reviews[id])
  }

  /** Every kept review of the given users, whatever the burger. */
  function KeptBy(t: Tables, users: set<nat>): set<Row>
  {
    set id | id in t.reviews && t.reviews[id].kept && t.reviews[id].author in users :: Row(id, t.reviews[id])
  }

  /** ORDER BY created_at, id */
  predicate RowBefore(a: Row, b: Row)
  {
    a.review.createdAt < b.review.createdAt || (a.review.createdAt == b.review.createdAt && a.id < b.id)
  }

  /** No two rows share an id. */
  ghost predicate Keyed(rows: set<Row>)
  {
    forall x, y :: x in rows && y in rows && x.id == y.id ==> x == y
  }

  lemma KeyedOrders(rows: set<Row>)
    requires Keyed(rows)
    ensures Orders(RowBefore, rows)
  {
  }

  ghost function Rows(rows: set<Row>): (xs: seq<Row>)
    requires Keyed(rows)
    ensures |xs| == |rows| && forall x :: x in xs <==> x in rows
  {
    KeyedOrders(rows);
    Listed(rows, RowBefore)
  }

  function RatingsOf(rows: seq<Row>): (ratings: seq<real>)
    ensures |ratings| == |rows|
  {
    seq(|rows|, i requires 0 <= i < |rows| => rows[i].review.rating as real)
  }

  ghost function History(t: Tables, user: nat): seq<real>
  {
    RatingsOf(Rows(KeptBy(t, {user})))
  }

  ghost function BurgerFacts(t: Tables, burger: nat): (facts: seq<ReviewFact>)
  {
    var rows := Rows(Counted(t, Entity(Burgers, burger)));
    seq(|rows|, i requires 0 <= i < |rows| =>
      ReviewFact(rows[i].review.rating as real, rows[i].review.createdAt, History(t, rows[i].review.author)))
  }

  ghost function ShopFacts(t: Tables, shop: nat): (facts: seq<ShopReviewFact>)
  {
    var rows := Rows(Counted(t, Entity(Shops, shop)));
    seq(|rows|, i requires 0 <= i < |rows| =>
      ShopReviewFact(rows[i].id, rows[i].review.rating as real, rows[i].review.createdAt,
                     rows[i].review.photoKey, History(t, rows[i].review.author)))
  }

  // ---- One statement ----

  /**
   * The upsert of a recalculation request. INSERT draws a number for its default, ON CONFLICT
   * draws a second one, so a conflicting upsert consumes two.
   */
  function Requested(t: Tables, e: Entity): Tables
  {
    var next := NextVersion(t, e.kind);
    var version := if e in t.requests then next + 1 else next;
    Advanced(t.(requests := t.requests[e := Request(version, 0, None)]), e.kind, version + 1)
  }

  function NextVersion(t: Tables, kind: Kind): nat
  {
    if kind == Burgers then t.burgerSeq else t.shopSeq
  }

  function Advanced(t: Tables, kind: Kind, next: nat): Tables
  {
    if kind == Burgers then t.(burgerSeq := next) else t.(shopSeq := next)
  }

  function RequestedAll(t: Tables, es: seq<Entity>): Tables
  {
    if es == [] then t else Requested(RequestedAll(t, es[..|es| - 1]), es[|es| - 1])
  }

  /** Compare-and-delete. */
  function Completed(t: Tables, e: Entity, version: nat): Tables
  {
    if e in t.requests && t.requests[e].version == version
    then t.(requests := t.requests - {e})
    else t
  }

  function FailureRecorded(t: Tables, e: Entity, version: nat, nextAttemptAt: int): Tables
  {
    if e in t.requests && t.requests[e].version == version
    then t.(requests := t.requests[e := Request(version, t.requests[e].attempts + 1, Some(nextAttemptAt))])
    else t
  }

  function Saved(t: Tables, e: Entity, row: StatRow): Tables
  {
    t.(stats := t.stats[e := row])
  }

  // ---- One writer transaction ----

  function ReviewedBurgers(t: Tables, user: nat): set<nat>
  {
    set id | id in t.reviews && t.reviews[id].kept && t.reviews[id].author == user :: t.reviews[id].burger
  }

  function LinkedShops(t: Tables, burgers: set<nat>): set<nat>
  {
    set p | p in t.links && p.1 in burgers :: p.0
  }

  function Entities(kind: Kind, ids: seq<nat>): (es: seq<Entity>)
    ensures |es| == |ids|
  {
    seq(|ids|, i requires 0 <= i < |ids| => Entity(kind, ids[i]))
  }

  /** Requests for the burgers in ascending order, then for the shops that serve them. */
  ghost function Touched(t: Tables, burgers: set<nat>): seq<Entity>
  {
    Entities(Burgers, Ascending(burgers)) + Entities(Shops, Ascending(LinkedShops(t, burgers)))
  }

  datatype Write =
    | CreateReview(id: nat, review: Review, newBurgerAt: Option<nat>) // posting by a burger name new to that shop
    | EditReview(id: nat, rating: int, photoKey: Option<nat>)
    | DiscardReview(id: nat)
    | DeleteUser(user: nat)

  /** Whether every statement of the transaction finds its row; if not, it is rolled back. */
  predicate Allowed(t: Tables, w: Write)
  {
    match w
    case CreateReview(_, review, newBurgerAt) => CanCreate(t, review, newBurgerAt)
    case EditReview(id, _, _) => id in t.reviews && t.reviews[id].kept
    case DiscardReview(id) => id in t.reviews && t.reviews[id].kept
    case DeleteUser(user) => user !in t.discarded
  }

  /** The tables after the writes of a transaction, before its requests. */
  function Changed(t: Tables, w: Write): Tables
    requires Allowed(t, w)
  {
    match w
    case CreateReview(id, review, newBurgerAt) => WithReview(t, id, review, newBurgerAt)
    case EditReview(id, rating, photoKey) => t.(reviews := t.reviews[id := Edited(t.reviews[id], rating, photoKey)])
    case DiscardReview(id) => t.(reviews := t.reviews[id := t.reviews[id].(kept := false)])
    case DeleteUser(user) => t.(discarded := t.discarded + {user})
  }

  /** The burgers a transaction asks to recalculate, read from its own changed tables. */
  function WrittenBurgers(t1: Tables, w: Write): set<nat>
  {
    match w
    case DeleteUser(user) => ReviewedBurgers(t1, user)
    case _ => if w.id in t1.reviews then {t1.reviews[w.id].burger} else {}
  }

  ghost function Written(t: Tables, w: Write): Result<Tables, Error>
  {
    if !Allowed(t, w) then Err(NotFound)
    else
      var t1 := Changed(t, w);
      Ok(RequestedAll(t1, Touched(t1, WrittenBurgers(t1, w))))
  }

  /** A posted review names a burger that exists, or one created with it in an existing shop. */
  predicate CanCreate(t: Tables, review: Review, newBurgerAt: Option<nat>)
  {
    match newBurgerAt
    case None => review.burger in t.burgers
    case Some(shop) => review.burger !in t.burgers && shop in t.shops
  }

  function WithReview(t: Tables, id: nat, review: Review, newBurgerAt: Option<nat>): Tables
  {
    var t1 := t.(reviews := t.reviews[id := review]);
    match newBurgerAt
    case None => t1
    case Some(shop) => t1.(burgers := t.burgers + {review.burger}, links := t.links + {(shop, review.burger)})
  }

  /** An edit without an upload leaves the photo key alone. */
  function Edited(review: Review, rating: int, photoKey: Option<nat>): Review
  {
    review.(rating := rating, photoKey := if photoKey.Some? then photoKey else review.photoKey)
  }

  // ---- The retry schedule ----

  const RETRY_BASE_DELAY := 2
  const RETRY_MAX_DELAY := 300

  function Pow2(n: nat): nat { if n == 0 then 1 else 2 * Pow2(n - 1) }

  /** Seconds until the next attempt after `failures` failures. */
  function RetryDelay(failures: int): int
  {
    if 1 <= failures <= 20 && RETRY_BASE_DELAY * Pow2(failures - 1) < RETRY_MAX_DELAY
    then RETRY_BASE_DELAY * Pow2(failures - 1)
    else RETRY_MAX_DELAY
  }
}
