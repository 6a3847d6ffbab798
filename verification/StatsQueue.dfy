/**
 * The statistics queue as a protocol: atomic writers interleaved with any number of workers whose
 * transactions are split into lock, load and save-and-complete. In every reachable state a burger
 * or shop without a pending request shows the numbers of its current reviews.
 */
module StatsQueue {
  import opened Listings
  import opened Scores
  import opened ShopSummaries
  import opened StatsTables
  import opened Sums
  import opened Wrappers

  // ---- What "up to date" means ----

  /** The published numbers that depend on an entity's own reviews alone. */
  datatype Numbers = BurgerNumbers(count: nat, average: real) | ShopNumbers(count: nat, photoKey: Option<nat>)

  function NumbersOf(row: StatRow): Numbers
  {
    match row
    case BurgerRow(b) => BurgerNumbers(b.reviewCount, b.averageRating)
    case ShopRow(s) => ShopNumbers(s.reviewCount, s.photoKey)
  }

  /** An entity without a stored row reads as having no reviews. */
  function StoredNumbers(t: Tables, e: Entity): Numbers
  {
    if e in t.stats then NumbersOf(t.stats[e])
    else if e.kind == Burgers then BurgerNumbers(0, 0.0)
    else ShopNumbers(0, None)
  }

  ghost function PlainFacts(rows: seq<Row>): (facts: seq<ReviewFact>)
  {
    seq(|rows|, i requires 0 <= i < |rows| =>
      ReviewFact(rows[i].review.rating as real, rows[i].review.createdAt, []))
  }

  ghost predicate NewerRow(a: Row, b: Row) { RowBefore(b, a) }

  ghost predicate PhotoOf(rows: set<Row>, key: Option<nat>)
  {
    match key
    case None => forall r :: r in rows ==> r.review.photoKey.None?
    case Some(_) =>
      exists r :: r in rows && r.review.photoKey == key &&
                  forall q :: q in rows && q.review.photoKey.Some? ==> !NewerRow(q, r)
  }

  ghost predicate Agrees(rows: set<Row>, n: Numbers)
    requires Keyed(rows)
  {
    match n
    case BurgerNumbers(count, average) => count == |rows| && average == AverageRating(PlainFacts(Rows(rows)))
    case ShopNumbers(count, key) => count == |rows| && PhotoOf(rows, key)
  }

  ghost predicate Fresh(t: Tables, e: Entity)
  {
    Agrees(Counted(t, e), StoredNumbers(t, e))
  }

  lemma {:induction false} SumPointwise<T>(a: seq<T>, b: seq<T>, f: T -> real)
    requires |a| == |b| && forall i :: 0 <= i < |a| ==> f(a[i]) == f(b[i])
    ensures Sum(a, f) == Sum(b, f)
  {
    if a != [] {
      SumPointwise(a[..|a| - 1], b[..|b| - 1], f);
    }
  }

  /** What a worker is about to save for `e`: nothing when the shop is gone. */
  ghost predicate Computed(t: Tables, e: Entity, now: int, decay: Decay, row: Option<StatRow>)
  {
    if e.kind == Burgers then row == Some(BurgerRow(BurgerStatOf(BurgerFacts(t, e.id), now, decay)))
    else if e.id !in t.shops then row == None
    else row.Some? && row.value.ShopRow? && IsSummary(ShopFacts(t, e.id), now, decay, row.value.shop)
  }

  lemma BurgerStatAgrees(t: Tables, burger: nat, now: int, decay: Decay)
    ensures Agrees(Counted(t, Entity(Burgers, burger)),
                   NumbersOf(BurgerRow(BurgerStatOf(BurgerFacts(t, burger), now, decay))))
  {
    var rows := Rows(Counted(t, Entity(Burgers, burger)));
    var facts, plain := BurgerFacts(t, burger), PlainFacts(rows);
    assert |facts| == |plain| && forall i :: 0 <= i < |facts| ==> Rating()(facts[i]) == Rating()(plain[i]);
    SumPointwise(facts, plain, Rating());
  }

  /** The facts of a shop say of each review what its row says. */
  ghost predicate Mirrors(facts: seq<ShopReviewFact>, rows: seq<Row>)
  {
    && |facts| == |rows|
    && forall i :: 0 <= i < |facts| ==>
         && facts[i].id == rows[i].id && facts[i].createdAt == rows[i].review.createdAt
         && facts[i].photoKey == rows[i].review.photoKey
  }

  lemma FactsMirrorRows(t: Tables, shop: nat)
    ensures Mirrors(ShopFacts(t, shop), Rows(Counted(t, Entity(Shops, shop))))
  {
  }

  lemma NewestPhotoOfRows(facts: seq<ShopReviewFact>, rows: seq<Row>, all: set<Row>, key: Option<nat>)
    requires Mirrors(facts, rows) && IsNewestPhoto(facts, key) && forall r :: r in rows <==> r in all
    ensures PhotoOf(all, key)
  {
    if key.Some? {
      var i :| 0 <= i < |facts| && facts[i].photoKey == key && NewestAt(facts, i);
      assert rows[i] in rows;
      forall q | q in all && q.review.photoKey.Some?
        ensures !NewerRow(q, rows[i])
      {
        var j :| 0 <= j < |rows| && rows[j] == q;
        assert !NewerPhoto(facts[j], facts[i]);
      }
    } else {
      forall q | q in all
        ensures q.review.photoKey.None?
      {
        var j :| 0 <= j < |rows| && rows[j] == q;
        assert facts[j].photoKey.None?;
      }
    }
  }

  /** A row computed from the current tables carries the current numbers. */
  lemma ComputedAgrees(t: Tables, e: Entity, now: int, decay: Decay, row: Option<StatRow>)
    requires Computed(t, e, now, decay, row) && row.Some?
    ensures Agrees(Counted(t, e), NumbersOf(row.value))
  {
    if e.kind == Burgers {
      BurgerStatAgrees(t, e.id, now, decay);
    } else {
      var rows := Rows(Counted(t, e));
      FactsMirrorRows(t, e.id);
      hide ShopFacts, Counted;
      NewestPhotoOfRows(ShopFacts(t, e.id), rows, Counted(t, e), row.value.shop.photoKey);
    }
  }

  // ---- The protocol ----

  /** A request as a worker listed it, outside any transaction. */
  datatype Ticket = Ticket(entity: Entity, version: nat, attempts: nat)

  /** `Locked` and `Loaded` hold the row lock of the first ticket's entity. */
  datatype Phase = Between | Locked | Loaded(row: Option<StatRow>) | Failed

  datatype Worker = Worker(todo: seq<Ticket>, phase: Phase)

  datatype System = System(db: Tables, workers: map<nat, Worker>)

  datatype Step =
    | WriteStep(write: Write)
    | RemoveShop(shop: nat)                             // a foreign key keeps a shop with burgers
    | ListStep(worker: nat, tickets: seq<Ticket>)
    | LockStep(worker: nat)
    | LoadStep(worker: nat, now: int, row: Option<StatRow>)
    | FinishStep(worker: nat)                           // save, compare-and-delete, commit
    | FailStep(worker: nat)                             // an error anywhere rolls back
    | RecordStep(worker: nat, nextAttemptAt: int)
    | SkipStep(worker: nat)                             // the failure could not be recorded

  predicate Holds(w: Worker, e: Entity)
  {
    (w.phase.Locked? || w.phase.Loaded?) && w.todo != [] && w.todo[0].entity == e
  }

  ghost predicate Free(s: System, e: Entity)
  {
    forall w :: w in s.workers ==> !Holds(s.workers[w], e)
  }

  ghost predicate Enabled(s: System, step: Step, decay: Decay)
  {
    match step
    case WriteStep(write) => Allowed(s.db, write) && (write.CreateReview? ==> write.id !in s.db.reviews)
    case RemoveShop(shop) =>
      shop in s.db.shops && (forall p :: p in s.db.links ==> p.0 != shop) && Free(s, Entity(Shops, shop))
    case ListStep(w, tickets) =>
      && w in s.workers && s.workers[w] == Worker([], Between)
      && forall k :: k in tickets ==> k.entity in s.db.requests &&
                                      k.version == s.db.requests[k.entity].version &&
                                      k.attempts == s.db.requests[k.entity].attempts
    case LockStep(w) =>
      && w in s.workers && s.workers[w].phase == Between && s.workers[w].todo != []
      && (var e := s.workers[w].todo[0].entity; Free(s, e) && (e.kind == Burgers ==> e.id in s.db.burgers))
    case LoadStep(w, now, row) =>
      && w in s.workers && s.workers[w].phase == Locked && s.workers[w].todo != []
      && Computed(s.db, s.workers[w].todo[0].entity, now, decay, row)
    case FinishStep(w) => w in s.workers && s.workers[w].phase.Loaded? && s.workers[w].todo != []
    case FailStep(w) => w in s.workers && s.workers[w].todo != [] && s.workers[w].phase != Failed
    case RecordStep(w, _) => w in s.workers && s.workers[w].phase == Failed && s.workers[w].todo != []
    case SkipStep(w) => w in s.workers && s.workers[w].phase == Failed && s.workers[w].todo != []
  }

  ghost function After(s: System, step: Step, decay: Decay): System
    requires Enabled(s, step, decay)
  {
    match step
    case WriteStep(write) => s.(db := Written(s.db, write).value)
    case RemoveShop(shop) => s.(db := WithoutShop(s.db, shop))
    case ListStep(w, tickets) => s.(workers := s.workers[w := Worker(tickets, Between)])
    case LockStep(w) => s.(workers := s.workers[w := s.workers[w].(phase := Locked)])
    case LoadStep(w, _, row) => s.(workers := s.workers[w := s.workers[w].(phase := Loaded(row))])
    case FinishStep(w) =>
      System(Finished(s.db, s.workers[w].todo[0], s.workers[w].phase.row), s.workers[w := NextTicket(s.workers[w])])
    case FailStep(w) => s.(workers := s.workers[w := s.workers[w].(phase := Failed)])
    case RecordStep(w, at) =>
      var k := s.workers[w].todo[0];
      System(FailureRecorded(s.db, k.entity, k.version, at), s.workers[w := NextTicket(s.workers[w])])
    case SkipStep(w) => s.(workers := s.workers[w := NextTicket(s.workers[w])])
  }

  function NextTicket(w: Worker): Worker
    requires w.todo != []
  {
    Worker(w.todo[1..], Between)
  }

  /** The second half of a worker transaction. */
  function Finished(t: Tables, k: Ticket, row: Option<StatRow>): Tables
  {
    Completed(if row.Some? then Saved(t, k.entity, row.value) else t, k.entity, k.version)
  }

  /** Deleting a shop cascades to its statistics and its request. */
  function WithoutShop(t: Tables, shop: nat): Tables
  {
    var e := Entity(Shops, shop);
    t.(shops := t.shops - {shop}, requests := t.requests - {e}, stats := t.stats - {e})
  }

  ghost predicate Init(s: System)
  {
    && s.db.reviews == map[] && s.db.requests == map[] && s.db.stats == map[]
    && Linked(s.db)
    && forall w :: w in s.workers ==> s.workers[w] == Worker([], Between)
  }

  ghost predicate Linked(t: Tables)
  {
    forall p :: p in t.links ==> p.0 in t.shops
  }

  ghost predicate Takes(s: System, step: Step, s': System, decay: Decay)
  {
    Enabled(s, step, decay) && s' == After(s, step, decay)
  }

  /** `s` is reached by some run of `n` steps. */
  ghost predicate Reached(s: System, n: nat, decay: Decay)
    decreases n
  {
    if n == 0 then Init(s)
    else exists before, step :: Reached(before, n - 1, decay) && Takes(before, step, s, decay)
  }

  // ---- The invariant ----

  ghost predicate VersionsBelow(s: System)
  {
    && (forall e :: e in s.db.requests ==> s.db.requests[e].version < NextVersion(s.db, e.kind))
    && (forall w, k :: w in s.workers && k in s.workers[w].todo ==> k.version < NextVersion(s.db, k.entity.kind))
  }

  ghost predicate OneHolder(s: System)
  {
    forall v, w, e :: v in s.workers && w in s.workers && Holds(s.workers[v], e) && Holds(s.workers[w], e) ==> v == w
  }

  ghost predicate WellFormed(t: Tables)
  {
    && Linked(t)
    && forall e :: e in t.stats ==> (t.stats[e].BurgerRow? <==> e.kind == Burgers) &&
                                    (e.kind == Shops ==> e.id in t.shops)
  }

  /**
   * The heart of the matter: a worker that has loaded its facts either still has the current
   * numbers, or its entity has a pending request with another version than the one it listed.
   */
  ghost predicate CurrentOrOutdated(t: Tables, w: Worker)
  {
    w.phase.Loaded? ==>
      && w.todo != []
      && var k := w.todo[0];
         var row := w.phase.row;
         && (row.Some? ==> (row.value.BurgerRow? <==> k.entity.kind == Burgers) &&
                           (k.entity.kind == Shops ==> k.entity.id in t.shops))
         && (row.None? ==> k.entity.kind == Shops && k.entity.id !in t.shops)
         && ( || (row.Some? && Agrees(Counted(t, k.entity), NumbersOf(row.value)))
              || row.None?
              || (k.entity in t.requests && t.requests[k.entity].version != k.version))
  }

  /** Without a pending request the stored numbers are the current ones. */
  ghost predicate SettledIsFresh(t: Tables)
  {
    forall e :: e !in t.requests ==> Fresh(t, e)
  }

  ghost predicate Inv(s: System)
  {
    && VersionsBelow(s) && OneHolder(s) && WellFormed(s.db) && SettledIsFresh(s.db)
    && forall w :: w in s.workers ==> CurrentOrOutdated(s.db, s.workers[w])
  }

  // ---- What a writer transaction guarantees ----

  lemma {:induction false} RequestsRaised(t: Tables, es: seq<Entity>)
    ensures var t' := RequestedAll(t, es);
            && t' == t.(requests := t'.requests, burgerSeq := t'.burgerSeq, shopSeq := t'.shopSeq)
            && t.burgerSeq <= t'.burgerSeq && t.shopSeq <= t'.shopSeq
            && (forall e :: e in t'.requests <==> e in t.requests || e in es)
            && (forall e :: e in es ==> NextVersion(t, e.kind) <= t'.requests[e].version < NextVersion(t', e.kind))
            && (forall e :: e in t.requests && e !in es ==> t'.requests[e] == t.requests[e])
  {
    if es != [] {
      var init, last := es[..|es| - 1], es[|es| - 1];
      RequestsRaised(t, init);
      RequestRaised(RequestedAll(t, init), last);
      hide Requested;
      assert forall e :: e in es <==> e in init || e == last;
    }
  }

  lemma RequestRaised(t: Tables, e: Entity)
    ensures var t' := Requested(t, e);
            && t' == t.(requests := t'.requests, burgerSeq := t'.burgerSeq, shopSeq := t'.shopSeq)
            && t.burgerSeq <= t'.burgerSeq && t.shopSeq <= t'.shopSeq
            && e in t'.requests && t'.requests == t.requests[e := t'.requests[e]]
            && NextVersion(t, e.kind) <= t'.requests[e].version < NextVersion(t', e.kind)
  {
  }

  lemma EntityMembers(kind: Kind, ids: seq<nat>, e: Entity)
    ensures e in Entities(kind, ids) <==> e.kind == kind && e.id in ids
  {
    if e.kind == kind && e.id in ids {
      var i :| 0 <= i < |ids| && ids[i] == e.id;
      assert Entities(kind, ids)[i] == e;
    }
  }

  lemma TouchedMembers(t: Tables, burgers: set<nat>, e: Entity)
    ensures e in Touched(t, burgers) <==>
            if e.kind == Burgers then e.id in burgers else e.id in LinkedShops(t, burgers)
  {
    EntityMembers(Burgers, Ascending(burgers), e);
    EntityMembers(Shops, Ascending(LinkedShops(t, burgers)), e);
  }

  /**
   * From `t` to `t1` only reviews of the given burgers changed, and only those burgers gained
   * links. A review's burger never changes.
   */
  ghost predicate ChangesOnly(t: Tables, t1: Tables, burgers: set<nat>)
  {
    && (forall id :: id in t.reviews ==> id in t1.reviews && t1.reviews[id].burger == t.reviews[id].burger)
    && (forall id :: id in t1.reviews && t1.reviews[id].burger !in burgers ==> id in t.reviews && SameCount(t, t1, id))
    && t.links <= t1.links
    && (forall p :: p in t1.links && p !in t.links ==> p.1 in burgers)
  }

  predicate SameCount(t: Tables, t1: Tables, id: nat)
    requires id in t.reviews && id in t1.reviews
  {
    && t1.reviews[id] == t.reviews[id]
    && (t.reviews[id].kept ==> (t.reviews[id].author in t1.discarded <==> t.reviews[id].author in t.discarded))
  }

  lemma WriteChangesOnly(t: Tables, w: Write)
    requires Allowed(t, w) && (w.CreateReview? ==> w.id !in t.reviews)
    ensures ChangesOnly(t, Changed(t, w), WrittenBurgers(Changed(t, w), w))
  {
  }

  /** An entity that serves none of the changed burgers counts the same reviews as before. */
  lemma CountedUnchanged(t: Tables, t1: Tables, burgers: set<nat>, e: Entity)
    requires ChangesOnly(t, t1, burgers)
    requires if e.kind == Burgers then e.id !in burgers else forall b :: b in burgers ==> (e.id, b) !in t1.links
    ensures Counted(t1, e) == Counted(t, e)
  {
    forall id
      ensures CountsFor(t1, e, id) <==> CountsFor(t, e, id)
      ensures CountsFor(t, e, id) ==> t1.reviews[id] == t.reviews[id]
    {
      if id in t1.reviews && t1.reviews[id].burger !in burgers {
        assert SameCount(t, t1, id);
      }
    }
  }

  lemma UntouchedCounted(t: Tables, t1: Tables, burgers: set<nat>, e: Entity)
    requires ChangesOnly(t, t1, burgers) && e !in Touched(t1, burgers)
    ensures Counted(t1, e) == Counted(t, e)
  {
    TouchedMembers(t1, burgers, e);
    forall b | b in burgers && e.kind == Shops
      ensures (e.id, b) !in t1.links
    {
      assert (e.id, b) in t1.links ==> (e.id, b).0 in LinkedShops(t1, burgers);
    }
    CountedUnchanged(t, t1, burgers, e);
  }

  /**
   * What the queue needs of a writer transaction from `t` to `t'` that requested `es`: any entity
   * whose counted reviews changed has a request with a version drawn after `t`.
   */
  ghost predicate Effect(t: Tables, t': Tables, es: seq<Entity>)
  {
    && t'.stats == t.stats && t'.shops == t.shops
    && t.burgerSeq <= t'.burgerSeq && t.shopSeq <= t'.shopSeq
    && (forall e :: e in t'.requests <==> e in t.requests || e in es)
    && (forall e :: e in es ==> NextVersion(t, e.kind) <= t'.requests[e].version < NextVersion(t', e.kind))
    && (forall e :: e in t.requests && e !in es ==> t'.requests[e] == t.requests[e])
    && (forall e :: e !in es ==> Counted(t', e) == Counted(t, e))
  }

  lemma ChangedKeeps(t: Tables, w: Write)
    requires Allowed(t, w)
    ensures var t1 := Changed(t, w);
            && t1.stats == t.stats && t1.shops == t.shops && t1.requests == t.requests
            && t1.burgerSeq == t.burgerSeq && t1.shopSeq == t.shopSeq
            && (Linked(t) ==> Linked(t1))
  {
  }

  lemma RequestsLeaveCounted(t: Tables, es: seq<Entity>, e: Entity)
    ensures Counted(RequestedAll(t, es), e) == Counted(t, e)
  {
  }

  lemma RaisedEffect(t: Tables, t1: Tables, es: seq<Entity>)
    requires forall e :: e !in es ==> Counted(t1, e) == Counted(t, e)
    requires t1.stats == t.stats && t1.shops == t.shops && t1.requests == t.requests
    requires t1.burgerSeq == t.burgerSeq && t1.shopSeq == t.shopSeq
    ensures Effect(t, RequestedAll(t1, es), es)
  {
    RequestsRaised(t1, es);
    hide Counted, RequestedAll;
    forall e | e !in es
      ensures Counted(RequestedAll(t1, es), e) == Counted(t, e)
    {
      RequestsLeaveCounted(t1, es, e);
    }
  }

  ghost function TouchedBy(t: Tables, w: Write): seq<Entity>
    requires Allowed(t, w)
  {
    Touched(Changed(t, w), WrittenBurgers(Changed(t, w), w))
  }

  /** Whatever entity a writer changes the reviews of, it also requests anew. */
  lemma WriteEffect(t: Tables, w: Write)
    requires Allowed(t, w) && (w.CreateReview? ==> w.id !in t.reviews)
    ensures Effect(t, Written(t, w).value, TouchedBy(t, w))
    ensures Linked(t) ==> Linked(Written(t, w).value)
  {
    var t1, burgers := Changed(t, w), WrittenBurgers(Changed(t, w), w);
    ChangedKeeps(t, w);
    WriteChangesOnly(t, w);
    forall e | e !in Touched(t1, burgers)
      ensures Counted(t1, e) == Counted(t, e)
    {
      UntouchedCounted(t, t1, burgers, e);
    }
    RaisedEffect(t, t1, Touched(t1, burgers));
    RequestsRaised(t1, Touched(t1, burgers));
  }

  // ---- Every step keeps the invariant ----

  lemma EffectKeepsWorker(t: Tables, t': Tables, es: seq<Entity>, w: Worker)
    requires Effect(t, t', es) && CurrentOrOutdated(t, w)
    requires forall k :: k in w.todo ==> k.version < NextVersion(t, k.entity.kind)
    ensures CurrentOrOutdated(t', w)
  {
    if w.phase.Loaded? {
      assert w.todo[0] in w.todo;
    }
  }

  lemma EffectKeepsInv(s: System, t': Tables, es: seq<Entity>)
    requires Inv(s) && Effect(s.db, t', es) && Linked(t')
    ensures Inv(s.(db := t'))
  {
    var s' := s.(db := t');
    forall v | v in s'.workers
      ensures CurrentOrOutdated(t', s'.workers[v])
    {
      EffectKeepsWorker(s.db, t', es, s.workers[v]);
    }
    forall e | e !in t'.requests
      ensures Fresh(t', e)
    {
      assert Fresh(s.db, e);
    }
  }

  lemma WriteKeepsInv(s: System, w: Write, decay: Decay)
    requires Inv(s) && Enabled(s, WriteStep(w), decay)
    ensures Inv(After(s, WriteStep(w), decay))
  {
    WriteEffect(s.db, w);
    EffectKeepsInv(s, Written(s.db, w).value, TouchedBy(s.db, w));
  }

  lemma RemoveShopKeepsInv(s: System, shop: nat, decay: Decay)
    requires Inv(s) && Enabled(s, RemoveShop(shop), decay)
    ensures Inv(After(s, RemoveShop(shop), decay))
  {
    var s' := After(s, RemoveShop(shop), decay);
    var gone := Entity(Shops, shop);
    forall e
      ensures Counted(s'.db, e) == Counted(s.db, e)
    {
    }
    forall e | e !in s'.db.requests
      ensures Fresh(s'.db, e)
    {
      if e == gone {
        assert Counted(s'.db, e) == {};
        assert StoredNumbers(s'.db, e) == ShopNumbers(0, None);
      } else {
        assert Fresh(s.db, e);
      }
    }
    forall v | v in s'.workers
      ensures CurrentOrOutdated(s'.db, s'.workers[v])
    {
      assert CurrentOrOutdated(s.db, s.workers[v]) && !Holds(s.workers[v], gone);
    }
  }

  lemma FinishKeepsInv(s: System, w: nat, decay: Decay)
    requires Inv(s) && Enabled(s, FinishStep(w), decay)
    ensures Inv(After(s, FinishStep(w), decay))
  {
    var s' := After(s, FinishStep(w), decay);
    FinishKeepsTables(s.db, s.workers[w]);
    FinishKeepsWorkers(s, w, decay);
    assert VersionsBelow(s') && OneHolder(s') by {
      hide WellFormed, SettledIsFresh, CurrentOrOutdated;
    }
    hide VersionsBelow, OneHolder, CurrentOrOutdated, WellFormed, SettledIsFresh;
  }

  lemma FinishedCounts(t: Tables, k: Ticket, row: Option<StatRow>, e: Entity)
    ensures Counted(Finished(t, k, row), e) == Counted(t, e)
  {
  }

  /** What is saved is current, or outdated with a newer request left behind. */
  lemma FinishKeepsTables(t: Tables, w: Worker)
    requires WellFormed(t) && SettledIsFresh(t) && CurrentOrOutdated(t, w) && w.phase.Loaded?
    ensures w.todo != []
    ensures var t' := Finished(t, w.todo[0], w.phase.row); WellFormed(t') && SettledIsFresh(t')
  {
    var k, row := w.todo[0], w.phase.row;
    var t' := Finished(t, k, row);
    FinishedWellFormed(t, w);
    if k.entity !in t'.requests {
      FinishedEntityFresh(t, w);
    }
    FinishedChanges(t, k, row);
    hide Agrees, CurrentOrOutdated, WellFormed, Finished, StoredNumbers;
    forall e | e !in t'.requests
      ensures Fresh(t', e)
    {
      if e != k.entity {
        FinishedCounts(t, k, row, e);
        assert Fresh(t, e);
      }
    }
  }

  lemma FinishedWellFormed(t: Tables, w: Worker)
    requires WellFormed(t) && CurrentOrOutdated(t, w) && w.phase.Loaded?
    ensures WellFormed(Finished(t, w.todo[0], w.phase.row))
  {
    hide Agrees, Counted;
  }

  lemma FinishedEntityFresh(t: Tables, w: Worker)
    requires WellFormed(t) && CurrentOrOutdated(t, w) && w.phase.Loaded?
    requires w.todo[0].entity !in Finished(t, w.todo[0], w.phase.row).requests
    ensures Fresh(Finished(t, w.todo[0], w.phase.row), w.todo[0].entity)
  {
    var k, row := w.todo[0], w.phase.row;
    FinishedCounts(t, k, row, k.entity);
    FinishedWellFormed(t, w);
    hide Agrees, Counted;
    if row.None? {
      NoShopIsFresh(Finished(t, k, row), k.entity);
    }
  }

  lemma FinishedChanges(t: Tables, k: Ticket, row: Option<StatRow>)
    ensures var t' := Finished(t, k, row);
            && t' == t.(requests := t'.requests, stats := t'.stats)
            && forall f :: f != k.entity ==>
                 (f in t'.requests <==> f in t.requests) && StoredNumbers(t', f) == StoredNumbers(t, f)
  {
  }

  /** Nobody else has loaded facts of the entity this worker has locked. */
  lemma FinishKeepsWorkers(s: System, w: nat, decay: Decay)
    requires OneHolder(s) && Enabled(s, FinishStep(w), decay)
    requires forall v :: v in s.workers ==> CurrentOrOutdated(s.db, s.workers[v])
    ensures var s' := After(s, FinishStep(w), decay);
            forall v :: v in s'.workers ==> CurrentOrOutdated(s'.db, s'.workers[v])
  {
    var s', k := After(s, FinishStep(w), decay), s.workers[w].todo[0];
    assert Holds(s.workers[w], k.entity);
    forall v | v in s'.workers
      ensures CurrentOrOutdated(s'.db, s'.workers[v])
    {
      assert CurrentOrOutdated(s.db, s.workers[v]);
      if v != w && s.workers[v].phase.Loaded? {
        var e := s.workers[v].todo[0].entity;
        assert Holds(s.workers[v], e);
        FinishedCounts(s.db, k, s.workers[w].phase.row, e);
        hide Agrees;
      }
    }
  }

  lemma NoShopIsFresh(t: Tables, e: Entity)
    requires WellFormed(t) && e.kind == Shops && e.id !in t.shops
    ensures Fresh(t, e)
  {
  }

  /** A step that only moves worker `w` on, to `next`. */
  lemma MoveKeepsInv(s: System, w: nat, next: Worker)
    requires Inv(s) && w in s.workers && CurrentOrOutdated(s.db, next)
    requires forall k :: k in next.todo ==> k.version < NextVersion(s.db, k.entity.kind)
    requires forall e :: Holds(next, e) ==> Holds(s.workers[w], e) || Free(s, e)
    ensures Inv(s.(workers := s.workers[w := next]))
  {
    hide Fresh, CurrentOrOutdated, WellFormed;
    var s' := s.(workers := s.workers[w := next]);
    assert forall v :: v in s'.workers && v != w ==> s'.workers[v] == s.workers[v];
    assert VersionsBelow(s');
    assert OneHolder(s');
  }

  /** Same tables except for attempts and retry times. */
  ghost predicate SameVersions(t: Tables, t': Tables)
  {
    && t' == t.(requests := t'.requests)
    && t'.requests.Keys == t.requests.Keys
    && forall e :: e in t.requests ==> t'.requests[e].version == t.requests[e].version
  }

  lemma SameVersionsKeepInv(s: System, t': Tables)
    requires Inv(s) && SameVersions(s.db, t')
    ensures Inv(s.(db := t'))
  {
    var s' := s.(db := t');
    assert forall e :: Counted(t', e) == Counted(s.db, e);
    forall e | e !in t'.requests
      ensures Fresh(t', e)
    {
      assert Fresh(s.db, e);
    }
    forall v | v in s'.workers
      ensures CurrentOrOutdated(t', s'.workers[v])
    {
      assert CurrentOrOutdated(s.db, s.workers[v]);
    }
    assert OneHolder(s');
  }

  lemma RecordKeepsInv(s: System, w: nat, at: int, decay: Decay)
    requires Inv(s) && Enabled(s, RecordStep(w, at), decay)
    ensures Inv(After(s, RecordStep(w, at), decay))
  {
    var k := s.workers[w].todo[0];
    var t' := FailureRecorded(s.db, k.entity, k.version, at);
    SameVersionsKeepInv(s, t');
    MoveKeepsInv(s.(db := t'), w, NextTicket(s.workers[w]));
  }

  lemma WorkerKeepsInv(s: System, step: Step, decay: Decay)
    requires Inv(s) && Enabled(s, step, decay)
    requires step.ListStep? || step.LockStep? || step.LoadStep? || step.FailStep? || step.SkipStep?
    ensures Inv(After(s, step, decay))
  {
    var w := step.worker;
    if step.LoadStep? && step.row.Some? {
      ComputedAgrees(s.db, s.workers[w].todo[0].entity, step.now, decay, step.row);
    }
    MoveKeepsInv(s, w, After(s, step, decay).workers[w]);
  }

  lemma StepKeepsInv(s: System, step: Step, decay: Decay)
    requires Inv(s) && Enabled(s, step, decay)
    ensures Inv(After(s, step, decay))
  {
    match step
    case WriteStep(write) => WriteKeepsInv(s, write, decay);
    case RemoveShop(shop) => RemoveShopKeepsInv(s, shop, decay);
    case FinishStep(w) => FinishKeepsInv(s, w, decay);
    case RecordStep(w, at) => RecordKeepsInv(s, w, at, decay);
    case _ => WorkerKeepsInv(s, step, decay);
  }

  lemma InitIsInv(s: System)
    requires Init(s)
    ensures Inv(s)
  {
  }

  lemma TakesKeepsInv(s: System, step: Step, s': System, decay: Decay)
    requires Inv(s) && Takes(s, step, s', decay)
    ensures Inv(s')
  {
    StepKeepsInv(s, step, decay);
  }

  lemma {:induction false} ReachedInv(s: System, n: nat, decay: Decay)
    requires Reached(s, n, decay)
    ensures Inv(s)
    decreases n
  {
    hide Inv, Takes, Init;
    if n == 0 {
      InitIsInv(s);
    } else {
      var before, step :| Reached(before, n - 1, decay) && Takes(before, step, s, decay);
      ReachedInv(before, n - 1, decay);
      TakesKeepsInv(before, step, s, decay);
    }
  }

  /**
   * Safety over every run: in any interleaving, an entity with no pending request has stored
   * exactly the numbers of its current reviews, and a worker that has loaded its facts either
   * still has the current numbers or will leave a newer request behind.
   */
  lemma SettledMeansFresh(s: System, n: nat, decay: Decay)
    requires Reached(s, n, decay)
    ensures forall e :: e !in s.db.requests ==> Fresh(s.db, e)
    ensures forall w :: w in s.workers ==> CurrentOrOutdated(s.db, s.workers[w])
  {
    ReachedInv(s, n, decay);
  }
}
