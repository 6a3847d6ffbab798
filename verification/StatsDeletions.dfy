/**
 * Whole runs of the statistics queue in which account deletions list their burgers and shops
 * statement by statement and commit later, any number of them at once, with writers and workers in
 * between. If every commit is covered, entities without a request are always current; and every
 * commit is covered as long as nobody posts a review whose own account is past its first listing.
 */
module StatsDeletions {
  import opened Listings
  import opened Scores
  import opened StatsLateReview
  import opened StatsQueue
  import opened StatsTables
  import opened StatsWrites

  datatype Deletion =
    | Waiting
    | Discarding(user: nat)                                                    // the user's row is locked
    | Found(user: nat, burgers: set<nat>)                                      // listed for the burger requests
    | Relisted(user: nat, burgers: set<nat>, todo: set<nat>, shops: set<nat>)  // listed again, shops still to read

  datatype Office = Office(queue: System, deletions: map<nat, Deletion>)

  datatype Move =
    | QueueMove(step: Step)
    | Begin(d: nat, user: nat)
    | ListBurgers(d: nat)
    | ListAgain(d: nat)
    | ListShops(d: nat, burger: nat)
    | Commit(d: nat)
    | Abandon(d: nat)                       // an error rolls everything back

  predicate Deletes(c: Deletion, user: nat)
  {
    !c.Waiting? && c.user == user
  }

  ghost predicate Possible(o: Office, move: Move, decay: Decay)
  {
    match move
    case QueueMove(step) => Enabled(o.queue, step, decay) && !(step.WriteStep? && step.write.DeleteUser?)
    case Begin(d, user) =>
      && d in o.deletions && o.deletions[d] == Waiting && user !in o.queue.db.discarded
      && forall q :: q in o.deletions ==> !Deletes(o.deletions[q], user)
    case ListBurgers(d) => d in o.deletions && o.deletions[d].Discarding?
    case ListAgain(d) => d in o.deletions && o.deletions[d].Found?
    case ListShops(d, burger) => d in o.deletions && o.deletions[d].Relisted? && burger in o.deletions[d].todo
    case Commit(d) => d in o.deletions && o.deletions[d].Relisted? && o.deletions[d].todo == {}
    case Abandon(d) => d in o.deletions
  }

  function Turned(o: Office, d: nat, next: Deletion): Office
  {
    o.(deletions := o.deletions[d := next])
  }

  ghost function Moved(o: Office, move: Move, decay: Decay): Office
    requires Possible(o, move, decay)
  {
    match move
    case QueueMove(step) => o.(queue := After(o.queue, step, decay))
    case Begin(d, user) => Turned(o, d, Discarding(user))
    case ListBurgers(d) =>
      var user := o.deletions[d].user;
      Turned(o, d, Found(user, ReviewedBurgers(o.queue.db, user)))
    case ListAgain(d) =>
      var c := o.deletions[d];
      Turned(o, d, Relisted(c.user, c.burgers, ReviewedBurgers(o.queue.db, c.user), {}))
    case ListShops(d, burger) =>
      var c := o.deletions[d];
      Turned(o, d, c.(todo := c.todo - {burger}, shops := c.shops + LinkedShops(o.queue.db, {burger})))
    case Commit(d) =>
      var c := o.deletions[d];
      Turned(o, d, Waiting).(queue := Committed(o.queue, c.user, c.burgers, c.shops))
    case Abandon(d) => Turned(o, d, Waiting)
  }

  ghost predicate Opens(o: Office)
  {
    Init(o.queue) && forall d :: d in o.deletions ==> o.deletions[d] == Waiting
  }

  ghost predicate Makes(o: Office, move: Move, o': Office, decay: Decay)
  {
    Possible(o, move, decay) && o' == Moved(o, move, decay)
  }

  // ---- Runs whose commits are covered ----

  ghost predicate CoveredMove(o: Office, move: Move)
  {
    move.Commit? && move.d in o.deletions && o.deletions[move.d].Relisted? ==>
      var c := o.deletions[move.d]; Covered(o.queue, c.user, c.burgers, c.shops)
  }

  /** `o` is reached by a run of `n` moves whose commits are all covered. */
  ghost predicate ReachedCovered(o: Office, n: nat, decay: Decay)
    decreases n
  {
    if n == 0 then Opens(o)
    else exists before, move ::
      ReachedCovered(before, n - 1, decay) && CoveredMove(before, move) && Makes(before, move, o, decay)
  }

  lemma CoveredMoveKeepsInv(o: Office, move: Move, decay: Decay)
    requires Inv(o.queue) && Possible(o, move, decay) && CoveredMove(o, move)
    ensures Inv(Moved(o, move, decay).queue)
  {
    hide Inv, Enabled, After, Covered, Committed, ReviewedBurgers, LinkedShops;
    match move
    case QueueMove(step) => StepKeepsInv(o.queue, step, decay);
    case Commit(d) =>
      var c := o.deletions[d];
      CoveredKeepsInv(o.queue, c.user, c.burgers, c.shops);
    case _ =>
  }

  lemma {:induction false} CoveredInv(o: Office, n: nat, decay: Decay)
    requires ReachedCovered(o, n, decay)
    ensures Inv(o.queue)
    decreases n
  {
    hide Inv, Possible, Moved, Init, CoveredMove;
    if n == 0 {
      InitIsInv(o.queue);
    } else {
      var before, move :|
        ReachedCovered(before, n - 1, decay) && CoveredMove(before, move) && Makes(before, move, o, decay);
      CoveredInv(before, n - 1, decay);
      CoveredMoveKeepsInv(before, move, decay);
    }
  }

  /** In every run in which each deletion's commit is covered, every entity without a request is current. */
  lemma CoveredRunsStayFresh(o: Office, n: nat, decay: Decay)
    requires ReachedCovered(o, n, decay)
    ensures forall e :: e !in o.queue.db.requests ==> Fresh(o.queue.db, e)
    ensures forall w :: w in o.queue.workers ==> CurrentOrOutdated(o.queue.db, o.queue.workers[w])
  {
    CoveredInv(o, n, decay);
    hide ReachedCovered;
  }

  // ---- What makes commits covered ----

  /** A review is posted by a user whose account deletion has already listed that user's burgers. */
  ghost predicate Intrudes(o: Office, move: Move)
  {
    && move.QueueMove? && move.step.WriteStep? && move.step.write.CreateReview?
    && exists d :: d in o.deletions && Listed(o.deletions[d]) && Deletes(o.deletions[d], move.step.write.review.author)
  }

  predicate Listed(c: Deletion)
  {
    c.Found? || c.Relisted?
  }

  ghost predicate ReachedQuietly(o: Office, n: nat, decay: Decay)
    decreases n
  {
    if n == 0 then Opens(o)
    else exists before, move ::
      ReachedQuietly(before, n - 1, decay) && !Intrudes(before, move) && Makes(before, move, o, decay)
  }

  /** A deletion's lists hold at least what it would find now, apart from shops it has yet to read. */
  ghost predicate Complete(t: Tables, c: Deletion)
  {
    && (Listed(c) ==> ReviewedBurgers(t, c.user) <= c.burgers)
    && (c.Relisted? ==> LinkedShops(t, ReviewedBurgers(t, c.user) - c.todo) <= c.shops)
  }

  ghost predicate AllComplete(o: Office)
  {
    forall d :: d in o.deletions ==> Complete(o.queue.db, o.deletions[d])
  }

  /** From `t` to `t'` a user gained no reviewed burger, and the reviewed ones no shop. */
  ghost predicate NothingNew(t: Tables, t': Tables, user: nat)
  {
    && ReviewedBurgers(t', user) <= ReviewedBurgers(t, user)
    && forall p :: p in t'.links && p.1 in ReviewedBurgers(t', user) ==> p in t.links
  }

  lemma CompleteStays(t: Tables, t': Tables, c: Deletion)
    requires Complete(t, c) && (Listed(c) ==> NothingNew(t, t', c.user))
    ensures Complete(t', c)
  {
  }

  lemma ChangeIsQuiet(t: Tables, w: Write, user: nat)
    requires Allowed(t, w) && BurgersKnown(t) && (w.CreateReview? ==> w.id !in t.reviews && w.review.author != user)
    ensures NothingNew(t, Changed(t, w), user)
  {
  }

  lemma SameReviewsNothingNew(t: Tables, t': Tables, user: nat)
    requires t'.reviews == t.reviews && t'.links == t.links
    ensures NothingNew(t, t', user)
  {
  }

  lemma QueueStepIsQuiet(s: System, step: Step, user: nat, decay: Decay)
    requires Enabled(s, step, decay) && BurgersKnown(s.db)
    requires step.WriteStep? && step.write.CreateReview? ==> step.write.review.author != user
    ensures NothingNew(s.db, After(s, step, decay).db, user)
  {
    if step.WriteStep? {
      var t1 := Changed(s.db, step.write);
      ChangeIsQuiet(s.db, step.write, user);
      RequestsChangeNoReviews(t1, TouchedBy(s.db, step.write));
      hide Changed, RequestedAll;
    } else {
      OthersChangeNoReviews(s, step, decay);
      hide After;
      SameReviewsNothingNew(s.db, After(s, step, decay).db, user);
    }
  }

  lemma CommitChangesNoReviews(s: System, c: Deletion)
    requires c.Relisted?
    ensures var t' := Committed(s, c.user, c.burgers, c.shops).db;
            t'.reviews == s.db.reviews && t'.links == s.db.links && t'.burgers == s.db.burgers
  {
    RequestsChangeNoReviews(s.db.(discarded := s.db.discarded + {c.user}), Lists(c.burgers, c.shops));
  }

  /** What a deletion has just read is complete. */
  lemma ListingIsComplete(o: Office, move: Move, decay: Decay)
    requires Possible(o, move, decay) && !move.QueueMove? && !move.Commit? && AllComplete(o)
    ensures Complete(o.queue.db, Moved(o, move, decay).deletions[move.d])
  {
    assert Complete(o.queue.db, o.deletions[move.d]);
    if move.ListShops? {
      var c, t := o.deletions[move.d], o.queue.db;
      assert LinkedShops(t, ReviewedBurgers(t, c.user) - (c.todo - {move.burger})) <=
             LinkedShops(t, ReviewedBurgers(t, c.user) - c.todo) + LinkedShops(t, {move.burger});
    }
  }

  lemma QueueMoveKeepsComplete(o: Office, step: Step, decay: Decay)
    requires Possible(o, QueueMove(step), decay) && !Intrudes(o, QueueMove(step))
    requires AllComplete(o) && BurgersKnown(o.queue.db)
    ensures AllComplete(Moved(o, QueueMove(step), decay))
  {
    var t, t' := o.queue.db, After(o.queue, step, decay).db;
    hide Enabled, After, Complete, BurgersKnown, NothingNew;
    forall d | d in o.deletions
      ensures Complete(t', o.deletions[d])
    {
      if Listed(o.deletions[d]) {
        QueueStepIsQuiet(o.queue, step, o.deletions[d].user, decay);
      }
      CompleteStays(t, t', o.deletions[d]);
    }
  }

  lemma CommitKeepsComplete(o: Office, d: nat, decay: Decay)
    requires Possible(o, Commit(d), decay) && AllComplete(o)
    ensures AllComplete(Moved(o, Commit(d), decay))
  {
    var t, o' := o.queue.db, Moved(o, Commit(d), decay);
    CommitChangesNoReviews(o.queue, o.deletions[d]);
    assert Complete(o'.queue.db, Waiting);
    hide Complete, Committed, NothingNew;
    forall q | q in o'.deletions && q != d
      ensures Complete(o'.queue.db, o'.deletions[q])
    {
      if Listed(o.deletions[q]) {
        SameReviewsNothingNew(t, o'.queue.db, o.deletions[q].user);
      }
      CompleteStays(t, o'.queue.db, o.deletions[q]);
    }
  }

  /** The lists of a deletion that has read everything cover its commit. */
  lemma CompleteIsCovered(o: Office, d: nat, decay: Decay)
    requires Possible(o, Commit(d), decay) && AllComplete(o)
    ensures var c := o.deletions[d]; Covered(o.queue, c.user, c.burgers, c.shops)
  {
    var c, t := o.deletions[d], o.queue.db;
    assert Complete(t, c);
    forall id, e | CountedOf(t, c.user, e, id)
      ensures e in Lists(c.burgers, c.shops)
    {
      var burger := t.reviews[id].burger;
      assert burger in ReviewedBurgers(t, c.user) - c.todo;
      assert e.kind == Shops ==> (e.id, burger) in t.links && (e.id, burger).0 in c.shops;
      EntityMembers(Burgers, Ascending(c.burgers), e);
      EntityMembers(Shops, Ascending(c.shops), e);
    }
  }

  lemma QuietMove(o: Office, move: Move, decay: Decay)
    requires Inv(o.queue) && AllComplete(o) && BurgersKnown(o.queue.db)
    requires Possible(o, move, decay) && !Intrudes(o, move)
    ensures var o' := Moved(o, move, decay); Inv(o'.queue) && AllComplete(o') && BurgersKnown(o'.queue.db)
  {
    hide Inv, Enabled, After, Covered, Committed, ReviewedBurgers, LinkedShops, Complete, Intrudes;
    match move
    case QueueMove(step) =>
      CoveredMoveKeepsInv(o, move, decay);
      QueueMoveKeepsComplete(o, step, decay);
      QueueStepKeepsKnown(o.queue, step, decay);
    case Commit(d) =>
      CompleteIsCovered(o, d, decay);
      CoveredMoveKeepsInv(o, move, decay);
      CommitKeepsComplete(o, d, decay);
      CommitChangesNoReviews(o.queue, o.deletions[d]);
    case _ =>
      ListingIsComplete(o, move, decay);
  }

  lemma {:induction false} QuietInv(o: Office, n: nat, decay: Decay)
    requires ReachedQuietly(o, n, decay)
    ensures Inv(o.queue) && AllComplete(o) && BurgersKnown(o.queue.db)
    decreases n
  {
    hide Inv, Possible, Moved, Intrudes, AllComplete, BurgersKnown;
    if n == 0 {
      InitIsInv(o.queue);
      OpeningIsComplete(o);
    } else {
      var before, move :|
        ReachedQuietly(before, n - 1, decay) && !Intrudes(before, move) && Makes(before, move, o, decay);
      QuietInv(before, n - 1, decay);
      QuietMove(before, move, decay);
    }
  }

  lemma OpeningIsComplete(o: Office)
    requires Opens(o)
    ensures AllComplete(o) && BurgersKnown(o.queue.db)
  {
  }

  /**
   * In every run in which nobody posts a review while their own account's deletion is between its
   * first listing and its commit, every commit is covered and every entity without a request is
   * current, however the statements of deletions, writers and workers interleave.
   */
  lemma QuietRunsStayFresh(o: Office, n: nat, decay: Decay)
    requires ReachedQuietly(o, n, decay)
    ensures forall e :: e !in o.queue.db.requests ==> Fresh(o.queue.db, e)
    ensures forall d :: Possible(o, Commit(d), decay) ==> CoveredMove(o, Commit(d))
  {
    QuietInv(o, n, decay);
    assert SettledIsFresh(o.queue.db);
    hide ReachedQuietly, Inv, Covered, AllComplete;
    forall d | Possible(o, Commit(d), decay)
      ensures CoveredMove(o, Commit(d))
    {
      CompleteIsCovered(o, d, decay);
    }
  }
}
