/**
 * The photo a shop shows and the blob behind it. The statistics queue and the life cycle of photos
 * share one table of reviews: a transaction that posts, edits or discards a review is one step of
 * both, everything else is a step of one of them. A shop without a pending request never shows a
 * photo whose blob is gone.
 */
module ShopPhotos {
  import opened Scores
  import opened Wrappers
  import P = ReviewPhotos
  import Q = StatsQueue
  import T = StatsTables

  datatype Service = Service(queue: Q.System, photos: P.System)

  datatype Step =
    | QueueStep(queueStep: Q.Step)                                           // workers, shops, account deletions
    | PhotoStep(photoStep: P.Step)                                           // blobs, reads, failing transactions
    | Post(p: nat, rating: int, createdAt: int, burger: nat, newBurgerAt: Option<nat>)
    | Edit(p: nat, rating: int)
    | Discard(p: nat)

  /** A write to the reviews themselves. */
  predicate WritesReview(step: Q.Step)
  {
    step.WriteStep? && !step.write.DeleteUser?
  }

  predicate CommitsReview(step: P.Step)
  {
    step.Insert? || step.Commit? || step.Discard?
  }

  /** The two halves of a step that both take part in. */
  function PhotoHalf(step: Step): P.Step
    requires !step.QueueStep?
  {
    match step
    case PhotoStep(photoStep) => photoStep
    case Post(p, _, _, _, _) => P.Insert(p)
    case Edit(p, _) => P.Commit(p)
    case Discard(p) => P.Discard(p)
  }

  function QueueHalf(s: Service, step: Step): Q.Step
    requires !step.PhotoStep? && (!step.QueueStep? ==> P.Enabled(s.photos, PhotoHalf(step)))
  {
    match step
    case QueueStep(queueStep) => queueStep
    case Post(p, rating, createdAt, burger, newBurgerAt) =>
      var c := s.photos.processes[p];
      Q.WriteStep(T.CreateReview(s.photos.nextReview, T.Review(burger, c.author, rating, createdAt, c.photo, true),
                                 newBurgerAt))
    case Edit(p, rating) =>
      var c := s.photos.processes[p];
      Q.WriteStep(T.EditReview(c.id, rating, c.photo))
    case Discard(p) => Q.WriteStep(T.DiscardReview(s.photos.processes[p].id))
  }

  ghost predicate Enabled(s: Service, step: Step, decay: Decay)
  {
    && (!step.QueueStep? ==> P.Enabled(s.photos, PhotoHalf(step)))
    && (!step.PhotoStep? ==> Q.Enabled(s.queue, QueueHalf(s, step), decay))
    && (step.QueueStep? ==> !WritesReview(step.queueStep))
    && (step.PhotoStep? ==> !CommitsReview(step.photoStep))
  }

  ghost function After(s: Service, step: Step, decay: Decay): Service
    requires Enabled(s, step, decay)
  {
    Service(if step.PhotoStep? then s.queue else Q.After(s.queue, QueueHalf(s, step), decay),
            if step.QueueStep? then s.photos else P.After(s.photos, PhotoHalf(step)))
  }

  ghost predicate Init(s: Service)
  {
    Q.Init(s.queue) && P.Init(s.photos)
  }

  ghost predicate Takes(s: Service, step: Step, s': Service, decay: Decay)
  {
    Enabled(s, step, decay) && s' == After(s, step, decay)
  }

  ghost predicate Reached(s: Service, n: nat, decay: Decay)
    decreases n
  {
    if n == 0 then Init(s)
    else exists before, step :: Reached(before, n - 1, decay) && Takes(before, step, s, decay)
  }

  // ---- One table of reviews ----

  predicate SameReview(r: T.Review, p: P.Review)
  {
    r.author == p.author && r.photoKey == p.photoKey && r.kept == p.kept
  }

  predicate SameReviews(rs: map<nat, T.Review>, ps: map<nat, P.Review>)
  {
    rs.Keys == ps.Keys && forall id :: id in ps ==> SameReview(rs[id], ps[id])
  }

  /** Both sides speak of the same reviews. */
  ghost predicate OneTable(s: Service)
  {
    SameReviews(s.queue.db.reviews, s.photos.reviews)
  }

  ghost predicate Inv(s: Service)
  {
    Q.Inv(s.queue) && P.Inv(s.photos) && OneTable(s)
  }

  lemma QueueLeavesReviews(s: Q.System, step: Q.Step, decay: Decay)
    requires Q.Enabled(s, step, decay) && !WritesReview(step)
    ensures Q.After(s, step, decay).db.reviews == s.db.reviews
  {
    if step.WriteStep? {
      Q.RequestsRaised(T.Changed(s.db, step.write), Q.TouchedBy(s.db, step.write));
    }
  }

  lemma PhotosLeaveReviews(s: P.System, step: P.Step)
    requires P.Enabled(s, step) && !CommitsReview(step)
    ensures P.After(s, step).reviews == s.reviews
  {
  }

  lemma WriteReviews(s: Q.System, write: T.Write, decay: Decay)
    requires Q.Enabled(s, Q.WriteStep(write), decay)
    ensures Q.After(s, Q.WriteStep(write), decay).db.reviews == T.Changed(s.db, write).reviews
  {
    Q.RequestsRaised(T.Changed(s.db, write), Q.TouchedBy(s.db, write));
  }

  lemma BothChanged(rs: map<nat, T.Review>, ps: map<nat, P.Review>, id: nat, r: T.Review, p: P.Review)
    requires SameReviews(rs, ps) && SameReview(r, p)
    ensures SameReviews(rs[id := r], ps[id := p])
  {
  }

  lemma InsertedReview(s: P.System, p: nat)
    requires P.Enabled(s, P.Insert(p))
    ensures var c := s.processes[p];
            c.Posting? && P.After(s, P.Insert(p)).reviews ==
              s.reviews[s.nextReview := P.Review(c.author, c.photo, true)]
  {
  }

  lemma EditedReview(s: P.System, p: nat)
    requires P.Enabled(s, P.Commit(p))
    ensures var c := s.processes[p];
            && c.Editing? && c.id in s.reviews
            && var row := s.reviews[c.id];
               P.After(s, P.Commit(p)).reviews ==
               s.reviews[c.id := row.(photoKey := if c.photo.Some? then c.photo else row.photoKey)]
  {
    var c := s.processes[p];
    assert c.photo.None? ==> s.reviews[c.id := s.reviews[c.id]] == s.reviews;
  }

  lemma DiscardedReview(s: P.System, p: nat)
    requires P.Enabled(s, P.Discard(p))
    ensures var c := s.processes[p];
            c.Loaded? && c.id in s.reviews &&
            P.After(s, P.Discard(p)).reviews == s.reviews[c.id := s.reviews[c.id].(kept := false)]
  {
  }

  /** The queue side's reviews after the write that belongs to the step. */
  lemma WrittenReview(s: Service, step: Step, id: nat, r: T.Review, decay: Decay)
    requires Enabled(s, step, decay) && !step.QueueStep? && !step.PhotoStep?
    requires T.Changed(s.queue.db, QueueHalf(s, step).write).reviews == s.queue.db.reviews[id := r]
    ensures After(s, step, decay).queue.db.reviews == s.queue.db.reviews[id := r]
  {
    WriteReviews(s.queue, QueueHalf(s, step).write, decay);
    hide Q.After, Q.Enabled, P.After, P.Enabled, T.Changed;
  }

  lemma PostKeepsOneTable(s: Service, step: Step, decay: Decay)
    requires OneTable(s) && Enabled(s, step, decay) && step.Post?
    ensures OneTable(After(s, step, decay))
  {
    var c, id := s.photos.processes[step.p], s.photos.nextReview;
    InsertedReview(s.photos, step.p);
    hide Q.After, Q.Enabled, P.After, P.Enabled, SameReviews;
    var r := T.Review(step.burger, c.author, step.rating, step.createdAt, c.photo, true);
    WrittenReview(s, step, id, r, decay);
    BothChanged(s.queue.db.reviews, s.photos.reviews, id, r, P.Review(c.author, c.photo, true));
  }

  lemma EditKeepsOneTable(s: Service, step: Step, decay: Decay)
    requires OneTable(s) && Enabled(s, step, decay) && step.Edit?
    ensures OneTable(After(s, step, decay))
  {
    var c := s.photos.processes[step.p];
    EditedReview(s.photos, step.p);
    var r, p := s.queue.db.reviews[c.id], s.photos.reviews[c.id];
    assert SameReview(r, p);
    hide Q.After, Q.Enabled, P.After, P.Enabled, SameReviews;
    var r', p' := T.Edited(r, step.rating, c.photo), p.(photoKey := if c.photo.Some? then c.photo else p.photoKey);
    WrittenReview(s, step, c.id, r', decay);
    BothChanged(s.queue.db.reviews, s.photos.reviews, c.id, r', p');
  }

  lemma DiscardKeepsOneTable(s: Service, step: Step, decay: Decay)
    requires OneTable(s) && Enabled(s, step, decay) && step.Discard?
    ensures OneTable(After(s, step, decay))
  {
    var c := s.photos.processes[step.p];
    DiscardedReview(s.photos, step.p);
    var r, p := s.queue.db.reviews[c.id], s.photos.reviews[c.id];
    assert SameReview(r, p);
    hide Q.After, Q.Enabled, P.After, P.Enabled, SameReviews;
    WrittenReview(s, step, c.id, r.(kept := false), decay);
    BothChanged(s.queue.db.reviews, s.photos.reviews, c.id, r.(kept := false), p.(kept := false));
  }

  lemma StepKeepsOneTable(s: Service, step: Step, decay: Decay)
    requires OneTable(s) && Enabled(s, step, decay)
    ensures OneTable(After(s, step, decay))
  {
    hide Q.After, Q.Enabled, P.After, P.Enabled;
    match step
    case QueueStep(queueStep) => QueueLeavesReviews(s.queue, queueStep, decay);
    case PhotoStep(photoStep) => PhotosLeaveReviews(s.photos, photoStep);
    case Post(_, _, _, _, _) => PostKeepsOneTable(s, step, decay);
    case Edit(_, _) => EditKeepsOneTable(s, step, decay);
    case Discard(_) => DiscardKeepsOneTable(s, step, decay);
  }

  lemma StepKeepsInv(s: Service, step: Step, decay: Decay)
    requires Inv(s) && Enabled(s, step, decay)
    ensures Inv(After(s, step, decay))
  {
    hide OneTable, Q.Inv, P.Inv, Q.After, Q.Enabled, P.After, P.Enabled;
    StepKeepsOneTable(s, step, decay);
    if !step.PhotoStep? {
      Q.StepKeepsInv(s.queue, QueueHalf(s, step), decay);
    }
    if !step.QueueStep? {
      P.StepKeepsInv(s.photos, PhotoHalf(step));
    }
  }

  lemma {:induction false} ReachedInv(s: Service, n: nat, decay: Decay)
    requires Reached(s, n, decay)
    ensures Inv(s)
    decreases n
  {
    hide Inv, Enabled, After, Init;
    if n == 0 {
      InitIsInv(s);
    } else {
      var before, step :| Reached(before, n - 1, decay) && Takes(before, step, s, decay);
      ReachedInv(before, n - 1, decay);
      StepKeepsInv(before, step, decay);
    }
  }

  lemma InitIsInv(s: Service)
    requires Init(s)
    ensures Inv(s)
  {
    Q.InitIsInv(s.queue);
    P.InitIsInv(s.photos);
  }

  // ---- What a shop shows ----

  /** The photo on the card of a shop. */
  function Shown(t: T.Tables, shop: nat): Option<nat>
  {
    var e := T.Entity(T.Shops, shop);
    if e in t.stats && t.stats[e].ShopRow? then t.stats[e].shop.photoKey else None
  }

  /** A current photo is one of a counted, hence kept, review. */
  lemma FreshPhoto(t: T.Tables, shop: nat)
    requires Q.WellFormed(t) && Q.Fresh(t, T.Entity(T.Shops, shop)) && Shown(t, shop).Some?
    ensures exists id :: T.CountsFor(t, T.Entity(T.Shops, shop), id) && t.reviews[id].photoKey == Shown(t, shop)
  {
    var e := T.Entity(T.Shops, shop);
    assert Q.PhotoOf(T.Counted(t, e), Shown(t, shop));
    var r :| r in T.Counted(t, e) && r.review.photoKey == Shown(t, shop);
    assert T.CountsFor(t, e, r.id) && t.reviews[r.id] == r.review;
  }

  /**
   * In every interleaving of requests, failures and workers, the photo a shop shows is the stored
   * photo of a kept review that counts for the shop, or a recalculation of the shop is pending.
   */
  lemma ShownPhotosAreStored(s: Service, n: nat, decay: Decay, shop: nat)
    requires Reached(s, n, decay)
    ensures var key := Shown(s.queue.db, shop);
            key.Some? && T.Entity(T.Shops, shop) !in s.queue.db.requests ==>
              && key.value in s.photos.blobs
              && exists id :: P.Names(s.photos, id, key.value) && T.CountsFor(s.queue.db, T.Entity(T.Shops, shop), id)
  {
    ReachedInv(s, n, decay);
    var e, t := T.Entity(T.Shops, shop), s.queue.db;
    if Shown(t, shop).Some? && e !in t.requests {
      assert Q.Fresh(t, e);
      FreshPhoto(t, shop);
      var id :| T.CountsFor(t, e, id) && t.reviews[id].photoKey == Shown(t, shop);
      assert SameReview(t.reviews[id], s.photos.reviews[id]);
      assert P.Names(s.photos, id, Shown(t, shop).value);
      assert P.Kept(s.photos, id);
    }
  }
}
