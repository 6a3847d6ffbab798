/**
 * The life cycle of review photos: a blob is stored, then a transaction runs, then a blob is
 * deleted on a best-effort basis. Requests interleave and any step may fail. A kept review's key
 * always names a stored blob; blobs may leak, and every leak has a recorded cause.
 *
 * A transaction that reports an error has committed nothing. Keys are drawn at random and never
 * repeat, so a counter hands them out.
 */
module ReviewPhotos {
  import opened Wrappers

  datatype Review = Review(author: nat, photoKey: Option<nat>, kept: bool)

  datatype Process =
    | Idle
    | Posting(author: nat, photo: Option<nat>)                     // photo stored, review not yet
    | Loaded(id: nat, seen: Option<nat>)                            // row read and ownership checked
    | Editing(id: nat, seen: Option<nat>, photo: Option<nat>)      // new photo stored, row not yet
    | Cleaning(key: nat)                                           // a blob to delete

  datatype System = System(
    reviews: map<nat, Review>,
    blobs: set<nat>,
    processes: map<nat, Process>,
    nextReview: nat,
    nextKey: nat,
    lost: set<nat>              // history: keys whose blobs nobody will delete any more
  )

  datatype Step =
    | Put(p: nat, author: nat, photo: bool)
    | PutFails(p: nat, stored: bool)      // possibly after the bytes arrived
    | Insert(p: nat)
    | InsertFails(p: nat)
    | Load(p: nat, id: nat, viewer: nat)
    | PutEdit(p: nat, photo: bool)
    | Commit(p: nat)
    | CommitFails(p: nat)
    | Discard(p: nat)
    | Delete(p: nat)
    | DeleteFails(p: nat)
    | Crash(p: nat)

  predicate Kept(s: System, id: nat)
  {
    id in s.reviews && s.reviews[id].kept
  }

  predicate Enabled(s: System, step: Step)
  {
    && step.p in s.processes
    && var c := s.processes[step.p];
       match step
       case Put(_, _, _) => c.Idle?
       case PutFails(_, _) => c.Idle? || c.Loaded?
       case Insert(_) => c.Posting?
       case InsertFails(_) => c.Posting?
       case Load(_, id, viewer) => c.Idle? && Kept(s, id) && s.reviews[id].author == viewer
       case PutEdit(_, _) => c.Loaded?
       case Commit(_) => c.Editing? && Kept(s, c.id)
       case CommitFails(_) => c.Editing?
       case Discard(_) => c.Loaded? && Kept(s, c.id)
       case Delete(_) => c.Cleaning?
       case DeleteFails(_) => c.Cleaning?
       case Crash(_) => true
  }

  /** What is left to do about an optional key. */
  function Clean(key: Option<nat>): Process
  {
    if key.Some? then Cleaning(key.value) else Idle
  }

  function KeySet(key: Option<nat>): set<nat>
  {
    if key.Some? then {key.value} else {}
  }

  /** The key of a photo that a request stored and no row names yet. */
  function NewKey(c: Process): Option<nat>
  {
    if c.Posting? || c.Editing? then c.photo else None
  }

  /** The key replaced or dropped without being the one the request had read. */
  function Overwritten(s: System, id: nat, seen: Option<nat>): set<nat>
    requires id in s.reviews
  {
    if s.reviews[id].photoKey == seen then {} else KeySet(s.reviews[id].photoKey)
  }

  function Move(s: System, p: nat, next: Process): System
  {
    s.(processes := s.processes[p := next])
  }

  function Stored(s: System, photo: bool): System
  {
    if photo then s.(blobs := s.blobs + {s.nextKey}, nextKey := s.nextKey + 1) else s
  }

  function After(s: System, step: Step): System
    requires Enabled(s, step)
  {
    var p := step.p;
    var c := s.processes[p];
    match step
    case Put(_, author, photo) => Move(Stored(s, photo), p, Posting(author, if photo then Some(s.nextKey) else None))
    case PutFails(_, stored) =>
      Move(Stored(s, stored), p, Idle)
        .(nextKey := s.nextKey + 1, lost := if stored then s.lost + {s.nextKey} else s.lost)
    case Insert(_) =>
      Move(s, p, Idle)
        .(reviews := s.reviews[s.nextReview := Review(c.author, c.photo, true)], nextReview := s.nextReview + 1)
    case InsertFails(_) => Move(s, p, Clean(c.photo))
    case Load(_, id, _) => Move(s, p, Loaded(id, s.reviews[id].photoKey))
    case PutEdit(_, photo) => Move(Stored(s, photo), p, Editing(c.id, c.seen, if photo then Some(s.nextKey) else None))
    case Commit(_) =>
      if c.photo.None? then Move(s, p, Idle)
      else
        Move(s, p, Clean(c.seen))
          .(reviews := s.reviews[c.id := s.reviews[c.id].(photoKey := c.photo)],
            lost := s.lost + Overwritten(s, c.id, c.seen))
    case CommitFails(_) => Move(s, p, Clean(c.photo))
    case Discard(_) =>
      Move(s, p, Clean(c.seen))
        .(reviews := s.reviews[c.id := s.reviews[c.id].(kept := false)], lost := s.lost + Overwritten(s, c.id, c.seen))
    case Delete(_) => Move(s, p, Idle).(blobs := s.blobs - {c.key})
    case DeleteFails(_) => Move(s, p, Idle).(lost := s.lost + {c.key})
    case Crash(_) => Move(s, p, Idle).(lost := s.lost + KeySet(NewKey(c)) + (if c.Cleaning? then {c.key} else {}))
  }

  predicate Init(s: System)
  {
    && s.reviews == map[] && s.blobs == {} && s.lost == {}
    && forall p :: p in s.processes ==> s.processes[p] == Idle
  }

  ghost predicate Takes(s: System, step: Step, s': System)
  {
    Enabled(s, step) && s' == After(s, step)
  }

  ghost predicate Reached(s: System, n: nat)
    decreases n
  {
    if n == 0 then Init(s)
    else exists before, step :: Reached(before, n - 1) && Takes(before, step, s)
  }

  // ---- The invariant ----

  predicate Names(s: System, id: nat, key: nat)
  {
    Kept(s, id) && s.reviews[id].photoKey == Some(key)
  }

  /** The goal: a reference never dangles. */
  ghost predicate NothingDangles(s: System)
  {
    forall id :: Kept(s, id) && s.reviews[id].photoKey.Some? ==> s.reviews[id].photoKey.value in s.blobs
  }

  ghost predicate Numbered(s: System)
  {
    && (forall id :: id in s.reviews ==> id < s.nextReview)
    && (forall id, key: nat :: Names(s, id, key) ==> key < s.nextKey)
    && (forall key :: key in s.blobs ==> key < s.nextKey)
    && (forall p, key: nat :: p in s.processes && Mentions(s.processes[p], key) ==> key < s.nextKey)
  }

  predicate Mentions(c: Process, key: nat)
  {
    match c
    case Idle => false
    case Posting(_, k) => k == Some(key)
    case Loaded(_, seen) => seen == Some(key)
    case Editing(_, seen, k) => seen == Some(key) || k == Some(key)
    case Cleaning(k) => k == key
  }

  ghost predicate KeysUnshared(s: System)
  {
    forall i, j, key :: Names(s, i, key) && Names(s, j, key) ==> i == j
  }

  /** What a request may rely on about the keys it holds. */
  ghost predicate Sound(s: System, c: Process)
  {
    && (NewKey(c).Some? ==> NewKey(c).value in s.blobs && forall id :: !Names(s, id, NewKey(c).value))
    && (c.Editing? && c.seen.Some? ==> c.seen != c.photo)
    && (OldKey(c).Some? ==> forall id :: Names(s, id, OldKey(c).value) ==> id == c.id)
    && (c.Cleaning? ==> forall id :: !Names(s, id, c.key))
    && ((c.Loaded? || c.Editing?) ==> c.id < s.nextReview)
  }

  /** Only the author of a kept review gets to edit or discard it. */
  lemma OnlyAuthorsLoad(s: System, p: nat, id: nat, viewer: nat)
    requires Enabled(s, Load(p, id, viewer))
    ensures id in s.reviews && s.reviews[id].kept && s.reviews[id].author == viewer
  {
  }

  function OldKey(c: Process): (seen: Option<nat>)
    ensures seen.Some? ==> c.Loaded? || c.Editing?
  {
    if c.Loaded? || c.Editing? then c.seen else None
  }

  /** A photo that no row names yet is known to one request only. */
  ghost predicate NewKeysPrivate(s: System)
  {
    forall p, q, key :: p in s.processes && q in s.processes && p != q && NewKey(s.processes[p]) == Some(key) ==>
      !Mentions(s.processes[q], key)
  }

  /** Every stored blob is named by a kept review, in the hands of a request, or lost. */
  ghost predicate Accounted(s: System)
  {
    forall key :: key in s.blobs ==> Referenced(s, key) || Pending(s, key) || key in s.lost
  }

  ghost predicate Referenced(s: System, key: nat)
  {
    exists id :: Names(s, id, key)
  }

  ghost predicate Pending(s: System, key: nat)
  {
    exists p :: p in s.processes && Holds(s.processes[p], key)
  }

  predicate Holds(c: Process, key: nat)
  {
    NewKey(c) == Some(key) || c == Cleaning(key)
  }

  ghost predicate Inv(s: System)
  {
    && Numbered(s) && NothingDangles(s) && KeysUnshared(s) && NewKeysPrivate(s) && Accounted(s)
    && forall p :: p in s.processes ==> Sound(s, s.processes[p])
  }

  lemma InitIsInv(s: System)
    requires Init(s)
    ensures Inv(s)
  {
  }

  /**
   * The key a step loses: of a failed upload that left its bytes, of a failed clean-up, of a crash
   * that forgets it, or of a row whose photo is not the one the request had read.
   */
  function LostKey(s: System, step: Step): Option<nat>
    requires Enabled(s, step)
  {
    var c := s.processes[step.p];
    match step
    case PutFails(_, stored) => if stored then Some(s.nextKey) else None
    case DeleteFails(_) => Some(c.key)
    case Crash(_) => if c.Cleaning? then Some(c.key) else NewKey(c)
    case Commit(_) => if c.photo.Some? && s.reviews[c.id].photoKey != c.seen then s.reviews[c.id].photoKey else None
    case Discard(_) => if s.reviews[c.id].photoKey != c.seen then s.reviews[c.id].photoKey else None
    case _ => None
  }

  /** Unless a step loses its key, a blob that somebody knew of is still known of. */
  lemma BlobFate(s: System, step: Step, key: nat)
    requires Inv(s) && Enabled(s, step) && key in After(s, step).blobs
    requires key in s.blobs ==> Referenced(s, key) || Pending(s, key)
    ensures var s' := After(s, step); Referenced(s', key) || Pending(s', key) || LostKey(s, step) == Some(key)
  {
    var s', p := After(s, step), step.p;
    var c, c' := s.processes[p], s'.processes[p];
    if key !in s.blobs {
      assert Holds(c', key) || LostKey(s, step) == Some(key);
    } else if q :| q in s.processes && Holds(s.processes[q], key) {
      if q != p {
        assert Holds(s'.processes[q], key);
      } else if step.Insert? {
        assert Names(s', s.nextReview, key);
      } else if step.Commit? {
        assert Names(s', c.id, key);
      } else {
        assert Holds(c', key) || LostKey(s, step) == Some(key);
      }
    } else if id :| Names(s, id, key) {
      if !Names(s', id, key) {
        assert id == c.id && (Holds(c', key) || LostKey(s, step) == Some(key));
      }
    }
  }

  lemma LostGrows(s: System, step: Step)
    requires Enabled(s, step)
    ensures After(s, step).lost == s.lost + KeySet(LostKey(s, step))
  {
  }

  lemma BlobAccounted(s: System, step: Step, key: nat)
    requires Inv(s) && Enabled(s, step) && key in After(s, step).blobs
    ensures var s' := After(s, step); Referenced(s', key) || Pending(s', key) || key in s'.lost
  {
    LostGrows(s, step);
    hide After, Enabled;
    if key in s.blobs ==> Referenced(s, key) || Pending(s, key) {
      BlobFate(s, step, key);
    }
  }

  /** A step names a key anew only when it commits a stored photo to a row. */
  lemma NewNames(s: System, step: Step, id: nat, key: nat)
    requires Inv(s) && Enabled(s, step) && Names(After(s, step), id, key)
    ensures var c := s.processes[step.p];
            if NewKey(c) == Some(key)
            then (step.Insert? && id == s.nextReview) || (step.Commit? && id == c.id)
            else Names(s, id, key) && (step.Commit? && c.photo.Some? ==> id != c.id) && (step.Discard? ==> id != c.id)
  {
    var c := s.processes[step.p];
    assert Sound(s, c);
    if !(step.Insert? && id == s.nextReview) && !(step.Commit? && c.photo.Some? && id == c.id) {
      assert Names(s, id, key);
    }
  }

  lemma StepKeepsNumbered(s: System, step: Step)
    requires Inv(s) && Enabled(s, step)
    ensures Numbered(After(s, step)) && NothingDangles(After(s, step))
  {
    hide NewKeysPrivate, Accounted, KeysUnshared;
    var s', c := After(s, step), s.processes[step.p];
    assert Sound(s, c);
    forall id, key: nat | Names(s', id, key)
      ensures key < s'.nextKey && key in s'.blobs
    {
      NewNames(s, step, id, key);
      assert NewKey(c) == Some(key) ==> Mentions(c, key);
    }
    forall q, key: nat | q in s'.processes && Mentions(s'.processes[q], key)
      ensures key < s'.nextKey
    {
      assert step.Load? && !Mentions(s.processes[q], key) ==> Names(s, step.id, key);
      assert !step.Load? && !Mentions(s.processes[q], key) ==> key == s.nextKey;
    }
    forall id | Kept(s', id) && s'.reviews[id].photoKey.Some?
      ensures s'.reviews[id].photoKey.value in s'.blobs
    {
      assert Names(s', id, s'.reviews[id].photoKey.value);
    }
  }

  lemma StepKeepsUnshared(s: System, step: Step)
    requires Inv(s) && Enabled(s, step)
    ensures KeysUnshared(After(s, step))
  {
    hide NewKeysPrivate, Accounted, Numbered, Sound, NothingDangles;
    var s' := After(s, step);
    forall i, j, key | Names(s', i, key) && Names(s', j, key)
      ensures i == j
    {
      NewNames(s, step, i, key);
      NewNames(s, step, j, key);
    }
  }

  /** The only key a step stores is the next one. */
  lemma NewKeyOrigin(s: System, step: Step, p: nat, key: nat)
    requires Enabled(s, step) && p in After(s, step).processes && NewKey(After(s, step).processes[p]) == Some(key)
    ensures p in s.processes && (NewKey(s.processes[p]) == Some(key) || (p == step.p && key == s.nextKey))
  {
  }

  lemma MentionOrigin(s: System, step: Step, q: nat, key: nat)
    requires Enabled(s, step) && q in After(s, step).processes && Mentions(After(s, step).processes[q], key)
    ensures q in s.processes
    ensures Mentions(s.processes[q], key) ||
            (q == step.p && (key == s.nextKey || (step.Load? && Names(s, step.id, key))))
  {
  }

  lemma StepKeepsPrivate(s: System, step: Step)
    requires Inv(s) && Enabled(s, step)
    ensures NewKeysPrivate(After(s, step))
  {
    hide After, Enabled, KeysUnshared, Accounted, NothingDangles, Mentions;
    var s' := After(s, step);
    forall p, q, key: nat | p in s'.processes && q in s'.processes && p != q && NewKey(s'.processes[p]) == Some(key)
      ensures !Mentions(s'.processes[q], key)
    {
      NewKeyOrigin(s, step, p, key);
      if Mentions(s'.processes[q], key) {
        MentionOrigin(s, step, q, key);
        NobodyElseMentions(s, p, q, key);
        assert false;
      }
    }
  }

  /** A key somebody is about to save is below the counter, unnamed, and mentioned by nobody else. */
  lemma NobodyElseMentions(s: System, p: nat, q: nat, key: nat)
    requires Inv(s) && p in s.processes && q in s.processes && p != q
    ensures NewKey(s.processes[p]) == Some(key) ==>
              key < s.nextKey && !Mentions(s.processes[q], key) && forall id :: !Names(s, id, key)
    ensures !Mentions(s.processes[q], s.nextKey)
  {
    assert Sound(s, s.processes[p]);
    assert NewKey(s.processes[p]) == Some(key) ==> Mentions(s.processes[p], key);
  }

  /** A request that takes no part in the step may go on relying on its keys. */
  lemma OthersStaySound(s: System, step: Step, q: nat)
    requires Inv(s) && Enabled(s, step) && q in s.processes && q != step.p
    ensures Sound(After(s, step), s.processes[q])
  {
    var s', c := After(s, step), s.processes[q];
    assert Sound(s, c);
    forall id, key: nat | Names(s', id, key) && Mentions(c, key)
      ensures Names(s, id, key)
    {
      NewNames(s, step, id, key);
      assert NewKey(s.processes[step.p]) != Some(key);
    }
    assert NewKey(c).Some? ==> Mentions(c, NewKey(c).value);
    assert OldKey(c).Some? ==> Mentions(c, OldKey(c).value);
    if step.Delete? {
      assert NewKey(c).Some? ==> !Mentions(s.processes[step.p], NewKey(c).value);
    }
  }

  lemma ActorStaysSound(s: System, step: Step)
    requires Inv(s) && Enabled(s, step)
    ensures Sound(After(s, step), After(s, step).processes[step.p])
  {
    hide NewKeysPrivate, Accounted, NothingDangles;
    var s', c, c' := After(s, step), s.processes[step.p], After(s, step).processes[step.p];
    assert Sound(s, c);
    assert c.Loaded? && c.seen.Some? ==> Mentions(c, c.seen.value);
    forall id, key: nat | Names(s', id, key)
      ensures !Holds(c', key)
      ensures OldKey(c') == Some(key) ==> id == c'.id
    {
      NewNames(s, step, id, key);
      if NewKey(c) != Some(key) {
        assert Names(s, id, key) && key < s.nextKey;
        assert OldKey(c) == Some(key) ==> id == c.id;
        assert step.Load? && OldKey(c') == Some(key) ==> Names(s, step.id, key);
      } else {
        assert step.Insert? || (step.Commit? && c.seen != Some(key));
      }
    }
  }

  lemma StepKeepsSound(s: System, step: Step, q: nat)
    requires Inv(s) && Enabled(s, step) && q in s.processes
    ensures Sound(After(s, step), After(s, step).processes[q])
  {
    if q == step.p {
      ActorStaysSound(s, step);
    } else {
      OthersStaySound(s, step, q);
    }
  }

  lemma StepKeepsInv(s: System, step: Step)
    requires Inv(s) && Enabled(s, step)
    ensures Inv(After(s, step))
  {
    hide Sound, Numbered, NothingDangles, KeysUnshared, NewKeysPrivate, Referenced, Pending;
    var s' := After(s, step);
    StepKeepsNumbered(s, step);
    StepKeepsUnshared(s, step);
    StepKeepsPrivate(s, step);
    forall q | q in s'.processes
      ensures Sound(s', s'.processes[q])
    {
      StepKeepsSound(s, step, q);
    }
    forall key | key in s'.blobs
      ensures Referenced(s', key) || Pending(s', key) || key in s'.lost
    {
      BlobAccounted(s, step, key);
    }
  }

  lemma {:induction false} ReachedInv(s: System, n: nat)
    requires Reached(s, n)
    ensures Inv(s)
    decreases n
  {
    hide Inv, Takes, Init;
    if n == 0 {
      InitIsInv(s);
    } else {
      var before, step :| Reached(before, n - 1) && Takes(before, step, s);
      ReachedInv(before, n - 1);
      TakesKeepsInv(before, step, s);
    }
  }

  lemma TakesKeepsInv(s: System, step: Step, s': System)
    requires Inv(s) && Takes(s, step, s')
    ensures Inv(s')
  {
    StepKeepsInv(s, step);
  }

  /**
   * In every interleaving with any step failing, a kept review's photo is stored and is nobody
   * else's, and a stored photo is a review's, in the hands of a request, or lost for a recorded
   * reason.
   */
  lemma PhotosNeverDangle(s: System, n: nat)
    requires Reached(s, n)
    ensures forall id :: Kept(s, id) && s.reviews[id].photoKey.Some? ==> s.reviews[id].photoKey.value in s.blobs
    ensures forall i, j, key :: Names(s, i, key) && Names(s, j, key) ==> i == j
    ensures forall key :: key in s.blobs ==> Referenced(s, key) || Pending(s, key) || key in s.lost
  {
    ReachedInv(s, n);
  }

  // ---- A clean-up is safe whenever it comes ----

  /** A key that no kept review names and that no request will give to one. */
  ghost predicate Retired(s: System, key: nat)
  {
    && key < s.nextKey && !Referenced(s, key)
    && forall p :: p in s.processes ==> NewKey(s.processes[p]) != Some(key)
  }

  lemma RetiredStays(s: System, step: Step, key: nat)
    requires Inv(s) && Enabled(s, step) && Retired(s, key)
    ensures Retired(After(s, step), key)
  {
    var s' := After(s, step);
    KeysOnlyGrow(s, step);
    forall id
      ensures !Names(s', id, key)
    {
      if Names(s', id, key) {
        NewNames(s, step, id, key);
        assert false;
      }
    }
    hide After, Inv, Names, Enabled;
    forall p | p in s'.processes
      ensures NewKey(s'.processes[p]) != Some(key)
    {
      if NewKey(s'.processes[p]) == Some(key) {
        NewKeyOrigin(s, step, p, key);
        assert false;
      }
    }
  }

  lemma KeysOnlyGrow(s: System, step: Step)
    requires Enabled(s, step)
    ensures s.nextKey <= After(s, step).nextKey
  {
  }

  /** `s'` follows from `s` in `n` steps. */
  ghost predicate Follows(s: System, s': System, n: nat)
    decreases n
  {
    if n == 0 then s' == s
    else exists before, step :: Follows(s, before, n - 1) && Takes(before, step, s')
  }

  lemma {:induction false} RetiredForever(s: System, s': System, n: nat, key: nat)
    requires Inv(s) && Retired(s, key) && Follows(s, s', n)
    ensures Inv(s') && Retired(s', key)
    decreases n
  {
    hide Inv, Retired, Enabled, After;
    if n != 0 {
      var before, step :| Follows(s, before, n - 1) && Takes(before, step, s');
      RetiredForever(s, before, n - 1, key);
      StepKeepsInv(before, step);
      RetiredStays(before, step, key);
    }
  }

  /** From the moment a request is left with a blob to delete, no kept review ever names that blob. */
  lemma CleanupIsSafe(s: System, n: nat, p: nat, key: nat, s': System, m: nat)
    requires Reached(s, n) && p in s.processes && s.processes[p] == Cleaning(key) && Follows(s, s', m)
    ensures !Referenced(s', key) && NothingDangles(s'.(blobs := s'.blobs - {key}))
  {
    ReachedInv(s, n);
    CleaningIsRetired(s, p);
    RetiredForever(s, s', m, key);
    forall id | Kept(s', id) && s'.reviews[id].photoKey.Some?
      ensures s'.reviews[id].photoKey.value in s'.blobs - {key}
    {
      assert Names(s', id, s'.reviews[id].photoKey.value);
    }
  }

  lemma CleaningIsRetired(s: System, p: nat)
    requires Inv(s) && p in s.processes && s.processes[p].Cleaning?
    ensures Retired(s, s.processes[p].key)
  {
    assert Sound(s, s.processes[p]) && Mentions(s.processes[p], s.processes[p].key);
  }

  // ---- Exactly when a blob is lost ----

  /** Stored, but no review names it and no request will delete it or save it. */
  ghost predicate Orphaned(s: System, key: nat)
  {
    key in s.blobs && !Referenced(s, key) && !Pending(s, key)
  }

  lemma LostWasKnown(s: System, step: Step)
    requires Inv(s) && Enabled(s, step) && LostKey(s, step).Some?
    ensures !Orphaned(s, LostKey(s, step).value) && !Referenced(After(s, step), LostKey(s, step).value)
  {
    var s', c, key := After(s, step), s.processes[step.p], LostKey(s, step).value;
    assert Sound(s, c);
    if step.Commit? || step.Discard? {
      assert Names(s, c.id, key);
    } else if !step.PutFails? {
      assert Holds(c, key);
    }
    forall id
      ensures !Names(s', id, key)
    {
      if Names(s', id, key) {
        NewNames(s, step, id, key);
        assert false;
      }
    }
  }

  /**
   * A step turns a blob into an orphan exactly when it loses its key, unless the blob is already
   * deleted or another request cleans it up as well; and the history records just these keys.
   */
  lemma LosesExactly(s: System, step: Step, key: nat)
    requires Inv(s) && Enabled(s, step)
    ensures var s' := After(s, step);
            Orphaned(s', key) && !Orphaned(s, key) <==>
            LostKey(s, step) == Some(key) && key in s'.blobs && !Pending(s', key)
    ensures After(s, step).lost == s.lost + KeySet(LostKey(s, step))
  {
    LostGrows(s, step);
    if LostKey(s, step) == Some(key) {
      LostWasKnown(s, step);
    }
    if Orphaned(After(s, step), key) && !Orphaned(s, key) {
      BlobFate(s, step, key);
    }
  }

  // ---- Runs that lose nothing ----

  /** `s` is reached by a run in which no step loses a key. */
  ghost predicate LosslesslyReached(s: System, n: nat)
    decreases n
  {
    if n == 0 then Init(s)
    else exists before, step ::
      LosslesslyReached(before, n - 1) && Takes(before, step, s) && LostKey(before, step) == None
  }

  /** A row that had a photo still has one. */
  ghost predicate StillPhotographed(s: System, c: Process)
  {
    OldKey(c).Some? ==> c.id in s.reviews && s.reviews[c.id].photoKey.Some?
  }

  ghost predicate AllPhotographed(s: System)
  {
    forall p :: p in s.processes ==> StillPhotographed(s, s.processes[p])
  }

  /** A blob to delete is there, and one request is to delete it. */
  ghost predicate OneCleaner(s: System)
  {
    && (forall p :: p in s.processes && s.processes[p].Cleaning? ==> s.processes[p].key in s.blobs)
    && (forall p, q :: p in s.processes && q in s.processes && p != q && s.processes[p].Cleaning? ==>
          s.processes[q] != s.processes[p])
  }

  ghost predicate Orderly(s: System)
  {
    s.lost == {} && AllPhotographed(s) && OneCleaner(s)
  }

  /** What a lossless step leaves to delete was named by a row, or known to this request only. */
  lemma NewCleaning(s: System, step: Step)
    requires Inv(s) && Enabled(s, step) && Orderly(s) && LostKey(s, step) == None
    requires After(s, step).processes[step.p].Cleaning?
    ensures var key := After(s, step).processes[step.p].key;
            key in s.blobs && forall q :: q in s.processes && q != step.p ==> s.processes[q] != Cleaning(key)
  {
    var c, key := s.processes[step.p], After(s, step).processes[step.p].key;
    assert Sound(s, c);
    assert StillPhotographed(s, c);
    if step.Commit? || step.Discard? {
      assert Names(s, c.id, key);
      forall q | q in s.processes && q != step.p
        ensures s.processes[q] != Cleaning(key)
      {
        assert Sound(s, s.processes[q]);
      }
    } else {
      assert NewKey(c) == Some(key);
      assert forall q :: q in s.processes && s.processes[q] == Cleaning(key) ==> Mentions(s.processes[q], key);
    }
  }

  lemma StepKeepsPhotographed(s: System, step: Step)
    requires Enabled(s, step) && AllPhotographed(s) && forall id :: id in s.reviews ==> id < s.nextReview
    ensures AllPhotographed(After(s, step))
  {
    var s' := After(s, step);
    forall q | q in s'.processes
      ensures StillPhotographed(s', s'.processes[q])
    {
      assert StillPhotographed(s, s.processes[q]);
    }
  }

  /** A step moves one request on, and deletes only the blob that request cleans up. */
  lemma StepShape(s: System, step: Step)
    requires Enabled(s, step)
    ensures var s', p := After(s, step), step.p;
            && p in s.processes && p in s'.processes && s'.processes == s.processes[p := s'.processes[p]]
            && (if step.Delete? then
                  s.processes[p].Cleaning? && s'.processes[p] == Idle && s'.blobs == s.blobs - {s.processes[p].key}
                else s.blobs <= s'.blobs)
  {
  }

  lemma StepKeepsOneCleaner(s: System, step: Step)
    requires Inv(s) && Enabled(s, step) && Orderly(s) && LostKey(s, step) == None
    ensures OneCleaner(After(s, step))
  {
    hide Inv, AllPhotographed, LostKey, Enabled, After;
    var s', p := After(s, step), step.p;
    StepShape(s, step);
    if s'.processes[p].Cleaning? {
      NewCleaning(s, step);
    }
  }

  lemma StepKeepsOrderly(s: System, step: Step)
    requires Inv(s) && Enabled(s, step) && Orderly(s) && LostKey(s, step) == None
    ensures Orderly(After(s, step))
  {
    hide After, Enabled, LostKey, AllPhotographed, OneCleaner;
    LostGrows(s, step);
    StepKeepsPhotographed(s, step);
    StepKeepsOneCleaner(s, step);
  }

  lemma {:induction false} LosslessInv(s: System, n: nat)
    requires LosslesslyReached(s, n)
    ensures Inv(s) && Orderly(s)
    decreases n
  {
    hide Inv, Orderly, Enabled, After, LostKey;
    if n == 0 {
      InitIsInv(s);
      InitIsOrderly(s);
    } else {
      var before, step :| LosslesslyReached(before, n - 1) && Takes(before, step, s) && LostKey(before, step) == None;
      LosslessInv(before, n - 1);
      StepKeepsInv(before, step);
      StepKeepsOrderly(before, step);
    }
  }

  lemma InitIsOrderly(s: System)
    requires Init(s)
    ensures Orderly(s)
  {
  }

  /**
   * In a run in which no step loses a key, the stored blobs are exactly the photos of kept reviews
   * and those in the hands of requests; once all requests are over, exactly the photos of kept reviews.
   */
  lemma LosslessRuns(s: System, n: nat)
    requires LosslesslyReached(s, n)
    ensures s.lost == {}
    ensures forall key :: key in s.blobs <==> Referenced(s, key) || Pending(s, key)
    ensures (forall p :: p in s.processes ==> s.processes[p].Idle?) ==>
              forall key :: key in s.blobs <==> Referenced(s, key)
  {
    LosslessInv(s, n);
    forall key: nat | Pending(s, key)
      ensures key in s.blobs
    {
      var p :| p in s.processes && Holds(s.processes[p], key);
      assert Sound(s, s.processes[p]);
    }
  }

  // ---- The assumption that an error means nothing was committed ----

  /** An edit whose transaction reports an error although the database applied it. */
  function CommittedWithError(s: System, p: nat): System
    requires p in s.processes && s.processes[p].Editing? && Kept(s, s.processes[p].id)
  {
    var c := s.processes[p];
    var s1 := if c.photo.Some? then s.(reviews := s.reviews[c.id := s.reviews[c.id].(photoKey := c.photo)]) else s;
    Move(s1, p, Clean(c.photo))
  }

  function Cleaned(s: System, p: nat): System
    requires p in s.processes
  {
    if s.processes[p].Cleaning? then Move(s, p, Idle).(blobs := s.blobs - {s.processes[p].key}) else s
  }

  /** Then the clean-up breaks the review exactly when the edit carried a photo. */
  lemma AssumptionIsNeeded(s: System, p: nat)
    requires Inv(s) && p in s.processes && s.processes[p].Editing? && Kept(s, s.processes[p].id)
    ensures NothingDangles(Cleaned(CommittedWithError(s, p), p)) <==> s.processes[p].photo.None?
  {
    var c, s' := s.processes[p], Cleaned(CommittedWithError(s, p), p);
    if c.photo.Some? {
      assert Kept(s', c.id) && s'.reviews[c.id].photoKey.value !in s'.blobs;
    } else {
      assert s'.reviews == s.reviews && s'.blobs == s.blobs;
      assert forall id :: Kept(s', id) <==> Kept(s, id);
    }
  }
}
