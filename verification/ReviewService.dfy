/**
 * Posting, editing and deleting a review with its photo, as the code does it: store the blob, run
 * the transaction, clean up. Each method is one request without another in between; the flags say
 * which of its outside calls fail. ReviewPhotos interleaves requests.
 */
module ReviewService {
  import opened ReviewPhotos
  import opened Wrappers

  datatype Failure = NotFound | Forbidden | StorageFailed | TransactionFailed

  /** Which outside calls of one request fail; `leaves` says that a failed upload left its bytes. */
  datatype Faults = Faults(put: bool, leaves: bool, transaction: bool, delete: bool)

  class Reviews {
    var reviews: map<nat, Review>
    var blobs: set<nat>
    var nextReview: nat
    var nextKey: nat

    predicate Shown(id: nat)
      reads this
    {
      id in reviews && reviews[id].kept
    }

    /** Ids and keys in use were drawn from the counters, no key is used twice, none dangles. */
    ghost predicate Valid()
      reads this
    {
      && (forall id :: id in reviews ==> id < nextReview)
      && (forall key :: key in blobs ==> key < nextKey)
      && (forall id :: Shown(id) && reviews[id].photoKey.Some? ==> reviews[id].photoKey.value in blobs)
      && (forall i, j ::
            Shown(i) && Shown(j) && reviews[i].photoKey.Some? && reviews[i].photoKey == reviews[j].photoKey ==> i == j)
    }

    /** No stored blob is without a review. */
    ghost predicate Tidy()
      reads this
    {
      forall key :: key in blobs ==> exists id :: Shown(id) && reviews[id].photoKey == Some(key)
    }

    /** The key is new: no row and no other request knows it. */
    method PutPhoto(photo: bool, faults: Faults) returns (r: Result<Option<nat>, Failure>)
      modifies this`blobs, this`nextKey
      ensures r == if !photo then Ok(None) else if faults.put then Err(StorageFailed) else Ok(Some(old(nextKey)))
      ensures nextKey == old(nextKey) + (if photo then 1 else 0)
      ensures blobs == if photo && (faults.put ==> faults.leaves) then old(blobs) + {old(nextKey)} else old(blobs)
    {
      if !photo {
        return Ok(None);
      }
      var key := nextKey;
      nextKey := nextKey + 1;
      if !faults.put || faults.leaves {
        blobs := blobs + {key};
      }
      return if faults.put then Err(StorageFailed) else Ok(Some(key));
    }

    /** Callers pass a key that no row names any more, or never will. */
    method DeletePhotoBestEffort(key: Option<nat>, faults: Faults)
      modifies this`blobs
      ensures blobs == if faults.delete then old(blobs) else old(blobs) - KeySet(key)
    {
      if key.Some? && !faults.delete {
        blobs := blobs - {key.value};
      }
    }

    method Create(author: nat, photo: bool, faults: Faults) returns (r: Result<nat, Failure>)
      requires Valid()
      modifies this
      ensures Valid()
      ensures r.Ok? <==> !faults.transaction && (photo ==> !faults.put)
      ensures r.Ok? ==> r.value == old(nextReview) && reviews == old(reviews)[r.value :=
                Review(author, if photo then Some(old(nextKey)) else None, true)]
      ensures r.Err? ==> reviews == old(reviews)
      ensures old(Tidy()) && !faults.leaves && !faults.delete ==> Tidy()
    {
      var put := PutPhoto(photo, faults);
      if put.Err? {
        return Err(put.error);
      }
      var key := put.value;
      if faults.transaction {
        DeletePhotoBestEffort(key, faults);
        return Err(TransactionFailed);
      }
      var id := nextReview;
      nextReview := nextReview + 1;
      reviews := reviews[id := Review(author, key, true)];
      assert forall i :: old(Shown(i)) ==> Shown(i) && reviews[i] == old(reviews[i]);
      assert key.Some? ==> Shown(id) && reviews[id].photoKey == key;
      return Ok(id);
    }

    method Update(id: nat, viewer: nat, photo: bool, faults: Faults) returns (r: Result<(), Failure>)
      requires Valid()
      modifies this
      ensures Valid()
      ensures r.Err? && r.error == NotFound <==> !old(Shown(id))
      ensures old(Shown(id)) ==> (r.Err? && r.error == Forbidden <==> old(reviews[id].author) != viewer)
      ensures r.Ok? <==>
                old(Shown(id)) && old(reviews[id].author) == viewer && !faults.transaction && (photo ==> !faults.put)
      ensures reviews == if r.Ok? && photo
                         then old(reviews)[id := old(reviews[id]).(photoKey := Some(old(nextKey)))]
                         else old(reviews)
      ensures old(Tidy()) && !faults.leaves && !faults.delete ==> Tidy()
    {
      if id !in reviews || !reviews[id].kept {
        return Err(NotFound);
      }
      var seen := reviews[id];
      if seen.author != viewer {
        return Err(Forbidden);
      }
      var put := PutPhoto(photo, faults);
      if put.Err? {
        return Err(put.error);
      }
      var key := put.value;
      if faults.transaction {
        DeletePhotoBestEffort(key, faults);
        return Err(TransactionFailed);
      }
      if key.Some? {
        reviews := reviews[id := reviews[id].(photoKey := key)];
        assert Shown(id) && reviews[id].photoKey == key;
        assert forall i :: i != id && old(Shown(i)) ==> Shown(i) && reviews[i] == old(reviews[i]);
        DeletePhotoBestEffort(seen.photoKey, faults);
      }
      return Ok(());
    }

    method Delete(id: nat, viewer: nat, faults: Faults) returns (r: Result<(), Failure>)
      requires Valid()
      modifies this
      ensures Valid()
      ensures r.Err? && r.error == NotFound <==> !old(Shown(id))
      ensures r.Ok? <==> old(Shown(id)) && old(reviews[id].author) == viewer && !faults.transaction
      ensures reviews == if r.Ok? then old(reviews)[id := old(reviews[id]).(kept := false)] else old(reviews)
      ensures old(Tidy()) && !faults.delete ==> Tidy()
    {
      if id !in reviews || !reviews[id].kept {
        return Err(NotFound);
      }
      var seen := reviews[id];
      if seen.author != viewer {
        return Err(Forbidden);
      }
      if faults.transaction {
        return Err(TransactionFailed);
      }
      reviews := reviews[id := reviews[id].(kept := false)];
      assert forall i :: i != id && old(Shown(i)) ==> Shown(i) && reviews[i] == old(reviews[i]);
      DeletePhotoBestEffort(seen.photoKey, faults);
      return Ok(());
    }
  }
}
