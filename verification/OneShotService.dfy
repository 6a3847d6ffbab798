/**
 * Redeeming a handoff code and confirming a sign-up as the code does it, one transaction without
 * another in between; OneShots interleaves the attempts. Flags say which outside calls fail.
 */
module OneShotService {
  import opened OneShots
  import opened SignupRequests
  import opened Wrappers

  const HANDOFF_TTL := 60

  datatype HandoffRow = HandoffRow(outcome: Outcome, user: Option<nat>, binder: nat, expiresAt: int)

  datatype SignupRow = SignupRow(email: string, pending: PendingRow)

  datatype Error = Invalid | Mismatch | Internal

  datatype Redeemed = Redeemed(outcome: Outcome, token: Option<nat>)

  class OneShotDatabase {
    var handoffs: map<nat, HandoffRow>       // by code hash
    var signups: map<nat, SignupRow>         // by token hash
    var users: map<nat, User>
    var nextUser: nat
    var nextId: nat

    /** One pending row per address, and each row with a user exactly when its outcome has one. */
    ghost predicate Valid()
      reads this
    {
      && (forall u :: u in users ==> u < nextUser)
      && (forall h :: h in handoffs ==> NeedsUser(handoffs[h].outcome) == handoffs[h].user.Some?)
      && (forall g, h :: g in signups && h in signups && signups[g].email == signups[h].email ==> g == h)
    }

    /** The stored user must match the outcome. */
    method IssueHandoff(hash: nat, outcome: Outcome, user: Option<nat>, binder: nat, now: int)
      returns (r: Result<(), Error>)
      requires Valid() && hash !in handoffs
      modifies this`handoffs
      ensures Valid()
      ensures r == if (outcome == SignedIn || outcome == Linked) == user.Some? then Ok(()) else Err(Mismatch)
      ensures handoffs == if r.Ok?
                          then old(handoffs)[hash := HandoffRow(outcome, user, binder, now + 60)]
                          else old(handoffs)
    {
      if NeedsUser(outcome) != user.Some? {
        return Err(Mismatch);
      }
      handoffs := handoffs[hash := HandoffRow(outcome, user, binder, now + HANDOFF_TTL)];
      return Ok(());
    }

    /**
     * Unknown, expired, used and wrongly bound codes are one and the same error; only a success
     * uses the code up, and a failing outside call leaves it for another attempt.
     */
    method Redeem(hash: nat, binder: Option<nat>, now: int, readFails: bool, signFails: bool)
      returns (r: Result<Redeemed, Error>)
      requires Valid()
      modifies this`handoffs
      ensures Valid()
      ensures (r.Err? && r.error == Invalid) <==>
                !(hash in old(handoffs) && now < old(handoffs)[hash].expiresAt &&
                  binder == Some(old(handoffs)[hash].binder))
      ensures r.Ok? && old(handoffs)[hash].outcome != SignedIn ==>
                r.value == Redeemed(old(handoffs)[hash].outcome, None)
      ensures r.Ok? && old(handoffs)[hash].outcome == SignedIn ==>
                var user := old(handoffs)[hash].user.value;
                r.value == if user in users && !users[user].discarded then Redeemed(SignedIn, Some(user))
                           else Redeemed(Failed, None)
      ensures handoffs == if r.Ok? then old(handoffs) - {hash} else old(handoffs)
      ensures r == Err(Internal) <==>
                && hash in old(handoffs) && now < old(handoffs)[hash].expiresAt
                && binder == Some(old(handoffs)[hash].binder) && old(handoffs)[hash].outcome == SignedIn
                && var user := old(handoffs)[hash].user.value;
                   readFails || (signFails && user in users && !users[user].discarded)
    {
      if hash !in handoffs || handoffs[hash].expiresAt <= now {
        return Err(Invalid);
      }
      var row := handoffs[hash];
      if binder.None? || binder.value != row.binder {
        return Err(Invalid);
      }
      var result := Redeemed(row.outcome, None);
      if row.outcome == SignedIn {
        if readFails {
          return Err(Internal);
        }
        var user := row.user.value;
        if user in users && !users[user].discarded {
          if signFails {
            return Err(Internal);
          }
          result := Redeemed(SignedIn, Some(user));
        } else {
          result := Redeemed(Failed, None);
        }
      }
      handoffs := handoffs - {hash};
      return Ok(result);
    }

    /** The upsert of a pending sign-up; `hash` is the hash of the new token. */
    method RequestSignup(hash: nat, email: string, now: int) returns (accepted: Option<Receipt>)
      requires Valid() && hash !in signups
      modifies this`signups, this`nextId
      ensures Valid()
      ensures accepted.None? ==> signups == old(signups)
      ensures accepted.Some? ==>
                hash in signups &&
                signups[hash] ==
                  SignupRow(email, PendingRow(accepted.value.id, accepted.value.generation, now, now + 86400))
      ensures accepted.Some? ==>
                forall h :: h in signups && h != hash ==>
                  h in old(signups) && signups[h] == old(signups)[h] && signups[h].email != email
      ensures forall h :: h in old(signups) && old(signups)[h].email == email ==>
                (accepted.Some? <==> old(signups)[h].pending.lastSent + 60 <= now) &&
                (accepted.Some? ==>
                 h !in signups &&
                   accepted.value == Receipt(old(signups)[h].pending.id, old(signups)[h].pending.generation + 1, now))
      ensures (forall h :: h in old(signups) ==> old(signups)[h].email != email) ==>
                accepted == Some(Receipt(old(nextId), 1, now))
    {
      if h :| h in signups && signups[h].email == email {
        var upserted := Upserted(Some(signups[h].pending), nextId, now);
        if upserted.None? {
          return None;
        }
        signups := (signups - {h})[hash := SignupRow(email, upserted.value)];
        return Some(Receipt(upserted.value.id, upserted.value.generation, now));
      }
      var added := PendingRow(nextId, 1, now, now + TOKEN_TTL);
      nextId := nextId + 1;
      signups := signups[hash := SignupRow(email, added)];
      return Some(Receipt(added.id, 1, now));
    }

    /** The account is created exactly when the pending row is removed. */
    method Confirm(hash: nat, now: int) returns (r: Result<nat, Error>)
      requires Valid()
      modifies this`signups, this`users, this`nextUser
      ensures Valid()
      ensures r.Ok? <==> hash in old(signups) && now < old(signups)[hash].pending.expiresAt &&
                         forall u :: u in old(users) ==> old(users)[u].email != old(signups)[hash].email
      ensures r.Err? ==> r.error == Invalid && signups == old(signups) && users == old(users)
      ensures r.Ok? ==> signups == old(signups) - {hash} && r.value !in old(users) &&
                        users == old(users)[r.value := User(old(signups)[hash].email, false)]
    {
      if hash !in signups || signups[hash].pending.expiresAt <= now {
        return Err(Invalid);
      }
      var email := signups[hash].email;
      if u :| u in users && users[u].email == email {
        return Err(Invalid);
      }
      users := users[nextUser := User(email, false)];
      nextUser := nextUser + 1;
      signups := signups - {hash};
      return Ok(nextUser - 1);
    }
  }
}
