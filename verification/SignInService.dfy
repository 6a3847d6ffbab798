/**
 * Signing in with an external account, linking and unlinking, as the code does it against the
 * tables. Each method runs without another request in between; SignIn interleaves them.
 */
module SignInService {
  import opened SignIn
  import opened Wrappers

  datatype Outcome = SignedIn | Linked | AccountExists | IdentityTaken | AlreadyLinked | Failed

  predicate NeedsUser(outcome: Outcome)
  {
    outcome == SignedIn || outcome == Linked
  }

  /** The result of a flow: an outcome, with a user exactly when the outcome needs one. */
  datatype Resolved = Resolved(outcome: Outcome, user: Option<nat>)

  /** The external account is linked to nobody. */
  predicate LinkedToNobody(t: Tables, provider: Provider, subject: nat)
  {
    forall i :: i in t.identities ==> !(i.provider == provider && i.subject == subject)
  }

  /** The user has a link of this provider. */
  predicate HasProvider(t: Tables, user: nat, provider: Provider)
  {
    exists i :: i in t.identities && i.provider == provider && i.user == user
  }

  datatype Error = NotFound | UserGone | EmailTaken | InvalidPasswordDigest | Taken | AlreadyHasProvider | CannotUnlink

  /** Links and passwords were only gained, apart from one user that can sign in anyway. */
  lemma GainsKeepSignIn(t: Tables, t': Tables, changed: nat)
    requires t.identities <= t'.identities && changed in t'.users
    requires forall u :: u in t'.users && u != changed ==> u in t.users && t'.users[u] == t.users[u]
    requires CanSignIn(t', changed) ||
             (changed in t.users && t'.users[changed].discarded == t.users[changed].discarded &&
                                        (t.users[changed].hasPassword ==> t'.users[changed].hasPassword))
    ensures EveryoneCanSignIn(t) ==> EveryoneCanSignIn(t')
  {
    if EveryoneCanSignIn(t) {
      forall u | Active(t', u)
        ensures CanSignIn(t', u)
      {
        if u in t.users && Active(t, u) {
          assert IdentitiesOf(t, u) <= IdentitiesOf(t', u);
          assert CanSignIn(t, u);
        }
      }
    }
  }

  /** An external account has one user. */
  lemma OneUserEach(t: Tables, provider: Provider, subject: nat)
    requires UniqueKeys(t)
    ensures forall u, v :: {Identity(u, provider, subject), Identity(v, provider, subject)} <= t.identities ==> u == v
  {
    forall u, v | Identity(u, provider, subject) in t.identities && Identity(v, provider, subject) in t.identities
      ensures u == v
    {
      assert Clash(Identity(u, provider, subject), Identity(v, provider, subject));
    }
  }

  // ---- Round trips ----

  /** Whoever signed in with an external account, new or not, signs in with it again as the same user. */
  method SignInAgain(db: SignInDatabase, email: string, other: string, provider: Provider, subject: nat)
    returns (first: Resolved, second: Resolved)
    requires db.Valid()
    modifies db
    ensures db.Valid()
    ensures first.outcome == SignedIn ==> second == first
  {
    first := db.SignInWith(email, provider, subject);
    second := db.SignInWith(other, provider, subject);
  }

  /** A linked external account signs in the user it was linked to. */
  method LinkThenSignIn(db: SignInDatabase, identity: Identity, email: string) returns (link: Resolved, login: Resolved)
    requires db.Valid()
    modifies db
    ensures db.Valid()
    ensures link.outcome == Linked ==> login == Resolved(SignedIn, Some(identity.user))
  {
    link := db.Link(identity);
    assert identity == Identity(identity.user, identity.provider, identity.subject);
    login := db.SignInWith(email, identity.provider, identity.subject);
  }

  class SignInDatabase {
    var users: map<nat, User>
    var identities: set<Identity>
    var nextUser: nat

    ghost function T(): Tables
      reads this
    {
      Tables(users, identities)
    }

    ghost predicate Valid()
      reads this
    {
      && UniqueKeys(T())
      && (forall u :: u in users ==> u < nextUser)
      && (forall i :: i in identities ==> i.user in users)
    }

    // ---- Statements ----

    /** An account without a password must ask for that; an empty digest alone is a mistake. */
    method CreateUser(email: string, digest: string, passwordless: bool) returns (r: Result<nat, Error>)
      requires Valid()
      modifies this`users, this`nextUser
      ensures Valid() && old(nextUser) <= nextUser
      ensures r == if passwordless == (digest != "") then Err(InvalidPasswordDigest)
                   else if EmailFree(old(T()), email) then Ok(old(nextUser)) else Err(EmailTaken)
      ensures users == if r.Ok? then old(users)[r.value := User(email, !passwordless, false)] else old(users)
      ensures r.Ok? ==> nextUser == r.value + 1
    {
      if passwordless == (digest != "") {
        return Err(InvalidPasswordDigest);
      }
      if u :| u in users && users[u].email == email {
        return Err(EmailTaken);
      }
      users := users[nextUser := User(email, !passwordless, false)];
      nextUser := nextUser + 1;
      return Ok(nextUser - 1);
    }

    /** The unique keys are checked in this order. */
    method CreateIdentity(identity: Identity) returns (r: Result<(), Error>)
      requires Valid() && identity.user in users
      modifies this`identities
      ensures Valid()
      ensures r == if !LinkedToNobody(old(T()), identity.provider, identity.subject) then Err(Taken)
                   else if HasProvider(old(T()), identity.user, identity.provider)
                   then Err(AlreadyHasProvider) else Ok(())
      ensures identities == if r.Ok? then old(identities) + {identity} else old(identities)
    {
      if i :| i in identities && i.provider == identity.provider && i.subject == identity.subject {
        return Err(Taken);
      }
      if i :| i in identities && i.provider == identity.provider && i.user == identity.user {
        return Err(AlreadyHasProvider);
      }
      identities := identities + {identity};
      return Ok(());
    }

    method FindIdentity(provider: Provider, subject: nat) returns (found: Option<Identity>)
      ensures found.Some? ==>
                found.value in identities && found.value.provider == provider && found.value.subject == subject
      ensures found.None? ==> forall i :: i in identities ==> !(i.provider == provider && i.subject == subject)
    {
      if i :| i in identities && i.provider == provider && i.subject == subject {
        return Some(i);
      }
      return None;
    }

    // ---- Flows ----

    /** The result for an external account that is linked already; None when it is not. */
    method SignInLinked(provider: Provider, subject: nat) returns (r: Option<Resolved>)
      ensures r.None? <==> LinkedToNobody(T(), provider, subject)
      ensures r.Some? ==>
                exists user :: Identity(user, provider, subject) in identities &&
                  r.value == if user in users && !users[user].discarded then Resolved(SignedIn, Some(user))
                             else Resolved(Failed, None)
    {
      var found := FindIdentity(provider, subject);
      if found.None? {
        return None;
      }
      var user := found.value.user;
      assert Identity(user, provider, subject) == found.value;
      if user !in users || users[user].discarded {
        return Some(Resolved(Failed, None));
      }
      return Some(Resolved(SignedIn, Some(user)));
    }

    /**
     * A linked account signs its active user in; an unknown one with a free address becomes a new
     * user without a password; with a taken address nothing is linked on its own.
     */
    method SignInWith(email: string, provider: Provider, subject: nat) returns (r: Resolved)
      requires Valid()
      modifies this
      ensures Valid()
      ensures NeedsUser(r.outcome) <==> r.user.Some?
      ensures r.outcome == SignedIn ==>
                Active(T(), r.user.value) && Identity(r.user.value, provider, subject) in identities
      ensures r.outcome == SignedIn && r.user.value !in old(users) ==>
                EmailFree(old(T()), email) && users == old(users)[r.user.value := User(email, false, false)] &&
                identities == old(identities) + {Identity(r.user.value, provider, subject)}
      ensures !(r.outcome == SignedIn && r.user.value !in old(users)) ==> T() == old(T())
      ensures forall user :: Identity(user, provider, subject) in old(identities) ==>
                r == if Active(old(T()), user) then Resolved(SignedIn, Some(user)) else Resolved(Failed, None)
      ensures LinkedToNobody(old(T()), provider, subject) ==>
                r == if EmailFree(old(T()), email) then Resolved(SignedIn, Some(old(nextUser)))
                     else Resolved(AccountExists, None)
      ensures old(nextUser) !in old(users)
      ensures old(EveryoneCanSignIn(T())) ==> EveryoneCanSignIn(T())
    {
      var linked := SignInLinked(provider, subject);
      if linked.Some? {
        OneUserEach(T(), provider, subject);
        return linked.value;
      }
      var created := CreateUser(email, "", true);
      if created.Err? {
        return Resolved(AccountExists, None);
      }
      var identity := Identity(created.value, provider, subject);
      var inserted := CreateIdentity(identity);
      assert identity in IdentitiesOf(T(), created.value);
      GainsKeepSignIn(old(T()), T(), created.value);
      return Resolved(SignedIn, Some(created.value));
    }

    method Link(identity: Identity) returns (r: Resolved)
      requires Valid()
      modifies this`identities
      ensures Valid()
      ensures NeedsUser(r.outcome) <==> r.user.Some?
      ensures r.outcome == Linked <==> Active(old(T()), identity.user) && identity in identities
      ensures r.outcome == Linked ==> r.user == Some(identity.user)
      ensures r == if !Active(old(T()), identity.user) then Resolved(Failed, None)
                   else if identity in old(identities) then Resolved(Linked, Some(identity.user))
                   else if !LinkedToNobody(old(T()), identity.provider, identity.subject)
                   then Resolved(IdentityTaken, None)
                   else if HasProvider(old(T()), identity.user, identity.provider)
                   then Resolved(AlreadyLinked, None) else Resolved(Linked, Some(identity.user))
      ensures identities == if r.outcome == Linked then old(identities) + {identity} else old(identities)
      ensures old(NoneForDeleted(T())) ==> NoneForDeleted(T())
    {
      if identity.user !in users || users[identity.user].discarded {
        return Resolved(Failed, None);
      }
      var found := FindIdentity(identity.provider, identity.subject);
      if found.Some? {
        if found.value.user == identity.user {
          assert found.value == identity;
          return Resolved(Linked, Some(identity.user));
        }
        assert Clash(found.value, identity);
        return Resolved(IdentityTaken, None);
      }
      var inserted := CreateIdentity(identity);
      if inserted.Ok? {
        return Resolved(Linked, Some(identity.user));
      }
      return Resolved(if inserted.error == Taken then IdentityTaken else AlreadyLinked, None);
    }

    /** Refuses to take the last way to sign in. */
    method Unlink(user: nat, provider: Provider) returns (r: Result<(), Error>)
      requires Valid()
      modifies this`identities
      ensures Valid()
      ensures r == if !HasProvider(old(T()), user, provider) then Err(NotFound)
                   else if !Active(old(T()), user) then Err(UserGone)
                   else if !old(users)[user].hasPassword && |IdentitiesOf(old(T()), user)| <= 1 then Err(CannotUnlink)
                   else Ok(())
      ensures r.Ok? ==> T() == WithoutLinks(old(T()), user, provider)
      ensures r.Ok? ==> users == old(users) && identities == set i | i in old(identities) &&
                                                                     !(i.user == user && i.provider == provider)
      ensures r.Err? ==> T() == old(T())
      ensures r == Err(CannotUnlink) ==>
                Active(old(T()), user) && !CanSignIn(WithoutLinks(old(T()), user, provider), user)
      ensures Active(old(T()), user) && CanSignIn(old(T()), user) ==> CanSignIn(T(), user)
    {
      var listed := set i | i in identities && i.user == user;
      assert listed == IdentitiesOf(T(), user);
      if found :| found in listed && found.provider == provider {
        ghost var t := T();
        ghost var others := listed - {found};
        assert |others| == |listed| - 1;
        assert forall i :: i in listed && i.provider == provider ==> Clash(i, found);
        assert IdentitiesOf(WithoutLinks(t, user, provider), user) == others;
        if user !in users || users[user].discarded {
          return Err(UserGone);
        }
        if !CanUnlink(users[user].hasPassword, |listed|) {
          assert others == {};
          return Err(CannotUnlink);
        }
        assert users[user].hasPassword || others != {};
        identities := set i | i in identities && !(i.user == user && i.provider == provider);
        assert T() == WithoutLinks(t, user, provider);
        return Ok(());
      }
      assert forall i :: i in identities && i.user == user ==> i in listed;
      return Err(NotFound);
    }

    /** An edit never takes a password away; the address stays unique. */
    method UpdateProfile(user: nat, email: Option<string>, digest: Option<string>) returns (r: Result<(), Error>)
      requires Valid()
      modifies this`users
      ensures Valid()
      ensures r == if !Active(old(T()), user) then Err(NotFound)
                   else if email.Some? && exists u :: u in old(users) && u != user && old(users)[u].email == email.value
                   then Err(EmailTaken)
                   else Ok(())
      ensures users == if r.Err? then old(users)
                       else old(users)[user := User(if email.Some? then email.value else old(users)[user].email,
                                                    old(users)[user].hasPassword || digest.Some?, false)]
      ensures old(EveryoneCanSignIn(T())) ==> EveryoneCanSignIn(T())
    {
      if user !in users || users[user].discarded {
        return Err(NotFound);
      }
      if email.Some? {
        if u :| u in users && u != user && users[u].email == email.value {
          return Err(EmailTaken);
        }
      }
      var u := users[user];
      users := users[user := User(if email.Some? then email.value else u.email, u.hasPassword || digest.Some?, false)];
      GainsKeepSignIn(old(T()), T(), user);
      return Ok(());
    }

    /** Deleting an account frees its external accounts. */
    method DeleteAccount(user: nat) returns (r: Result<(), Error>)
      requires Valid()
      modifies this`users, this`identities
      ensures Valid()
      ensures r.Ok? <==> Active(old(T()), user)
      ensures T() == if r.Ok? then Closed(old(T()), user, IdentitiesOf(old(T()), user)) else old(T())
      ensures r.Ok? ==> T() == WithoutUser(old(T()), user)
      ensures old(NoneForDeleted(T())) ==> NoneForDeleted(T())
    {
      if user !in users || users[user].discarded {
        return Err(NotFound);
      }
      AtomicDeletion(T(), user);
      users := users[user := users[user].(discarded := true)];
      identities := set i | i in identities && i.user != user;
      return Ok(());
    }
  }
}
