/**
 * The statements and transactions of the authorization server as methods over mutable tables.
 * Each method runs without another transaction in between; OAuthTokens interleaves them.
 */
module OAuthStore {
  import opened OAuthTables
  import opened Wrappers

  datatype StoreError = NotFound | Inactive | Conflict

  class TokenDatabase {
    var tokens: Tokens
    var grants: map<nat, Grant>
    var discarded: set<nat>
    var nextSignature: nat
    var nextGrant: nat

    ghost function T(): Tables
      reads this
    {
      Tables(tokens, grants, discarded)
    }

    /** Signatures and grant ids in use were drawn from the counters. */
    ghost predicate Valid()
      reads this
    {
      && (forall k :: k in tokens ==> k.signature < nextSignature)
      && (forall g :: g in grants ==> g < nextGrant)
    }

    // ---- Statements ----

    /** A foreign key wants the grant, a unique key a new signature. */
    method Save(k: Key, t: Token) returns (r: Result<(), StoreError>)
      modifies this`tokens
      ensures r == if t.grant !in grants then Err(NotFound) else if k in old(tokens) then Err(Conflict) else Ok(())
      ensures tokens == if r.Ok? then old(tokens)[k := t.(active := true)] else old(tokens)
    {
      if t.grant !in grants {
        return Err(NotFound);
      }
      if k in tokens {
        return Err(Conflict);
      }
      tokens := tokens[k := t.(active := true)];
      return Ok(());
    }

    /** Only one of several attempts to use a record finds it active. */
    method Use(k: Key) returns (r: Result<(), StoreError>)
      modifies this`tokens
      ensures r == if k !in old(tokens) then Err(NotFound) else if !old(tokens)[k].active then Err(Inactive) else Ok(())
      ensures tokens == if r.Ok? then Deactivated(old(tokens), k) else old(tokens)
      ensures k in tokens ==> tokens == old(tokens)[k := old(tokens)[k].(active := false)]
    {
      if k in tokens && tokens[k].active {
        tokens := tokens[k := tokens[k].(active := false)];
        return Ok(());
      }
      r := WhyNotUpdated(k);
    }

    method Rotate(family: nat, signature: nat) returns (r: Result<(), StoreError>)
      modifies this`tokens
      ensures var k := Key(Refresh, signature);
              && r == (if k !in old(tokens) then Err(NotFound)
                       else if old(tokens)[k].active && old(tokens)[k].family == family then Ok(()) else Err(Inactive))
              && tokens == if r.Ok? then WithoutAccess(Deactivated(old(tokens), k), family) else old(tokens)
      ensures r.Ok? ==> ReplacedIn(old(tokens), tokens, Key(Refresh, signature))
    {
      var k := Key(Refresh, signature);
      if k in tokens && tokens[k].family == family && tokens[k].active {
        var dropped := set a | a in tokens && a.kind == Access && tokens[a].family == family;
        tokens := tokens[k := tokens[k].(active := false)] - dropped;
        assert tokens == WithoutAccess(Deactivated(old(tokens), k), family);
        return Ok(());
      }
      r := WhyNotUpdated(k);
    }

    method WhyNotUpdated(k: Key) returns (r: Result<(), StoreError>)
      ensures r == Err(if k in tokens then Inactive else NotFound)
    {
      return Err(if k in tokens then Inactive else NotFound);
    }

    /** A revocation with nothing else in flight sees, and ends, every live token of the family. */
    method RevokeRequest(family: nat)
      modifies this`tokens
      ensures tokens == Revoked(old(tokens), LiveOf(old(tokens), family))
      ensures LiveOf(tokens, family) == {}
      ensures tokens == map k | k in old(tokens) && !(k.kind == Access && old(tokens)[k].family == family) ::
                          if k.kind == Refresh && old(tokens)[k].family == family
                          then old(tokens)[k].(active := false) else old(tokens)[k]
    {
      tokens := map k | k in tokens && !(k.kind == Access && tokens[k].family == family) ::
        if k.kind == Refresh && tokens[k].family == family then tokens[k].(active := false) else tokens[k];
    }

    /** Expiry and clean-up of one record; no family but its own notices. */
    method Forget(k: Key)
      modifies this`tokens
      ensures tokens == old(tokens) - {k}
      ensures forall f :: LiveOf(tokens, f) == LiveOf(old(tokens), f) - {k}
      ensures forall f :: k in old(tokens) && f != old(tokens)[k].family ==> LiveOf(tokens, f) == LiveOf(old(tokens), f)
    {
      tokens := tokens - {k};
    }

    // ---- Transactions of the token endpoint ----

    /** Saves an access and a refresh token; both or neither. */
    method SavePair(t: Token) returns (r: Result<(), StoreError>)
      requires Valid()
      modifies this`tokens, this`nextSignature
      ensures Valid()
      ensures nextSignature == old(nextSignature) + 2 && (r.Ok? <==> t.grant in grants)
      ensures r.Ok? ==> tokens == WithPair(old(tokens), t, old(nextSignature))
    {
      var signature := nextSignature;
      nextSignature := nextSignature + 2;
      r := Save(Key(Access, signature), t);
      if r.Ok? {
        r := Save(Key(Refresh, signature + 1), t);
      }
    }

    /** Uses up the code and saves its tokens, or changes no record at all. */
    method ExchangeCode(signature: nat) returns (r: Result<(), StoreError>)
      requires Valid()
      modifies this`tokens, this`nextSignature
      ensures Valid()
      ensures var code := Key(Code, signature);
              && (r.Ok? <==> code in old(tokens) && old(tokens)[code].active && old(tokens)[code].grant in grants)
              && (code in old(tokens) && !old(tokens)[code].active ==> r == Err(Inactive))
              && tokens == if r.Ok? then Exchanged(old(tokens), code, old(nextSignature)) else old(tokens)
      ensures var code := Key(Code, signature);
              r.Ok? ==> PairIssued(tokens, old(nextSignature), old(tokens)[code].scopes, old(tokens)[code]) &&
                        SameBut(old(tokens), tokens, {code}, old(nextSignature)) && !tokens[code].active
    {
      var before := tokens;
      var code := Key(Code, signature);
      r := Use(code);
      if r.Ok? {
        r := SavePair(tokens[code]);
      }
      if r.Err? {
        tokens := before;
      } else {
        assert before[code].(active := true) == before[code];
        ExchangedIs(before, code, old(nextSignature));
      }
    }

    method RotateRefreshToken(signature: nat, scopes: set<string>) returns (r: Result<(), StoreError>)
      requires Valid()
      modifies this`tokens, this`nextSignature
      ensures Valid()
      ensures var refresh := Key(Refresh, signature);
              && (r.Ok? <==>
                    refresh in old(tokens) && old(tokens)[refresh].active && old(tokens)[refresh].grant in grants)
              && tokens == if r.Ok? then Rotated(old(tokens), refresh, scopes, old(nextSignature)) else old(tokens)
      ensures var refresh := Key(Refresh, signature);
              r.Ok? ==> PairIssued(tokens, old(nextSignature), scopes, old(tokens)[refresh]) &&
                        !tokens[refresh].active &&
                        SameBut(old(tokens), tokens, {refresh} + AccessOf(old(tokens), old(tokens)[refresh].family),
                                old(nextSignature))
    {
      var before := tokens;
      var refresh := Key(Refresh, signature);
      if refresh !in tokens {
        return Err(NotFound);
      }
      var t := tokens[refresh];
      r := Rotate(t.family, signature);
      if r.Ok? {
        r := SavePair(t.(scopes := scopes));
      }
      if r.Err? {
        tokens := before;
      } else {
        RotatedIs(before, refresh, scopes, old(nextSignature));
      }
    }

    // ---- Grants ----

    /** The upsert: the row of this user and app is widened, or a new one is added. */
    method CreateOAuthGrant(user: nat, client: nat, scopes: set<string>) returns (id: nat)
      requires Valid()
      modifies this`grants, this`nextGrant
      ensures Valid()
      ensures grants == Widened(old(grants), id, user, client, scopes)
      ensures var earlier := if id in old(grants) then old(grants)[id].scopes else {};
              grants == old(grants)[id := Grant(user, client, earlier + scopes)]
      ensures if exists g :: g in old(grants) && old(grants)[g].user == user && old(grants)[g].client == client
              then id in old(grants) && old(grants)[id].user == user && old(grants)[id].client == client
              else id == old(nextGrant)
    {
      var same := set g | g in grants && grants[g].user == user && grants[g].client == client;
      if same != {} {
        id :| id in same;
        assert id in grants;
      } else {
        id := nextGrant;
        nextGrant := nextGrant + 1;
        assert forall g :: g in grants ==> g !in same;
      }
      assert {} + scopes == scopes;
      grants := grants[id := Grant(user, client, if id in grants then grants[id].scopes + scopes else scopes)];
    }

    method Cascade(ids: set<nat>)
      modifies this`tokens, this`grants
      ensures T() == WithoutGrants(old(T()), ids)
    {
      grants := grants - ids;
      tokens := map k | k in tokens && tokens[k].grant !in ids :: tokens[k];
    }

    method Revoke(user: nat, grant: nat) returns (r: Result<(), StoreError>)
      modifies this`tokens, this`grants
      ensures r.Ok? <==> grant in old(grants) && old(grants)[grant].user == user
      ensures T() == if r.Ok? then WithoutGrants(old(T()), {grant}) else old(T())
      ensures r.Ok? ==> grants == old(grants) - {grant} &&
                        tokens == map k | k in old(tokens) && old(tokens)[k].grant != grant :: old(tokens)[k]
    {
      if grant !in grants || grants[grant].user != user {
        return Err(NotFound);
      }
      Cascade({grant});
      return Ok(());
    }

    /** The part of an account deletion that concerns the authorization server. */
    method DeleteAccount(user: nat) returns (r: Result<(), StoreError>)
      modifies this`tokens, this`grants, this`discarded
      ensures r.Ok? <==> user !in old(discarded)
      ensures T() == if r.Ok? then WithoutUser(old(T()), user) else old(T())
      ensures r.Ok? ==> discarded == old(discarded) + {user} &&
                        grants == map g | g in old(grants) && old(grants)[g].user != user :: old(grants)[g]
      ensures r.Ok? ==> tokens == map k | k in old(tokens) &&
                          !(old(tokens)[k].grant in old(grants) && old(grants)[old(tokens)[k].grant].user == user) ::
                          old(tokens)[k]
    {
      if user in discarded {
        return Err(NotFound);
      }
      discarded := discarded + {user};
      var owned := set g | g in grants && grants[g].user == user;
      assert owned == GrantsOf(T(), user);
      Cascade(owned);
      return Ok(());
    }
  }
}
