/**
 * The tables of the authorization server and what one statement or transaction does to them.
 * Signatures, request ids (families) and grant ids are numbers drawn from counters, so a new one
 * differs from every earlier one.
 */
module OAuthTables {
  datatype TokenKind = Code | Access | Refresh

  datatype Key = Key(kind: TokenKind, signature: nat)

  datatype Token = Token(family: nat, grant: nat, user: nat, client: nat, scopes: set<string>, active: bool)

  datatype Grant = Grant(user: nat, client: nat, scopes: set<string>)

  type Tokens = map<Key, Token>

  datatype Tables = Tables(tokens: Tokens, grants: map<nat, Grant>, discarded: set<nat>)

  /** An access token works while its record exists, a refresh token while its record is active. */
  predicate IsLive(k: Key, t: Token)
  {
    k.kind == Access || (k.kind == Refresh && t.active)
  }

  function LiveOf(ts: Tokens, family: nat): set<Key>
  {
    set k | k in ts && ts[k].family == family && IsLive(k, ts[k])
  }

  /** The grant belongs to the token's user and app and permits its scopes. */
  predicate Covers(g: Grant, t: Token)
  {
    g.user == t.user && g.client == t.client && t.scopes <= g.scopes
  }

  // ---- Statements on tokens ----

  function Deactivated(ts: Tokens, k: Key): Tokens
    requires k in ts
  {
    ts[k := ts[k].(active := false)]
  }

  /** A new access token and refresh token like `t`. */
  function WithPair(ts: Tokens, t: Token, signature: nat): Tokens
  {
    ts[Key(Access, signature) := t.(active := true)][Key(Refresh, signature + 1) := t.(active := true)]
  }

  function WithoutAccess(ts: Tokens, family: nat): Tokens
  {
    map k | k in ts && !(k.kind == Access && ts[k].family == family) :: ts[k]
  }

  /** The code is used up and its tokens are saved, in one transaction. */
  function Exchanged(ts: Tokens, code: Key, signature: nat): Tokens
    requires code in ts
  {
    WithPair(Deactivated(ts, code), ts[code], signature)
  }

  /** The refresh token is replaced and the family's old access token goes, in one transaction. */
  function Rotated(ts: Tokens, refresh: Key, scopes: set<string>, signature: nat): Tokens
    requires refresh in ts
  {
    WithPair(WithoutAccess(Deactivated(ts, refresh), ts[refresh].family), ts[refresh].(scopes := scopes), signature)
  }

  /** A revocation applied to the rows its statement saw. */
  function Revoked(ts: Tokens, rows: set<Key>): Tokens
  {
    map k | k in ts && !(k.kind == Access && k in rows) ::
      if k.kind == Refresh && k in rows then ts[k].(active := false) else ts[k]
  }

  // ---- What these statements do, record by record ----

  function AccessOf(ts: Tokens, family: nat): set<Key>
  {
    set k | k in ts && k.kind == Access && ts[k].family == family
  }

  /** A new active pair for the family, grant, user and app of `t`, with exactly these scopes. */
  predicate PairIssued(ts: Tokens, signature: nat, scopes: set<string>, t: Token)
  {
    var issued := Token(t.family, t.grant, t.user, t.client, scopes, true);
    && Key(Access, signature) in ts && ts[Key(Access, signature)] == issued
    && Key(Refresh, signature + 1) in ts && ts[Key(Refresh, signature + 1)] == issued
  }

  /** Apart from the given records and the new pair everything is as before. */
  ghost predicate SameBut(ts: Tokens, ts': Tokens, changed: set<Key>, signature: nat)
  {
    forall k :: k !in changed && k != Key(Access, signature) && k != Key(Refresh, signature + 1) ==>
      (k in ts' <==> k in ts) && (k in ts ==> ts'[k] == ts[k])
  }

  /** The replaced refresh token is used up, and its family's access tokens are gone. */
  ghost predicate ReplacedIn(ts: Tokens, ts': Tokens, refresh: Key)
    requires refresh in ts
  {
    && ts'.Keys == ts.Keys - AccessOf(ts, ts[refresh].family)
    && forall k :: k in ts' ==> ts'[k] == if k == refresh then ts[k].(active := false) else ts[k]
  }

  /** Exchanging a code issues tokens with exactly its scopes, and uses up nothing but the code. */
  lemma ExchangedIs(ts: Tokens, code: Key, signature: nat)
    requires code in ts && forall k :: k in ts ==> k.signature < signature
    ensures var ts' := Exchanged(ts, code, signature);
            && PairIssued(ts', signature, ts[code].scopes, ts[code])
            && SameBut(ts, ts', {code}, signature)
            && code in ts' && ts'[code] == ts[code].(active := false)
  {
  }

  /** A rotation issues tokens with exactly the scopes asked for, and drops the family's access tokens. */
  lemma RotatedIs(ts: Tokens, refresh: Key, scopes: set<string>, signature: nat)
    requires refresh in ts && refresh.kind == Refresh && forall k :: k in ts ==> k.signature < signature
    ensures var ts' := Rotated(ts, refresh, scopes, signature);
            && PairIssued(ts', signature, scopes, ts[refresh])
            && SameBut(ts, ts', {refresh} + AccessOf(ts, ts[refresh].family), signature)
            && refresh in ts' && ts'[refresh] == ts[refresh].(active := false)
            && forall k :: k in AccessOf(ts, ts[refresh].family) ==> k !in ts'
  {
  }

  // ---- Statements on grants ----

  /** The upsert never narrows. */
  function Widened(gs: map<nat, Grant>, id: nat, user: nat, client: nat, scopes: set<string>): map<nat, Grant>
  {
    gs[id := Grant(user, client, if id in gs then gs[id].scopes + scopes else scopes)]
  }

  /** Deleting grants deletes their tokens by the foreign key. */
  function WithoutGrants(t: Tables, ids: set<nat>): Tables
  {
    t.(grants := t.grants - ids, tokens := map k | k in t.tokens && t.tokens[k].grant !in ids :: t.tokens[k])
  }

  function GrantsOf(t: Tables, user: nat): set<nat>
  {
    set g | g in t.grants && t.grants[g].user == user
  }

  /** The part of an account deletion that concerns the authorization server, having found these grants. */
  function Closed(t: Tables, user: nat, ids: set<nat>): Tables
  {
    WithoutGrants(t.(discarded := t.discarded + {user}), ids)
  }

  /** It finds the grants at its commit if it is one undisturbed transaction. */
  function WithoutUser(t: Tables, user: nat): Tables
  {
    Closed(t, user, GrantsOf(t, user))
  }
}
