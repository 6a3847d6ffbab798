/**
 * What the authorization server gives: a consent leads to a code and the code to tokens with exactly
 * the scopes consented to, and a refresh token to new ones, from every reachable state.
 */
module OAuthFlows {
  import opened OAuthSafety
  import opened OAuthTables
  import opened OAuthTokens

  /** A consent that was saved passes the check before its code is issued, as long as its grant is there. */
  lemma ApprovedPasses(s: System, n: nat, p: nat)
    requires Reached(s, n) && p in s.processes && s.processes[p].Approved? && s.processes[p].grant in s.db.grants
    ensures Enabled(s, CheckGrant(p))
  {
    ReachedInv(s, n);
    hide Reached, Core;
    assert Sound(s, s.processes[p]);
  }

  // ---- Single steps ----

  lemma MovedTwice(s: System, p: nat, a: Process, b: Process)
    ensures Move(Move(s, p, a), p, b) == Move(s, p, b)
  {
  }

  lemma ApproveTakes(s: System, p: nat, user: nat, client: nat, scopes: set<string>, grant: nat)
    requires Enabled(s, Approve(p, user, client, scopes, grant))
    ensures var s1 := WithGrant(s, user, client, scopes, grant);
            Takes(s, Approve(p, user, client, scopes, grant), Move(s1, p, Approved(user, client, scopes, grant)))
  {
  }

  lemma CheckTakes(s: System, p: nat, user: nat, client: nat, scopes: set<string>, grant: nat)
    requires p in s.processes && grant in s.db.grants && Granted(s.db.grants, user, client, scopes, grant)
    ensures Takes(Move(s, p, Approved(user, client, scopes, grant)), CheckGrant(p),
                  Move(s, p, Permitted(user, client, scopes, grant)))
  {
    MovedTwice(s, p, Approved(user, client, scopes, grant), Permitted(user, client, scopes, grant));
  }

  lemma IssueTakes(s: System, p: nat, user: nat, client: nat, scopes: set<string>, grant: nat)
    requires p in s.processes && grant in s.db.grants && !HeldByOthers(s, p, grant)
    ensures Takes(Move(s, p, Permitted(user, client, scopes, grant)), IssueCode(p),
                  WithCode(Move(s, p, Idle), Token(s.nextFamily, grant, user, client, scopes, true)))
  {
    MovedTwice(s, p, Permitted(user, client, scopes, grant), Idle);
  }

  /** A deletion other than what `p` may be doing holds the grant's row. */
  ghost predicate HeldByOthers(s: System, p: nat, grant: nat)
  {
    exists q :: q in s.processes && q != p && s.processes[q].Deleting? && grant in s.processes[q].ids
  }

  lemma PresentTakes(s: System, p: nat, key: Key)
    requires p in s.processes && key in s.db.tokens && key.kind != Access && s.db.tokens[key].active
    ensures Takes(Move(s, p, Idle), Present(p, key), Move(s, p, Presented(key, s.db.tokens[key].user)))
  {
    MovedTwice(s, p, Idle, Presented(key, s.db.tokens[key].user));
  }

  lemma OwnerTakes(s: System, p: nat, key: Key, user: nat)
    requires p in s.processes && user !in s.db.discarded
    ensures Takes(Move(s, p, Presented(key, user)), CheckOwner(p), Move(s, p, Cleared(key, user)))
  {
    MovedTwice(s, p, Presented(key, user), Cleared(key, user));
  }

  /** The step that turns a record into tokens. */
  function Trade(p: nat, key: Key, scopes: set<string>): Step
  {
    if key.kind == Code then Exchange(p) else Rotate(p, scopes)
  }

  /** Scopes a record may be traded for: a code for its own, a refresh token for part of them. */
  predicate MayAsk(key: Key, t: Token, scopes: set<string>)
  {
    if key.kind == Code then scopes == t.scopes else scopes <= t.scopes
  }

  lemma TradeTakes(s: System, p: nat, key: Key, user: nat, scopes: set<string>) returns (last: System)
    requires p in s.processes && key in s.db.tokens && key.kind != Access && s.db.tokens[key].active
    requires MayAsk(key, s.db.tokens[key], scopes) && !HeldByOthers(s, p, s.db.tokens[key].grant)
    requires forall k :: k in s.db.tokens ==> k.signature < s.nextSignature
    ensures Takes(Move(s, p, Cleared(key, user)), Trade(p, key, scopes), last)
    ensures last.db.grants == s.db.grants
    ensures PairIssued(last.db.tokens, s.nextSignature, scopes, s.db.tokens[key])
  {
    var s1 := Move(s, p, Cleared(key, user));
    assert Enabled(s1, Trade(p, key, scopes));
    last := After(s1, Trade(p, key, scopes));
    if key.kind == Code {
      ExchangedIs(s.db.tokens, key, s.nextSignature);
    } else {
      RotatedIs(s.db.tokens, key, scopes, s.nextSignature);
    }
    hide PairIssued;
  }

  // ---- Whole requests ----

  lemma ReachedNumbers(s: System, n: nat)
    requires Reached(s, n)
    ensures forall k :: k in s.db.tokens ==> k.signature < s.nextSignature
  {
    hide Reached, Backed, Families, UsedOnce, AllSound;
    ReachedInv(s, n);
  }

  lemma StaysPut(s: System, p: nat)
    requires At(s, p, Idle)
    ensures Move(s, p, Idle) == s
  {
  }

  lemma RecordToPair(s: System, n: nat, p: nat, key: Key, scopes: set<string>) returns (last: System)
    requires Reached(s, n) && At(s, p, Idle) && key in s.db.tokens && key.kind != Access && s.db.tokens[key].active
    requires s.db.tokens[key].user !in s.db.discarded && MayAsk(key, s.db.tokens[key], scopes)
    requires !HeldByOthers(s, p, s.db.tokens[key].grant)
    ensures Reached(last, n + 3) && last.db.grants == s.db.grants
    ensures PairIssued(last.db.tokens, s.nextSignature, scopes, s.db.tokens[key])
  {
    hide Reached, Inv, Takes, PairIssued, HeldByOthers, MayAsk, After;
    var user := s.db.tokens[key].user;
    ReachedNumbers(s, n);
    StaysPut(s, p);
    PresentTakes(s, p, key);
    OwnerTakes(s, p, key, user);
    last := TradeTakes(s, p, key, user, scopes);
    OneMore(s, Present(p, key), Move(s, p, Presented(key, user)), n);
    OneMore(Move(s, p, Presented(key, user)), CheckOwner(p), Move(s, p, Cleared(key, user)), n + 1);
    OneMore(Move(s, p, Cleared(key, user)), Trade(p, key, scopes), last, n + 2);
  }

  /** The state after a consent was saved and its code issued with nothing in between. */
  function Coded(s: System, p: nat, user: nat, client: nat, scopes: set<string>, grant: nat): System
  {
    WithCode(Move(WithGrant(s, user, client, scopes, grant), p, Idle),
             Token(s.nextFamily, grant, user, client, scopes, true))
  }

  lemma ApprovedState(s: System, p: nat, user: nat, client: nat, scopes: set<string>, grant: nat)
    requires Enabled(s, Approve(p, user, client, scopes, grant))
    ensures var s1 := WithGrant(s, user, client, scopes, grant);
            && p in s1.processes && !HeldByOthers(s1, p, grant) && !HeldByOthers(s, p, grant)
            && grant in s1.db.grants && Granted(s1.db.grants, user, client, scopes, grant)
            && Coded(s, p, user, client, scopes, grant) ==
               WithCode(Move(s1, p, Idle), Token(s1.nextFamily, grant, user, client, scopes, true))
  {
  }

  lemma CodedState(s: System, p: nat, user: nat, client: nat, scopes: set<string>, grant: nat)
    requires !HeldByOthers(s, p, grant)
    ensures var coded, code := Coded(s, p, user, client, scopes, grant), Key(Code, s.nextSignature);
            && At(coded, p, Idle) && !HeldByOthers(coded, p, grant)
            && code in coded.db.tokens
            && coded.db.tokens[code] == Token(s.nextFamily, grant, user, client, scopes, true)
            && coded.nextSignature == s.nextSignature + 1 && coded.db.discarded == s.db.discarded
            && coded.db.grants == WithGrant(s, user, client, scopes, grant).db.grants
  {
  }

  lemma ConsentToCode(s: System, n: nat, p: nat, user: nat, client: nat, scopes: set<string>, grant: nat)
    requires Reached(s, n) && Enabled(s, Approve(p, user, client, scopes, grant))
    ensures Reached(Coded(s, p, user, client, scopes, grant), n + 3) && !HeldByOthers(s, p, grant)
  {
    hide Reached, Takes, Enabled, HeldByOthers, Granted, WithGrant, After;
    var approve, s1 := Approve(p, user, client, scopes, grant), WithGrant(s, user, client, scopes, grant);
    ApproveTakes(s, p, user, client, scopes, grant);
    ApprovedState(s, p, user, client, scopes, grant);
    CheckTakes(s1, p, user, client, scopes, grant);
    IssueTakes(s1, p, user, client, scopes, grant);
    OneMore(s, approve, Move(s1, p, Approved(user, client, scopes, grant)), n);
    OneMore(Move(s1, p, Approved(user, client, scopes, grant)), CheckGrant(p),
            Move(s1, p, Permitted(user, client, scopes, grant)), n + 1);
    OneMore(Move(s1, p, Permitted(user, client, scopes, grant)), IssueCode(p),
            Coded(s, p, user, client, scopes, grant), n + 2);
  }

  /** The grant holds what it held before and what was approved, nothing more, and no other grant changes. */
  lemma WidenedIs(s: System, user: nat, client: nat, scopes: set<string>, grant: nat)
    ensures var earlier := if grant in s.db.grants then s.db.grants[grant].scopes else {};
            WithGrant(s, user, client, scopes, grant).db.grants ==
            s.db.grants[grant := Grant(user, client, earlier + scopes)]
  {
    assert {} + scopes == scopes;
  }

  /**
   * From any reached state, a user's consent leads, if nothing comes in between, to an access and a
   * refresh token with exactly the scopes consented to, under a grant that holds these and what it
   * held before.
   */
  lemma ConsentIsHonoured(s: System, n: nat, p: nat, user: nat, client: nat, scopes: set<string>, grant: nat)
    returns (last: System)
    requires Reached(s, n) && Enabled(s, Approve(p, user, client, scopes, grant)) && user !in s.db.discarded
    ensures Reached(last, n + 6)
    ensures var issued := Token(s.nextFamily, grant, user, client, scopes, true);
            PairIssued(last.db.tokens, s.nextSignature + 1, scopes, issued)
    ensures var earlier := if grant in s.db.grants then s.db.grants[grant].scopes else {};
            last.db.grants == s.db.grants[grant := Grant(user, client, earlier + scopes)]
  {
    hide Reached, HeldByOthers, Enabled, PairIssued, WithGrant, Coded;
    var coded, code := Coded(s, p, user, client, scopes, grant), Key(Code, s.nextSignature);
    ConsentToCode(s, n, p, user, client, scopes, grant);
    WidenedIs(s, user, client, scopes, grant);
    CodedState(s, p, user, client, scopes, grant);
    last := RecordToPair(coded, n + 3, p, code, scopes);
  }

  /** So does a refresh, for any part of the scopes, while the account is open. */
  lemma RefreshIsHonoured(s: System, n: nat, p: nat, refresh: Key, scopes: set<string>) returns (last: System)
    requires Reached(s, n) && At(s, p, Idle) && refresh.kind == Refresh && refresh in s.db.tokens
    requires s.db.tokens[refresh].active && s.db.tokens[refresh].user !in s.db.discarded
    requires scopes <= s.db.tokens[refresh].scopes && !Held(s, s.db.tokens[refresh].grant)
    ensures Reached(last, n + 3)
    ensures PairIssued(last.db.tokens, s.nextSignature, scopes, s.db.tokens[refresh])
  {
    hide Reached, PairIssued;
    last := RecordToPair(s, n, p, refresh, scopes);
  }
}
