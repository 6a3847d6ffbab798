/**
 * Account deletion and tokens. The deletion removes the grants it sees and commits later, and grants
 * approved in between are not among them. This module says exactly when a deletion leaves its user
 * without access and refresh tokens for good, when a whole run does, and shows a run that does not.
 */
module OAuthDeletion {
  import opened OAuthSafety
  import opened OAuthTables
  import opened OAuthTokens

  /** Codes do no harm: they can no longer be exchanged. */
  ghost predicate NoTokensOf(ts: Tokens, user: nat)
  {
    forall k :: k in ts && ts[k].user == user ==> k.kind == Code
  }

  /** A request has read this active record and found its owner active. */
  predicate InHand(s: System, p: nat, k: Key, user: nat)
  {
    At(s, p, Cleared(k, user)) && k in s.db.tokens && s.db.tokens[k].active
  }

  /** The user's account is closed and nothing of it can become a token again. */
  ghost predicate Gone(s: System, user: nat)
  {
    && user in s.db.discarded && NoTokensOf(s.db.tokens, user)
    && forall p, k :: !InHand(s, p, k, user)
  }

  // ---- Gone for good ----

  lemma OldInHand(s: System, s': System, p: nat, k: Key, user: nat)
    requires Inv(s) && Evolves(s, s') && At(s, p, Cleared(k, user)) && InHand(s', p, k, user)
    ensures InHand(s, p, k, user)
  {
    assert Sound(s, s.processes[p]);
  }

  /** Only the owner check of an open account puts a record in a request's hands. */
  lemma OwnerCheckClears(s: System, step: Step, p: nat, k: Key, user: nat)
    requires Enabled(s, step) && At(After(s, step), p, Cleared(k, user)) && user in s.db.discarded
    ensures At(s, p, Cleared(k, user))
  {
  }

  lemma NobodyInHand(s: System, step: Step, user: nat)
    requires Inv(s) && Enabled(s, step) && Evolves(s, After(s, step)) && Gone(s, user)
    ensures forall p, k :: !InHand(After(s, step), p, k, user)
  {
    hide Enabled, After, Inv, Evolves, NoTokensOf;
    var s' := After(s, step);
    forall p, k
      ensures !InHand(s', p, k, user)
    {
      if InHand(s', p, k, user) {
        OwnerCheckClears(s, step, p, k, user);
        OldInHand(s, s', p, k, user);
        assert false;
      }
    }
  }

  /** New access and refresh tokens belong to the owner of a record in hand. */
  lemma NewTokenOwner(s: System, step: Step, user: nat, k: Key)
    requires Inv(s) && Enabled(s, step) && Gone(s, user)
    requires k in After(s, step).db.tokens && k.kind != Code && k.signature >= s.nextSignature
    ensures After(s, step).db.tokens[k].user != user
  {
    NewTokenOrigin(s, step, k);
    var c := s.processes[step.p];
    assert Sound(s, c);
    hide After, Enabled, Inv;
    assert InHand(s, step.p, c.key, c.user);
  }

  lemma NewTokenOrigin(s: System, step: Step, k: Key)
    requires Numbered(s) && Enabled(s, step)
    requires k in After(s, step).db.tokens && k.kind != Code && k.signature >= s.nextSignature
    ensures step.Exchange? || step.Rotate?
    ensures step.p in s.processes && s.processes[step.p].Cleared?
    ensures var key := s.processes[step.p].key;
            && key in s.db.tokens && s.db.tokens[key].active
            && After(s, step).db.tokens[k].user == s.db.tokens[key].user
  {
    assert k !in s.db.tokens;
  }

  lemma NoNewTokens(s: System, step: Step, user: nat)
    requires Inv(s) && Enabled(s, step) && Evolves(s, After(s, step)) && Gone(s, user)
    ensures NoTokensOf(After(s, step).db.tokens, user)
  {
    var s' := After(s, step);
    hide After, Enabled, Inv;
    forall k | k in s'.db.tokens && s'.db.tokens[k].user == user
      ensures k.kind == Code
    {
      if k.signature < s.nextSignature {
        assert k in s.db.tokens && s.db.tokens[k].user == user;
      } else if k.kind != Code {
        NewTokenOwner(s, step, user, k);
      }
    }
  }

  lemma GoneStays(s: System, step: Step, user: nat)
    requires Inv(s) && Enabled(s, step) && Gone(s, user)
    ensures Gone(After(s, step), user)
  {
    hide After, Enabled, Inv, NoTokensOf, InHand;
    StepKeepsInv(s, step);
    NobodyInHand(s, step, user);
    NoNewTokens(s, step, user);
  }

  lemma {:induction false} GoneForever(ss: seq<System>, steps: seq<Step>, user: nat, n: nat)
    requires Run(ss, steps) && n <= |steps| && Inv(ss[0]) && Gone(ss[0], user)
    ensures Inv(ss[n]) && Gone(ss[n], user)
  {
    hide Inv, Enabled, After, Gone, Evolves;
    if n > 0 {
      GoneForever(ss, steps, user, n - 1);
      assert Takes(ss[n - 1], steps[n - 1], ss[n]);
      StepKeepsInv(ss[n - 1], steps[n - 1]);
      GoneStays(ss[n - 1], steps[n - 1], user);
    }
  }

  // ---- Exactly when one deletion works ----

  /** A user's row is locked by at most one deletion. */
  ghost predicate OneCloser(s: System)
  {
    forall p, q :: p in s.processes && q in s.processes && Closes(s.processes[p], s.processes[q]) ==> p == q
  }

  predicate Closes(c: Process, d: Process)
  {
    c.Deleting? && d.Deleting? && c.user == d.user
  }

  lemma StepKeepsOneCloser(s: System, step: Step)
    requires OneCloser(s) && Enabled(s, step)
    ensures OneCloser(After(s, step))
  {
  }

  lemma {:induction false} ReachedOneCloser(s: System, n: nat)
    requires Reached(s, n)
    ensures OneCloser(s)
    decreases n
  {
    hide Enabled, After, OneCloser;
    if n == 0 {
      StartsWithoutCloser(s);
    } else {
      var before, step :| Reached(before, n - 1) && Takes(before, step, s);
      ReachedOneCloser(before, n - 1);
      StepKeepsOneCloser(before, step);
    }
  }

  lemma StartsWithoutCloser(s: System)
    requires Init(s)
    ensures OneCloser(s)
  {
  }

  /**
   * A record of the user that the deletion does not delete, because its grant came later, and that
   * is a token or about to become one.
   */
  ghost predicate Slips(s: System, user: nat, ids: set<nat>, k: Key)
  {
    && k in s.db.tokens && s.db.tokens[k].user == user && s.db.tokens[k].grant !in ids
    && (k.kind != Code || exists p :: InHand(s, p, k, user))
  }

  ghost predicate NothingSlips(s: System, user: nat, ids: set<nat>)
  {
    forall k :: !Slips(s, user, ids, k)
  }

  /** From `s` on, no continuation has an access or refresh token of the user. */
  ghost predicate NeverAgain(s: System, user: nat)
  {
    forall ss: seq<System>, steps: seq<Step>, i: nat :: RunFrom(s, ss, steps, i) ==> NoTokensOf(ss[i].db.tokens, user)
  }

  ghost predicate RunFrom(s: System, ss: seq<System>, steps: seq<Step>, i: nat)
  {
    Run(ss, steps) && ss[0] == s && i <= |steps|
  }

  lemma CommitLeaves(s: System, p: nat, k: Key)
    requires Enabled(s, CommitDelete(p))
    ensures var s1, c := After(s, CommitDelete(p)), s.processes[p];
            && (k in s1.db.tokens <==> k in s.db.tokens && s.db.tokens[k].grant !in c.ids)
            && (k in s1.db.tokens ==> s1.db.tokens[k] == s.db.tokens[k])
            && c.user in s1.db.discarded
            && forall q, user :: At(s1, q, Cleared(k, user)) <==> At(s, q, Cleared(k, user))
  {
  }

  lemma NothingSlipsMeansGone(s: System, p: nat)
    requires Inv(s) && Enabled(s, CommitDelete(p)) && NothingSlips(s, s.processes[p].user, s.processes[p].ids)
    ensures Gone(After(s, CommitDelete(p)), s.processes[p].user)
  {
    var s1, c := After(s, CommitDelete(p)), s.processes[p];
    forall k
      ensures k in s1.db.tokens && s1.db.tokens[k].user == c.user ==> k.kind == Code
      ensures forall q :: !InHand(s1, q, k, c.user)
    {
      CommitLeaves(s, p, k);
      assert !Slips(s, c.user, c.ids, k);
      if q :| InHand(s1, q, k, c.user) {
        assert At(s, q, Cleared(k, c.user));
        assert Sound(s, s.processes[q]) && InHand(s, q, k, c.user);
        assert false;
      }
    }
    CommitLeaves(s, p, Key(Code, 0));
  }

  lemma HolderCloses(s: System, p: nat, q: nat, k: Key)
    requires Inv(s) && Enabled(s, CommitDelete(p)) && k in s.db.tokens && s.db.tokens[k].user == s.processes[p].user
    requires q in s.processes && s.processes[q].Deleting? && s.db.tokens[k].grant in s.processes[q].ids
    ensures Closes(s.processes[p], s.processes[q])
  {
    assert Sound(s, s.processes[q]);
  }

  /** No other deletion holds the grant of a record of this user. */
  lemma NotHeldAfter(s: System, p: nat, k: Key)
    requires Inv(s) && OneCloser(s) && Enabled(s, CommitDelete(p))
    requires k in s.db.tokens && s.db.tokens[k].user == s.processes[p].user
    ensures !Held(After(s, CommitDelete(p)), s.db.tokens[k].grant)
  {
    forall q | q in s.processes && s.processes[q].Deleting? && s.db.tokens[k].grant in s.processes[q].ids
      ensures q == p
    {
      HolderCloses(s, p, q, k);
    }
  }

  /** A code in hand when the account is closed is exchanged one step later. */
  lemma CodeBecomesToken(s1: System, q: nat, k: Key, user: nat)
    requires InHand(s1, q, k, user) && k.kind == Code && s1.db.tokens[k].user == user
    requires !Held(s1, s1.db.tokens[k].grant)
    ensures Enabled(s1, Exchange(q)) && !NoTokensOf(After(s1, Exchange(q)).db.tokens, user)
  {
    var ts' := After(s1, Exchange(q)).db.tokens;
    assert Key(Access, s1.nextSignature) in ts' && ts'[Key(Access, s1.nextSignature)].user == user;
  }

  lemma OneStepSpoils(s: System, step: Step, user: nat)
    requires Enabled(s, step) && !NoTokensOf(After(s, step).db.tokens, user)
    ensures !NeverAgain(s, user)
  {
    hide Enabled, After, NoTokensOf;
    var s' := After(s, step);
    assert Takes([s, s'][0], [step][0], [s, s'][1]);
    assert RunFrom(s, [s, s'], [step], 1);
    assert !NoTokensOf([s, s'][1].db.tokens, user);
  }

  lemma SlipBecomesToken(s: System, p: nat, k: Key)
    requires Inv(s) && OneCloser(s) && Enabled(s, CommitDelete(p))
    requires Slips(s, s.processes[p].user, s.processes[p].ids, k)
    ensures !NeverAgain(After(s, CommitDelete(p)), s.processes[p].user)
  {
    var s1, user := After(s, CommitDelete(p)), s.processes[p].user;
    CommitLeaves(s, p, k);
    NotHeldAfter(s, p, k);
    if k.kind != Code {
      assert RunFrom(s1, [s1], [], 0);
      assert !NoTokensOf([s1][0].db.tokens, user);
    } else {
      var q :| InHand(s, q, k, user);
      assert At(s1, q, Cleared(k, user));
      assert InHand(s1, q, k, user);
      hide Inv, OneCloser, Held, Slips;
      hide Enabled, After, InHand;
      CodeBecomesToken(s1, q, k, user);
      OneStepSpoils(s1, Exchange(q), user);
    }
  }

  /**
   * A deletion leaves its user without access and refresh tokens, in every continuation, exactly
   * when no token of a later grant exists at its commit and no code of one is in hand.
   */
  lemma DeletionExactly(s: System, n: nat, p: nat)
    requires Reached(s, n) && Enabled(s, CommitDelete(p))
    ensures NeverAgain(After(s, CommitDelete(p)), s.processes[p].user) <==>
            NothingSlips(s, s.processes[p].user, s.processes[p].ids)
  {
    var s1, c := After(s, CommitDelete(p)), s.processes[p];
    ReachedInv(s, n);
    ReachedOneCloser(s, n);
    StepKeepsInv(s, CommitDelete(p));
    hide Reached, Inv, OneCloser, Enabled, After, Evolves, Slips;
    if NothingSlips(s, c.user, c.ids) {
      NothingSlipsMeansGone(s, p);
      forall ss: seq<System>, steps: seq<Step>, i: nat | RunFrom(s1, ss, steps, i)
        ensures NoTokensOf(ss[i].db.tokens, c.user)
      {
        GoneForever(ss, steps, c.user, i);
      }
    } else {
      var k :| Slips(s, c.user, c.ids, k);
      SlipBecomesToken(s, p, k);
    }
  }

  // ---- Whole runs ----

  /** A grant is approved for a user whose account is being deleted. */
  ghost predicate Intrudes(s: System, step: Step)
  {
    step.Approve? && Closing(s, step.user)
  }

  /** `s` is reached by a run without intruding approvals. */
  ghost predicate QuietlyReached(s: System, n: nat)
    decreases n
  {
    if n == 0 then Init(s)
    else exists before, step :: QuietlyReached(before, n - 1) && Takes(before, step, s) && !Intrudes(before, step)
  }

  /** A deletion has deleted all grants its user has. */
  ghost predicate SeesAll(t: Tables, c: Process)
  {
    c.Deleting? ==> GrantsOf(t, c.user) <= c.ids
  }

  ghost predicate Closeable(s: System)
  {
    && (forall p :: p in s.processes ==> SeesAll(s.db, s.processes[p]))
    && (forall user :: user in s.db.discarded ==> Gone(s, user))
  }

  lemma SeesAllStays(s: System, step: Step)
    requires Inv(s) && Enabled(s, step) && !Intrudes(s, step)
    requires forall p :: p in s.processes ==> SeesAll(s.db, s.processes[p])
    ensures forall p :: p in After(s, step).processes ==> SeesAll(After(s, step).db, After(s, step).processes[p])
  {
    var s' := After(s, step);
    forall p | p in s'.processes
      ensures SeesAll(s'.db, s'.processes[p])
    {
      if p in s.processes && s.processes[p] == s'.processes[p] && s'.processes[p].Deleting? {
        var user := s.processes[p].user;
        assert step.Approve? ==> step.user != user;
        forall g | g in GrantsOf(s'.db, user)
          ensures g in GrantsOf(s.db, user)
        {
        }
      }
    }
  }

  lemma SeenMeansGone(s: System, p: nat)
    requires Inv(s) && Enabled(s, CommitDelete(p)) && SeesAll(s.db, s.processes[p])
    ensures NothingSlips(s, s.processes[p].user, s.processes[p].ids)
  {
    forall k
      ensures !Slips(s, s.processes[p].user, s.processes[p].ids, k)
    {
      if k in s.db.tokens && s.db.tokens[k].user == s.processes[p].user {
        assert s.db.tokens[k].grant in GrantsOf(s.db, s.processes[p].user);
      }
    }
  }

  lemma CloseableStays(s: System, step: Step)
    requires Inv(s) && Enabled(s, step) && !Intrudes(s, step) && Closeable(s)
    ensures Closeable(After(s, step))
  {
    var s' := After(s, step);
    SeesAllStays(s, step);
    forall user | user in s'.db.discarded
      ensures Gone(s', user)
    {
      if user in s.db.discarded {
        GoneStays(s, step, user);
      } else {
        assert step.CommitDelete? && user == s.processes[step.p].user;
        SeenMeansGone(s, step.p);
        NothingSlipsMeansGone(s, step.p);
      }
    }
  }

  lemma {:induction false} QuietInv(s: System, n: nat)
    requires QuietlyReached(s, n)
    ensures Inv(s) && Closeable(s)
    decreases n
  {
    hide Inv, Enabled, After, Closeable, Evolves, Intrudes;
    if n == 0 {
      InitIsInv(s);
      StartsCloseable(s);
    } else {
      var before, step :| QuietlyReached(before, n - 1) && Takes(before, step, s) && !Intrudes(before, step);
      QuietInv(before, n - 1);
      StepKeepsInv(before, step);
      CloseableStays(before, step);
    }
  }

  lemma StartsCloseable(s: System)
    requires Init(s)
    ensures Closeable(s)
  {
  }

  /**
   * While no grant is approved for a user whose account is being deleted, no access or refresh token
   * outlives its owner's account, in any run.
   */
  lemma NoneOutlive(s: System, n: nat)
    requires QuietlyReached(s, n)
    ensures forall k :: k in s.db.tokens && k.kind != Code ==> s.db.tokens[k].user !in s.db.discarded
  {
    QuietInv(s, n);
    forall k | k in s.db.tokens && k.kind != Code
      ensures s.db.tokens[k].user !in s.db.discarded
    {
      assert s.db.tokens[k].user in s.db.discarded ==> Gone(s, s.db.tokens[k].user);
    }
  }

  // ---- A run in which tokens outlive the account ----

  const CLOSING := Deleting(7, {})

  const OPEN := Start().(processes := map[0 := Idle, 1 := CLOSING])

  function NoCodeYet(zero: Process): System
  {
    GrantedState(map[], zero, CLOSING, 0, 0, multiset{}, multiset{})
  }

  lemma OpeningSteps()
    ensures Reached(OPEN, 1)
  {
    StartIsReached();
    hide Reached;
    assert GrantsOf(Start().db, 7) == {};
    OneMore(Start(), BeginDelete(1, 7), OPEN, 0);
  }

  lemma ApprovedWhileClosing()
    ensures Reached(CodeState(ISSUED, Idle, CLOSING), 4)
  {
    hide Reached;
    OpeningSteps();
    OneMore(OPEN, Approve(0, 7, 3, READ, 0), NoCodeYet(Approved(7, 3, READ, 0)), 1);
    OneMore(NoCodeYet(Approved(7, 3, READ, 0)), CheckGrant(0), NoCodeYet(Permitted(7, 3, READ, 0)), 2);
    OneMore(NoCodeYet(Permitted(7, 3, READ, 0)), IssueCode(0), CodeState(ISSUED, Idle, CLOSING), 3);
  }

  lemma PresentSteps()
    ensures Takes(CodeState(ISSUED, Idle, CLOSING), Present(0, C), CodeState(ISSUED, Presented(C, 7), CLOSING))
    ensures Takes(CodeState(ISSUED, Presented(C, 7), CLOSING), CheckOwner(0), CodeState(ISSUED, Cleared(C, 7), CLOSING))
  {
  }

  lemma ExchangeStep()
    ensures Takes(CodeState(ISSUED, Cleared(C, 7), CLOSING), Exchange(0), TradedState(Idle, CLOSING))
  {
    assert Deactivated(ISSUED, C) == map[C := USED];
    assert Exchanged(ISSUED, C, 1) == TRADED;
  }

  lemma ExchangedWhileClosing()
    ensures Reached(TradedState(Idle, CLOSING), 7)
  {
    ApprovedWhileClosing();
    PresentSteps();
    ExchangeStep();
    hide Reached, Takes;
    OneMore(CodeState(ISSUED, Idle, CLOSING), Present(0, C), CodeState(ISSUED, Presented(C, 7), CLOSING), 4);
    OneMore(CodeState(ISSUED, Presented(C, 7), CLOSING), CheckOwner(0), CodeState(ISSUED, Cleared(C, 7), CLOSING), 5);
    OneMore(CodeState(ISSUED, Cleared(C, 7), CLOSING), Exchange(0), TradedState(Idle, CLOSING), 6);
  }

  function ClosedState(): System
  {
    TradedState(Idle, Idle).(db := Tables(TRADED, map[0 := Grant(7, 3, READ)], {7}))
  }

  lemma LastStep()
    ensures Takes(TradedState(Idle, CLOSING), CommitDelete(1), ClosedState())
    ensures LiveOf(TRADED, 0) == {A1, R2}
  {
    assert WithoutGrants(TradedState(Idle, CLOSING).db.(discarded := {7}), {}) == ClosedState().db;
  }

  /**
   * The deletion of user 7 finds no grants. Before it commits, the user approves an app, which
   * exchanges its code. The deletion commits and leaves the tokens of a closed account.
   */
  lemma TokenOutlivesAccount() returns (s: System)
    ensures Reached(s, 8) && 7 in s.db.discarded
    ensures LiveOf(s.db.tokens, 0) == {A1, R2} && s.db.tokens[A1].user == s.db.tokens[R2].user == 7
  {
    hide Reached, Takes;
    ExchangedWhileClosing();
    LastStep();
    s := ClosedState();
    OneMore(TradedState(Idle, CLOSING), CommitDelete(1), s, 7);
  }
}
