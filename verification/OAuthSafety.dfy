/**
 * What holds in every reachable state of the authorization server, exactly when a revocation
 * ends a family for good, and the run in which one does not.
 */
module OAuthSafety {
  import opened OAuthTables
  import opened OAuthTokens

  /**
   * Safety over every run: codes and refresh tokens are used at most once, a family has at most
   * one live token of each kind, every record is covered by an existing grant of its user and
   * app, and only families whose code is used are revoked.
   */
  lemma TokensAreSafe(s: System, n: nat)
    requires Reached(s, n)
    ensures forall c :: s.exchanged[c] <= 1 && s.rotated[c] <= 1
    ensures forall j, k, f :: j in LiveOf(s.db.tokens, f) && k in LiveOf(s.db.tokens, f) && j.kind == k.kind ==> j == k
    ensures forall k :: k in s.db.tokens ==>
              s.db.tokens[k].grant in s.db.grants && Covers(s.db.grants[s.db.tokens[k].grant], s.db.tokens[k])
    ensures forall p, f, left :: At(s, p, Revoking(f, left)) ==> NoActiveCode(s.db.tokens, f)
    ensures forall p, f, left, rows :: At(s, p, Revising(f, left, rows)) ==> NoActiveCode(s.db.tokens, f)
  {
    ReachedInv(s, n);
    forall j, k, f | j in LiveOf(s.db.tokens, f) && k in LiveOf(s.db.tokens, f) && j.kind == k.kind
      ensures j == k
    {
      assert Compatible(j, s.db.tokens[j], k, s.db.tokens[k]);
    }
    forall p, f, left | At(s, p, Revoking(f, left))
      ensures NoActiveCode(s.db.tokens, f)
    {
      assert Sound(s, s.processes[p]);
    }
    forall p, f, left, rows | At(s, p, Revising(f, left, rows))
      ensures NoActiveCode(s.db.tokens, f)
    {
      assert Sound(s, s.processes[p]);
    }
  }

  // ---- Families that are over ----

  /** Neither a usable code nor a usable token is left. */
  ghost predicate Dead(ts: Tokens, family: nat)
  {
    NoActiveCode(ts, family) && LiveOf(ts, family) == {}
  }

  lemma WeakerLive(ts: Tokens, ts': Tokens, family: nat)
    requires Weaker(ts, ts')
    ensures LiveOf(ts', family) <= LiveOf(ts, family)
    ensures NoActiveCode(ts, family) ==> NoActiveCode(ts', family)
  {
  }

  /** A new pair is added to its own family only. */
  lemma PairLive(ts: Tokens, t: Token, signature: nat, family: nat)
    requires t.family != family && forall k :: k in ts ==> k.signature < signature
    ensures LiveOf(WithPair(ts, t, signature), family) == LiveOf(ts, family)
    ensures NoActiveCode(ts, family) ==> NoActiveCode(WithPair(ts, t, signature), family)
  {
  }

  /** The family of the refresh token that a step rotates, if it rotates one. */
  ghost predicate Rotates(s: System, step: Step, family: nat)
  {
    && step.Rotate? && step.p in s.processes && s.processes[step.p].Cleared?
    && s.processes[step.p].key in s.db.tokens && s.db.tokens[s.processes[step.p].key].family == family
  }

  /** An exchange uses an unused code, so it serves another family. */
  lemma ExchangeServesOthers(s: System, p: nat, family: nat)
    requires Inv(s) && Enabled(s, Exchange(p)) && NoActiveCode(s.db.tokens, family)
    ensures var ts' := After(s, Exchange(p)).db.tokens;
            NoActiveCode(ts', family) && LiveOf(ts', family) <= LiveOf(s.db.tokens, family)
  {
    var ts, code := s.db.tokens, s.processes[p].key;
    hide LiveOf;
    WeakerLive(ts, Deactivated(ts, code), family);
    PairLive(Deactivated(ts, code), ts[code], s.nextSignature, family);
  }

  lemma RotationServesOthers(s: System, p: nat, scopes: set<string>, family: nat)
    requires Inv(s) && Enabled(s, Rotate(p, scopes)) && NoActiveCode(s.db.tokens, family)
    requires !Rotates(s, Rotate(p, scopes), family)
    ensures var ts' := After(s, Rotate(p, scopes)).db.tokens;
            NoActiveCode(ts', family) && LiveOf(ts', family) <= LiveOf(s.db.tokens, family)
  {
    var ts, refresh := s.db.tokens, s.processes[p].key;
    var ts0 := WithoutAccess(Deactivated(ts, refresh), ts[refresh].family);
    hide LiveOf;
    WeakerLive(ts, ts0, family);
    PairLive(ts0, ts[refresh].(scopes := scopes), s.nextSignature, family);
  }

  lemma NewCodeServesOthers(s: System, p: nat, family: nat)
    requires Inv(s) && Enabled(s, IssueCode(p)) && family < s.nextFamily && NoActiveCode(s.db.tokens, family)
    ensures var ts' := After(s, IssueCode(p)).db.tokens;
            NoActiveCode(ts', family) && LiveOf(ts', family) <= LiveOf(s.db.tokens, family)
  {
  }

  lemma FamiliesStayNumbered(s: System, step: Step)
    requires Enabled(s, step)
    ensures s.nextFamily <= After(s, step).nextFamily
  {
  }

  /** Once its code is used, only rotation gives a family new live tokens. */
  lemma OnlyRotationRenews(s: System, step: Step, family: nat)
    requires Inv(s) && Enabled(s, step) && family < s.nextFamily && NoActiveCode(s.db.tokens, family)
    requires !Rotates(s, step, family)
    ensures var ts' := After(s, step).db.tokens;
            NoActiveCode(ts', family) && LiveOf(ts', family) <= LiveOf(s.db.tokens, family)
    ensures family < After(s, step).nextFamily
  {
    hide Inv, Enabled, After, NoActiveCode, LiveOf, Rotates;
    FamiliesStayNumbered(s, step);
    match step
    case Exchange(p) => ExchangeServesOthers(s, p, family);
    case Rotate(p, scopes) => RotationServesOthers(s, p, scopes, family);
    case IssueCode(p) => NewCodeServesOthers(s, p, family);
    case _ =>
      OthersWeaken(s, step);
      WeakerLive(s.db.tokens, After(s, step).db.tokens, family);
  }

  /** Steps that issue nothing leave at most what was there. */
  lemma OthersWeaken(s: System, step: Step)
    requires Enabled(s, step) && !step.Exchange? && !step.Rotate? && !step.IssueCode?
    ensures Weaker(s.db.tokens, After(s, step).db.tokens)
  {
  }

  lemma RotatesLive(s: System, step: Step, family: nat)
    requires Enabled(s, step) && Rotates(s, step, family)
    ensures LiveOf(s.db.tokens, family) != {}
  {
    assert s.processes[step.p].key in LiveOf(s.db.tokens, family);
  }

  lemma DeadStaysDead(s: System, step: Step, family: nat)
    requires Inv(s) && Enabled(s, step) && family < s.nextFamily && Dead(s.db.tokens, family)
    ensures Dead(After(s, step).db.tokens, family) && family < After(s, step).nextFamily
  {
    if Rotates(s, step, family) {
      RotatesLive(s, step, family);
      assert false;
    }
    OnlyRotationRenews(s, step, family);
  }

  // ---- Runs from a given state ----

  /** `ss` is a run that takes the given steps. */
  ghost predicate Run(ss: seq<System>, steps: seq<Step>)
  {
    && |ss| == |steps| + 1
    && forall i :: 0 <= i < |steps| ==> Takes(ss[i], steps[i], ss[i + 1])
  }

  lemma {:induction false} DeadForever(ss: seq<System>, steps: seq<Step>, family: nat, n: nat)
    requires Run(ss, steps) && Inv(ss[0]) && n <= |steps|
    requires family < ss[0].nextFamily && Dead(ss[0].db.tokens, family)
    ensures Inv(ss[n]) && family < ss[n].nextFamily && Dead(ss[n].db.tokens, family)
  {
    hide Inv, Enabled, After, Dead;
    if n > 0 {
      DeadForever(ss, steps, family, n - 1);
      assert Takes(ss[n - 1], steps[n - 1], ss[n]);
      StepKeepsInv(ss[n - 1], steps[n - 1]);
      DeadStaysDead(ss[n - 1], steps[n - 1], family);
    }
  }

  lemma {:induction false} LiveOnlyShrinks(ss: seq<System>, steps: seq<Step>, family: nat, n: nat)
    requires Run(ss, steps) && Inv(ss[0]) && n <= |steps|
    requires family < ss[0].nextFamily && NoActiveCode(ss[0].db.tokens, family)
    requires forall i :: 0 <= i < |steps| ==> !Rotates(ss[i], steps[i], family)
    ensures Inv(ss[n]) && family < ss[n].nextFamily && NoActiveCode(ss[n].db.tokens, family)
    ensures LiveOf(ss[n].db.tokens, family) <= LiveOf(ss[0].db.tokens, family)
  {
    hide Inv, Enabled, After, NoActiveCode, LiveOf, Rotates;
    if n > 0 {
      LiveOnlyShrinks(ss, steps, family, n - 1);
      assert Takes(ss[n - 1], steps[n - 1], ss[n]);
      StepKeepsInv(ss[n - 1], steps[n - 1]);
      OnlyRotationRenews(ss[n - 1], steps[n - 1], family);
    }
  }

  lemma {:induction false} RunEvolves(ss: seq<System>, steps: seq<Step>, m: nat, n: nat)
    requires Run(ss, steps) && m <= n <= |steps| && Inv(ss[m])
    ensures Inv(ss[n]) && Evolves(ss[m], ss[n])
    decreases n - m
  {
    hide Inv, Enabled, After, Evolves;
    if n == m {
      EvolvesFromItself(ss[m]);
    } else {
      RunEvolves(ss, steps, m, n - 1);
      assert Takes(ss[n - 1], steps[n - 1], ss[n]);
      StepKeepsInv(ss[n - 1], steps[n - 1]);
      EvolvesOn(ss[m], ss[n - 1], ss[n]);
    }
  }

  // ---- Exactly when a revocation works ----

  /**
   * A run from the start of a revocation of `family`, which saw the live tokens of that moment, to
   * its end, where it is about to change them.
   */
  ghost predicate Window(during: seq<System>, steps: seq<Step>, p: nat, family: nat, left: nat)
  {
    && Run(during, steps) && Inv(during[0])
    && At(during[0], p, Revising(family, left, LiveOf(during[0].db.tokens, family)))
    && At(during[|steps|], p, Revising(family, left, LiveOf(during[0].db.tokens, family)))
  }

  /** A step of the window rotates the family, and nothing ends the new pair before the window closes. */
  ghost predicate Renewed(during: seq<System>, steps: seq<Step>, family: nat)
    requires |during| == |steps| + 1
  {
    exists i :: 0 <= i < |steps| && Rotates(during[i], steps[i], family) && LiveFrom(during, i + 1, family)
  }

  ghost predicate LiveFrom(during: seq<System>, i: nat, family: nat)
  {
    forall j :: i <= j < |during| ==> LiveOf(during[j].db.tokens, family) != {}
  }

  /** Issued since `s`: signatures only grow. */
  ghost predicate NewSince(s: System, k: Key)
  {
    k.signature >= s.nextSignature
  }

  lemma LiveBefore(s: System, s': System, family: nat, k: Key)
    requires Inv(s) && Evolves(s, s') && k in LiveOf(s'.db.tokens, family)
    ensures k in LiveOf(s.db.tokens, family) <==> !NewSince(s, k)
  {
  }

  /** After a rotation the family's live tokens are the new pair. */
  lemma RotationLive(s: System, step: Step, family: nat)
    requires Inv(s) && Enabled(s, step) && Rotates(s, step, family)
    ensures LiveOf(After(s, step).db.tokens, family) ==
              {Key(Access, s.nextSignature), Key(Refresh, s.nextSignature + 1)}
  {
    var ts, refresh := s.db.tokens, s.processes[step.p].key;
    var ts0 := WithoutAccess(Deactivated(ts, refresh), family);
    var t := ts[refresh].(scopes := step.scopes);
    ReplacedRefreshFamily(ts, refresh);
    assert After(s, step).db.tokens == WithPair(ts0, t, s.nextSignature);
    NewPairLive(ts0, t, s.nextSignature);
  }

  lemma NewPairLive(ts: Tokens, t: Token, signature: nat)
    requires LiveOf(ts, t.family) == {}
    ensures LiveOf(WithPair(ts, t, signature), t.family) == {Key(Access, signature), Key(Refresh, signature + 1)}
  {
    forall k
      ensures k in LiveOf(WithPair(ts, t, signature), t.family) <==>
              k in {Key(Access, signature), Key(Refresh, signature + 1)}
    {
      assert k in ts ==> k !in LiveOf(ts, t.family);
    }
  }

  /** Everything live after a rotation of the family, or later, is newer than the state before it. */
  lemma RotatedIsNew(ss: seq<System>, steps: seq<Step>, i: nat, n: nat, family: nat, k: Key)
    requires Run(ss, steps) && Inv(ss[0]) && i < n <= |steps| && Rotates(ss[i], steps[i], family)
    requires k in LiveOf(ss[n].db.tokens, family)
    ensures NewSince(ss[0], k)
  {
    hide Inv, Enabled, After, LiveOf, Rotates;
    RunEvolves(ss, steps, 0, i);
    assert Takes(ss[i], steps[i], ss[i + 1]);
    RotationLive(ss[i], steps[i], family);
    RunEvolves(ss, steps, 0, i + 1);
    RunEvolves(ss, steps, i + 1, n);
    LiveBefore(ss[i + 1], ss[n], family, k);
    assert ss[0].nextSignature <= ss[i].nextSignature;
  }

  lemma {:induction false} LiveStays(ss: seq<System>, steps: seq<Step>, family: nat, i: nat, n: nat)
    requires Run(ss, steps) && Inv(ss[0]) && i <= n <= |steps|
    requires family < ss[0].nextFamily && NoActiveCode(ss[0].db.tokens, family)
    requires LiveOf(ss[n].db.tokens, family) != {}
    ensures NoActiveCode(ss[i].db.tokens, family) && family < ss[i].nextFamily
    ensures LiveOf(ss[i].db.tokens, family) != {}
    decreases n - i
  {
    RunEvolves(ss, steps, 0, i);
    StaysWithoutCode(ss[0], ss[i], family);
    if LiveOf(ss[i].db.tokens, family) == {} {
      DeadForever(ss[i..], steps[i..], family, n - i);
      assert false;
    }
  }

  lemma StaysWithoutCode(s: System, s': System, family: nat)
    requires Inv(s) && Evolves(s, s') && family < s.nextFamily && NoActiveCode(s.db.tokens, family)
    ensures NoActiveCode(s'.db.tokens, family) && family < s'.nextFamily
  {
  }

  /** A new live token in a family without an active code comes from a rotation. */
  lemma {:induction false} NewComesFromRotation(ss: seq<System>, steps: seq<Step>, family: nat, n: nat, k: Key)
    returns (i: nat)
    requires Run(ss, steps) && Inv(ss[0]) && n <= |steps|
    requires family < ss[0].nextFamily && NoActiveCode(ss[0].db.tokens, family)
    requires k in LiveOf(ss[n].db.tokens, family) && k !in LiveOf(ss[0].db.tokens, family)
    ensures i < n && Rotates(ss[i], steps[i], family)
  {
    hide Inv, Enabled, After, NoActiveCode, LiveOf, Rotates, Evolves;
    assert n != 0;
    RunEvolves(ss, steps, 0, n - 1);
    StaysWithoutCode(ss[0], ss[n - 1], family);
    i := n - 1;
    assert Takes(ss[n - 1], steps[n - 1], ss[n]);
    if !Rotates(ss[n - 1], steps[n - 1], family) {
      OnlyRotationRenews(ss[n - 1], steps[n - 1], family);
      i := NewComesFromRotation(ss, steps, family, n - 1, k);
    }
  }

  /** A revocation removes the rows it saw. */
  lemma EndLeaves(s: System, p: nat)
    requires Inv(s) && Enabled(s, EndRevocation(p))
    ensures var r, s' := s.processes[p], After(s, EndRevocation(p));
            LiveOf(s'.db.tokens, r.family) == LiveOf(s.db.tokens, r.family) - r.rows &&
              NoActiveCode(s'.db.tokens, r.family)
  {
    var r := s.processes[p];
    assert Sound(s, r);
    WeakerLive(s.db.tokens, Revoked(s.db.tokens, r.rows), r.family);
  }

  lemma WindowFacts(during: seq<System>, steps: seq<Step>, p: nat, family: nat, left: nat)
    requires Window(during, steps, p, family, left)
    ensures family < during[0].nextFamily && NoActiveCode(during[0].db.tokens, family)
    ensures Inv(during[|steps|]) && Evolves(during[0], during[|steps|])
    ensures Enabled(during[|steps|], EndRevocation(p))
  {
    assert Sound(during[0], during[0].processes[p]);
    RunEvolves(during, steps, 0, |steps|);
  }

  /** It ends the family exactly when nothing live at its end was issued after its start. */
  lemma RevocationSees(during: seq<System>, steps: seq<Step>, p: nat, family: nat, left: nat)
    requires Window(during, steps, p, family, left)
    ensures Enabled(during[|steps|], EndRevocation(p))
    ensures Dead(After(during[|steps|], EndRevocation(p)).db.tokens, family) <==>
            forall k :: k in LiveOf(during[|steps|].db.tokens, family) ==> !NewSince(during[0], k)
  {
    var s, s' := during[0], during[|steps|];
    WindowFacts(during, steps, p, family, left);
    EndLeaves(s', p);
    forall k | k in LiveOf(s'.db.tokens, family)
      ensures k in LiveOf(s.db.tokens, family) <==> !NewSince(s, k)
    {
      LiveBefore(s, s', family, k);
    }
    hide Inv, Enabled, After, Evolves, LiveOf, NewSince, NoActiveCode;
    var live, rows := LiveOf(s'.db.tokens, family), LiveOf(s.db.tokens, family);
    assert forall k :: k in live - rows <==> k in live && k !in rows;
  }

  lemma NewMeansRenewed(during: seq<System>, steps: seq<Step>, p: nat, family: nat, left: nat, k: Key)
    requires Window(during, steps, p, family, left)
    requires k in LiveOf(during[|steps|].db.tokens, family) && NewSince(during[0], k)
    ensures Renewed(during, steps, family)
  {
    WindowFacts(during, steps, p, family, left);
    LiveBefore(during[0], during[|steps|], family, k);
    var i := NewComesFromRotation(during, steps, family, |steps|, k);
    forall j | i + 1 <= j < |during|
      ensures LiveOf(during[j].db.tokens, family) != {}
    {
      LiveStays(during, steps, family, j, |steps|);
    }
    assert LiveFrom(during, i + 1, family);
  }

  /**
   * A revocation fails to end its family exactly when, between its start and its end, a refresh
   * token of the family was rotated and nothing ended the family after that.
   */
  lemma RevocationExactly(during: seq<System>, steps: seq<Step>, p: nat, family: nat, left: nat)
    requires Window(during, steps, p, family, left)
    ensures Enabled(during[|steps|], EndRevocation(p))
    ensures Dead(After(during[|steps|], EndRevocation(p)).db.tokens, family) <==> !Renewed(during, steps, family)
  {
    var s' := during[|steps|];
    RevocationSees(during, steps, p, family, left);
    hide Inv, Enabled, After, Evolves, Dead, NewSince, Rotates;
    if Renewed(during, steps, family) {
      var i :| 0 <= i < |steps| && Rotates(during[i], steps[i], family) && LiveFrom(during, i + 1, family);
      assert LiveOf(s'.db.tokens, family) != {};
      var k :| k in LiveOf(s'.db.tokens, family);
      RotatedIsNew(during, steps, i, |steps|, family, k);
    } else if k :| k in LiveOf(s'.db.tokens, family) && NewSince(during[0], k) {
      NewMeansRenewed(during, steps, p, family, left, k);
      assert false;
    }
  }

  /**
   * A revocation during which the family was not renewed ends it: from the moment it commits, no
   * continuation of the run has a usable code or token in it.
   */
  lemma RevokedForever(during: seq<System>, steps: seq<Step>, p: nat, later: seq<System>, laterSteps: seq<Step>,
                       family: nat, left: nat)
    requires Window(during, steps, p, family, left) && !Renewed(during, steps, family)
    requires Run(later, laterSteps) && Takes(during[|steps|], EndRevocation(p), later[0])
    ensures forall i :: 0 <= i < |later| ==> Dead(later[i].db.tokens, family)
  {
    var s := during[|steps|];
    RevocationExactly(during, steps, p, family, left);
    WindowFacts(during, steps, p, family, left);
    StepKeepsInv(s, EndRevocation(p));
    assert family < later[0].nextFamily;
    hide Inv, Dead, Enabled, After, Renewed, Window;
    forall i | 0 <= i < |later|
      ensures Dead(later[i].db.tokens, family)
    {
      DeadForever(later, laterSteps, family, i);
    }
  }

  // ---- A run in which a revocation misses the tokens of a rotation ----

  const READ := {"hamburger:read"}
  const C := Key(Code, 0)
  const A1 := Key(Access, 1)
  const R2 := Key(Refresh, 2)
  const A3 := Key(Access, 3)
  const R4 := Key(Refresh, 4)
  const ACTIVE := Token(0, 0, 7, 3, READ, true)
  const USED := Token(0, 0, 7, 3, READ, false)

  function Start(): System
  {
    System(Tables(map[], map[], {}), map[0 := Idle, 1 := Idle], 0, 0, 0, multiset{}, multiset{})
  }

  /** The state with one grant of user 7 to app 3. */
  function GrantedState(ts: Tokens, zero: Process, one: Process, signature: nat, family: nat,
                   exchanged: multiset<nat>, rotated: multiset<nat>): System
  {
    System(Tables(ts, map[0 := Grant(7, 3, READ)], {}), map[0 := zero, 1 := one], signature, family, 1,
           exchanged, rotated)
  }

  const ISSUED: Tokens := map[C := ACTIVE]
  const TRADED: Tokens := map[C := USED, A1 := ACTIVE, R2 := ACTIVE]
  const RENEWED: Tokens := map[C := USED, R2 := USED, A3 := ACTIVE, R4 := ACTIVE]

  function CodeState(ts: Tokens, zero: Process, one: Process): System
  {
    GrantedState(ts, zero, one, 1, 1, multiset{}, multiset{})
  }

  function TradedState(zero: Process, one: Process): System
  {
    GrantedState(TRADED, zero, one, 3, 1, multiset{0}, multiset{})
  }

  function RenewedState(one: Process): System
  {
    GrantedState(RENEWED, Idle, one, 5, 1, multiset{0}, multiset{2})
  }

  lemma OneMore(s: System, step: Step, s': System, n: nat)
    requires Reached(s, n) && Takes(s, step, s')
    ensures Reached(s', n + 1)
  {
  }

  lemma StartIsReached()
    ensures Reached(Start(), 0)
  {
  }

  lemma ConsentSteps()
    ensures Reached(CodeState(ISSUED, Idle, Idle), 3)
  {
    hide Reached;
    var approved := GrantedState(map[], Approved(7, 3, READ, 0), Idle, 0, 0, multiset{}, multiset{});
    var permitted := GrantedState(map[], Permitted(7, 3, READ, 0), Idle, 0, 0, multiset{}, multiset{});
    StartIsReached();
    OneMore(Start(), Approve(0, 7, 3, READ, 0), approved, 0);
    OneMore(approved, CheckGrant(0), permitted, 1);
    OneMore(permitted, IssueCode(0), CodeState(ISSUED, Idle, Idle), 2);
  }

  /** Both requests read the code as active before either exchanges it. */
  lemma RaceSteps()
    ensures Reached(CodeState(ISSUED, Cleared(C, 7), Cleared(C, 7)), 7)
  {
    hide Reached;
    ConsentSteps();
    OneMore(CodeState(ISSUED, Idle, Idle), Present(0, C), CodeState(ISSUED, Presented(C, 7), Idle), 3);
    OneMore(CodeState(ISSUED, Presented(C, 7), Idle), Present(1, C),
            CodeState(ISSUED, Presented(C, 7), Presented(C, 7)), 4);
    OneMore(CodeState(ISSUED, Presented(C, 7), Presented(C, 7)), CheckOwner(0),
            CodeState(ISSUED, Cleared(C, 7), Presented(C, 7)), 5);
    OneMore(CodeState(ISSUED, Cleared(C, 7), Presented(C, 7)), CheckOwner(1),
            CodeState(ISSUED, Cleared(C, 7), Cleared(C, 7)), 6);
  }

  lemma ExchangeSteps()
    ensures Reached(TradedState(Idle, Revoking(0, 1)), 9)
  {
    hide Reached;
    RaceSteps();
    var before := CodeState(ISSUED, Cleared(C, 7), Cleared(C, 7));
    assert Deactivated(ISSUED, C) == map[C := USED];
    assert Exchanged(ISSUED, C, 1) == TRADED;
    OneMore(before, Exchange(0), TradedState(Idle, Cleared(C, 7)), 7);
    OneMore(TradedState(Idle, Cleared(C, 7)), LoseRace(1), TradedState(Idle, Revoking(0, 1)), 8);
  }

  lemma RefreshSteps()
    ensures Reached(TradedState(Cleared(R2, 7), Revising(0, 0, {A1, R2})), 12)
  {
    hide Reached;
    ExchangeSteps();
    OneMore(TradedState(Idle, Revoking(0, 1)), Present(0, R2), TradedState(Presented(R2, 7), Revoking(0, 1)), 9);
    OneMore(TradedState(Presented(R2, 7), Revoking(0, 1)), CheckOwner(0),
            TradedState(Cleared(R2, 7), Revoking(0, 1)), 10);
    assert LiveOf(TRADED, 0) == {A1, R2};
    OneMore(TradedState(Cleared(R2, 7), Revoking(0, 1)), BeginRevocation(1),
            TradedState(Cleared(R2, 7), Revising(0, 0, {A1, R2})), 11);
  }

  lemma RotateStep()
    ensures Takes(TradedState(Cleared(R2, 7), Revising(0, 0, {A1, R2})), Rotate(0, READ),
                  RenewedState(Revising(0, 0, {A1, R2})))
  {
    assert WithoutAccess(Deactivated(TRADED, R2), 0) == map[C := USED, R2 := USED];
    assert Rotated(TRADED, R2, READ, 3) == RENEWED;
  }

  lemma MissedSteps()
    ensures Takes(RenewedState(Revising(0, 0, {A1, R2})), EndRevocation(1), RenewedState(Idle))
    ensures LiveOf(RENEWED, 0) == {A3, R4}
  {
    assert Revoked(RENEWED, {A1, R2}) == RENEWED;
  }

  /**
   * A code is exchanged twice at nearly the same time. The loser revokes the family with one
   * statement; while it runs, the winner's refresh token is rotated. The revocation commits, and
   * the family still has a live access token and a live refresh token.
   */
  lemma RevocationMissesRotation() returns (s: System)
    ensures Reached(s, 14)
    ensures forall p :: p in s.processes ==> s.processes[p] == Idle
    ensures LiveOf(s.db.tokens, 0) == {A3, R4}
  {
    hide Reached, Takes;
    RefreshSteps();
    RotateStep();
    MissedSteps();
    s := RenewedState(Idle);
    OneMore(TradedState(Cleared(R2, 7), Revising(0, 0, {A1, R2})), Rotate(0, READ),
            RenewedState(Revising(0, 0, {A1, R2})), 12);
    OneMore(RenewedState(Revising(0, 0, {A1, R2})), EndRevocation(1), s, 13);
  }
}
