/**
 * Token families over whole runs: consents, code exchanges, rotations, replays, revocations,
 * withdrawn grants and deleted accounts, interleaved. A request is a sequence of steps with
 * anything in between; an exchange or a rotation is one transaction; a revocation is one
 * statement, which sees the rows committed when it starts and changes them when it ends; an account
 * deletion deletes the grants it sees and commits later.
 */
module OAuthTokens {
  import opened OAuthTables

  datatype Process =
    | Idle
    | Approved(user: nat, client: nat, scopes: set<string>, grant: nat)    // consent saved, no code yet
    | Permitted(user: nat, client: nat, scopes: set<string>, grant: nat)   // the grant was checked
    | Presented(key: Key, user: nat)                                        // read as active
    | Cleared(key: Key, user: nat)                                          // and its owner as active
    | Revoking(family: nat, left: nat)                                      // statements still to send
    | Revising(family: nat, left: nat, rows: set<Key>)                      // a statement in flight
    | Deleting(user: nat, ids: set<nat>)                                    // grants deleted, not committed

  datatype System = System(
    db: Tables,
    processes: map<nat, Process>,
    nextSignature: nat,
    nextFamily: nat,
    nextGrant: nat,
    exchanged: multiset<nat>,   // history: signature of the code of each successful exchange
    rotated: multiset<nat>      // history: signature of the old token of each successful rotation
  )

  datatype Step =
    | Approve(p: nat, user: nat, client: nat, scopes: set<string>, grant: nat)
    | CheckGrant(p: nat)
    | IssueCode(p: nat)
    | Present(p: nat, key: Key)
    | CheckOwner(p: nat)
    | Exchange(p: nat)
    | Rotate(p: nat, scopes: set<string>)
    | DetectReuse(p: nat, key: Key)       // an inactive code or refresh token is presented
    | LoseRace(p: nat)                    // the code was used between reading and exchanging it
    | AskRevocation(p: nat, key: Key)     // the revocation endpoint
    | BeginRevocation(p: nat)
    | EndRevocation(p: nat)
    | GiveUp(p: nat)                      // any request may fail at any point
    | WithdrawGrant(user: nat, grant: nat)
    | BeginDelete(p: nat, user: nat)
    | CommitDelete(p: nat)
    | Forget(key: Key)                    // expiry and clean-up of single records

  predicate At(s: System, p: nat, phase: Process)
  {
    p in s.processes && s.processes[p] == phase
  }

  /** There is at most one grant for a user and an app; a new one gets a new id. */
  ghost predicate CanUpsert(s: System, user: nat, client: nat, grant: nat)
  {
    if grant in s.db.grants then s.db.grants[grant].user == user && s.db.grants[grant].client == client
    else
      && grant == s.nextGrant
      && forall g :: g in s.db.grants ==> !(s.db.grants[g].user == user && s.db.grants[g].client == client)
  }

  /** An account deletion that has not committed holds the lock of this grant's row. */
  ghost predicate Held(s: System, grant: nat)
  {
    exists q :: q in s.processes && s.processes[q].Deleting? && grant in s.processes[q].ids
  }

  /** An account deletion that has not committed holds the lock of this user's row. */
  ghost predicate Closing(s: System, user: nat)
  {
    exists q :: q in s.processes && s.processes[q].Deleting? && s.processes[q].user == user
  }

  /**
   * New records need the row of their grant, so they wait for a deletion that holds it. Statements
   * that only deactivate or delete leave the same tables on either side of its commit.
   */
  ghost predicate Enabled(s: System, step: Step)
  {
    var ts := s.db.tokens;
    match step
    case Approve(p, user, client, scopes, grant) =>
      At(s, p, Idle) && CanUpsert(s, user, client, grant) && !Held(s, grant)
    case CheckGrant(p) =>
      && p in s.processes && s.processes[p].Approved?
      && var c := s.processes[p];
         c.grant in s.db.grants && s.db.grants[c.grant].user == c.user && s.db.grants[c.grant].client == c.client &&
         c.scopes <= s.db.grants[c.grant].scopes
    case IssueCode(p) =>
      && p in s.processes && s.processes[p].Permitted?
      && s.processes[p].grant in s.db.grants && !Held(s, s.processes[p].grant)
    case Present(p, key) => At(s, p, Idle) && key in ts && key.kind != Access && ts[key].active
    case CheckOwner(p) => p in s.processes && s.processes[p].Presented? && s.processes[p].user !in s.db.discarded
    case Exchange(p) =>
      && p in s.processes && s.processes[p].Cleared?
      && var key := s.processes[p].key; key.kind == Code && key in ts && ts[key].active && !Held(s, ts[key].grant)
    case Rotate(p, scopes) =>
      && p in s.processes && s.processes[p].Cleared?
      && var key := s.processes[p].key;
         key.kind == Refresh && key in ts && ts[key].active && scopes <= ts[key].scopes && !Held(s, ts[key].grant)
    case DetectReuse(p, key) => At(s, p, Idle) && key in ts && key.kind != Access && !ts[key].active
    case LoseRace(p) =>
      && p in s.processes && s.processes[p].Cleared?
      && var key := s.processes[p].key; key.kind == Code && key in ts && !ts[key].active
    case AskRevocation(p, key) => At(s, p, Idle) && key in ts && key.kind != Code
    case BeginRevocation(p) => p in s.processes && s.processes[p].Revoking? && s.processes[p].left > 0
    case EndRevocation(p) => p in s.processes && s.processes[p].Revising?
    case GiveUp(p) => p in s.processes
    case WithdrawGrant(user, grant) => grant in s.db.grants && s.db.grants[grant].user == user
    case BeginDelete(p, user) => At(s, p, Idle) && user !in s.db.discarded && !Closing(s, user)
    case CommitDelete(p) => p in s.processes && s.processes[p].Deleting?
    case Forget(key) => key in ts
  }

  function Move(s: System, p: nat, next: Process): System
  {
    s.(processes := s.processes[p := next])
  }

  function WithTokens(s: System, ts: Tokens): System
  {
    s.(db := s.db.(tokens := ts))
  }

  function After(s: System, step: Step): System
    requires Enabled(s, step)
  {
    var ts := s.db.tokens;
    match step
    case Approve(p, user, client, scopes, grant) =>
      Move(s, p, Approved(user, client, scopes, grant))
        .(db := s.db.(grants := Widened(s.db.grants, grant, user, client, scopes)),
          nextGrant := if grant == s.nextGrant then grant + 1 else s.nextGrant)
    case CheckGrant(p) =>
      var c := s.processes[p];
      Move(s, p, Permitted(c.user, c.client, c.scopes, c.grant))
    case IssueCode(p) =>
      var c := s.processes[p];
      var code := Token(s.nextFamily, c.grant, c.user, c.client, c.scopes, true);
      WithTokens(Move(s, p, Idle), ts[Key(Code, s.nextSignature) := code])
        .(nextSignature := s.nextSignature + 1, nextFamily := s.nextFamily + 1)
    case Present(p, key) => Move(s, p, Presented(key, ts[key].user))
    case CheckOwner(p) => Move(s, p, Cleared(s.processes[p].key, s.processes[p].user))
    case Exchange(p) =>
      var key := s.processes[p].key;
      WithTokens(Move(s, p, Idle), Exchanged(ts, key, s.nextSignature))
        .(nextSignature := s.nextSignature + 2, exchanged := s.exchanged + multiset{key.signature})
    case Rotate(p, scopes) =>
      var key := s.processes[p].key;
      WithTokens(Move(s, p, Idle), Rotated(ts, key, scopes, s.nextSignature))
        .(nextSignature := s.nextSignature + 2, rotated := s.rotated + multiset{key.signature})
    case DetectReuse(p, key) => Move(s, p, Revoking(ts[key].family, 2))
    case LoseRace(p) => Move(s, p, Revoking(ts[s.processes[p].key].family, 1))
    case AskRevocation(p, key) => Move(s, p, Revoking(ts[key].family, 2))
    case BeginRevocation(p) =>
      var r := s.processes[p];
      Move(s, p, Revising(r.family, r.left - 1, LiveOf(ts, r.family)))
    case EndRevocation(p) =>
      var r := s.processes[p];
      WithTokens(Move(s, p, if r.left > 0 then Revoking(r.family, r.left) else Idle), Revoked(ts, r.rows))
    case GiveUp(p) => Move(s, p, Idle)
    case WithdrawGrant(user, grant) => s.(db := WithoutGrants(s.db, {grant}))
    case BeginDelete(p, user) => Move(s, p, Deleting(user, GrantsOf(s.db, user)))
    case CommitDelete(p) => Move(s.(db := Closed(s.db, s.processes[p].user, s.processes[p].ids)), p, Idle)
    case Forget(key) => WithTokens(s, ts - {key})
  }

  ghost predicate Init(s: System)
  {
    && s.db.tokens == map[] && s.db.grants == map[] && s.exchanged == multiset{} && s.rotated == multiset{}
    && forall p :: p in s.processes ==> s.processes[p] == Idle
  }

  ghost predicate Takes(s: System, step: Step, s': System)
  {
    Enabled(s, step) && s' == After(s, step)
  }

  /** `s` is reached by some run of `n` steps. */
  ghost predicate Reached(s: System, n: nat)
    decreases n
  {
    if n == 0 then Init(s)
    else exists before, step :: Reached(before, n - 1) && Takes(before, step, s)
  }

  // ---- The invariant ----

  ghost predicate Numbered(s: System)
  {
    && (forall k :: k in s.db.tokens ==> k.signature < s.nextSignature && s.db.tokens[k].family < s.nextFamily)
    && (forall g :: g in s.db.grants ==> g < s.nextGrant)
    && (forall c :: c in s.exchanged ==> c < s.nextSignature)
    && (forall c :: c in s.rotated ==> c < s.nextSignature)
  }

  /** Every token record has a grant of its user and app that permits its scopes. */
  ghost predicate Backed(t: Tables)
  {
    forall k :: k in t.tokens ==> t.tokens[k].grant in t.grants && Covers(t.grants[t.tokens[k].grant], t.tokens[k])
  }

  ghost predicate OneGrantEach(gs: map<nat, Grant>)
  {
    forall g, h :: g in gs && h in gs && gs[g].user == gs[h].user && gs[g].client == gs[h].client ==> g == h
  }

  /** What two records of one family may be. */
  predicate Compatible(j: Key, tj: Token, k: Key, tk: Token)
  {
    && (j.kind == Code && k.kind == Code ==> j == k)
    && (j.kind == Code && tj.active ==> k.kind == Code)
    && (k.kind == Code && tk.active ==> j.kind == Code)
    && (IsLive(j, tj) && IsLive(k, tk) && j.kind == k.kind ==> j == k)
  }

  /** One code per family, nothing besides it while it is unused, one live token of each kind. */
  ghost predicate Families(ts: Tokens)
  {
    forall j, k :: j in ts && k in ts && ts[j].family == ts[k].family ==> Compatible(j, ts[j], k, ts[k])
  }

  /** No code is exchanged twice and no refresh token rotated twice. */
  ghost predicate UsedOnce(s: System)
  {
    forall c ::
      && s.exchanged[c] <= 1 && s.rotated[c] <= 1
      && (c in s.exchanged && Key(Code, c) in s.db.tokens ==> !s.db.tokens[Key(Code, c)].active)
      && (c in s.rotated && Key(Refresh, c) in s.db.tokens ==> !s.db.tokens[Key(Refresh, c)].active)
  }

  ghost predicate NoActiveCode(ts: Tokens, family: nat)
  {
    forall k :: k in ts && k.kind == Code && ts[k].family == family ==> !ts[k].active
  }

  ghost predicate Sound(s: System, c: Process)
  {
    match c
    case Idle => true
    case Approved(user, client, scopes, grant) =>
      grant < s.nextGrant && Granted(s.db.grants, user, client, scopes, grant)
    case Permitted(user, client, scopes, grant) =>
      grant < s.nextGrant && Granted(s.db.grants, user, client, scopes, grant)
    case Presented(key, user) => Known(s, key, user)
    case Cleared(key, user) => Known(s, key, user)
    case Revoking(family, _) => family < s.nextFamily && NoActiveCode(s.db.tokens, family)
    case Revising(family, _, _) => family < s.nextFamily && NoActiveCode(s.db.tokens, family)
    case Deleting(user, ids) =>
      forall g :: g in ids ==> g < s.nextGrant && (g in s.db.grants ==> s.db.grants[g].user == user)
  }

  /** What was approved stays granted while the grant is there at all. */
  predicate Granted(gs: map<nat, Grant>, user: nat, client: nat, scopes: set<string>, grant: nat)
  {
    grant in gs ==> gs[grant].user == user && gs[grant].client == client && scopes <= gs[grant].scopes
  }

  predicate Known(s: System, key: Key, user: nat)
  {
    key.signature < s.nextSignature && key.kind != Access && (key in s.db.tokens ==> s.db.tokens[key].user == user)
  }

  ghost predicate AllSound(s: System)
  {
    forall p :: p in s.processes ==> Sound(s, s.processes[p])
  }

  ghost predicate Core(s: System)
  {
    && Numbered(s) && Backed(s.db) && OneGrantEach(s.db.grants) && Families(s.db.tokens)
    && UsedOnce(s)
  }

  ghost predicate Inv(s: System)
  {
    Core(s) && AllSound(s)
  }

  // ---- What any step leaves of the earlier state ----

  /** Records only lose activity, grants only widen, numbers only grow. */
  ghost predicate Evolves(s: System, s': System)
  {
    && s.nextSignature <= s'.nextSignature && s.nextFamily <= s'.nextFamily && s.nextGrant <= s'.nextGrant
    && s.db.discarded <= s'.db.discarded
    && (forall g :: g in s'.db.grants && g < s.nextGrant ==> g in s.db.grants && Wider(s.db.grants[g], s'.db.grants[g]))
    && (forall k :: k in s'.db.tokens && k.signature < s.nextSignature ==>
          k in s.db.tokens && Older(s.db.tokens[k], s'.db.tokens[k]))
    && (forall k :: k in s'.db.tokens && k.signature >= s.nextSignature && k.kind == Code ==>
          s'.db.tokens[k].family >= s.nextFamily)
  }

  predicate Wider(g: Grant, g': Grant)
  {
    g'.user == g.user && g'.client == g.client && g.scopes <= g'.scopes
  }

  predicate Older(t: Token, t': Token)
  {
    t' == t || t' == t.(active := false)
  }

  lemma EvolvesOn(s: System, s': System, s'': System)
    requires Evolves(s, s') && Evolves(s', s'')
    ensures Evolves(s, s'')
  {
  }

  lemma EvolvesKeepsSound(s: System, s': System, c: Process)
    requires Evolves(s, s') && Sound(s, c)
    ensures Sound(s', c)
  {
  }

  /** Nothing but soundness speaks of the processes. */
  lemma MoveChangesNothing(s: System, p: nat, next: Process, c: Process)
    ensures Core(Move(s, p, next)) <==> Core(s)
    ensures Sound(Move(s, p, next), c) <==> Sound(s, c)
    ensures forall from :: Evolves(from, Move(s, p, next)) <==> Evolves(from, s)
  {
  }

  /** The shape of most proofs: the tables evolve to those of `s1` and one process moves on. */
  lemma MovedKeepsInv(s: System, s1: System, p: nat, next: Process)
    requires Inv(s) && Core(s1) && Evolves(s, s1) && s1.processes == s.processes && Sound(s1, next)
    ensures Inv(Move(s1, p, next)) && Evolves(s, Move(s1, p, next))
  {
    hide Evolves, Core, Sound;
    var s' := Move(s1, p, next);
    MoveChangesNothing(s1, p, next, next);
    forall q | q in s'.processes
      ensures Sound(s', s'.processes[q])
    {
      MoveChangesNothing(s1, p, next, s'.processes[q]);
      if q != p {
        EvolvesKeepsSound(s, s1, s.processes[q]);
      }
    }
  }

  lemma UnmovedKeepsInv(s: System, s': System)
    requires Inv(s) && Core(s') && Evolves(s, s') && s'.processes == s.processes
    ensures Inv(s')
  {
    hide Evolves, Core, Sound;
    forall q | q in s'.processes
      ensures Sound(s', s'.processes[q])
    {
      EvolvesKeepsSound(s, s', s.processes[q]);
    }
  }

  lemma SameFamily(ts: Tokens, k: Key)
    requires Families(ts) && k in ts && (k.kind != Code || !ts[k].active)
    ensures NoActiveCode(ts, ts[k].family)
  {
  }

  /** Steps of a request that only read. */
  predicate OnlyReads(step: Step)
  {
    step.CheckGrant? || step.Present? || step.CheckOwner? || step.DetectReuse? || step.LoseRace? ||
    step.AskRevocation? || step.BeginRevocation? || step.BeginDelete? || step.GiveUp?
  }

  lemma ReadMoves(s: System, step: Step)
    requires Enabled(s, step) && OnlyReads(step)
    ensures step.p in After(s, step).processes && After(s, step) == Move(s, step.p, After(s, step).processes[step.p])
  {
  }

  lemma ReadIsSound(s: System, step: Step)
    requires Inv(s) && Enabled(s, step) && OnlyReads(step)
    ensures step.p in After(s, step).processes && Sound(s, After(s, step).processes[step.p])
  {
    assert step.p in s.processes && Sound(s, s.processes[step.p]);
    if step.DetectReuse? || step.AskRevocation? || step.LoseRace? {
      ReuseIsSound(s, step);
    } else {
      hide Backed, Families, UsedOnce, NoActiveCode, CanUpsert;
    }
  }

  /** A replayed code or refresh token and a request to revoke bring two statements, a lost race one. */
  lemma StatementsToSend(s: System, step: Step)
    requires Enabled(s, step) && (step.DetectReuse? || step.AskRevocation? || step.LoseRace?)
    ensures var key := if step.LoseRace? then s.processes[step.p].key else step.key;
            After(s, step).processes[step.p] == Revoking(s.db.tokens[key].family, if step.LoseRace? then 1 else 2)
  {
  }

  /** Whoever presents a used record, or an issued token, belongs to a family without an unused code. */
  lemma ReuseIsSound(s: System, step: Step)
    requires Inv(s) && Enabled(s, step) && (step.DetectReuse? || step.AskRevocation? || step.LoseRace?)
    ensures Sound(s, After(s, step).processes[step.p])
  {
    SameFamily(s.db.tokens, if step.LoseRace? then s.processes[step.p].key else step.key);
    hide Backed, Families, UsedOnce, NoActiveCode, CanUpsert;
  }

  lemma EvolvesFromItself(s: System)
    requires Inv(s)
    ensures Evolves(s, s)
  {
  }

  lemma ReadKeepsInv(s: System, step: Step)
    requires Inv(s) && Enabled(s, step) && OnlyReads(step)
    ensures Inv(After(s, step)) && Evolves(s, After(s, step))
  {
    ReadMoves(s, step);
    ReadIsSound(s, step);
    EvolvesFromItself(s);
    hide Enabled, After, Core, Sound, Evolves;
    MovedKeepsInv(s, s, step.p, After(s, step).processes[step.p]);
  }

  lemma ApproveKeepsInv(s: System, step: Step)
    requires Inv(s) && Enabled(s, step) && step.Approve?
    ensures Inv(After(s, step)) && Evolves(s, After(s, step))
  {
    var next := Approved(step.user, step.client, step.scopes, step.grant);
    var s1 := WithGrant(s, step.user, step.client, step.scopes, step.grant);
    GrantKeepsBacked(s, step.user, step.client, step.scopes, step.grant);
    GrantEvolves(s, step.user, step.client, step.scopes, step.grant);
    assert After(s, step) == Move(s1, step.p, next) && Sound(s1, next);
    hide Enabled, After, Sound, Evolves, Backed, Families, UsedOnce, OneGrantEach;
    MovedKeepsInv(s, s1, step.p, next);
  }

  function WithGrant(s: System, user: nat, client: nat, scopes: set<string>, grant: nat): System
  {
    s.(db := s.db.(grants := Widened(s.db.grants, grant, user, client, scopes)),
       nextGrant := if grant == s.nextGrant then grant + 1 else s.nextGrant)
  }

  lemma GrantKeepsBacked(s: System, user: nat, client: nat, scopes: set<string>, grant: nat)
    requires Backed(s.db) && OneGrantEach(s.db.grants) && CanUpsert(s, user, client, grant)
    ensures var s1 := WithGrant(s, user, client, scopes, grant); Backed(s1.db) && OneGrantEach(s1.db.grants)
  {
  }

  lemma GrantEvolves(s: System, user: nat, client: nat, scopes: set<string>, grant: nat)
    requires Numbered(s) && UsedOnce(s) && CanUpsert(s, user, client, grant)
    ensures var s1 := WithGrant(s, user, client, scopes, grant); Numbered(s1) && UsedOnce(s1) && Evolves(s, s1)
  {
  }

  function WithCode(s: System, t: Token): System
  {
    WithTokens(s, s.db.tokens[Key(Code, s.nextSignature) := t])
      .(nextSignature := s.nextSignature + 1, nextFamily := s.nextFamily + 1)
  }

  lemma CodeKeepsCore(s: System, t: Token)
    requires Core(s) && t.family == s.nextFamily && t.grant in s.db.grants && Covers(s.db.grants[t.grant], t)
    ensures Core(WithCode(s, t)) && Evolves(s, WithCode(s, t))
  {
    CodeKeepsFamilies(s, t);
    CodeEvolves(s, t);
    hide Families, UsedOnce, Evolves;
  }

  lemma CodeKeepsFamilies(s: System, t: Token)
    requires Numbered(s) && Families(s.db.tokens) && t.family == s.nextFamily
    ensures Families(WithCode(s, t).db.tokens)
  {
    assert forall k :: k in s.db.tokens ==> s.db.tokens[k].family != s.nextFamily;
  }

  lemma CodeEvolves(s: System, t: Token)
    requires Numbered(s) && UsedOnce(s) && t.family == s.nextFamily
    ensures UsedOnce(WithCode(s, t)) && Evolves(s, WithCode(s, t))
  {
  }

  lemma IssueKeepsInv(s: System, p: nat)
    requires Inv(s) && Enabled(s, IssueCode(p))
    ensures Inv(After(s, IssueCode(p))) && Evolves(s, After(s, IssueCode(p)))
  {
    var c := s.processes[p];
    assert Sound(s, c);
    var t := Token(s.nextFamily, c.grant, c.user, c.client, c.scopes, true);
    CodeKeepsCore(s, t);
    hide Core, Evolves;
    MovedKeepsInv(s, WithCode(s, t), p, Idle);
    assert After(s, IssueCode(p)) == Move(WithCode(s, t), p, Idle);
  }

  /** Records only disappear or lose activity, and take no other record with them. */
  ghost predicate Weaker(ts: Tokens, ts': Tokens)
  {
    forall k :: k in ts' ==> k in ts && Older(ts[k], ts'[k])
  }

  lemma WeakerKeepsCore(s: System, ts': Tokens)
    requires Core(s) && Weaker(s.db.tokens, ts')
    ensures Core(WithTokens(s, ts')) && Evolves(s, WithTokens(s, ts'))
  {
    WeakerKeepsFamilies(s.db.tokens, ts');
  }

  lemma WeakerKeepsFamilies(ts: Tokens, ts': Tokens)
    requires Families(ts) && Weaker(ts, ts')
    ensures Families(ts')
  {
    forall j, k | j in ts' && k in ts' && ts'[j].family == ts'[k].family
      ensures Compatible(j, ts'[j], k, ts'[k])
    {
      assert Compatible(j, ts[j], k, ts[k]);
    }
  }

  lemma EndRevocationKeepsInv(s: System, p: nat)
    requires Inv(s) && Enabled(s, EndRevocation(p))
    ensures Inv(After(s, EndRevocation(p))) && Evolves(s, After(s, EndRevocation(p)))
  {
    var r := s.processes[p];
    var s1 := WithTokens(s, Revoked(s.db.tokens, r.rows));
    var next := if r.left > 0 then Revoking(r.family, r.left) else Idle;
    assert Sound(s, r);
    WeakerKeepsCore(s, Revoked(s.db.tokens, r.rows));
    EvolvesKeepsSound(s, s1, r);
    hide Core, Evolves;
    MovedKeepsInv(s, s1, p, next);
    assert After(s, EndRevocation(p)) == Move(s1, p, next);
  }

  lemma ForgetKeepsInv(s: System, key: Key)
    requires Inv(s) && Enabled(s, Forget(key))
    ensures Inv(After(s, Forget(key))) && Evolves(s, After(s, Forget(key)))
  {
    WeakerKeepsCore(s, s.db.tokens - {key});
    UnmovedKeepsInv(s, After(s, Forget(key)));
  }

  /** Deleting grants of users takes exactly the tokens of those grants. */
  lemma WithoutGrantsKeepsCore(s: System, ids: set<nat>)
    requires Core(s)
    ensures var s' := s.(db := WithoutGrants(s.db, ids)); Core(s') && Evolves(s, s')
  {
    var s' := s.(db := WithoutGrants(s.db, ids));
    WeakerKeepsFamilies(s.db.tokens, s'.db.tokens);
  }

  lemma CommitDeleteKeepsInv(s: System, p: nat)
    requires Inv(s) && Enabled(s, CommitDelete(p))
    ensures Inv(After(s, CommitDelete(p))) && Evolves(s, After(s, CommitDelete(p)))
  {
    var c := s.processes[p];
    var s1 := s.(db := WithoutGrants(s.db, c.ids));
    WithoutGrantsKeepsCore(s, c.ids);
    DiscardEvolves(s, s1, c.user);
    var s2 := s1.(db := s1.db.(discarded := s1.db.discarded + {c.user}));
    assert After(s, CommitDelete(p)) == Move(s2, p, Idle);
    hide Enabled, After, Core, Evolves;
    MovedKeepsInv(s, s2, p, Idle);
  }

  /** No invariant of the tables speaks of the users. */
  lemma DiscardEvolves(s: System, s1: System, user: nat)
    requires Core(s1) && Evolves(s, s1)
    ensures var s2 := s1.(db := s1.db.(discarded := s1.db.discarded + {user})); Core(s2) && Evolves(s, s2)
  {
    hide Families;
  }

  lemma WithdrawKeepsInv(s: System, user: nat, grant: nat)
    requires Inv(s) && Enabled(s, WithdrawGrant(user, grant))
    ensures Inv(After(s, WithdrawGrant(user, grant))) && Evolves(s, After(s, WithdrawGrant(user, grant)))
  {
    WithoutGrantsKeepsCore(s, {grant});
    UnmovedKeepsInv(s, After(s, WithdrawGrant(user, grant)));
  }

  // ---- New tokens ----

  /** A family without an active code or a live token, to which one pair is added. */
  lemma PairKeepsFamilies(ts: Tokens, t: Token, signature: nat)
    requires Families(ts) && NoActiveCode(ts, t.family) && LiveOf(ts, t.family) == {}
    requires forall k :: k in ts ==> k.signature < signature
    ensures Families(WithPair(ts, t, signature))
  {
    var ts' := WithPair(ts, t, signature);
    forall j, k | j in ts' && k in ts' && ts'[j].family == ts'[k].family
      ensures Compatible(j, ts'[j], k, ts'[k])
    {
      if j in ts && k in ts {
        assert Compatible(j, ts[j], k, ts[k]);
      }
      assert j in ts && IsLive(j, ts[j]) ==> j in LiveOf(ts, ts[j].family);
      assert k in ts && IsLive(k, ts[k]) ==> k in LiveOf(ts, ts[k].family);
    }
  }

  /** A used code leaves its family without live records. */
  lemma UsedCodeFamily(ts: Tokens, code: Key)
    requires Families(ts) && code in ts && code.kind == Code && ts[code].active
    ensures var ts' := Deactivated(ts, code);
            Families(ts') && NoActiveCode(ts', ts[code].family) && LiveOf(ts', ts[code].family) == {}
  {
  }

  /** So does a replaced refresh token once the family's access tokens are dropped. */
  lemma ReplacedRefreshFamily(ts: Tokens, refresh: Key)
    requires Families(ts) && refresh in ts && refresh.kind == Refresh && ts[refresh].active
    ensures var ts' := WithoutAccess(Deactivated(ts, refresh), ts[refresh].family);
            Families(ts') && NoActiveCode(ts', ts[refresh].family) && LiveOf(ts', ts[refresh].family) == {}
  {
  }

  function WithNewPair(s: System, ts: Tokens, t: Token): System
  {
    WithTokens(s, WithPair(ts, t, s.nextSignature)).(nextSignature := s.nextSignature + 2)
  }

  /** `ts'` is weaker than `ts` except for active records like `t` under two new signatures. */
  ghost predicate Grown(ts: Tokens, ts': Tokens, t: Token, signature: nat)
  {
    forall k :: k in ts' ==>
      if k.signature < signature then k in ts && Older(ts[k], ts'[k])
      else k.signature < signature + 2 && k.kind != Code && ts'[k] == t
  }

  lemma PairGrows(ts: Tokens, ts0: Tokens, t: Token, signature: nat)
    requires Weaker(ts, ts0) && t.active && forall k :: k in ts ==> k.signature < signature
    ensures Grown(ts, WithPair(ts0, t, signature), t, signature)
  {
  }

  lemma GrownKeepsOthers(s: System, s1: System, t: Token)
    requires Core(s) && s1 == WithTokens(s, s1.db.tokens).(nextSignature := s.nextSignature + 2)
    requires Grown(s.db.tokens, s1.db.tokens, t, s.nextSignature)
    requires t.grant in s.db.grants && Covers(s.db.grants[t.grant], t)
    requires t.family < s.nextFamily
    ensures Numbered(s1) && Backed(s1.db)
    ensures Evolves(s, s1)
  {
    hide Families, UsedOnce;
    assert Numbered(s1) by {
      hide Backed, Evolves;
    }
    assert Backed(s1.db) by {
      hide Numbered, Evolves;
    }
    assert Evolves(s, s1) by {
      hide Backed, Numbered;
    }
  }

  lemma GrownKeepsUsed(s: System, s1: System, t: Token)
    requires Core(s) && s1 == WithTokens(s, s1.db.tokens).(nextSignature := s.nextSignature + 2)
    requires Grown(s.db.tokens, s1.db.tokens, t, s.nextSignature)
    ensures UsedOnce(s1)
  {
  }

  lemma PairKeepsCore(s: System, ts: Tokens, t: Token)
    requires Core(s) && Weaker(s.db.tokens, ts) && Families(ts) && t.active
    requires NoActiveCode(ts, t.family) && LiveOf(ts, t.family) == {} && t.family < s.nextFamily
    requires t.grant in s.db.grants && Covers(s.db.grants[t.grant], t)
    ensures Core(WithNewPair(s, ts, t)) && Evolves(s, WithNewPair(s, ts, t))
  {
    var s1 := WithNewPair(s, ts, t);
    PairKeepsFamilies(ts, t, s.nextSignature);
    PairGrows(s.db.tokens, ts, t, s.nextSignature);
    hide Families, Numbered, Backed, UsedOnce, Evolves, WithPair;
    GrownKeepsOthers(s, s1, t);
    GrownKeepsUsed(s, s1, t);
  }

  lemma HistoryKeepsCore(s0: System, s: System, s': System, k: Key)
    requires Evolves(s0, s) && Core(s) && k.signature < s.nextSignature && (k in s.db.tokens ==> !s.db.tokens[k].active)
    requires (k.kind == Code && k.signature !in s.exchanged &&
              s' == s.(exchanged := s.exchanged + multiset{k.signature}))
          || (k.kind == Refresh && k.signature !in s.rotated && s' == s.(rotated := s.rotated + multiset{k.signature}))
    ensures Core(s') && Evolves(s0, s')
  {
  }

  function AfterExchange(s: System, code: Key): System
    requires code in s.db.tokens
  {
    WithNewPair(s, Deactivated(s.db.tokens, code), s.db.tokens[code])
      .(exchanged := s.exchanged + multiset{code.signature})
  }

  lemma ExchangeKeepsCore(s: System, code: Key)
    requires Core(s) && code in s.db.tokens && code.kind == Code
    requires s.db.tokens[code].active
    ensures Core(AfterExchange(s, code)) && Evolves(s, AfterExchange(s, code))
  {
    var t := s.db.tokens[code];
    var ts := Deactivated(s.db.tokens, code);
    UsedCodeFamily(s.db.tokens, code);
    PairKeepsCore(s, ts, t);
    assert code.signature < s.nextSignature && code.signature !in s.exchanged;
    hide Core, Evolves;
    HistoryKeepsCore(s, WithNewPair(s, ts, t), AfterExchange(s, code), code);
  }

  lemma ExchangeKeepsInv(s: System, p: nat)
    requires Inv(s) && Enabled(s, Exchange(p))
    ensures Inv(After(s, Exchange(p))) && Evolves(s, After(s, Exchange(p)))
  {
    var code := s.processes[p].key;
    ExchangeMoves(s, p);
    ExchangeKeepsCore(s, code);
    hide Core, Evolves, Enabled, After, AfterExchange;
    MovedKeepsInv(s, AfterExchange(s, code), p, Idle);
  }

  lemma ExchangeMoves(s: System, p: nat)
    requires Enabled(s, Exchange(p))
    ensures After(s, Exchange(p)) == Move(AfterExchange(s, s.processes[p].key), p, Idle)
    ensures AfterExchange(s, s.processes[p].key).processes == s.processes
  {
  }

  function AfterRotation(s: System, refresh: Key, scopes: set<string>): System
    requires refresh in s.db.tokens
  {
    var t := s.db.tokens[refresh];
    WithNewPair(s, WithoutAccess(Deactivated(s.db.tokens, refresh), t.family), t.(scopes := scopes))
      .(rotated := s.rotated + multiset{refresh.signature})
  }

  lemma RotationWeakens(ts: Tokens, refresh: Key)
    requires refresh in ts && refresh.kind == Refresh
    ensures var ts' := WithoutAccess(Deactivated(ts, refresh), ts[refresh].family);
            Weaker(ts, ts') && refresh in ts' && !ts'[refresh].active
  {
  }

  lemma RotateKeepsCore(s: System, refresh: Key, scopes: set<string>)
    requires Core(s) && refresh in s.db.tokens && refresh.kind == Refresh && scopes <= s.db.tokens[refresh].scopes
    requires s.db.tokens[refresh].active
    ensures Core(AfterRotation(s, refresh, scopes)) && Evolves(s, AfterRotation(s, refresh, scopes))
  {
    var t := s.db.tokens[refresh];
    var ts := WithoutAccess(Deactivated(s.db.tokens, refresh), t.family);
    ReplacedRefreshFamily(s.db.tokens, refresh);
    assert refresh.signature < s.nextSignature && refresh.signature !in s.rotated;
    assert t.grant in s.db.grants && Covers(s.db.grants[t.grant], t.(scopes := scopes)) && t.family < s.nextFamily;
    RotationWeakens(s.db.tokens, refresh);
    hide Core, Evolves, WithoutAccess, LiveOf, NoActiveCode, Families, Covers;
    PairKeepsCore(s, ts, t.(scopes := scopes));
    HistoryKeepsCore(s, WithNewPair(s, ts, t.(scopes := scopes)), AfterRotation(s, refresh, scopes), refresh);
  }

  lemma RotateKeepsInv(s: System, p: nat, scopes: set<string>)
    requires Inv(s) && Enabled(s, Rotate(p, scopes))
    ensures Inv(After(s, Rotate(p, scopes))) && Evolves(s, After(s, Rotate(p, scopes)))
  {
    var refresh := s.processes[p].key;
    RotateMoves(s, p, scopes);
    RotateKeepsCore(s, refresh, scopes);
    hide Core, Evolves, Enabled, After, AfterRotation;
    MovedKeepsInv(s, AfterRotation(s, refresh, scopes), p, Idle);
  }

  lemma RotateMoves(s: System, p: nat, scopes: set<string>)
    requires Enabled(s, Rotate(p, scopes))
    ensures After(s, Rotate(p, scopes)) == Move(AfterRotation(s, s.processes[p].key, scopes), p, Idle)
    ensures AfterRotation(s, s.processes[p].key, scopes).processes == s.processes
  {
  }

  // ---- Every step keeps the invariant ----

  lemma StepKeepsInv(s: System, step: Step)
    requires Inv(s) && Enabled(s, step)
    ensures Inv(After(s, step)) && Evolves(s, After(s, step))
  {
    hide Inv, Enabled, After, Evolves;
    match step
    case Approve(_, _, _, _, _) => ApproveKeepsInv(s, step);
    case IssueCode(p) => IssueKeepsInv(s, p);
    case Exchange(p) => ExchangeKeepsInv(s, p);
    case Rotate(p, scopes) => RotateKeepsInv(s, p, scopes);
    case EndRevocation(p) => EndRevocationKeepsInv(s, p);
    case WithdrawGrant(user, grant) => WithdrawKeepsInv(s, user, grant);
    case CommitDelete(p) => CommitDeleteKeepsInv(s, p);
    case Forget(key) => ForgetKeepsInv(s, key);
    case _ => ReadKeepsInv(s, step);
  }

  lemma {:induction false} ReachedInv(s: System, n: nat)
    requires Reached(s, n)
    ensures Inv(s)
    decreases n
  {
    hide Inv, Enabled, After;
    if n == 0 {
      InitIsInv(s);
    } else {
      var before, step :| Reached(before, n - 1) && Takes(before, step, s);
      ReachedInv(before, n - 1);
      StepKeepsInv(before, step);
    }
  }

  lemma InitIsInv(s: System)
    requires Init(s)
    ensures Inv(s)
  {
  }
}
