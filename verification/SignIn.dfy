/**
 * Accounts and their ways to sign in over whole runs: sign-up by mail, sign-up and sign-in with an
 * external account, linking, unlinking, profile updates and account deletion, interleaved. Linking
 * and unlinking are sequences of separate statements; a deletion clears the identities it sees and
 * commits later; the unique keys of the tables and the locks of rows decide races.
 */
module SignIn {
  import opened Wrappers

  datatype Provider = Google | Other

  datatype User = User(email: string, hasPassword: bool, discarded: bool)

  /** `subject` is the provider's unchanging id of the external account. */
  datatype Identity = Identity(user: nat, provider: Provider, subject: nat)

  datatype Tables = Tables(users: map<nat, User>, identities: set<Identity>)

  datatype Process =
    | Idle
    | Linking(identity: Identity)                                  // the user was active
    | Unlinked(identity: Identity)                                 // the external account was free
    | Listed(user: nat, provider: Provider, count: nat)            // the user's identities were counted
    | Permitted(user: nat, provider: Provider)                     // the rule allowed the removal
    | Deleting(user: nat, cleared: set<Identity>)                  // identities deleted, not committed

  datatype System = System(db: Tables, processes: map<nat, Process>, nextUser: nat)

  datatype Step =
    | ConfirmSignup(email: string)
    | ExternalSignup(email: string, provider: Provider, subject: nat)
    | BeginLink(p: nat, identity: Identity)
    | FindFree(p: nat)
    | CreateLink(p: nat)
    | ListLinks(p: nat, user: nat, provider: Provider)
    | Decide(p: nat)
    | RemoveLink(p: nat)
    | GiveUp(p: nat)                                               // errors and refusals
    | UpdateProfile(user: nat, email: string, newPassword: bool)
    | BeginDelete(p: nat, user: nat)
    | CommitDelete(p: nat)

  predicate Active(t: Tables, user: nat)
  {
    user in t.users && !t.users[user].discarded
  }

  predicate EmailFree(t: Tables, email: string)
  {
    forall u :: u in t.users ==> t.users[u].email != email
  }

  function IdentitiesOf(t: Tables, user: nat): set<Identity>
  {
    set i | i in t.identities && i.user == user
  }

  /** Both rows at once would violate a unique key: (provider, subject) or (user, provider). */
  predicate Clash(i: Identity, j: Identity)
  {
    i.provider == j.provider && (i.subject == j.subject || i.user == j.user)
  }

  predicate CanInsert(t: Tables, identity: Identity)
  {
    forall i :: i in t.identities ==> !Clash(i, identity)
  }

  /** The rule of domain.CanUnlinkIdentity. */
  predicate CanUnlink(hasPassword: bool, count: nat)
  {
    hasPassword || count > 1
  }

  /** A deletion that has not committed holds the lock of this user's row. */
  predicate Closing(s: System, user: nat)
  {
    exists q :: q in s.processes && s.processes[q].Deleting? && s.processes[q].user == user
  }

  /** And the locks of the identities it deleted. */
  predicate Held(s: System, user: nat, provider: Provider)
  {
    exists q, i ::
      && q in s.processes && s.processes[q].Deleting? && i in s.processes[q].cleared
      && i.user == user && i.provider == provider
  }

  predicate Enabled(s: System, step: Step)
  {
    var t := s.db;
    match step
    case ConfirmSignup(email) => EmailFree(t, email)
    case ExternalSignup(email, provider, subject) =>
      EmailFree(t, email) && CanInsert(t, Identity(s.nextUser, provider, subject))
    case BeginLink(p, identity) => p in s.processes && s.processes[p] == Idle && Active(t, identity.user)
    case FindFree(p) =>
      && p in s.processes && s.processes[p].Linking?
      && var id := s.processes[p].identity;
         forall i :: i in t.identities ==> !(i.provider == id.provider && i.subject == id.subject)
    case CreateLink(p) => p in s.processes && s.processes[p].Unlinked? && CanInsert(t, s.processes[p].identity)
    case ListLinks(p, user, provider) =>
      && p in s.processes && s.processes[p] == Idle
      && exists i :: i in t.identities && i.user == user && i.provider == provider
    case Decide(p) =>
      && p in s.processes && s.processes[p].Listed? && Active(t, s.processes[p].user)
      && CanUnlink(t.users[s.processes[p].user].hasPassword, s.processes[p].count)
    case RemoveLink(p) =>
      p in s.processes && s.processes[p].Permitted? && !Held(s, s.processes[p].user, s.processes[p].provider)
    case GiveUp(p) => p in s.processes
    case UpdateProfile(user, email, _) =>
      Active(t, user) && !Closing(s, user) && (email == t.users[user].email || EmailFree(t, email))
    case BeginDelete(p, user) => p in s.processes && s.processes[p] == Idle && Active(t, user) && !Closing(s, user)
    case CommitDelete(p) => p in s.processes && s.processes[p].Deleting? && Active(t, s.processes[p].user)
  }

  function Move(s: System, p: nat, next: Process): System
  {
    s.(processes := s.processes[p := next])
  }

  function WithUser(s: System, user: User): System
  {
    s.(db := s.db.(users := s.db.users[s.nextUser := user]), nextUser := s.nextUser + 1)
  }

  function WithoutLinks(t: Tables, user: nat, provider: Provider): Tables
  {
    t.(identities := set i | i in t.identities && !(i.user == user && i.provider == provider))
  }

  function WithoutUser(t: Tables, user: nat): Tables
    requires user in t.users
  {
    t.(users := t.users[user := t.users[user].(discarded := true)],
       identities := set i | i in t.identities && i.user != user)
  }

  /** The commit of a deletion that cleared these identities. */
  function Closed(t: Tables, user: nat, cleared: set<Identity>): Tables
    requires user in t.users
  {
    Tables(t.users[user := t.users[user].(discarded := true)], t.identities - cleared)
  }

  function After(s: System, step: Step): System
    requires Enabled(s, step)
  {
    match step
    case ConfirmSignup(email) => WithUser(s, User(email, true, false))
    case ExternalSignup(email, provider, subject) =>
      var s1 := WithUser(s, User(email, false, false));
      s1.(db := s1.db.(identities := s.db.identities + {Identity(s.nextUser, provider, subject)}))
    case BeginLink(p, identity) => Move(s, p, Linking(identity))
    case FindFree(p) => Move(s, p, Unlinked(s.processes[p].identity))
    case CreateLink(p) =>
      Move(s, p, Idle).(db := s.db.(identities := s.db.identities + {s.processes[p].identity}))
    case ListLinks(p, user, provider) => Move(s, p, Listed(user, provider, |IdentitiesOf(s.db, user)|))
    case Decide(p) => Move(s, p, Permitted(s.processes[p].user, s.processes[p].provider))
    case RemoveLink(p) => Move(s, p, Idle).(db := WithoutLinks(s.db, s.processes[p].user, s.processes[p].provider))
    case GiveUp(p) => Move(s, p, Idle)
    case UpdateProfile(user, email, newPassword) =>
      var u := s.db.users[user];
      s.(db := s.db.(users := s.db.users[user := u.(email := email, hasPassword := u.hasPassword || newPassword)]))
    case BeginDelete(p, user) => Move(s, p, Deleting(user, IdentitiesOf(s.db, user)))
    case CommitDelete(p) => Move(s, p, Idle).(db := Closed(s.db, s.processes[p].user, s.processes[p].cleared))
  }

  predicate Init(s: System)
  {
    s.db == Tables(map[], {}) && forall p :: p in s.processes ==> s.processes[p] == Idle
  }

  ghost predicate Takes(s: System, step: Step, s': System)
  {
    Enabled(s, step) && s' == After(s, step)
  }

  /** The table admits one provider only, as its CHECK constraint says. */
  predicate UsesGoogle(step: Step)
  {
    match step
    case ExternalSignup(_, provider, _) => provider == Google
    case BeginLink(_, identity) => identity.provider == Google
    case _ => true
  }

  /** Reached in `n` steps; with `single` every step keeps to the one provider. */
  ghost predicate Reached(s: System, single: bool, n: nat)
    decreases n
  {
    if n == 0 then Init(s)
    else exists before, step ::
      Reached(before, single, n - 1) && (single ==> UsesGoogle(step)) && Takes(before, step, s)
  }

  // ---- What holds whatever the providers ----

  ghost predicate UniqueKeys(t: Tables)
  {
    && (forall i, j :: i in t.identities && j in t.identities && Clash(i, j) ==> i == j)
    && (forall u, v :: u in t.users && v in t.users && t.users[u].email == t.users[v].email ==> u == v)
  }

  ghost predicate Numbered(s: System)
  {
    && (forall u :: u in s.db.users ==> u < s.nextUser)
    && (forall i :: i in s.db.identities ==> i.user in s.db.users)
  }

  /** Two deletions of one user cannot be under way at once. */
  ghost predicate OneCloser(s: System)
  {
    forall p, q :: p in s.processes && q in s.processes && Closes(s.processes[p], s.processes[q]) ==> p == q
  }

  predicate Closes(c: Process, d: Process)
  {
    c.Deleting? && d.Deleting? && c.user == d.user
  }

  predicate Holds(t: Tables, c: Process)
  {
    match c
    case Idle => true
    case Linking(identity) => identity.user in t.users
    case Unlinked(identity) => identity.user in t.users
    case Listed(_, _, _) => true
    case Permitted(user, _) => user in t.users
    case Deleting(user, cleared) => Active(t, user) && cleared <= IdentitiesOf(t, user)
  }

  ghost predicate AllHold(s: System)
  {
    forall p :: p in s.processes ==> Holds(s.db, s.processes[p])
  }

  ghost predicate Base(s: System)
  {
    UniqueKeys(s.db) && Numbered(s) && OneCloser(s) && AllHold(s)
  }

  lemma StepKeepsKeys(s: System, step: Step)
    requires UniqueKeys(s.db) && Numbered(s) && Enabled(s, step)
    ensures UniqueKeys(After(s, step).db)
  {
  }

  lemma StepKeepsOneCloser(s: System, step: Step)
    requires OneCloser(s) && Enabled(s, step)
    ensures OneCloser(After(s, step))
  {
  }

  /** A deletion closes no account but its own. */
  lemma CommitKeepsHolds(s: System, q: nat, p: nat)
    requires OneCloser(s) && AllHold(s) && Enabled(s, CommitDelete(q)) && p in s.processes && p != q
    ensures Holds(After(s, CommitDelete(q)).db, s.processes[p])
  {
    assert Holds(s.db, s.processes[p]) && Holds(s.db, s.processes[q]) && !Closes(s.processes[p], s.processes[q]);
  }

  lemma StepKeepsHolds(s: System, step: Step)
    requires Numbered(s) && OneCloser(s) && AllHold(s) && Enabled(s, step)
    ensures AllHold(After(s, step))
  {
    var s' := After(s, step);
    forall p | p in s'.processes
      ensures Holds(s'.db, s'.processes[p])
    {
      assert Holds(s.db, s.processes[p]);
      if step.CommitDelete? && p != step.p {
        CommitKeepsHolds(s, step.p, p);
      }
    }
  }

  lemma StepKeepsNumbered(s: System, step: Step)
    requires Numbered(s) && AllHold(s) && Enabled(s, step)
    ensures Numbered(After(s, step))
  {
    if step.CreateLink? {
      assert Holds(s.db, s.processes[step.p]);
    }
  }

  lemma StepKeepsBase(s: System, step: Step)
    requires Base(s) && Enabled(s, step)
    ensures Base(After(s, step))
  {
    hide UniqueKeys, Numbered, OneCloser, AllHold, Enabled, After;
    StepKeepsKeys(s, step);
    StepKeepsNumbered(s, step);
    StepKeepsOneCloser(s, step);
    StepKeepsHolds(s, step);
  }

  /** A deletion can always commit: its lock keeps the account open until then. */
  lemma DeletionCommits(s: System, p: nat)
    requires Base(s) && p in s.processes && s.processes[p].Deleting?
    ensures Enabled(s, CommitDelete(p))
  {
    assert Holds(s.db, s.processes[p]);
  }

  // ---- What holds with one provider ----

  predicate CanSignIn(t: Tables, user: nat)
    requires user in t.users
  {
    t.users[user].hasPassword || IdentitiesOf(t, user) != {}
  }

  ghost predicate EveryoneCanSignIn(t: Tables)
  {
    forall u :: Active(t, u) ==> CanSignIn(t, u)
  }

  predicate GoogleOnly(c: Process)
  {
    match c
    case Linking(identity) => identity.provider == Google
    case Unlinked(identity) => identity.provider == Google
    case _ => true
  }

  /** With one provider a count never exceeds 1, so only a password permits the removal. */
  predicate SingleSound(t: Tables, c: Process)
  {
    && GoogleOnly(c)
    && (c.Listed? ==> c.count <= 1)
    && (c.Permitted? ==> c.user in t.users && t.users[c.user].hasPassword)
  }

  ghost predicate Single(s: System)
  {
    && (forall i :: i in s.db.identities ==> i.provider == Google)
    && (forall p :: p in s.processes ==> SingleSound(s.db, s.processes[p]))
  }

  lemma OneIdentityEach(t: Tables, user: nat)
    requires UniqueKeys(t) && forall i :: i in t.identities ==> i.provider == Google
    ensures |IdentitiesOf(t, user)| <= 1
  {
    var all := IdentitiesOf(t, user);
    if i :| i in all {
      assert forall j :: j in all ==> j == i;
      assert all == {i};
    }
  }

  /** No step takes a user or a password away. */
  lemma PasswordsStay(s: System, step: Step, c: Process)
    requires Numbered(s) && Enabled(s, step) && SingleSound(s.db, c)
    ensures SingleSound(After(s, step).db, c)
  {
  }

  lemma ActorStaysSingle(s: System, step: Step, p: nat)
    requires UniqueKeys(s.db) && Single(s) && Enabled(s, step) && UsesGoogle(step)
    requires p in s.processes && After(s, step).processes[p] != s.processes[p]
    ensures SingleSound(s.db, After(s, step).processes[p])
  {
    assert SingleSound(s.db, s.processes[p]);
    if step.ListLinks? {
      OneIdentityEach(s.db, step.user);
    }
  }

  lemma NewLinksAreGoogle(s: System, step: Step)
    requires Single(s) && Enabled(s, step) && UsesGoogle(step)
    ensures forall i :: i in After(s, step).db.identities ==> i.provider == Google
  {
    assert step.CreateLink? ==> SingleSound(s.db, s.processes[step.p]);
  }

  lemma ProcessesStay(s: System, step: Step)
    requires Enabled(s, step)
    ensures After(s, step).processes.Keys == s.processes.Keys
  {
  }

  lemma StepKeepsSingle(s: System, step: Step)
    requires Base(s) && Single(s) && Enabled(s, step) && UsesGoogle(step)
    ensures Single(After(s, step))
  {
    var s' := After(s, step);
    NewLinksAreGoogle(s, step);
    ProcessesStay(s, step);
    hide Enabled, After, Numbered, UniqueKeys, SingleSound, UsesGoogle;
    forall p | p in s'.processes
      ensures SingleSound(s'.db, s'.processes[p])
    {
      if s'.processes[p] != s.processes[p] {
        ActorStaysSingle(s, step, p);
      }
      PasswordsStay(s, step, s'.processes[p]);
    }
  }

  lemma StepKeepsSignIn(s: System, step: Step)
    requires Base(s) && Single(s) && EveryoneCanSignIn(s.db) && Enabled(s, step)
    ensures EveryoneCanSignIn(After(s, step).db)
  {
    assert step.RemoveLink? ==> SingleSound(s.db, s.processes[step.p]);
    var t, t' := s.db, After(s, step).db;
    forall u | Active(t', u)
      ensures CanSignIn(t', u)
    {
      if u in t.users {
        assert Active(t, u) && CanSignIn(t, u);
        if i :| i in IdentitiesOf(t, u) {
          assert i in IdentitiesOf(t', u) || t'.users[u].hasPassword;
        }
      } else if step.ExternalSignup? {
        assert Identity(u, step.provider, step.subject) in IdentitiesOf(t', u);
      }
    }
  }

  lemma {:induction false} ReachedInv(s: System, single: bool, n: nat)
    requires Reached(s, single, n)
    ensures Base(s)
    ensures single ==> Single(s) && EveryoneCanSignIn(s.db)
    decreases n
  {
    hide Base, Single, EveryoneCanSignIn, Enabled, After;
    if n == 0 {
      InitIsInv(s);
    } else {
      var before, step :| Reached(before, single, n - 1) && (single ==> UsesGoogle(step)) && Takes(before, step, s);
      ReachedInv(before, single, n - 1);
      StepKeepsBase(before, step);
      if single {
        StepKeepsSingle(before, step);
        StepKeepsSignIn(before, step);
      }
    }
  }

  lemma InitIsInv(s: System)
    requires Init(s)
    ensures Base(s) && Single(s) && EveryoneCanSignIn(s.db)
  {
  }

  /**
   * In every run no external account belongs to two users, no user has two accounts of one
   * provider and no address belongs to two users; and with a single provider every active user
   * has a password or a linked account.
   */
  lemma AccountsAreReachable(s: System, single: bool, n: nat)
    requires Reached(s, single, n)
    ensures forall i, j :: i in s.db.identities && j in s.db.identities && Clash(i, j) ==> i == j
    ensures forall u, v :: u in s.db.users && v in s.db.users && s.db.users[u].email == s.db.users[v].email ==> u == v
    ensures single ==> forall u :: Active(s.db, u) ==> CanSignIn(s.db, u)
  {
    ReachedInv(s, single, n);
  }

  // ---- Exactly when removing and adding a link is right ----

  /** A removal leaves its user a way to sign in exactly when there is a password or another link at that moment. */
  lemma RemovalExactly(t: Tables, user: nat, provider: Provider)
    requires Active(t, user)
    ensures CanSignIn(WithoutLinks(t, user, provider), user) <==>
            t.users[user].hasPassword || exists i :: i in t.identities && i.user == user && i.provider != provider
  {
    var t' := WithoutLinks(t, user, provider);
    if i :| i in t.identities && i.user == user && i.provider != provider {
      assert i in IdentitiesOf(t', user);
    }
    if j :| j in IdentitiesOf(t', user) {
      assert j in t.identities && j.provider != provider;
    }
  }

  ghost predicate NoneForDeleted(t: Tables)
  {
    forall i :: i in t.identities ==> Active(t, i.user)
  }

  /** The deletion as one transaction clears what it sees at its commit. */
  lemma AtomicDeletion(t: Tables, user: nat)
    requires user in t.users
    ensures Closed(t, user, IdentitiesOf(t, user)) == WithoutUser(t, user)
  {
  }

  /** With nothing between its two steps a deletion frees exactly the user's external accounts. */
  lemma UndisturbedDeletion(s: System, p: nat, user: nat)
    requires Enabled(s, BeginDelete(p, user))
    ensures var s1 := After(s, BeginDelete(p, user));
            Enabled(s1, CommitDelete(p)) && After(s1, CommitDelete(p)) == s.(db := WithoutUser(s.db, user))
  {
    AtomicDeletion(s.db, user);
    assert s.processes[p := Idle] == s.processes;
  }

  // ---- Exactly when a link is right ----

  /** The user is active, and no deletion has cleared the user's identities already. */
  predicate Linkable(s: System, user: nat)
  {
    Active(s.db, user) && !Closing(s, user)
  }

  predicate Tidy(s: System, step: Step)
  {
    step.CreateLink? && step.p in s.processes && s.processes[step.p].Unlinked? ==>
      Linkable(s, s.processes[step.p].identity.user)
  }

  /** A deletion under way has cleared all identities its user has. */
  ghost predicate SeesAll(t: Tables, c: Process)
  {
    c.Deleting? ==> IdentitiesOf(t, c.user) <= c.cleared
  }

  ghost predicate Closeable(s: System)
  {
    NoneForDeleted(s.db) && forall p :: p in s.processes ==> SeesAll(s.db, s.processes[p])
  }

  lemma StepKeepsSeen(s: System, step: Step)
    requires Base(s) && Closeable(s) && Enabled(s, step) && Tidy(s, step)
    ensures forall p :: p in After(s, step).processes ==> SeesAll(After(s, step).db, After(s, step).processes[p])
  {
    var s' := After(s, step);
    forall p | p in s'.processes
      ensures SeesAll(s'.db, s'.processes[p])
    {
      if s'.processes[p].Deleting? && p in s.processes && s.processes[p] == s'.processes[p] {
        assert Holds(s.db, s.processes[p]) && SeesAll(s.db, s.processes[p]);
        forall i | i in IdentitiesOf(s'.db, s.processes[p].user)
          ensures i in IdentitiesOf(s.db, s.processes[p].user)
        {
        }
      }
    }
  }

  lemma StepKeepsNone(s: System, step: Step)
    requires Base(s) && Closeable(s) && Enabled(s, step) && Tidy(s, step)
    ensures NoneForDeleted(After(s, step).db)
  {
    var t, t' := s.db, After(s, step).db;
    forall i | i in t'.identities
      ensures Active(t', i.user)
    {
      if i in t.identities {
        assert Active(t, i.user);
        if step.CommitDelete? {
          assert i in IdentitiesOf(t, i.user) && SeesAll(t, s.processes[step.p]);
        }
      }
    }
  }

  lemma TidyStep(s: System, step: Step)
    requires Base(s) && Closeable(s) && Enabled(s, step) && Tidy(s, step)
    ensures Base(After(s, step)) && Closeable(After(s, step))
  {
    hide Base, Enabled, After;
    StepKeepsBase(s, step);
    StepKeepsSeen(s, step);
    StepKeepsNone(s, step);
  }

  /** `s'` follows from `s` in `n` steps, every link among them tidy. */
  ghost predicate Follows(s: System, s': System, n: nat)
    decreases n
  {
    if n == 0 then s' == s
    else exists before, step :: Follows(s, before, n - 1) && Tidy(before, step) && Takes(before, step, s')
  }

  lemma {:induction false} TidyRun(s: System, s': System, n: nat)
    requires Base(s) && Closeable(s) && Follows(s, s', n)
    ensures Base(s') && Closeable(s')
    decreases n
  {
    hide Base, Closeable, Enabled, After, Tidy;
    if n != 0 {
      var before, step :| Follows(s, before, n - 1) && Tidy(before, step) && Takes(before, step, s');
      TidyRun(s, before, n - 1);
      TidyStep(before, step);
    }
  }

  /** In a run all of whose links are tidy, no deleted user has an external account. */
  lemma NoneOutlive(start: System, s: System, n: nat)
    requires Init(start) && Follows(start, s, n)
    ensures NoneForDeleted(s.db)
  {
    TidyRun(start, s, n);
  }

  /** An untidy link is wrong at once, or when the deletion under way commits. */
  lemma UntidyOutlives(s: System, p: nat) returns (s': System, n: nat)
    requires Base(s) && Closeable(s) && Enabled(s, CreateLink(p)) && !Tidy(s, CreateLink(p))
    ensures n <= 1 && Follows(After(s, CreateLink(p)), s', n) && !NoneForDeleted(s'.db)
  {
    var s1, identity := After(s, CreateLink(p)), s.processes[p].identity;
    assert identity in s1.db.identities;
    s', n := s1, 0;
    if Active(s.db, identity.user) {
      var q :| q in s.processes && s.processes[q].Deleting? && s.processes[q].user == identity.user;
      assert Holds(s.db, s.processes[q]) && Clash(identity, identity) && identity !in s.db.identities;
      StepKeepsBase(s, CreateLink(p));
      DeletionCommits(s1, q);
      s', n := After(s1, CommitDelete(q)), 1;
      assert Follows(s1, s1, 0) && Takes(s1, CommitDelete(q), s');
    }
  }

  /** From `s` on, as long as links are tidy, no deleted user has an external account. */
  ghost predicate StaysClean(s: System)
  {
    forall s', n :: Follows(s, s', n) ==> NoneForDeleted(s'.db)
  }

  lemma CloseableStaysClean(s: System)
    requires Base(s) && Closeable(s)
    ensures StaysClean(s)
  {
    forall s', n | Follows(s, s', n)
      ensures NoneForDeleted(s'.db)
    {
      TidyRun(s, s', n);
    }
  }

  lemma LinkKeepsClean(s: System, p: nat)
    requires Base(s) && Closeable(s) && Enabled(s, CreateLink(p))
    ensures StaysClean(After(s, CreateLink(p))) <==> Tidy(s, CreateLink(p))
  {
    hide Base, Closeable, NoneForDeleted, Follows, After, Enabled, Tidy;
    if Tidy(s, CreateLink(p)) {
      TidyStep(s, CreateLink(p));
      CloseableStaysClean(After(s, CreateLink(p)));
    } else {
      var s', n := UntidyOutlives(s, p);
    }
  }

  /**
   * After a link in a tidy run, deleted users stay without external accounts exactly when the link's
   * user was active and not being deleted.
   */
  lemma LinkExactly(start: System, s: System, n: nat, p: nat)
    requires Init(start) && Follows(start, s, n) && Enabled(s, CreateLink(p))
    ensures StaysClean(After(s, CreateLink(p))) <==> Linkable(s, s.processes[p].identity.user)
  {
    TidyRun(start, s, n);
    LinkKeepsClean(s, p);
    hide StaysClean, After, Follows, Base, Closeable, Linkable;
  }

  // ---- Runs in which the two checks come too early ----

  lemma OneMore(s: System, step: Step, s': System, single: bool, n: nat)
    requires Reached(s, single, n) && (single ==> UsesGoogle(step)) && Takes(s, step, s')
    ensures Reached(s', single, n + 1)
  {
  }

  const ALICE := "alice@example.com"
  const LINK := Identity(0, Google, 8)

  function Start(): System
  {
    System(Tables(map[], {}), map[0 := Idle, 1 := Idle], 0)
  }

  function State(user: User, identities: set<Identity>, zero: Process, one: Process): System
  {
    System(Tables(map[0 := user], identities), map[0 := zero, 1 := one], 1)
  }

  lemma StartIsReached(single: bool)
    ensures Reached(Start(), single, 0)
  {
  }

  const USER := User(ALICE, true, false)
  const GONE := User(ALICE, true, true)

  lemma LinkingSteps()
    ensures Reached(State(USER, {}, Unlinked(LINK), Idle), true, 3)
    ensures Reached(State(USER, {}, Unlinked(LINK), Deleting(0, {})), true, 4)
  {
    hide Reached;
    StartIsReached(true);
    OneMore(Start(), ConfirmSignup(ALICE), State(USER, {}, Idle, Idle), true, 0);
    OneMore(State(USER, {}, Idle, Idle), BeginLink(0, LINK), State(USER, {}, Linking(LINK), Idle), true, 1);
    OneMore(State(USER, {}, Linking(LINK), Idle), FindFree(0), State(USER, {}, Unlinked(LINK), Idle), true, 2);
    assert IdentitiesOf(Tables(map[0 := USER], {}), 0) == {};
    OneMore(State(USER, {}, Unlinked(LINK), Idle), BeginDelete(1, 0), State(USER, {}, Unlinked(LINK), Deleting(0, {})),
            true, 3);
  }

  /** With the one provider: a user links an account, and deletes the user account before the insert. */
  lemma LinkOutlivesAccount() returns (s: System)
    ensures Reached(s, true, 6) && !NoneForDeleted(s.db)
  {
    hide Reached;
    LinkingSteps();
    var deleted := State(GONE, {}, Unlinked(LINK), Idle);
    OneMore(State(USER, {}, Unlinked(LINK), Deleting(0, {})), CommitDelete(1), deleted, true, 4);
    s := State(GONE, {LINK}, Idle, Idle);
    OneMore(deleted, CreateLink(0), s, true, 5);
    assert LINK in s.db.identities && !Active(s.db, 0);
  }

  /** The same with the insert between the clearing of the identities and the commit: the user is still active. */
  lemma LinkEscapesDeletion() returns (linked: System, s: System)
    ensures Reached(linked, true, 5) && LINK in linked.db.identities && NoneForDeleted(linked.db)
    ensures Takes(linked, CommitDelete(1), s) && Reached(s, true, 6) && !NoneForDeleted(s.db)
  {
    hide Reached;
    LinkingSteps();
    linked := State(USER, {LINK}, Idle, Deleting(0, {}));
    OneMore(State(USER, {}, Unlinked(LINK), Deleting(0, {})), CreateLink(0), linked, true, 4);
    s := State(GONE, {LINK}, Idle, Idle);
    assert Closed(linked.db, 0, {}) == s.db;
    OneMore(linked, CommitDelete(1), s, true, 5);
    assert LINK in s.db.identities && !Active(s.db, 0);
  }

  const OTHER := Identity(0, Other, 9)

  lemma TwoLinksSteps()
    ensures Reached(State(User(ALICE, false, false), {LINK, OTHER}, Idle, Idle), false, 4)
  {
    hide Reached;
    var user := User(ALICE, false, false);
    StartIsReached(false);
    OneMore(Start(), ExternalSignup(ALICE, Google, 8), State(user, {LINK}, Idle, Idle), false, 0);
    OneMore(State(user, {LINK}, Idle, Idle), BeginLink(0, OTHER), State(user, {LINK}, Linking(OTHER), Idle), false, 1);
    OneMore(State(user, {LINK}, Linking(OTHER), Idle), FindFree(0), State(user, {LINK}, Unlinked(OTHER), Idle),
            false, 2);
    assert {LINK} + {OTHER} == {LINK, OTHER};
    OneMore(State(user, {LINK}, Unlinked(OTHER), Idle), CreateLink(0), State(user, {LINK, OTHER}, Idle, Idle),
            false, 3);
  }

  const BOTH := {LINK, OTHER}
  const BARE := User(ALICE, false, false)

  /** Both removals count two links, and both are allowed. */
  lemma BothPermitted()
    ensures Reached(State(BARE, BOTH, Permitted(0, Google), Permitted(0, Other)), false, 8)
  {
    hide Reached;
    TwoLinksSteps();
    var t := Tables(map[0 := BARE], BOTH);
    assert IdentitiesOf(t, 0) == BOTH && |BOTH| == 2;
    assert LINK in t.identities && OTHER in t.identities;
    var s1 := State(BARE, BOTH, Listed(0, Google, 2), Idle);
    var s2 := State(BARE, BOTH, Listed(0, Google, 2), Listed(0, Other, 2));
    var s3 := State(BARE, BOTH, Permitted(0, Google), Listed(0, Other, 2));
    OneMore(State(BARE, BOTH, Idle, Idle), ListLinks(0, 0, Google), s1, false, 4);
    OneMore(s1, ListLinks(1, 0, Other), s2, false, 5);
    OneMore(s2, Decide(0), s3, false, 6);
    OneMore(s3, Decide(1), State(BARE, BOTH, Permitted(0, Google), Permitted(0, Other)), false, 7);
  }

  /** Were there two providers: two removals that both counted two links lock the user out. */
  lemma TwoProvidersLockOut() returns (s: System)
    ensures Reached(s, false, 10) && Active(s.db, 0) && !CanSignIn(s.db, 0)
  {
    hide Reached;
    BothPermitted();
    var s4 := State(BARE, BOTH, Permitted(0, Google), Permitted(0, Other));
    var s5 := State(BARE, {OTHER}, Idle, Permitted(0, Other));
    assert WithoutLinks(s4.db, 0, Google).identities == {OTHER};
    OneMore(s4, RemoveLink(0), s5, false, 8);
    assert WithoutLinks(s5.db, 0, Other).identities == {};
    s := State(BARE, {}, Idle, Idle);
    OneMore(s5, RemoveLink(1), s, false, 9);
    assert IdentitiesOf(s.db, 0) == {};
  }
}
