/**
 * Secrets that work once: the code that hands a sign-in result to the screen and the token of a
 * confirmation mail. Each use is a transaction that locks the row, reads it, acts and deletes it;
 * attempts interleave, and any of them may fail and roll back at any point.
 *
 * Rows are found by the hash of the secret; hashes are numbers that never repeat.
 */
module OneShots {
  import opened Wrappers

  datatype Outcome = SignedIn | Linked | AccountExists | IdentityTaken | AlreadyLinked | Failed

  datatype Row =
    | Handoff(outcome: Outcome, user: Option<nat>, binder: nat)
    | PendingSignup(email: string)

  datatype User = User(email: string, discarded: bool)

  /** What a use gives its caller. */
  datatype Gain =
    | Token(user: nat)                        // a login token
    | Plain(outcome: Outcome)                 // an outcome without one
    | Created(user: nat)                      // a confirmed account

  datatype Process =
    | Idle
    | Holding(hash: nat, binder: Option<nat>)          // the row is locked
    | Decided(hash: nat, result: Gain)               // the user was read, the token signed

  datatype Use = Use(hash: nat, row: Row, result: Gain)

  datatype System = System(
    rows: map<nat, Row>,
    users: map<nat, User>,
    processes: map<nat, Process>,
    nextHash: nat,
    nextUser: nat,
    uses: seq<Use>                            // history: committed uses, oldest first
  )

  datatype Step =
    | IssueHandoff(outcome: Outcome, user: Option<nat>, binder: nat)
    | RequestSignup(email: string)
    | ReplaceSignup(hash: nat)                // a newer request for the same address: new token, same row
    | Lock(p: nat, hash: nat, shown: Option<nat>)
    | Decide(p: nat)
    | CommitHandoff(p: nat)
    | CommitSignup(p: nat)
    | Rollback(p: nat)                        // wrong binder, taken address, or any error
    | Expire(hash: nat)                       // skips locked rows
    | NewUser(email: string)
    | DeleteUser(gone: nat)

  predicate NeedsUser(outcome: Outcome)
  {
    outcome == SignedIn || outcome == Linked
  }

  predicate Active(s: System, user: nat)
  {
    user in s.users && !s.users[user].discarded
  }

  predicate EmailFree(s: System, email: string)
  {
    forall u :: u in s.users ==> s.users[u].email != email
  }

  function HashOf(c: Process): Option<nat>
  {
    if c.Idle? then None else Some(c.hash)
  }

  predicate Unlocked(s: System, hash: nat)
  {
    forall p :: p in s.processes ==> HashOf(s.processes[p]) != Some(hash)
  }

  /** A signed-in outcome brings a token if its user is still active, and counts as failed if not. */
  function GainOf(s: System, row: Row): Gain
    requires row.Handoff?
  {
    if row.outcome == SignedIn && row.user.Some? then
      if Active(s, row.user.value) then Token(row.user.value) else Plain(Failed)
    else Plain(row.outcome)
  }

  predicate Enabled(s: System, step: Step)
  {
    match step
    case IssueHandoff(outcome, user, _) => NeedsUser(outcome) == user.Some? && (user.Some? ==> user.value in s.users)
    case RequestSignup(email) => forall h :: h in s.rows ==> s.rows[h] != PendingSignup(email)
    case ReplaceSignup(hash) => hash in s.rows && s.rows[hash].PendingSignup? && Unlocked(s, hash)
    case Lock(p, hash, _) => p in s.processes && s.processes[p] == Idle && hash in s.rows && Unlocked(s, hash)
    case Decide(p) =>
      && p in s.processes && s.processes[p].Holding? && s.processes[p].hash in s.rows
      && s.rows[s.processes[p].hash].Handoff? && s.processes[p].binder == Some(s.rows[s.processes[p].hash].binder)
    case CommitHandoff(p) => p in s.processes && s.processes[p].Decided? && s.processes[p].hash in s.rows
    case CommitSignup(p) =>
      && p in s.processes && s.processes[p].Holding? && s.processes[p].hash in s.rows
      && s.rows[s.processes[p].hash].PendingSignup? && EmailFree(s, s.rows[s.processes[p].hash].email)
    case Rollback(p) => p in s.processes
    case Expire(hash) => hash in s.rows && Unlocked(s, hash)
    case NewUser(email) => EmailFree(s, email)
    case DeleteUser(user) => Active(s, user)
  }

  function Move(s: System, p: nat, next: Process): System
  {
    s.(processes := s.processes[p := next])
  }

  function WithRow(s: System, row: Row): System
  {
    s.(rows := s.rows[s.nextHash := row], nextHash := s.nextHash + 1)
  }

  function WithUser(s: System, email: string): System
  {
    s.(users := s.users[s.nextUser := User(email, false)], nextUser := s.nextUser + 1)
  }

  function Consumed(s: System, hash: nat, result: Gain): System
    requires hash in s.rows
  {
    s.(rows := s.rows - {hash}, uses := s.uses + [Use(hash, s.rows[hash], result)])
  }

  function After(s: System, step: Step): System
    requires Enabled(s, step)
  {
    match step
    case IssueHandoff(outcome, user, binder) => WithRow(s, Handoff(outcome, user, binder))
    case RequestSignup(email) => WithRow(s, PendingSignup(email))
    case ReplaceSignup(hash) => WithRow(s.(rows := s.rows - {hash}), s.rows[hash])
    case Lock(p, hash, binder) => Move(s, p, Holding(hash, binder))
    case Decide(p) => Move(s, p, Decided(s.processes[p].hash, GainOf(s, s.rows[s.processes[p].hash])))
    case CommitHandoff(p) => Move(Consumed(s, s.processes[p].hash, s.processes[p].result), p, Idle)
    case CommitSignup(p) =>
      var hash := s.processes[p].hash;
      Move(WithUser(Consumed(s, hash, Created(s.nextUser)), s.rows[hash].email), p, Idle)
    case Rollback(p) => Move(s, p, Idle)
    case Expire(hash) => s.(rows := s.rows - {hash})
    case NewUser(email) => WithUser(s, email)
    case DeleteUser(user) => s.(users := s.users[user := s.users[user].(discarded := true)])
  }

  predicate Init(s: System)
  {
    s.rows == map[] && s.users == map[] && s.uses == [] && forall p :: p in s.processes ==> s.processes[p] == Idle
  }

  ghost predicate Takes(s: System, step: Step, s': System)
  {
    Enabled(s, step) && s' == After(s, step)
  }

  ghost predicate Reached(s: System, n: nat)
    decreases n
  {
    if n == 0 then Init(s)
    else exists before, step :: Reached(before, n - 1) && Takes(before, step, s)
  }

  // ---- The invariant ----

  ghost predicate Numbered(s: System)
  {
    && (forall h :: h in s.rows ==> h < s.nextHash)
    && (forall u :: u in s.users ==> u < s.nextUser)
    && (forall i :: 0 <= i < |s.uses| ==> s.uses[i].hash < s.nextHash)
  }

  /** Nobody but the holder of the lock touches a locked row. */
  ghost predicate LocksHold(s: System)
  {
    && (forall p :: p in s.processes && HashOf(s.processes[p]).Some? ==> HashOf(s.processes[p]).value in s.rows)
    && (forall p, q :: p in s.processes && q in s.processes && p != q && HashOf(s.processes[p]).Some? ==>
          HashOf(s.processes[p]) != HashOf(s.processes[q]))
  }

  /** A result that the row allows. */
  predicate Fits(row: Row, result: Gain)
  {
    match result
    case Token(user) => row.Handoff? && row.outcome == SignedIn && row.user == Some(user)
    case Plain(outcome) => row.Handoff? && (row.outcome == outcome || (row.outcome == SignedIn && outcome == Failed))
    case Created(_) => row.PendingSignup?
  }

  ghost predicate DecisionsFit(s: System)
  {
    && (forall p :: p in s.processes && s.processes[p].Decided? ==>
          s.processes[p].hash in s.rows && s.rows[s.processes[p].hash].Handoff? &&
          Fits(s.rows[s.processes[p].hash], s.processes[p].result))
    && (forall i :: 0 <= i < |s.uses| ==> Fits(s.uses[i].row, s.uses[i].result))
    && (forall h :: h in s.rows && s.rows[h].Handoff? ==> NeedsUser(s.rows[h].outcome) == s.rows[h].user.Some?)
  }

  ghost predicate UsedOnce(s: System)
  {
    && (forall i :: 0 <= i < |s.uses| ==> s.uses[i].hash !in s.rows)
    && (forall i, j :: 0 <= i < j < |s.uses| ==> s.uses[i].hash != s.uses[j].hash)
  }

  /** Every confirmed account exists, with the address of the row that was used up for it. */
  ghost predicate AccountsFromRows(s: System)
  {
    && (forall i :: 0 <= i < |s.uses| && s.uses[i].result.Created? ==>
          s.uses[i].row.PendingSignup? && s.uses[i].result.user in s.users &&
          s.users[s.uses[i].result.user].email == s.uses[i].row.email)
    && (forall i, j :: 0 <= i < j < |s.uses| && s.uses[i].result.Created? && s.uses[j].result.Created? ==>
          s.uses[i].result.user != s.uses[j].result.user)
  }

  ghost predicate Inv(s: System)
  {
    Numbered(s) && LocksHold(s) && DecisionsFit(s) && UsedOnce(s) && AccountsFromRows(s)
  }

  lemma StepKeepsNumbered(s: System, step: Step)
    requires Numbered(s) && Enabled(s, step)
    ensures Numbered(After(s, step))
  {
  }

  lemma StepKeepsLocks(s: System, step: Step)
    requires Numbered(s) && LocksHold(s) && Enabled(s, step)
    ensures LocksHold(After(s, step))
  {
  }

  lemma StepKeepsDecisions(s: System, step: Step)
    requires Numbered(s) && LocksHold(s) && DecisionsFit(s) && Enabled(s, step)
    ensures DecisionsFit(After(s, step))
  {
    var s' := After(s, step);
    if step.Decide? {
      assert Fits(s.rows[s.processes[step.p].hash], GainOf(s, s.rows[s.processes[step.p].hash]));
    }
    forall p | p in s'.processes && s'.processes[p].Decided?
      ensures s'.processes[p].hash in s'.rows && s'.rows[s'.processes[p].hash].Handoff?
      ensures Fits(s'.rows[s'.processes[p].hash], s'.processes[p].result)
    {
      assert HashOf(s.processes[p]).Some?;
    }
  }

  lemma StepKeepsUses(s: System, step: Step)
    requires Numbered(s) && UsedOnce(s) && Enabled(s, step)
    ensures UsedOnce(After(s, step))
  {
  }

  lemma StepKeepsAccounts(s: System, step: Step)
    requires Numbered(s) && AccountsFromRows(s) && Enabled(s, step)
    requires step.CommitHandoff? ==> !s.processes[step.p].result.Created?
    ensures AccountsFromRows(After(s, step))
  {
  }

  lemma StepKeepsInv(s: System, step: Step)
    requires Inv(s) && Enabled(s, step)
    ensures Inv(After(s, step))
  {
    StepKeepsNumbered(s, step);
    StepKeepsLocks(s, step);
    StepKeepsDecisions(s, step);
    StepKeepsUses(s, step);
    assert step.CommitHandoff? ==> !s.processes[step.p].result.Created?;
    StepKeepsAccounts(s, step);
  }

  lemma {:induction false} ReachedInv(s: System, n: nat)
    requires Reached(s, n)
    ensures Inv(s)
    decreases n
  {
    hide Inv, Enabled, After, Init;
    if n == 0 {
      InitIsInv(s);
    } else {
      var before, step :| Reached(before, n - 1) && Takes(before, step, s);
      ReachedInv(before, n - 1);
      StepKeepsInv(before, step);
    }
  }

  lemma InitIsInv(s: System)
    requires Init(s)
    ensures Inv(s)
  {
  }

  /**
   * In every run a secret is used at most once and is gone afterwards; a login token comes only
   * from a signed-in outcome and names its user; a confirmed account exists with the address of
   * its own used-up row; and no two requests hold one row.
   */
  lemma SecretsWorkOnce(s: System, n: nat)
    requires Reached(s, n)
    ensures forall i, j :: 0 <= i < j < |s.uses| ==> s.uses[i].hash != s.uses[j].hash
    ensures forall i :: 0 <= i < |s.uses| ==> s.uses[i].hash !in s.rows
    ensures forall i :: 0 <= i < |s.uses| ==>
              match s.uses[i].result
              case Token(user) =>
                s.uses[i].row.Handoff? && s.uses[i].row.outcome == SignedIn && s.uses[i].row.user == Some(user)
              case Plain(outcome) =>
                s.uses[i].row.Handoff? && (outcome == SignedIn ==> s.uses[i].row.outcome == SignedIn)
              case Created(user) =>
                s.uses[i].row.PendingSignup? && user in s.users && s.users[user].email == s.uses[i].row.email
    ensures forall p, q :: p in s.processes && q in s.processes && p != q && HashOf(s.processes[p]).Some? ==>
              HashOf(s.processes[p]) != HashOf(s.processes[q])
  {
    ReachedInv(s, n);
    assert forall i :: 0 <= i < |s.uses| ==> Fits(s.uses[i].row, s.uses[i].result);
  }

  /** What each step does to the rows: one more, one under a new secret, one less, or nothing. */
  lemma StepOnRows(s: System, step: Step)
    requires Inv(s) && Enabled(s, step)
    ensures var rows' := After(s, step).rows;
            match step
            case IssueHandoff(outcome, user, binder) => rows' == s.rows[s.nextHash := Handoff(outcome, user, binder)]
            case RequestSignup(email) => rows' == s.rows[s.nextHash := PendingSignup(email)]
            case ReplaceSignup(hash) => rows' == (s.rows - {hash})[s.nextHash := s.rows[hash]]
            case CommitHandoff(p) => rows' == s.rows - {s.processes[p].hash}
            case CommitSignup(p) => rows' == s.rows - {s.processes[p].hash}
            case Expire(hash) => rows' == s.rows - {hash}
            case _ => rows' == s.rows
  {
  }

  /** A token is signed only for a user that is active when read; the redemption commits later. */
  lemma TokenForActiveUser(s: System, p: nat)
    requires Inv(s) && Enabled(s, Decide(p))
    ensures var row, result := s.rows[s.processes[p].hash], After(s, Decide(p)).processes[p].result;
            && (result.Token? <==> row.outcome == SignedIn && Active(s, row.user.value))
            && (result.Token? ==> Active(s, result.user) && Some(result.user) == row.user)
            && (!result.Token? ==> result == Plain(if row.outcome == SignedIn then Failed else row.outcome))
  {
  }

  /**
   * Only a committed use, a replacement or the expiry of an unlocked row removes a row or alters what
   * it says; any other step, in particular a refused attempt, leaves every row as it was.
   */
  lemma RefusalsLeaveRows(s: System, step: Step, hash: nat)
    requires Inv(s) && Enabled(s, step) && hash in s.rows
    requires hash in After(s, step).rows ==> After(s, step).rows[hash] != s.rows[hash]
    ensures hash !in After(s, step).rows
    ensures || (step.CommitHandoff? && s.processes[step.p].hash == hash)
            || (step.CommitSignup? && s.processes[step.p].hash == hash)
            || ((step.ReplaceSignup? || step.Expire?) && step.hash == hash && Unlocked(s, hash))
  {
  }

  /** With a wrong or missing binder an attempt can do nothing but roll back. */
  lemma WrongBinderOnlyRollsBack(s: System, step: Step, p: nat)
    requires Inv(s) && Enabled(s, step) && p in s.processes && s.processes[p].Holding?
    requires s.rows[s.processes[p].hash].Handoff? && s.processes[p].binder != Some(s.rows[s.processes[p].hash].binder)
    ensures After(s, step).processes[p] == s.processes[p] || (step == Rollback(p) && After(s, step) == Move(s, p, Idle))
    ensures s.processes[p].hash in After(s, step).rows
  {
  }
}
