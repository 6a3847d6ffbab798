/**
 * Progress of the statistics queue: with no new writes, every cycle uses up attempts, and cycles
 * spaced at least the longest retry delay apart end with every request gone or given up.
 */
module StatsDrain {
  import opened Listings
  import opened Scores
  import opened StatsQueue
  import opened StatsService
  import opened StatsTables
  import opened Wrappers

  // ---- The retry schedule ----

  lemma {:induction false} Pow2Grows(a: nat, b: nat)
    requires a <= b
    ensures 1 <= Pow2(a) <= Pow2(b)
    decreases b
  {
    if a < b {
      Pow2Grows(a, b - 1);
    } else if a > 0 {
      Pow2Grows(a - 1, a - 1);
    }
  }

  /** The bound on the shift never matters: the delay is min(2 * 2^(n-1), 300) for every n. */
  lemma RetryDelayIsCappedDoubling(failures: nat)
    requires failures >= 1
    ensures var doubled := 2 * Pow2(failures - 1);
            RetryDelay(failures) == if doubled < 300 then doubled else 300
  {
    if failures > 20 {
      Pow2Grows(8, failures - 1);
      assert Pow2(8) == 256;
    }
  }

  /** 2, 4, 8, ... 256 seconds, then always 5 minutes. */
  lemma RetryDelays(failures: nat)
    ensures RetryDelay(1) == 2 && RetryDelay(2) == 4 && RetryDelay(3) == 8 && RetryDelay(4) == 16
    ensures RetryDelay(5) == 32 && RetryDelay(6) == 64 && RetryDelay(7) == 128 && RetryDelay(8) == 256
    ensures failures >= 9 ==> RetryDelay(failures) == 300
  {
    if failures >= 9 {
      RetryDelayIsCappedDoubling(failures);
      Pow2Grows(8, failures - 1);
      assert Pow2(8) == 256;
    }
  }

  lemma RetryDelayNeverShrinks(a: nat, b: nat)
    requires 1 <= a <= b
    ensures 2 <= RetryDelay(a) <= RetryDelay(b) <= 300
  {
    RetryDelayIsCappedDoubling(a);
    RetryDelayIsCappedDoubling(b);
    Pow2Grows(0, a - 1);
    Pow2Grows(a - 1, b - 1);
  }

  // ---- What a cycle does to the requests ----

  type Requests = map<Entity, Request>

  /** One cycle of a worker from `t` to `t'`, as `RunOnce` performs it. */
  ghost predicate Cycle(t: Tables, t': Tables, kind: Kind, maxAttempts: nat, batch: nat,
                        failing: set<Entity>, clock: Clock, decay: Decay)
  {
    exists trace :: HandledAll(trace, DueList(t, kind, clock(0), maxAttempts, batch), failing, {}, clock, decay) &&
                    trace[0] == t && trace[|trace| - 1] == t'
  }

  /** One failure more, and the next attempt after 2 seconds doubled for each earlier failure, at most 300. */
  function FailedAgain(request: Request, now: int): Request
  {
    var doubled := 2 * Pow2(request.attempts);
    Request(request.version, request.attempts + 1, Some(now + if doubled < 300 then doubled else 300))
  }

  /** The requests after one ticket is handled. */
  function OneHandled(rs: Requests, e: Entity, fails: bool, now: int): Requests
    requires e in rs
  {
    if fails then rs[e := FailedAgain(rs[e], now)] else rs - {e}
  }

  lemma HandledRequests(t: Tables, t': Tables, k: Ticket, fails: bool, now: int, decay: Decay)
    requires Handled(t, t', k, fails, now, decay) && k.entity in t.requests
    requires t.requests[k.entity].version == k.version && t.requests[k.entity].attempts == k.attempts
    ensures t'.requests == OneHandled(t.requests, k.entity, fails, now)
  {
    RetryDelayIsCappedDoubling(k.attempts + 1);
    hide RetryDelay, Pow2;
  }

  /** Each listed request is gone or carries one more failure; every other request is as before. */
  ghost predicate Outcome(rs: Requests, rs': Requests, due: seq<Due>, failing: set<Entity>, clock: Clock)
  {
    && (forall e :: (forall d :: d in due ==> d.ticket.entity != e) ==>
        (e in rs' <==> e in rs) && (e in rs ==> rs'[e] == rs[e]))
    && forall i :: 0 <= i < |due| ==> var e := due[i].ticket.entity;
         && e in rs
         && (e in failing ==> e in rs' && rs'[e] == FailedAgain(rs[e], clock(i + 1)))
         && (e !in failing ==> e !in rs')
  }

  /** Listed from `rs`, each request at most once. */
  ghost predicate ListedFrom(rs: Requests, due: seq<Due>, kind: Kind, maxAttempts: nat)
  {
    && (forall d :: d in due ==> d.ticket.entity in rs && d == DueOf(d.ticket.entity, rs[d.ticket.entity]) &&
                                 d.ticket.entity.kind == kind && d.ticket.attempts < maxAttempts)
    && forall i, j :: 0 <= i < j < |due| ==> due[i].ticket.entity != due[j].ticket.entity
  }

  lemma DueListListed(t: Tables, kind: Kind, now: int, maxAttempts: nat, batch: nat)
    ensures ListedFrom(t.requests, DueList(t, kind, now, maxAttempts, batch), kind, maxAttempts)
  {
  }

  // ---- Attempts left ----

  function Left(request: Request, maxAttempts: nat): nat
  {
    if request.attempts < maxAttempts then maxAttempts - request.attempts else 0
  }

  /** The attempts left over all requests of one queue. */
  ghost function Slack(rs: Requests, kind: Kind, maxAttempts: nat): nat
    decreases |rs|
  {
    if rs == map[] then 0
    else
      var e :| e in rs;
      (if e.kind == kind then Left(rs[e], maxAttempts) else 0) + Slack(rs - {e}, kind, maxAttempts)
  }

  function Share(rs: Requests, e: Entity, kind: Kind, maxAttempts: nat): nat
    requires e in rs
  {
    if e.kind == kind then Left(rs[e], maxAttempts) else 0
  }

  lemma {:induction false} SlackWithout(rs: Requests, e: Entity, kind: Kind, maxAttempts: nat)
    requires e in rs
    ensures Slack(rs, kind, maxAttempts) == Share(rs, e, kind, maxAttempts) + Slack(rs - {e}, kind, maxAttempts)
    decreases |rs|
  {
    var f :| f in rs &&
      Slack(rs, kind, maxAttempts) == Share(rs, f, kind, maxAttempts) + Slack(rs - {f}, kind, maxAttempts);
    if f != e {
      SlackWithout(rs - {f}, e, kind, maxAttempts);
      SlackWithout(rs - {e}, f, kind, maxAttempts);
      assert rs - {f} - {e} == rs - {e} - {f};
      assert Share(rs - {f}, e, kind, maxAttempts) == Share(rs, e, kind, maxAttempts);
      assert Share(rs - {e}, f, kind, maxAttempts) == Share(rs, f, kind, maxAttempts);
    }
  }

  lemma OneHandledLowersSlack(rs: Requests, e: Entity, fails: bool, now: int, maxAttempts: nat)
    requires e in rs && rs[e].attempts < maxAttempts
    ensures Slack(OneHandled(rs, e, fails, now), e.kind, maxAttempts) < Slack(rs, e.kind, maxAttempts)
  {
    SlackWithout(rs, e, e.kind, maxAttempts);
    if fails {
      var rs' := OneHandled(rs, e, fails, now);
      SlackWithout(rs', e, e.kind, maxAttempts);
      assert rs' - {e} == rs - {e};
    }
  }

  lemma {:induction false} PrefixHandled(trace: seq<Tables>, due: seq<Due>, kind: Kind, maxAttempts: nat,
                                         failing: set<Entity>, clock: Clock, decay: Decay, n: nat)
    requires HandledAll(trace, due, failing, {}, clock, decay) && n <= |due|
    requires ListedFrom(trace[0].requests, due, kind, maxAttempts)
    ensures Outcome(trace[0].requests, trace[n].requests, due[..n], failing, clock)
    ensures Slack(trace[n].requests, kind, maxAttempts) + n <= Slack(trace[0].requests, kind, maxAttempts)
  {
    hide Outcome, ListedFrom, Handled, Slack;
    if n > 0 {
      PrefixHandled(trace, due, kind, maxAttempts, failing, clock, decay, n - 1);
      TraceStep(trace[0].requests, trace[n - 1], trace[n], due, kind, maxAttempts, failing, clock, decay, n - 1);
    } else {
      NothingHandled(trace[0].requests, due, failing, clock);
    }
  }

  lemma NothingHandled(rs: Requests, due: seq<Due>, failing: set<Entity>, clock: Clock)
    ensures Outcome(rs, rs, due[..0], failing, clock)
  {
  }

  lemma NotYetHandled(rs: Requests, rs': Requests, due: seq<Due>, kind: Kind, maxAttempts: nat,
                      failing: set<Entity>, clock: Clock, i: nat)
    requires i < |due| && ListedFrom(rs, due, kind, maxAttempts)
    requires Outcome(rs, rs', due[..i], failing, clock)
    ensures var k := due[i].ticket;
            && k.entity in rs' && rs'[k.entity] == rs[k.entity]
            && k == DueOf(k.entity, rs'[k.entity]).ticket
            && k.entity.kind == kind && k.attempts < maxAttempts
  {
  }

  lemma OutcomeStep(rs: Requests, rs': Requests, due: seq<Due>, failing: set<Entity>, clock: Clock, i: nat)
    requires i < |due| && forall j :: 0 <= j < i ==> due[j].ticket.entity != due[i].ticket.entity
    requires Outcome(rs, rs', due[..i], failing, clock)
    requires var e := due[i].ticket.entity; e in rs && e in rs' && rs'[e] == rs[e]
    ensures var e := due[i].ticket.entity;
            Outcome(rs, OneHandled(rs', e, e in failing, clock(i + 1)), due[..i + 1], failing, clock)
  {
    hide RetryDelay;
    var e := due[i].ticket.entity;
    var rs'' := OneHandled(rs', e, e in failing, clock(i + 1));
    assert due[..i + 1] == due[..i] + [due[i]];
    forall f | forall d :: d in due[..i + 1] ==> d.ticket.entity != f
      ensures (f in rs'' <==> f in rs) && (f in rs ==> rs''[f] == rs[f])
    {
      assert due[i] in due[..i + 1];
      assert forall d :: d in due[..i] ==> d in due[..i + 1];
    }
  }

  lemma TraceStep(rs: Requests, t: Tables, t': Tables, due: seq<Due>, kind: Kind, maxAttempts: nat,
                  failing: set<Entity>, clock: Clock, decay: Decay, i: nat)
    requires i < |due| && ListedFrom(rs, due, kind, maxAttempts)
    requires Outcome(rs, t.requests, due[..i], failing, clock)
    requires Handled(t, t', due[i].ticket, due[i].ticket.entity in failing, clock(i + 1), decay)
    ensures Outcome(rs, t'.requests, due[..i + 1], failing, clock)
    ensures Slack(t'.requests, kind, maxAttempts) < Slack(t.requests, kind, maxAttempts)
  {
    var k := due[i].ticket;
    NotYetHandled(rs, t.requests, due, kind, maxAttempts, failing, clock, i);
    hide Handled, RetryDelay, Outcome, Slack;
    HandledRequests(t, t', k, k.entity in failing, clock(i + 1), decay);
    OneHandledLowersSlack(t.requests, k.entity, k.entity in failing, clock(i + 1), maxAttempts);
    OutcomeStep(rs, t.requests, due, failing, clock, i);
  }

  /**
   * One cycle, exactly: each listed request whose recalculation succeeded is gone, each other one
   * carries one more failure and its next time, the rest of the queue is untouched, and the
   * attempts left went down by at least the number of requests handled.
   */
  lemma CycleExactly(t: Tables, t': Tables, kind: Kind, maxAttempts: nat, batch: nat,
                     failing: set<Entity>, clock: Clock, decay: Decay)
    requires Cycle(t, t', kind, maxAttempts, batch, failing, clock, decay)
    ensures var due := DueList(t, kind, clock(0), maxAttempts, batch);
            && Outcome(t.requests, t'.requests, due, failing, clock)
            && Slack(t'.requests, kind, maxAttempts) + |due| <= Slack(t.requests, kind, maxAttempts)
  {
    hide Outcome, ListedFrom, Handled, Slack, DueList;
    var due := DueList(t, kind, clock(0), maxAttempts, batch);
    var trace :| HandledAll(trace, due, failing, {}, clock, decay) && trace[0] == t && trace[|trace| - 1] == t';
    DueListListed(t, kind, clock(0), maxAttempts, batch);
    PrefixHandled(trace, due, kind, maxAttempts, failing, clock, decay, |due|);
    assert due[..|due|] == due;
  }

  // ---- Repeated cycles ----

  datatype Turn = Turn(failing: set<Entity>, clock: Clock)

  ghost predicate Cycles(ts: seq<Tables>, turns: seq<Turn>, kind: Kind, maxAttempts: nat, batch: nat, decay: Decay)
  {
    && |ts| == |turns| + 1
    && forall i :: 0 <= i < |turns| ==>
         Cycle(ts[i], ts[i + 1], kind, maxAttempts, batch, turns[i].failing, turns[i].clock, decay)
  }

  /** The first cycle comes after every time already recorded, the others 300 seconds apart. */
  ghost predicate Spaced(rs: Requests, turns: seq<Turn>)
  {
    && (turns != [] ==> NotLater(rs, turns[0].clock(0)))
    && forall i :: 0 < i < |turns| ==> LongBefore(turns[i - 1].clock, turns[i].clock(0))
  }

  /** Every reading of the clock is at least the longest retry delay before `next`. */
  ghost predicate LongBefore(clock: Clock, next: int)
  {
    forall j: nat :: clock(j) + RETRY_MAX_DELAY <= next
  }

  ghost predicate NotLater(rs: Requests, now: int)
  {
    forall e :: e in rs && rs[e].nextAttemptAt.Some? ==> rs[e].nextAttemptAt.value <= now
  }

  ghost predicate GoneOrGivenUp(rs: Requests, kind: Kind, maxAttempts: nat)
  {
    forall e :: e in rs && e.kind == kind ==> rs[e].attempts >= maxAttempts
  }

  lemma {:induction false} SlackZero(rs: Requests, kind: Kind, maxAttempts: nat)
    ensures Slack(rs, kind, maxAttempts) == 0 <==> GoneOrGivenUp(rs, kind, maxAttempts)
    decreases |rs|
  {
    if rs != map[] {
      var e :| e in rs;
      SlackWithout(rs, e, kind, maxAttempts);
      SlackZero(rs - {e}, kind, maxAttempts);
      assert forall f :: f in rs <==> f == e || f in rs - {e};
    }
  }

  /** While a request is left to try, a cycle with a late enough clock finds one. */
  lemma LiveIsDue(t: Tables, kind: Kind, now: int, maxAttempts: nat, batch: nat)
    requires NotLater(t.requests, now) && !GoneOrGivenUp(t.requests, kind, maxAttempts) && batch > 0
    ensures DueList(t, kind, now, maxAttempts, batch) != []
  {
    var e :| e in t.requests && e.kind == kind && t.requests[e].attempts < maxAttempts;
    assert DueOf(e, t.requests[e]) in DueSet(t, kind, now, maxAttempts);
  }

  lemma OutcomeTimes(rs: Requests, rs': Requests, due: seq<Due>, failing: set<Entity>, clock: Clock, now: int,
                     next: int)
    requires Outcome(rs, rs', due, failing, clock) && NotLater(rs, now) && now <= next
    requires LongBefore(clock, next)
    ensures NotLater(rs', next)
  {
    forall e | e in rs' && rs'[e].nextAttemptAt.Some?
      ensures rs'[e].nextAttemptAt.value <= next
    {
      if i :| 0 <= i < |due| && due[i].ticket.entity == e {
        RetryDelayNeverShrinks(rs[e].attempts + 1, rs[e].attempts + 1);
        assert clock(i + 1) + RETRY_MAX_DELAY <= next;
      } else {
        assert forall d :: d in due ==> d.ticket.entity != e;
      }
    }
  }

  lemma TurnKeepsTimes(t: Tables, t': Tables, turn: Turn, next: int, kind: Kind, maxAttempts: nat, batch: nat,
                       decay: Decay)
    requires Cycle(t, t', kind, maxAttempts, batch, turn.failing, turn.clock, decay)
    requires NotLater(t.requests, turn.clock(0))
    requires LongBefore(turn.clock, next)
    ensures NotLater(t'.requests, next)
  {
    CycleExactly(t, t', kind, maxAttempts, batch, turn.failing, turn.clock, decay);
    OutcomeTimes(t.requests, t'.requests, DueList(t, kind, turn.clock(0), maxAttempts, batch),
                 turn.failing, turn.clock, turn.clock(0), next);
  }

  lemma TurnLowersSlack(t: Tables, t': Tables, turn: Turn, kind: Kind, maxAttempts: nat, batch: nat, decay: Decay)
    requires Cycle(t, t', kind, maxAttempts, batch, turn.failing, turn.clock, decay)
    requires NotLater(t.requests, turn.clock(0)) && batch > 0
    ensures Slack(t'.requests, kind, maxAttempts) < Slack(t.requests, kind, maxAttempts) ||
            Slack(t'.requests, kind, maxAttempts) == 0
  {
    CycleExactly(t, t', kind, maxAttempts, batch, turn.failing, turn.clock, decay);
    SlackZero(t.requests, kind, maxAttempts);
    if !GoneOrGivenUp(t.requests, kind, maxAttempts) {
      LiveIsDue(t, kind, turn.clock(0), maxAttempts, batch);
    }
  }

  lemma {:induction false} CyclesLowerSlack(ts: seq<Tables>, turns: seq<Turn>, kind: Kind, maxAttempts: nat,
                                            batch: nat, decay: Decay, n: nat)
    requires Cycles(ts, turns, kind, maxAttempts, batch, decay) && Spaced(ts[0].requests, turns) && batch > 0
    requires n <= |turns|
    ensures n < |turns| ==> NotLater(ts[n].requests, turns[n].clock(0))
    ensures Slack(ts[n].requests, kind, maxAttempts) + n <= Slack(ts[0].requests, kind, maxAttempts) ||
            Slack(ts[n].requests, kind, maxAttempts) == 0
  {
    hide Cycle, NotLater, Slack, LongBefore;
    if n > 0 {
      CyclesLowerSlack(ts, turns, kind, maxAttempts, batch, decay, n - 1);
      assert Cycle(ts[n - 1], ts[n], kind, maxAttempts, batch, turns[n - 1].failing, turns[n - 1].clock, decay);
      TurnLowersSlack(ts[n - 1], ts[n], turns[n - 1], kind, maxAttempts, batch, decay);
      if n < |turns| {
        TurnKeepsTimes(ts[n - 1], ts[n], turns[n - 1], turns[n].clock(0), kind, maxAttempts, batch, decay);
      }
    }
  }

  ghost predicate NeverFails(turns: seq<Turn>, e: Entity)
  {
    forall i :: 0 <= i < |turns| ==> e !in turns[i].failing
  }

  lemma OutcomeOfSuccess(rs: Requests, rs': Requests, due: seq<Due>, failing: set<Entity>, clock: Clock, e: Entity)
    requires Outcome(rs, rs', due, failing, clock) && e !in failing
    ensures e in rs' ==> e in rs && rs'[e] == rs[e]
  {
  }

  /** A request whose recalculation never fails is unchanged until it is gone. */
  lemma {:induction false} NeverFailing(ts: seq<Tables>, turns: seq<Turn>, kind: Kind, maxAttempts: nat,
                                        batch: nat, decay: Decay, n: nat, e: Entity)
    requires Cycles(ts, turns, kind, maxAttempts, batch, decay) && n <= |turns|
    requires NeverFails(turns, e)
    ensures e in ts[n].requests ==> e in ts[0].requests && ts[n].requests[e] == ts[0].requests[e]
  {
    hide Cycle, Outcome, DueList, Slack;
    if n > 0 {
      NeverFailing(ts, turns, kind, maxAttempts, batch, decay, n - 1, e);
      var turn := turns[n - 1];
      CycleExactly(ts[n - 1], ts[n], kind, maxAttempts, batch, turn.failing, turn.clock, decay);
      OutcomeOfSuccess(ts[n - 1].requests, ts[n].requests, DueList(ts[n - 1], kind, turn.clock(0), maxAttempts, batch),
                       turn.failing, turn.clock, e);
    }
  }

  // ---- Drained means up to date ----

  /** Only requests and the given entity's statistics differ, and those are current or as before. */
  lemma SavedKeepsSettled(t: Tables, t': Tables, e: Entity)
    requires SettledIsFresh(t) && WellFormed(t) && WellFormed(t')
    requires t' == t.(requests := t'.requests, stats := t'.stats)
    requires forall f :: f != e ==>
               (f in t'.requests <==> f in t.requests) && StoredNumbers(t', f) == StoredNumbers(t, f)
    requires Fresh(t', e) || ((e in t'.requests <==> e in t.requests) && StoredNumbers(t', e) == StoredNumbers(t, e))
    ensures SettledIsFresh(t')
  {
    hide Agrees, StoredNumbers, WellFormed;
    forall f | f !in t'.requests
      ensures Fresh(t', f)
    {
      assert Counted(t', f) == Counted(t, f);
      assert f !in t.requests ==> Fresh(t, f);
    }
  }

  lemma FinishedIsFresh(t: Tables, k: Ticket, now: int, decay: Decay, row: Option<StatRow>)
    requires Computed(t, k.entity, now, decay, row) && WellFormed(t)
    ensures WellFormed(Finished(t, k, row)) && Fresh(Finished(t, k, row), k.entity)
  {
    var t' := Finished(t, k, row);
    ComputedKind(t, k.entity, now, decay, row);
    if row.Some? {
      ComputedAgrees(t, k.entity, now, decay, row);
    }
    hide Computed, Agrees, Counted;
    FinishedCounts(t, k, row, k.entity);
    SavedWellFormed(t, k, row);
    hide WellFormed;
    if row.None? {
      NoShopIsFresh(t', k.entity);
    }
  }

  lemma SavedWellFormed(t: Tables, k: Ticket, row: Option<StatRow>)
    requires WellFormed(t)
    requires row.Some? ==> (row.value.BurgerRow? <==> k.entity.kind == Burgers) &&
                           (k.entity.kind == Shops ==> k.entity.id in t.shops)
    ensures WellFormed(Finished(t, k, row)) && Finished(t, k, row).shops == t.shops
  {
  }

  lemma ComputedKind(t: Tables, e: Entity, now: int, decay: Decay, row: Option<StatRow>)
    requires Computed(t, e, now, decay, row)
    ensures if row.Some? then (row.value.BurgerRow? <==> e.kind == Burgers) && (e.kind == Shops ==> e.id in t.shops)
            else e.kind == Shops && e.id !in t.shops
  {
  }

  lemma HandledKeepsSettled(t: Tables, t': Tables, k: Ticket, fails: bool, now: int, decay: Decay)
    requires Handled(t, t', k, fails, now, decay) && SettledIsFresh(t) && WellFormed(t)
    ensures SettledIsFresh(t') && WellFormed(t')
  {
    hide RetryDelay, SettledIsFresh, Fresh, Computed;
    if !fails {
      var row :| Computed(t, k.entity, now, decay, row) && t' == Finished(t, k, row);
      FinishedIsFresh(t, k, now, decay, row);
      FinishedChanges(t, k, row);
    } else {
      RecordedChanges(t, k, now + RetryDelay(k.attempts + 1));
    }
    hide Handled, WellFormed, Finished, FailureRecorded, StoredNumbers;
    SavedKeepsSettled(t, t', k.entity);
  }

  lemma RecordedChanges(t: Tables, k: Ticket, at: int)
    ensures var t' := FailureRecorded(t, k.entity, k.version, at);
            && t' == t.(requests := t'.requests, stats := t'.stats) && (WellFormed(t) ==> WellFormed(t'))
            && forall f :: (f in t'.requests <==> f in t.requests) && StoredNumbers(t', f) == StoredNumbers(t, f)
  {
  }

  lemma {:induction false} PrefixKeepsSettled(trace: seq<Tables>, due: seq<Due>, failing: set<Entity>, clock: Clock,
                                              decay: Decay, n: nat)
    requires HandledAll(trace, due, failing, {}, clock, decay) && n <= |due|
    requires SettledIsFresh(trace[0]) && WellFormed(trace[0])
    ensures SettledIsFresh(trace[n]) && WellFormed(trace[n])
  {
    hide SettledIsFresh, WellFormed, Handled;
    if n > 0 {
      PrefixKeepsSettled(trace, due, failing, clock, decay, n - 1);
      var k := due[n - 1].ticket;
      HandledKeepsSettled(trace[n - 1], trace[n], k, k.entity in failing, clock(n), decay);
    }
  }

  lemma {:induction false} CyclesKeepSettled(ts: seq<Tables>, turns: seq<Turn>, kind: Kind, maxAttempts: nat,
                                             batch: nat, decay: Decay, n: nat)
    requires Cycles(ts, turns, kind, maxAttempts, batch, decay) && n <= |turns|
    requires SettledIsFresh(ts[0]) && WellFormed(ts[0])
    ensures SettledIsFresh(ts[n]) && WellFormed(ts[n])
  {
    hide SettledIsFresh, WellFormed, Handled, DueList;
    if n > 0 {
      CyclesKeepSettled(ts, turns, kind, maxAttempts, batch, decay, n - 1);
      var t, turn := ts[n - 1], turns[n - 1];
      assert Cycle(t, ts[n], kind, maxAttempts, batch, turn.failing, turn.clock, decay);
      var due := DueList(t, kind, turn.clock(0), maxAttempts, batch);
      var trace :| HandledAll(trace, due, turn.failing, {}, turn.clock, decay) && trace[0] == t &&
        trace[|trace| - 1] == ts[n];
      PrefixKeepsSettled(trace, due, turn.failing, turn.clock, decay, |due|);
    }
  }

  /** Not given up before the run starts. */
  predicate Live(rs: Requests, e: Entity, maxAttempts: nat)
  {
    e in rs ==> rs[e].attempts < maxAttempts
  }

  /**
   * With no new writes, as many spaced cycles as there are attempts left end with every request of
   * the queue gone or given up, whichever recalculations fail; and every burger or shop that had
   * not been given up and whose own recalculation never fails then shows its current numbers.
   */
  lemma QueueDrains(ts: seq<Tables>, turns: seq<Turn>, kind: Kind, maxAttempts: nat, batch: nat, decay: Decay)
    requires Cycles(ts, turns, kind, maxAttempts, batch, decay) && Spaced(ts[0].requests, turns) && batch > 0
    requires |turns| >= Slack(ts[0].requests, kind, maxAttempts)
    requires SettledIsFresh(ts[0]) && WellFormed(ts[0])
    ensures GoneOrGivenUp(ts[|turns|].requests, kind, maxAttempts)
    ensures forall e: Entity :: e.kind == kind && NeverFails(turns, e) && Live(ts[0].requests, e, maxAttempts) ==>
              e !in ts[|turns|].requests && Fresh(ts[|turns|], e)
  {
    hide Fresh, WellFormed, Cycle, Spaced, NeverFails;
    CyclesLowerSlack(ts, turns, kind, maxAttempts, batch, decay, |turns|);
    SlackZero(ts[|turns|].requests, kind, maxAttempts);
    CyclesKeepSettled(ts, turns, kind, maxAttempts, batch, decay, |turns|);
    forall e: Entity | e.kind == kind && NeverFails(turns, e) && Live(ts[0].requests, e, maxAttempts)
      ensures e !in ts[|turns|].requests
    {
      NeverFailing(ts, turns, kind, maxAttempts, batch, decay, |turns|, e);
    }
  }
}
