/**
 * Progress of the statistics queue with any number of workers at once. Without new writes no step
 * gives back an attempt, and whenever some worker lists a request and gets through it, whatever the
 * others do meanwhile, the attempts left have gone down.
 */
module StatsWorkers {
  import opened Scores
  import opened StatsDrain
  import opened StatsQueue
  import opened StatsTables
  import opened Wrappers

  // ---- No step gives back an attempt ----

  /** Requests only disappear or fail once more. */
  ghost predicate Wears(rs: Requests, rs': Requests, e: Entity)
  {
    e in rs' ==> e in rs && rs'[e].version == rs[e].version && rs[e].attempts <= rs'[e].attempts
  }

  /** The entity whose request a step may change. */
  ghost predicate Concerns(s: System, step: Step, e: Entity)
  {
    match step
    case RemoveShop(shop) => e == Entity(Shops, shop)
    case FinishStep(w) => w in s.workers && s.workers[w].todo != [] && s.workers[w].todo[0].entity == e
    case RecordStep(w, _) => w in s.workers && s.workers[w].todo != [] && s.workers[w].todo[0].entity == e
    case _ => false
  }

  lemma StepWears(s: System, step: Step, e: Entity, decay: Decay)
    requires Enabled(s, step, decay) && !step.WriteStep?
    ensures Wears(s.db.requests, After(s, step, decay).db.requests, e)
    ensures !Concerns(s, step, e) ==>
              (e in After(s, step, decay).db.requests <==> e in s.db.requests) &&
              (e in s.db.requests ==> After(s, step, decay).db.requests[e] == s.db.requests[e])
  {
  }

  /** A request that is gone or has failed once more takes an attempt with it, if it had one left. */
  lemma {:induction false} WornSlack(rs: Requests, rs': Requests, kind: Kind, maxAttempts: nat)
    requires forall e :: Wears(rs, rs', e)
    ensures Slack(rs', kind, maxAttempts) <= Slack(rs, kind, maxAttempts)
    ensures forall e :: Spent(rs, rs', e, kind, maxAttempts) ==>
              Slack(rs', kind, maxAttempts) < Slack(rs, kind, maxAttempts)
    decreases |rs|
  {
    if rs == map[] {
      assert forall e :: e in rs' ==> Wears(rs, rs', e);
      assert rs' == map[];
    } else {
      var f :| f in rs;
      WearsWithout(rs, rs', f);
      WornSlack(rs - {f}, rs' - {f}, kind, maxAttempts);
      WornShare(rs, rs', f, kind, maxAttempts);
      hide Wears, Slack;
      forall e | Spent(rs, rs', e, kind, maxAttempts)
        ensures Slack(rs', kind, maxAttempts) < Slack(rs, kind, maxAttempts)
      {
        if e != f {
          assert Spent(rs - {f}, rs' - {f}, e, kind, maxAttempts);
        }
      }
    }
  }

  lemma WearsWithout(rs: Requests, rs': Requests, f: Entity)
    requires forall e :: Wears(rs, rs', e)
    ensures forall e :: Wears(rs - {f}, rs' - {f}, e)
  {
    forall e: Entity
      ensures Wears(rs - {f}, rs' - {f}, e)
    {
      assert Wears(rs, rs', e);
    }
  }

  /** What one request contributes to the attempts left before and after. */
  lemma WornShare(rs: Requests, rs': Requests, f: Entity, kind: Kind, maxAttempts: nat)
    requires f in rs && Wears(rs, rs', f)
    ensures var before, after := Slack(rs, kind, maxAttempts), Slack(rs', kind, maxAttempts);
            var spent := if Spent(rs, rs', f, kind, maxAttempts) then 1 else 0;
            after + spent + Slack(rs - {f}, kind, maxAttempts) <= before + Slack(rs' - {f}, kind, maxAttempts)
  {
    SlackWithout(rs, f, kind, maxAttempts);
    if f in rs' {
      SlackWithout(rs', f, kind, maxAttempts);
    } else {
      assert rs' - {f} == rs';
    }
    hide Slack;
  }

  /** The request had an attempt left, and is gone or has failed since. */
  predicate Spent(rs: Requests, rs': Requests, e: Entity, kind: Kind, maxAttempts: nat)
  {
    && e in rs && e.kind == kind && rs[e].attempts < maxAttempts
    && (e in rs' ==> rs[e].attempts < rs'[e].attempts)
  }

  // ---- Runs without writes ----

  ghost predicate Run(ss: seq<System>, steps: seq<Step>, decay: Decay)
  {
    && |ss| == |steps| + 1
    && forall i :: 0 <= i < |steps| ==> Takes(ss[i], steps[i], ss[i + 1], decay) && !steps[i].WriteStep?
  }

  lemma {:induction false} RunWears(ss: seq<System>, steps: seq<Step>, decay: Decay, m: nat, n: nat, e: Entity)
    requires Run(ss, steps, decay) && m <= n <= |steps|
    ensures Wears(ss[m].db.requests, ss[n].db.requests, e)
    decreases n - m
  {
    hide Enabled, After;
    if m < n {
      RunWears(ss, steps, decay, m, n - 1, e);
      assert Takes(ss[n - 1], steps[n - 1], ss[n], decay);
      StepWears(ss[n - 1], steps[n - 1], e, decay);
    }
  }

  lemma {:induction false} RunKeepsInv(ss: seq<System>, steps: seq<Step>, decay: Decay, n: nat)
    requires Run(ss, steps, decay) && Inv(ss[0]) && n <= |steps|
    ensures Inv(ss[n])
  {
    hide Inv, Takes;
    if n > 0 {
      RunKeepsInv(ss, steps, decay, n - 1);
      TakesKeepsInv(ss[n - 1], steps[n - 1], ss[n], decay);
    }
  }

  /**
   * From step `begin`, which lists a request with attempts left first, to step `end`, which completes
   * it or records its failure.
   */
  datatype Pass = Pass(worker: nat, begin: nat, end: nat)

  ghost predicate IsPass(ss: seq<System>, steps: seq<Step>, pass: Pass, kind: Kind, maxAttempts: nat)
    requires |ss| == |steps| + 1
  {
    && pass.begin < pass.end < |steps|
    && steps[pass.begin].ListStep? && steps[pass.begin].worker == pass.worker
    && (steps[pass.end].FinishStep? || steps[pass.end].RecordStep?) && steps[pass.end].worker == pass.worker
    && var tickets := steps[pass.begin].tickets;
       && tickets != [] && tickets[0].entity.kind == kind && tickets[0].attempts < maxAttempts
       && pass.worker in ss[pass.end].workers && ss[pass.end].workers[pass.worker].todo == tickets
  }

  /** Getting through a request spends an attempt, unless somebody else has spent it already. */
  lemma EndSpends(s: System, step: Step, decay: Decay, kind: Kind, maxAttempts: nat)
    requires Enabled(s, step, decay) && (step.FinishStep? || step.RecordStep?)
    ensures var k, rs' := s.workers[step.worker].todo[0], After(s, step, decay).db.requests;
            k.entity in rs' && k.entity in s.db.requests && s.db.requests[k.entity].version == k.version ==>
            s.db.requests[k.entity].attempts < rs'[k.entity].attempts
  {
  }

  lemma PassSpends(ss: seq<System>, steps: seq<Step>, decay: Decay, pass: Pass, kind: Kind, maxAttempts: nat)
    requires Run(ss, steps, decay) && IsPass(ss, steps, pass, kind, maxAttempts)
    ensures var rs, rs' := ss[pass.begin].db.requests, ss[pass.end + 1].db.requests;
            Spent(rs, rs', steps[pass.begin].tickets[0].entity, kind, maxAttempts)
  {
    var k := steps[pass.begin].tickets[0];
    var first, before, after := ss[pass.begin], ss[pass.end], ss[pass.end + 1];
    assert Takes(first, steps[pass.begin], ss[pass.begin + 1], decay) && Takes(before, steps[pass.end], after, decay);
    assert k in steps[pass.begin].tickets;
    hide After, Run;
    RunWears(ss, steps, decay, pass.begin, pass.end, k.entity);
    StepWears(before, steps[pass.end], k.entity, decay);
    EndSpends(before, steps[pass.end], decay, kind, maxAttempts);
  }

  lemma RunLowersSlack(ss: seq<System>, steps: seq<Step>, decay: Decay, m: nat, n: nat, kind: Kind, maxAttempts: nat)
    requires Run(ss, steps, decay) && m <= n <= |steps|
    ensures Slack(ss[n].db.requests, kind, maxAttempts) <= Slack(ss[m].db.requests, kind, maxAttempts)
  {
    var rs, rs' := ss[m].db.requests, ss[n].db.requests;
    hide Wears, Run, Slack;
    forall e: Entity
      ensures Wears(rs, rs', e)
    {
      RunWears(ss, steps, decay, m, n, e);
    }
    WornSlack(rs, rs', kind, maxAttempts);
  }

  lemma PassLowersSlack(ss: seq<System>, steps: seq<Step>, decay: Decay, pass: Pass, kind: Kind, maxAttempts: nat)
    requires Run(ss, steps, decay) && IsPass(ss, steps, pass, kind, maxAttempts)
    ensures Slack(ss[pass.end + 1].db.requests, kind, maxAttempts) <
            Slack(ss[pass.begin].db.requests, kind, maxAttempts)
  {
    var rs, rs' := ss[pass.begin].db.requests, ss[pass.end + 1].db.requests;
    PassSpends(ss, steps, decay, pass, kind, maxAttempts);
    hide Wears, Run, Slack, Spent;
    forall e: Entity
      ensures Wears(rs, rs', e)
    {
      RunWears(ss, steps, decay, pass.begin, pass.end + 1, e);
    }
    WornSlack(rs, rs', kind, maxAttempts);
  }

  /** Passes of any workers, one after the other; between and during them anything else may happen. */
  ghost predicate Passes(ss: seq<System>, steps: seq<Step>, passes: seq<Pass>, kind: Kind, maxAttempts: nat)
    requires |ss| == |steps| + 1
  {
    && (forall i :: 0 <= i < |passes| ==> IsPass(ss, steps, passes[i], kind, maxAttempts))
    && forall i :: 0 < i < |passes| ==> passes[i - 1].end < passes[i].begin
  }

  lemma {:induction false} PassesLowerSlack(ss: seq<System>, steps: seq<Step>, decay: Decay, passes: seq<Pass>,
                                           kind: Kind, maxAttempts: nat, n: nat)
    requires Run(ss, steps, decay) && Passes(ss, steps, passes, kind, maxAttempts) && 0 < n <= |passes|
    ensures IsPass(ss, steps, passes[n - 1], kind, maxAttempts)
    ensures Slack(ss[passes[n - 1].end + 1].db.requests, kind, maxAttempts) + n <=
            Slack(ss[0].db.requests, kind, maxAttempts)
  {
    var pass := passes[n - 1];
    assert IsPass(ss, steps, pass, kind, maxAttempts);
    hide Slack;
    PassLowersSlack(ss, steps, decay, pass, kind, maxAttempts);
    if n > 1 {
      PassesLowerSlack(ss, steps, decay, passes, kind, maxAttempts, n - 1);
      RunLowersSlack(ss, steps, decay, passes[n - 2].end + 1, pass.begin, kind, maxAttempts);
    } else {
      RunLowersSlack(ss, steps, decay, 0, pass.begin, kind, maxAttempts);
    }
  }

  /** No failure of this entity's recalculation is recorded. */
  ghost predicate NeverRecorded(ss: seq<System>, steps: seq<Step>, e: Entity)
    requires |ss| == |steps| + 1
  {
    forall i :: 0 <= i < |steps| && steps[i].RecordStep? ==> !Concerns(ss[i], steps[i], e)
  }

  lemma UnrecordedStep(s: System, step: Step, e: Entity, decay: Decay)
    requires Enabled(s, step, decay) && !step.WriteStep? && (step.RecordStep? ==> !Concerns(s, step, e))
    ensures var rs' := After(s, step, decay).db.requests; e in rs' ==> e in s.db.requests && rs'[e] == s.db.requests[e]
  {
    StepWears(s, step, e, decay);
  }

  lemma {:induction false} UnrecordedStays(ss: seq<System>, steps: seq<Step>, decay: Decay, n: nat, e: Entity)
    requires Run(ss, steps, decay) && n <= |steps| && NeverRecorded(ss, steps, e)
    ensures e in ss[n].db.requests ==> e in ss[0].db.requests && ss[n].db.requests[e] == ss[0].db.requests[e]
  {
    hide Enabled, After, Concerns;
    if n > 0 {
      UnrecordedStays(ss, steps, decay, n - 1, e);
      assert Takes(ss[n - 1], steps[n - 1], ss[n], decay);
      UnrecordedStep(ss[n - 1], steps[n - 1], e, decay);
    }
  }

  /**
   * The queue drains whatever the workers do at once: after as many passes as there were attempts
   * left, one after the other but with any steps of any workers in between, every request is gone or
   * given up, and every burger or shop that had not been given up and never had a failure recorded
   * shows its current numbers.
   */
  lemma WorkersDrain(ss: seq<System>, steps: seq<Step>, decay: Decay, passes: seq<Pass>, kind: Kind, maxAttempts: nat)
    requires Run(ss, steps, decay) && Inv(ss[0]) && Passes(ss, steps, passes, kind, maxAttempts)
    requires |passes| >= Slack(ss[0].db.requests, kind, maxAttempts)
    ensures GoneOrGivenUp(ss[|steps|].db.requests, kind, maxAttempts)
    ensures forall e: Entity ::
              e.kind == kind && Live(ss[0].db.requests, e, maxAttempts) && NeverRecorded(ss, steps, e) ==>
              e !in ss[|steps|].db.requests && Fresh(ss[|steps|].db, e)
  {
    var last := ss[|steps|];
    RunKeepsInv(ss, steps, decay, |steps|);
    assert SettledIsFresh(last.db);
    hide Inv, Run, Slack, Fresh, NeverRecorded;
    if |passes| > 0 {
      PassesLowerSlack(ss, steps, decay, passes, kind, maxAttempts, |passes|);
      RunLowersSlack(ss, steps, decay, passes[|passes| - 1].end + 1, |steps|, kind, maxAttempts);
    } else {
      RunLowersSlack(ss, steps, decay, 0, |steps|, kind, maxAttempts);
    }
    SlackZero(last.db.requests, kind, maxAttempts);
    forall e: Entity | e.kind == kind && Live(ss[0].db.requests, e, maxAttempts) && NeverRecorded(ss, steps, e)
      ensures e !in last.db.requests
    {
      UnrecordedStays(ss, steps, decay, |steps|, e);
    }
  }
}
