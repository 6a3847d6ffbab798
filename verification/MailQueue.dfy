/**
 * The asynchronous mailer: senders put jobs into a bounded channel under a mutex, workers record,
 * deliver and mark them, closers close the channel and wait for the workers. Every lock, check,
 * channel operation and outside call is a step of its own.
 */
module MailQueue {
  import opened Wrappers

  /** An already-registered notice is keyed by address and time window, a confirmation by its row. */
  datatype MailKey = Confirmation(verification: nat, generation: nat) | AlreadyRegistered(address: string, window: int)

  datatype Job = Job(key: MailKey)

  datatype Status = Pending | Sent | Failed

  datatype Delivery = Delivery(status: Status, attempts: nat)

  datatype Actor = SenderActor(id: nat) | CloserActor(id: nat)

  datatype Sender = Outside | Locked(job: Job) | Unclosed(job: Job)      // `closed` was read as false

  datatype Closer = Before | Entered | Flagged | Left | Returned          // Returned: Close gave nil

  datatype Worker = Ready | Recording(job: Job) | Delivering(job: Job) | Marking(job: Job, sent: bool) | Exited

  datatype System = System(
    queue: seq<Job>,
    capacity: nat,
    channelClosed: bool,
    closed: bool,                    // the flag the mutex guards
    mutex: Option<Actor>,
    senders: map<nat, Sender>,
    closers: map<nat, Closer>,
    workers: map<nat, Worker>,
    records: map<MailKey, Delivery>,
    panicked: bool,                  // a send on, or a second close of, a closed channel
    accepted: seq<Job>,              // history: jobs put into the channel
    taken: seq<Job>,                 // history: jobs received from it
    finished: nat,                   // history: jobs worked off
    unrecorded: set<MailKey>,        // history: keys of jobs whose record failed
    unmarked: set<MailKey>,          // history: keys whose result could not be recorded
    results: map<MailKey, bool>,     // history: whether the delivery of a key succeeded
    deliveries: multiset<MailKey>    // history: calls of the deliverer
  )

  datatype Step =
    | SendLock(sender: nat, job: Job)
    | SendCheck(sender: nat)                       // drops the job when closed
    | SendTry(sender: nat)                         // drops the job when full
    | CloseLock(closer: nat)
    | CloseCheck(closer: nat)
    | CloseChannel(closer: nat)
    | CloseReturn(closer: nat)                     // the wait group is at zero
    | Receive(worker: nat)
    | Exit(worker: nat)                            // the channel is closed and drained
    | Record(worker: nat, fails: bool)
    | Deliver(worker: nat, succeeds: bool)
    | Mark(worker: nat, fails: bool)

  predicate Enabled(s: System, step: Step)
  {
    match step
    case SendLock(i, _) => i in s.senders && s.senders[i] == Outside && s.mutex.None?
    case SendCheck(i) => i in s.senders && s.senders[i].Locked?
    case SendTry(i) => i in s.senders && s.senders[i].Unclosed?
    case CloseLock(i) => i in s.closers && s.closers[i] == Before && s.mutex.None?
    case CloseCheck(i) => i in s.closers && s.closers[i] == Entered
    case CloseChannel(i) => i in s.closers && s.closers[i] == Flagged
    case CloseReturn(i) =>
      i in s.closers && s.closers[i] == Left && forall w :: w in s.workers ==> s.workers[w] == Exited
    case Receive(i) => i in s.workers && s.workers[i] == Ready && s.queue != []
    case Exit(i) => i in s.workers && s.workers[i] == Ready && s.queue == [] && s.channelClosed
    case Record(i, _) => i in s.workers && s.workers[i].Recording?
    case Deliver(i, _) => i in s.workers && s.workers[i].Delivering?
    case Mark(i, _) => i in s.workers && s.workers[i].Marking?
  }

  function AfterSend(s: System, step: Step): System
    requires Enabled(s, step) && (step.SendLock? || step.SendCheck? || step.SendTry?)
  {
    var i := step.sender;
    match step
    case SendLock(_, job) => s.(mutex := Some(SenderActor(i)), senders := s.senders[i := Locked(job)])
    case SendCheck(_) =>
      if s.closed then s.(mutex := None, senders := s.senders[i := Outside])
      else s.(senders := s.senders[i := Unclosed(s.senders[i].job)])
    case SendTry(_) => AfterTry(s, i)
  }

  /** A send on a closed channel panics; a full one takes nothing. */
  function AfterTry(s: System, i: nat): System
    requires i in s.senders && s.senders[i].Unclosed?
  {
    var s1 := s.(mutex := None, senders := s.senders[i := Outside]);
    var job := s.senders[i].job;
    if s.channelClosed then s1.(panicked := true)
    else if |s.queue| < s.capacity then s1.(queue := s.queue + [job], accepted := s.accepted + [job])
    else s1
  }

  function AfterClose(s: System, step: Step): System
    requires Enabled(s, step) && (step.CloseLock? || step.CloseCheck? || step.CloseChannel? || step.CloseReturn?)
  {
    var i := step.closer;
    match step
    case CloseLock(_) => s.(mutex := Some(CloserActor(i)), closers := s.closers[i := Entered])
    case CloseCheck(_) =>
      if s.closed then s.(mutex := None, closers := s.closers[i := Left])
      else s.(closed := true, closers := s.closers[i := Flagged])
    case CloseChannel(_) =>
      s.(mutex := None, closers := s.closers[i := Left],
         panicked := s.panicked || s.channelClosed, channelClosed := true)
    case CloseReturn(_) => s.(closers := s.closers[i := Returned])
  }

  function AfterReceive(s: System, i: nat): System
    requires s.queue != []
  {
    s.(queue := s.queue[1..], taken := s.taken + [s.queue[0]], workers := s.workers[i := Recording(s.queue[0])])
  }

  function Finish(s: System, i: nat): System
  {
    s.(workers := s.workers[i := Ready], finished := s.finished + 1)
  }

  /** A failed record is not sent, and neither is a key that was recorded before. */
  function AfterRecord(s: System, i: nat, fails: bool): System
    requires i in s.workers && s.workers[i].Recording?
  {
    var job := s.workers[i].job;
    if fails then Finish(s.(unrecorded := s.unrecorded + {job.key}), i)
    else if job.key in s.records then Finish(s, i)
    else s.(records := s.records[job.key := Delivery(Pending, 0)], workers := s.workers[i := Delivering(job)])
  }

  function AfterDeliver(s: System, i: nat, succeeds: bool): System
    requires i in s.workers && s.workers[i].Delivering?
  {
    var job := s.workers[i].job;
    s.(deliveries := s.deliveries + multiset{job.key}, results := s.results[job.key := succeeds],
       workers := s.workers[i := Marking(job, succeeds)])
  }

  function AfterMark(s: System, i: nat, fails: bool): System
    requires i in s.workers && s.workers[i].Marking?
  {
    if fails then Finish(s.(unmarked := s.unmarked + {s.workers[i].job.key}), i)
    else Finish(s.(records := Marked(s.records, s.workers[i].job.key, s.workers[i].sent)), i)
  }

  /** UPDATE ... SET status, attempts = attempts + 1 */
  function Marked(records: map<MailKey, Delivery>, key: MailKey, sent: bool): map<MailKey, Delivery>
  {
    if key in records then records[key := Delivery(if sent then Sent else Failed, records[key].attempts + 1)]
      else records
  }

  function After(s: System, step: Step): System
    requires Enabled(s, step)
  {
    match step
    case Receive(i) => AfterReceive(s, i)
    case Exit(i) => s.(workers := s.workers[i := Exited])
    case Record(i, fails) => AfterRecord(s, i, fails)
    case Deliver(i, succeeds) => AfterDeliver(s, i, succeeds)
    case Mark(i, fails) => AfterMark(s, i, fails)
    case SendLock(_, _) => AfterSend(s, step)
    case SendCheck(_) => AfterSend(s, step)
    case SendTry(_) => AfterSend(s, step)
    case CloseLock(_) => AfterClose(s, step)
    case CloseCheck(_) => AfterClose(s, step)
    case CloseChannel(_) => AfterClose(s, step)
    case CloseReturn(_) => AfterClose(s, step)
  }

  predicate Init(s: System)
  {
    && s.queue == [] && !s.channelClosed && !s.closed && s.mutex.None? && !s.panicked && s.workers != map[]
    && s.records == map[] && s.accepted == [] && s.taken == [] && s.finished == 0
    && s.unrecorded == {} && s.unmarked == {} && s.results == map[] && s.deliveries == multiset{}
    && (forall i :: i in s.senders ==> s.senders[i] == Outside)
    && (forall i :: i in s.closers ==> s.closers[i] == Before)
    && (forall i :: i in s.workers ==> s.workers[i] == Ready)
  }

  ghost predicate Takes(s: System, step: Step, s': System)
  {
    Enabled(s, step) && s' == After(s, step)
  }

  ghost predicate Reached(s: System, n: nat)
    decreases n
  {
    if n == 0 then Init(s)
    else exists before, step :: Reached(before, n - 1) && Takes(before, step, s)
  }

  // ---- The invariant ----

  /** Whoever is inside the critical section holds the mutex, and what it has read is still so. */
  ghost predicate Exclusive(s: System)
  {
    && (forall i :: i in s.senders && s.senders[i] != Outside ==> s.mutex == Some(SenderActor(i)))
    && (forall i :: i in s.closers && (s.closers[i] == Entered || s.closers[i] == Flagged) ==>
          s.mutex == Some(CloserActor(i)))
    && (forall i :: i in s.senders && s.senders[i].Unclosed? ==> !s.closed)
    && (forall i :: i in s.closers && s.closers[i] == Flagged ==> s.closed && !s.channelClosed)
    && (s.channelClosed ==> s.closed)
    && !s.panicked
  }

  predicate IsBusy(c: Worker)
  {
    !c.Ready? && !c.Exited?
  }

  function Busy(workers: map<nat, Worker>): set<nat>
  {
    set i | i in workers && IsBusy(workers[i])
  }

  lemma BusyStep(workers: map<nat, Worker>, i: nat, c: Worker)
    requires i in workers
    ensures |Busy(workers[i := c])| + (if IsBusy(workers[i]) then 1 else 0) ==
              |Busy(workers)| + (if IsBusy(c) then 1 else 0)
  {
    var after := Busy(workers[i := c]);
    if IsBusy(c) {
      assert after == Busy(workers) + {i};
    } else {
      assert after == Busy(workers) - {i};
    }
  }

  /** Jobs leave in the order they came, and every one is waiting, in work or finished. */
  ghost predicate Conserved(s: System)
  {
    && |s.queue| <= s.capacity
    && s.accepted == s.taken + s.queue
    && |s.taken| == |Busy(s.workers)| + s.finished
  }

  /** A closed mailer drains: workers leave only an empty, closed channel. */
  ghost predicate Drained(s: System)
  {
    && s.workers != map[]
    && (forall i :: i in s.workers && s.workers[i] == Exited ==> s.channelClosed && s.queue == [])
    && (forall i :: i in s.closers && s.closers[i] == Returned ==>
          forall w :: w in s.workers ==> s.workers[w] == Exited)
  }

  /** The key whose record a worker has created and not yet settled. */
  function Open(c: Worker): Option<MailKey>
  {
    if c.Delivering? || c.Marking? then Some(c.job.key) else None
  }

  ghost predicate Settled(records: map<MailKey, Delivery>, deliveries: multiset<MailKey>, key: MailKey)
  {
    && deliveries[key] <= 1
    && (key in deliveries ==> key in records)
    && (key in records ==> (if records[key].status == Pending then records[key].attempts == 0
                            else key in deliveries && records[key].attempts == 1))
  }

  predicate OpenSound(records: map<MailKey, Delivery>, deliveries: multiset<MailKey>, c: Worker)
  {
    Open(c).Some? ==> c.job.key in records && records[c.job.key] == Delivery(Pending, 0) &&
                      (c.Delivering? <==> c.job.key !in deliveries)
  }

  ghost predicate Private(workers: map<nat, Worker>)
  {
    forall i, j :: i in workers && j in workers && i != j && Open(workers[i]).Some? ==>
      Open(workers[i]) != Open(workers[j])
  }

  /** A key is delivered only between the creation of its record and its result. */
  ghost predicate OncePerKey(s: System)
  {
    && (forall key :: Settled(s.records, s.deliveries, key))
    && (forall i :: i in s.workers ==> OpenSound(s.records, s.deliveries, s.workers[i]))
    && Private(s.workers)
  }

  ghost predicate Inv(s: System)
  {
    Exclusive(s) && Conserved(s) && Drained(s) && OncePerKey(s)
  }

  lemma InitIsInv(s: System)
    requires Init(s)
    ensures Inv(s)
  {
  }

  /** Senders and closers leave the jobs in hand, the records and the deliveries alone. */
  ghost predicate SameJobs(s: System, s': System)
  {
    && s'.workers == s.workers && s'.records == s.records && s'.unrecorded == s.unrecorded
    && s'.taken == s.taken && s'.deliveries == s.deliveries
    && s'.results == s.results && s'.unmarked == s.unmarked
  }

  lemma SendLockMoves(s: System, i: nat, job: Job)
    requires Enabled(s, SendLock(i, job))
    ensures var s' := AfterSend(s, SendLock(i, job));
            SameJobs(s, s') && (Conserved(s) ==> Conserved(s')) &&
            (Exclusive(s) && Drained(s) ==> Exclusive(s') && Drained(s'))
  {
    hide Busy;
  }

  lemma SendCheckMoves(s: System, i: nat)
    requires Enabled(s, SendCheck(i))
    ensures var s' := AfterSend(s, SendCheck(i));
            SameJobs(s, s') && (Conserved(s) ==> Conserved(s')) &&
            (Exclusive(s) && Drained(s) ==> Exclusive(s') && Drained(s'))
  {
    hide Busy;
  }

  lemma SendTryMoves(s: System, i: nat)
    requires i in s.senders && s.senders[i].Unclosed?
    ensures SameJobs(s, AfterTry(s, i)) && (Conserved(s) ==> Conserved(AfterTry(s, i)))
  {
    hide Busy;
    assert SameJobs(s, AfterTry(s, i));
    assert (s.taken + s.queue) + [s.senders[i].job] == s.taken + (s.queue + [s.senders[i].job]);
    hide SameJobs;
  }

  lemma SendTryKeepsGate(s: System, i: nat)
    requires i in s.senders && s.senders[i].Unclosed? && Exclusive(s) && Drained(s)
    ensures Exclusive(AfterTry(s, i)) && Drained(AfterTry(s, i))
  {
    hide Busy, Conserved;
  }

  lemma SendMoves(s: System, step: Step)
    requires Enabled(s, step) && (step.SendLock? || step.SendCheck? || step.SendTry?)
    ensures var s' := AfterSend(s, step);
            SameJobs(s, s') && (Conserved(s) ==> Conserved(s')) &&
            (Exclusive(s) && Drained(s) ==> Exclusive(s') && Drained(s'))
  {
    hide SameJobs, Conserved, Exclusive, Drained, AfterTry;
    match step
    case SendLock(i, job) => SendLockMoves(s, i, job);
    case SendCheck(i) => SendCheckMoves(s, i);
    case SendTry(i) =>
      assert AfterSend(s, step) == AfterTry(s, i);
      SendTryMoves(s, i);
      if Exclusive(s) && Drained(s) {
        SendTryKeepsGate(s, i);
      }
  }

  lemma SendKeepsInv(s: System, step: Step)
    requires Inv(s) && Enabled(s, step) && (step.SendLock? || step.SendCheck? || step.SendTry?)
    ensures Inv(AfterSend(s, step))
  {
    SendMoves(s, step);
    hide AfterSend, Enabled, Exclusive, Drained, Conserved, OpenSound, Settled, Private;
  }

  lemma CloseKeepsGate(s: System, step: Step)
    requires Exclusive(s) && Drained(s)
    requires Enabled(s, step) && (step.CloseLock? || step.CloseCheck? || step.CloseChannel? || step.CloseReturn?)
    ensures Exclusive(AfterClose(s, step)) && Drained(AfterClose(s, step))
  {
  }

  lemma CloseKeepsInv(s: System, step: Step)
    requires Inv(s) && Enabled(s, step) &&
             (step.CloseLock? || step.CloseCheck? || step.CloseChannel? || step.CloseReturn?)
    ensures Inv(AfterClose(s, step))
  {
    CloseKeepsGate(s, step);
    hide Exclusive, Drained, Busy, OpenSound, Settled, Private;
    assert Conserved(AfterClose(s, step)) && OncePerKey(AfterClose(s, step));
  }

  /** A worker goes from `c` to `c'` with one more job finished if it was busy and no longer is. */
  lemma WorkerKeepsCount(s: System, s': System, i: nat)
    requires Conserved(s) && i in s.workers && i in s'.workers && s'.workers == s.workers[i := s'.workers[i]]
    requires s'.capacity == s.capacity && s'.accepted == s.accepted && s'.queue == s.queue && s'.taken == s.taken
    requires s'.finished == s.finished + (if IsBusy(s.workers[i]) && !IsBusy(s'.workers[i]) then 1 else 0)
    requires IsBusy(s'.workers[i]) ==> IsBusy(s.workers[i])
    ensures Conserved(s')
  {
    BusyStep(s.workers, i, s'.workers[i]);
  }

  /** Only workers, records and history differ, and a worker that leaves finds the channel drained. */
  lemma WorkerKeepsGate(s: System, s': System, i: nat)
    requires Exclusive(s) && Drained(s) && i in s.workers && i in s'.workers &&
             s'.workers == s.workers[i := s'.workers[i]]
    requires s.workers[i] != Exited && (s'.workers[i] == Exited ==> s.channelClosed && s.queue == [])
    requires s'.channelClosed == s.channelClosed && s'.closed == s.closed && s'.mutex == s.mutex &&
             s'.panicked == s.panicked
    requires s'.senders == s.senders && s'.closers == s.closers && (s.queue == [] ==> s'.queue == [])
    ensures Exclusive(s') && Drained(s')
  {
  }

  /** What one step of a worker does to the records and to the calls of the deliverer. */
  ghost predicate KeysMove(s: System, s': System, i: nat)
  {
    && i in s.workers && i in s'.workers && s'.workers == s.workers[i := s'.workers[i]]
    && var c, c' := s.workers[i], s'.workers[i];
       if c.Recording? && c'.Delivering? then
         c'.job == c.job && c.job.key !in s.records && s'.deliveries == s.deliveries &&
         s'.records == s.records[c.job.key := Delivery(Pending, 0)]
       else if c.Delivering? then
         c'.Marking? && c'.job == c.job && s'.records == s.records &&
           s'.deliveries == s.deliveries + multiset{c.job.key}
       else
         Open(c').None? && s'.deliveries == s.deliveries &&
         (s'.records == s.records || (c.Marking? && s'.records == Marked(s.records, c.job.key, c.sent)))
  }

  lemma MoveKeepsSettled(s: System, s': System, i: nat, key: MailKey)
    requires OncePerKey(s) && KeysMove(s, s', i)
    ensures Settled(s'.records, s'.deliveries, key)
  {
    hide Private;
    assert OpenSound(s.records, s.deliveries, s.workers[i]);
    assert Settled(s.records, s.deliveries, key);
  }

  lemma MoveKeepsOpen(s: System, s': System, i: nat, j: nat)
    requires OncePerKey(s) && KeysMove(s, s', i) && j in s'.workers
    ensures OpenSound(s'.records, s'.deliveries, s'.workers[j])
  {
    assert OpenSound(s.records, s.deliveries, s.workers[i]) && OpenSound(s.records, s.deliveries, s.workers[j]);
    assert s.workers[i].Recording? ==> Settled(s.records, s.deliveries, s.workers[i].job.key);
  }

  lemma MoveKeepsPrivate(s: System, s': System, i: nat)
    requires OncePerKey(s) && KeysMove(s, s', i)
    ensures Private(s'.workers)
  {
    hide Settled, Marked;
    forall j, k | j in s'.workers && k in s'.workers && j != k && Open(s'.workers[j]).Some?
      ensures Open(s'.workers[j]) != Open(s'.workers[k])
    {
      assert OpenSound(s.records, s.deliveries, s.workers[j]) && OpenSound(s.records, s.deliveries, s.workers[k]);
    }
  }

  lemma MoveKeepsKeys(s: System, s': System, i: nat)
    requires OncePerKey(s) && KeysMove(s, s', i)
    ensures OncePerKey(s')
  {
    hide KeysMove, Settled, OpenSound, Private;
    forall key
      ensures Settled(s'.records, s'.deliveries, key)
    {
      MoveKeepsSettled(s, s', i, key);
    }
    forall j | j in s'.workers
      ensures OpenSound(s'.records, s'.deliveries, s'.workers[j])
    {
      MoveKeepsOpen(s, s', i, j);
    }
    MoveKeepsPrivate(s, s', i);
  }

  lemma ReceiveKeepsInv(s: System, i: nat)
    requires Inv(s) && i in s.workers && s.workers[i] == Ready && s.queue != []
    ensures Inv(AfterReceive(s, i))
  {
    hide Exclusive, Drained, OncePerKey, Busy;
    var s' := AfterReceive(s, i);
    BusyStep(s.workers, i, Recording(s.queue[0]));
    assert s.queue == [s.queue[0]] + s.queue[1..];
    WorkerKeepsGate(s, s', i);
    MoveKeepsKeys(s, s', i);
  }

  lemma ExitKeepsInv(s: System, i: nat)
    requires Inv(s) && i in s.workers && s.workers[i] == Ready && s.queue == [] && s.channelClosed
    ensures Inv(s.(workers := s.workers[i := Exited]))
  {
    hide Exclusive, Drained, OncePerKey, Conserved;
    var s' := s.(workers := s.workers[i := Exited]);
    WorkerKeepsCount(s, s', i);
    WorkerKeepsGate(s, s', i);
    MoveKeepsKeys(s, s', i);
  }

  lemma RecordKeepsInv(s: System, i: nat, fails: bool)
    requires Inv(s) && i in s.workers && s.workers[i].Recording?
    ensures Inv(AfterRecord(s, i, fails))
  {
    hide Exclusive, Drained, OncePerKey, Conserved;
    var s' := AfterRecord(s, i, fails);
    RecordMovesKeys(s, i, fails);
    WorkerKeepsCount(s, s', i);
    WorkerKeepsGate(s, s', i);
    hide AfterRecord, KeysMove;
    MoveKeepsKeys(s, s', i);
  }

  lemma RecordMovesKeys(s: System, i: nat, fails: bool)
    requires i in s.workers && s.workers[i].Recording?
    ensures KeysMove(s, AfterRecord(s, i, fails), i)
  {
  }

  lemma DeliverKeepsInv(s: System, i: nat, succeeds: bool)
    requires Inv(s) && i in s.workers && s.workers[i].Delivering?
    ensures Inv(AfterDeliver(s, i, succeeds))
  {
    hide Exclusive, Drained, OncePerKey, Conserved;
    var s' := AfterDeliver(s, i, succeeds);
    WorkerKeepsCount(s, s', i);
    WorkerKeepsGate(s, s', i);
    MoveKeepsKeys(s, s', i);
  }

  lemma MarkKeepsInv(s: System, i: nat, fails: bool)
    requires Inv(s) && i in s.workers && s.workers[i].Marking?
    ensures Inv(AfterMark(s, i, fails))
  {
    hide Exclusive, Drained, OncePerKey, Conserved, Marked;
    var s' := AfterMark(s, i, fails);
    WorkerKeepsCount(s, s', i);
    WorkerKeepsGate(s, s', i);
    MoveKeepsKeys(s, s', i);
  }

  lemma StepKeepsInv(s: System, step: Step)
    requires Inv(s) && Enabled(s, step)
    ensures Inv(After(s, step))
  {
    hide Inv, AfterReceive, AfterRecord, AfterDeliver, AfterMark, AfterSend, AfterClose;
    match step
    case Receive(i) => ReceiveKeepsInv(s, i);
    case Exit(i) => ExitKeepsInv(s, i);
    case Record(i, fails) => RecordKeepsInv(s, i, fails);
    case Deliver(i, succeeds) => DeliverKeepsInv(s, i, succeeds);
    case Mark(i, fails) => MarkKeepsInv(s, i, fails);
    case SendLock(_, _) => SendKeepsInv(s, step);
    case SendCheck(_) => SendKeepsInv(s, step);
    case SendTry(_) => SendKeepsInv(s, step);
    case CloseLock(_) => CloseKeepsInv(s, step);
    case CloseCheck(_) => CloseKeepsInv(s, step);
    case CloseChannel(_) => CloseKeepsInv(s, step);
    case CloseReturn(_) => CloseKeepsInv(s, step);
  }

  lemma {:induction false} ReachedInv(s: System, n: nat)
    requires Reached(s, n)
    ensures Inv(s)
    decreases n
  {
    hide Inv, Enabled, After, Init;
    if n == 0 {
      InitIsInv(s);
    } else {
      var before, step :| Reached(before, n - 1) && Takes(before, step, s);
      ReachedInv(before, n - 1);
      StepKeepsInv(before, step);
    }
  }

  /**
   * For any schedule of senders, workers and closers: nothing is sent on or closes a closed
   * channel, the bound holds, jobs leave in order and accepted = waiting + in work + finished, a
   * key is delivered at most once, and a Close that returned nil means every job is finished.
   */
  lemma MailerIsSafe(s: System, n: nat)
    requires Reached(s, n)
    ensures !s.panicked && |s.queue| <= s.capacity
    ensures s.accepted == s.taken + s.queue && |s.accepted| == |s.queue| + |Busy(s.workers)| + s.finished
    ensures forall key :: s.deliveries[key] <= 1
    ensures (exists i :: i in s.closers && s.closers[i] == Returned) ==> s.queue == [] && |s.accepted| == s.finished
  {
    ReachedInv(s, n);
    CountsAddUp(s);
    if i :| i in s.closers && s.closers[i] == Returned {
      ReturnedMeansDone(s, i);
    }
    hide Drained, Conserved, Busy;
    forall key
      ensures s.deliveries[key] <= 1
    {
      assert Settled(s.records, s.deliveries, key);
    }
  }

  lemma CountsAddUp(s: System)
    requires Conserved(s)
    ensures |s.queue| <= s.capacity
    ensures s.accepted == s.taken + s.queue && |s.accepted| == |s.queue| + |Busy(s.workers)| + s.finished
  {
  }

  lemma ReturnedMeansDone(s: System, i: nat)
    requires Conserved(s) && Drained(s) && i in s.closers && s.closers[i] == Returned
    ensures s.queue == [] && |s.accepted| == s.finished
  {
  }

  // ---- What becomes of every job ----

  /** The job's key was recorded, or could not be, or is being recorded. */
  ghost predicate Treated(s: System, key: MailKey)
  {
    key in s.records || key in s.unrecorded || exists i :: i in s.workers && s.workers[i] == Recording(Job(key))
  }

  /** A created record was delivered or is about to be. */
  ghost predicate Sending(s: System, key: MailKey)
  {
    key in s.deliveries || exists i :: i in s.workers && s.workers[i] == Delivering(Job(key))
  }

  ghost predicate NoJobForgotten(s: System)
  {
    && (forall job :: job in s.taken ==> Treated(s, job.key))
    && (forall key :: key in s.records ==> Sending(s, key))
  }

  /** Records, failures and work in hand all come from jobs that were accepted. */
  ghost predicate NothingInvented(s: System)
  {
    && (forall key :: key in s.records || key in s.unrecorded ==> Job(key) in s.taken)
    && (forall i :: i in s.workers && IsBusy(s.workers[i]) ==> s.workers[i].job in s.taken)
  }

  /** What a step of worker `i` does to the jobs: it takes one, records one, delivers one, or drops it. */
  ghost predicate JobsMove(s: System, s': System, i: nat)
  {
    && i in s.workers && i in s'.workers && s'.workers == s.workers[i := s'.workers[i]]
    && s.records.Keys <= s'.records.Keys && s.unrecorded <= s'.unrecorded && s.deliveries <= s'.deliveries
    && JobMoves(s, s', s.workers[i], s'.workers[i])
  }

  ghost predicate JobMoves(s: System, s': System, c: Worker, c': Worker)
  {
    && (c.Recording? ==> c.job.key in s'.records || c.job.key in s'.unrecorded)
    && (c.Delivering? ==> c.job.key in s'.deliveries)
    && (forall key :: key in s'.records && key !in s.records ==> c == Recording(Job(key)) && c' == Delivering(Job(key)))
    && (forall key :: key in s'.unrecorded && key !in s.unrecorded ==> c == Recording(Job(key)))
    && (s'.taken == s.taken || (c'.Recording? && s'.taken == s.taken + [c'.job]))
    && (IsBusy(c') ==> c'.job in s'.taken[|s.taken|..] || (IsBusy(c) && c'.job == c.job))
  }

  lemma JobsMoveKeeps(s: System, s': System, i: nat)
    requires JobsMove(s, s', i) && NoJobForgotten(s) && NothingInvented(s)
    ensures NoJobForgotten(s') && NothingInvented(s')
  {
    forall job | job in s'.taken
      ensures Treated(s', job.key)
    {
      MoveTreats(s, s', i, job.key);
    }
    forall key | key in s'.records
      ensures Sending(s', key)
    {
      MoveSends(s, s', i, key);
    }
    hide Treated, Sending;
  }

  lemma MoveTreats(s: System, s': System, i: nat, key: MailKey)
    requires JobsMove(s, s', i) && Job(key) in s'.taken && (Job(key) in s.taken ==> Treated(s, key))
    ensures Treated(s', key)
  {
    if Job(key) !in s.taken {
      assert s'.workers[i] == Recording(Job(key));
    } else if w :| w in s.workers && s.workers[w] == Recording(Job(key)) {
      assert w != i ==> s'.workers[w] == s.workers[w];
    }
  }

  lemma MoveSends(s: System, s': System, i: nat, key: MailKey)
    requires JobsMove(s, s', i) && key in s'.records && (key in s.records ==> Sending(s, key))
    ensures Sending(s', key)
  {
    if key !in s.records {
      assert s'.workers[i] == Delivering(Job(key));
    } else if w :| w in s.workers && s.workers[w] == Delivering(Job(key)) {
      assert w != i ==> s'.workers[w] == s.workers[w];
    }
  }

  lemma SameJobsKeep(s: System, s': System)
    requires SameJobs(s, s') && NoJobForgotten(s) && NothingInvented(s)
    ensures NoJobForgotten(s') && NothingInvented(s')
  {
    assert forall key :: Treated(s, key) ==> Treated(s', key);
    assert forall key :: Sending(s, key) ==> Sending(s', key);
  }

  lemma CloseMovesNoJob(s: System, step: Step)
    requires Enabled(s, step) && (step.CloseLock? || step.CloseCheck? || step.CloseChannel? || step.CloseReturn?)
    ensures SameJobs(s, AfterClose(s, step))
  {
  }

  lemma ReceiveMovesJob(s: System, i: nat)
    requires i in s.workers && s.workers[i] == Ready && s.queue != []
    ensures JobsMove(s, AfterReceive(s, i), i)
  {
    assert AfterReceive(s, i).taken[|s.taken|..] == [s.queue[0]];
  }

  lemma DropMovesJob(s: System, i: nat, fails: bool)
    requires i in s.workers && s.workers[i].Recording? && (fails || s.workers[i].job.key in s.records)
    ensures JobsMove(s, AfterRecord(s, i, fails), i)
  {
    assert AfterRecord(s, i, fails).workers == s.workers[i := Ready];
  }

  lemma RecordMovesJob(s: System, i: nat, fails: bool)
    requires i in s.workers && s.workers[i].Recording?
    ensures JobsMove(s, AfterRecord(s, i, fails), i)
  {
    if fails || s.workers[i].job.key in s.records {
      hide AfterRecord, JobsMove;
      DropMovesJob(s, i, fails);
    } else {
      assert AfterRecord(s, i, fails).workers == s.workers[i := Delivering(s.workers[i].job)];
    }
  }

  lemma DeliverMovesJob(s: System, i: nat, succeeds: bool)
    requires i in s.workers && s.workers[i].Delivering?
    ensures JobsMove(s, AfterDeliver(s, i, succeeds), i)
  {
  }

  lemma MarkMovesJob(s: System, i: nat, fails: bool)
    requires i in s.workers && s.workers[i].Marking?
    ensures JobsMove(s, AfterMark(s, i, fails), i)
  {
  }

  lemma ExitMovesJob(s: System, i: nat)
    requires i in s.workers && s.workers[i] == Ready
    ensures JobsMove(s, s.(workers := s.workers[i := Exited]), i)
  {
  }

  lemma StepTreats(s: System, step: Step)
    requires NoJobForgotten(s) && NothingInvented(s) && Enabled(s, step)
    ensures NoJobForgotten(After(s, step)) && NothingInvented(After(s, step))
  {
    hide NoJobForgotten, NothingInvented, JobsMove, SameJobs;
    hide AfterReceive, AfterRecord, AfterDeliver, AfterMark, AfterSend, AfterClose;
    var s' := After(s, step);
    match step
    case Receive(i) => ReceiveMovesJob(s, i); JobsMoveKeeps(s, s', i);
    case Exit(i) => ExitMovesJob(s, i); JobsMoveKeeps(s, s', i);
    case Record(i, fails) => RecordMovesJob(s, i, fails); JobsMoveKeeps(s, s', i);
    case Deliver(i, succeeds) => DeliverMovesJob(s, i, succeeds); JobsMoveKeeps(s, s', i);
    case Mark(i, fails) => MarkMovesJob(s, i, fails); JobsMoveKeeps(s, s', i);
    case SendLock(_, _) => SendMoves(s, step); SameJobsKeep(s, s');
    case SendCheck(_) => SendMoves(s, step); SameJobsKeep(s, s');
    case SendTry(_) => SendMoves(s, step); SameJobsKeep(s, s');
    case CloseLock(_) => CloseMovesNoJob(s, step); SameJobsKeep(s, s');
    case CloseCheck(_) => CloseMovesNoJob(s, step); SameJobsKeep(s, s');
    case CloseChannel(_) => CloseMovesNoJob(s, step); SameJobsKeep(s, s');
    case CloseReturn(_) => CloseMovesNoJob(s, step); SameJobsKeep(s, s');
  }

  // ---- What a record says ----

  /** A worker has created the key's record and not settled it yet. */
  ghost predicate BeingSent(s: System, key: MailKey)
  {
    exists i :: i in s.workers && Open(s.workers[i]) == Some(key)
  }

  /** A record says what became of its delivery, unless that could not be recorded or is not known yet. */
  ghost predicate Truthful(s: System, key: MailKey)
  {
    key in s.records ==>
      match s.records[key].status
      case Pending => key in s.unmarked || BeingSent(s, key)
      case Sent => key !in s.unmarked && key in s.results && s.results[key]
      case Failed => key !in s.unmarked && key in s.results && !s.results[key]
  }

  /** A worker about to settle a record knows the result of its delivery, and nobody gave up on it. */
  predicate Remembers(s: System, c: Worker)
  {
    && (c.Marking? ==> c.job.key in s.results && s.results[c.job.key] == c.sent)
    && (Open(c).Some? ==> c.job.key !in s.unmarked)
  }

  ghost predicate AllTruthful(s: System)
  {
    && (forall key :: Truthful(s, key))
    && (forall i :: i in s.workers ==> Remembers(s, s.workers[i]))
    && (forall key :: key in s.unmarked ==> key in s.records)
  }

  /** What a step of worker `i` does to records, results and history. */
  ghost predicate ResultsMove(s: System, s': System, i: nat)
  {
    && i in s.workers && i in s'.workers && s'.workers == s.workers[i := s'.workers[i]]
    && var c, c' := s.workers[i], s'.workers[i];
       if c.Delivering? then
         c'.Marking? && c'.job == c.job && s'.records == s.records && s'.unmarked == s.unmarked &&
         s'.results == s.results[c.job.key := c'.sent]
       else if c.Marking? then
         c' == Ready && s'.results == s.results &&
         ((s'.records == s.records && s'.unmarked == s.unmarked + {c.job.key}) ||
          (s'.records == Marked(s.records, c.job.key, c.sent) && s'.unmarked == s.unmarked))
       else if c'.Delivering? then
         c == Recording(c'.job) && c.job.key !in s.records && s'.results == s.results && s'.unmarked == s.unmarked &&
         s'.records == s.records[c.job.key := Delivery(Pending, 0)]
       else
         Open(c').None? && s'.records == s.records && s'.results == s.results && s'.unmarked == s.unmarked
  }

  lemma ResultsMoveTruthful(s: System, s': System, i: nat, key: MailKey)
    requires ResultsMove(s, s', i) && OncePerKey(s) && AllTruthful(s)
    ensures Truthful(s', key)
  {
    var c := s.workers[i];
    assert OpenSound(s.records, s.deliveries, c) && Remembers(s, c) && Truthful(s, key);
    hide Settled, Private, AllTruthful;
    if Open(s'.workers[i]) == Some(key) {
      assert BeingSent(s', key);
    } else if w :| w in s.workers && w != i && Open(s.workers[w]) == Some(key) {
      assert Open(s'.workers[w]) == Some(key) && BeingSent(s', key);
      assert OpenSound(s.records, s.deliveries, s.workers[w]);
    }
  }

  lemma ResultsMoveRemembers(s: System, s': System, i: nat, j: nat)
    requires ResultsMove(s, s', i) && OncePerKey(s) && AllTruthful(s) && j in s'.workers
    ensures Remembers(s', s'.workers[j])
  {
    hide Settled, Truthful;
    assert Remembers(s, s.workers[i]) && Remembers(s, s.workers[j]);
    assert i != j && Open(s.workers[i]).Some? ==> Open(s.workers[i]) != Open(s.workers[j]);
  }

  lemma ResultsMoveKeeps(s: System, s': System, i: nat)
    requires ResultsMove(s, s', i) && OncePerKey(s) && AllTruthful(s)
    ensures AllTruthful(s')
  {
    assert Open(s.workers[i]).Some? ==> s.workers[i].job.key in s.records by {
      assert OpenSound(s.records, s.deliveries, s.workers[i]);
    }
    forall key
      ensures Truthful(s', key)
    {
      ResultsMoveTruthful(s, s', i, key);
    }
    forall j | j in s'.workers
      ensures Remembers(s', s'.workers[j])
    {
      ResultsMoveRemembers(s, s', i, j);
    }
    hide OncePerKey, Truthful, Remembers;
  }

  lemma SameResultsKeep(s: System, s': System)
    requires AllTruthful(s) && SameJobs(s, s')
    ensures AllTruthful(s')
  {
    forall key
      ensures Truthful(s', key)
    {
      assert Truthful(s, key) && (BeingSent(s, key) ==> BeingSent(s', key));
    }
    forall i | i in s'.workers
      ensures Remembers(s', s'.workers[i])
    {
      assert Remembers(s, s.workers[i]);
    }
  }

  lemma ReceiveMovesResult(s: System, i: nat)
    requires i in s.workers && s.workers[i] == Ready && s.queue != []
    ensures ResultsMove(s, AfterReceive(s, i), i)
  {
  }

  lemma RecordMovesResult(s: System, i: nat, fails: bool)
    requires i in s.workers && s.workers[i].Recording?
    ensures ResultsMove(s, AfterRecord(s, i, fails), i)
  {
  }

  lemma DeliverMovesResult(s: System, i: nat, succeeds: bool)
    requires i in s.workers && s.workers[i].Delivering?
    ensures ResultsMove(s, AfterDeliver(s, i, succeeds), i)
  {
  }

  lemma MarkMovesResult(s: System, i: nat, fails: bool)
    requires i in s.workers && s.workers[i].Marking?
    ensures ResultsMove(s, AfterMark(s, i, fails), i)
  {
  }

  lemma ExitMovesResult(s: System, i: nat)
    requires i in s.workers && s.workers[i] == Ready
    ensures ResultsMove(s, s.(workers := s.workers[i := Exited]), i)
  {
  }

  lemma StepStaysTruthful(s: System, step: Step)
    requires OncePerKey(s) && AllTruthful(s) && Enabled(s, step)
    ensures AllTruthful(After(s, step))
  {
    hide OncePerKey, AllTruthful, ResultsMove, SameJobs;
    hide AfterReceive, AfterRecord, AfterDeliver, AfterMark, AfterSend, AfterClose;
    var s' := After(s, step);
    match step
    case Receive(i) => ReceiveMovesResult(s, i); ResultsMoveKeeps(s, s', i);
    case Exit(i) => ExitMovesResult(s, i); ResultsMoveKeeps(s, s', i);
    case Record(i, fails) => RecordMovesResult(s, i, fails); ResultsMoveKeeps(s, s', i);
    case Deliver(i, succeeds) => DeliverMovesResult(s, i, succeeds); ResultsMoveKeeps(s, s', i);
    case Mark(i, fails) => MarkMovesResult(s, i, fails); ResultsMoveKeeps(s, s', i);
    case SendLock(_, _) => SendMoves(s, step); SameResultsKeep(s, s');
    case SendCheck(_) => SendMoves(s, step); SameResultsKeep(s, s');
    case SendTry(_) => SendMoves(s, step); SameResultsKeep(s, s');
    case CloseLock(_) => CloseMovesNoJob(s, step); SameResultsKeep(s, s');
    case CloseCheck(_) => CloseMovesNoJob(s, step); SameResultsKeep(s, s');
    case CloseChannel(_) => CloseMovesNoJob(s, step); SameResultsKeep(s, s');
    case CloseReturn(_) => CloseMovesNoJob(s, step); SameResultsKeep(s, s');
  }

  lemma NothingRecorded(s: System)
    requires Init(s)
    ensures AllTruthful(s)
  {
  }

  lemma {:induction false} ReachedTruthful(s: System, n: nat)
    requires Reached(s, n)
    ensures AllTruthful(s)
    decreases n
  {
    hide Enabled, After, AllTruthful, Inv;
    if n == 0 {
      NothingRecorded(s);
    } else {
      var before, step :| Reached(before, n - 1) && Takes(before, step, s);
      ReachedTruthful(before, n - 1);
      OnceReached(before, n - 1);
      StepStaysTruthful(before, step);
    }
  }

  lemma OnceReached(s: System, n: nat)
    requires Reached(s, n)
    ensures OncePerKey(s)
  {
    hide Reached, OncePerKey;
    ReachedInv(s, n);
  }

  /**
   * In every run a record reads sent only if the one delivery of its key succeeded, failed only if it
   * failed, and pending only while it is being delivered or if its result could not be recorded.
   */
  lemma RecordsTellTheTruth(s: System, n: nat, key: MailKey)
    requires Reached(s, n) && key in s.records
    ensures s.records[key].status == Sent ==> key in s.results && s.results[key] && s.deliveries[key] == 1
    ensures s.records[key].status == Failed ==> key in s.results && !s.results[key] && s.deliveries[key] == 1
    ensures s.records[key].status == Pending ==> key in s.unmarked || BeingSent(s, key)
    ensures key in s.unmarked && !BeingSent(s, key) ==> s.records[key].status == Pending
  {
    hide Reached;
    ReachedTruthful(s, n);
    OnceReached(s, n);
    assert Truthful(s, key) && Settled(s.records, s.deliveries, key);
  }

  lemma {:induction false} ReachedTreats(s: System, n: nat)
    requires Reached(s, n)
    ensures NoJobForgotten(s) && NothingInvented(s)
    decreases n
  {
    hide Enabled, After, NoJobForgotten, NothingInvented;
    if n == 0 {
      NothingTaken(s);
    } else {
      var before, step :| Reached(before, n - 1) && Takes(before, step, s);
      ReachedTreats(before, n - 1);
      StepTreats(before, step);
    }
  }

  lemma NothingTaken(s: System)
    requires Init(s)
    ensures NoJobForgotten(s) && NothingInvented(s)
  {
  }

  /**
   * When a Close has returned nil, in any schedule: every accepted job's key has a record unless
   * recording it failed, only accepted keys have one, and each record's mail was delivered exactly
   * once and no other at all.
   */
  lemma ClosedMeansTreated(s: System, n: nat, i: nat)
    requires Reached(s, n) && i in s.closers && s.closers[i] == Returned
    ensures forall job :: job in s.accepted ==> job.key in s.records || job.key in s.unrecorded
    ensures forall key :: key in s.records || key in s.unrecorded ==> Job(key) in s.accepted
    ensures forall key :: s.deliveries[key] == if key in s.records then 1 else 0
    ensures forall key :: key in s.records && key !in s.unmarked ==>
              key in s.results && s.records[key].status == if s.results[key] then Sent else Failed
  {
    ReachedInv(s, n);
    ReachedTreats(s, n);
    ReachedTruthful(s, n);
    ReturnedMeansDone(s, i);
    AllExited(s, i);
    hide Reached, Drained, Busy;
    forall key | key in s.records && key !in s.unmarked
      ensures key in s.results && s.records[key].status == if s.results[key] then Sent else Failed
    {
      assert Truthful(s, key) && !BeingSent(s, key);
    }
    forall key
      ensures s.deliveries[key] == if key in s.records then 1 else 0
    {
      assert Settled(s.records, s.deliveries, key);
      assert key in s.records ==> Sending(s, key);
    }
  }

  lemma AllExited(s: System, i: nat)
    requires Drained(s) && i in s.closers && s.closers[i] == Returned
    ensures forall w :: w in s.workers ==> s.workers[w] == Exited
  {
  }

  /** After a Close returned nil nothing changes any more but who holds the mutex. */
  lemma ClosedForGood(s: System, step: Step, i: nat)
    requires Inv(s) && Enabled(s, step) && i in s.closers && s.closers[i] == Returned
    ensures var s' := After(s, step);
            s'.accepted == s.accepted && s'.deliveries == s.deliveries && s'.records == s.records &&
              s'.closers[i] == Returned
  {
  }
}
