/**
 * The mailer's code without concurrency: putting a job in the bounded queue, the record, deliver,
 * mark sequence of one job, and the drain that Close waits for. MailQueue interleaves the steps.
 */
module MailService {
  import opened MailQueue

  /** Which outside calls for one job fail. */
  datatype Faults = Faults(record: bool, deliver: bool, mark: bool)

  /** The record of a key after one job with it was processed. */
  function Processed(records: map<MailKey, Delivery>, key: MailKey, faults: Faults): map<MailKey, Delivery>
  {
    if faults.record || key in records then records
    else
      var pending := records[key := Delivery(Pending, 0)];
      if faults.mark then pending else Marked(pending, key, !faults.deliver)
  }

  class AsyncMailer {
    const capacity: nat
    var queue: seq<Job>
    var closed: bool
    var records: map<MailKey, Delivery>
    ghost var deliveries: multiset<MailKey>

    ghost predicate Valid()
      reads this
    {
      |queue| <= capacity && forall key :: Settled(records, deliveries, key)
    }

    constructor (capacity: nat)
      ensures Valid() && this.capacity == capacity && queue == [] && !closed && records == map[]
    {
      this.capacity := capacity;
      queue := [];
      closed := false;
      records := map[];
      deliveries := multiset{};
    }

    /** Dropped when closed or full; otherwise it joins at the end. */
    method Enqueue(job: Job) returns (accepted: bool)
      requires Valid()
      modifies this`queue
      ensures Valid()
      ensures accepted <==> !closed && |old(queue)| < capacity
      ensures queue == if accepted then old(queue) + [job] else old(queue)
    {
      if closed {
        return false;
      }
      if |queue| < capacity {
        queue := queue + [job];
        return true;
      }
      return false;
    }

    /** Calls the deliverer exactly when this job created the record of its key. */
    method Process(job: Job, faults: Faults)
      requires Valid()
      modifies this`records, this`deliveries
      ensures Valid()
      ensures records == Processed(old(records), job.key, faults)
      ensures !faults.record && job.key !in old(records) ==>
                records == old(records)[job.key := if faults.mark then Delivery(Pending, 0)
                                                   else Delivery(if faults.deliver then Failed else Sent, 1)]
      ensures faults.record || job.key in old(records) ==> records == old(records)
      ensures deliveries == old(deliveries) +
                if !faults.record && job.key !in old(records) then multiset{job.key} else multiset{}
    {
      if faults.record {
        return;
      }
      if job.key in records {
        return;
      }
      assert forall key :: Settled(records, deliveries, key);
      assert Settled(records, deliveries, job.key);
      records := records[job.key := Delivery(Pending, 0)];
      deliveries := deliveries + multiset{job.key};
      if !faults.mark {
        records := Marked(records, job.key, !faults.deliver);
      }
      forall key
        ensures Settled(records, deliveries, key)
      {
        assert Settled(old(records), old(deliveries), key);
      }
    }

    /** One worker's loop on a closed channel; `faults` says what goes wrong for each job. */
    method Work(faults: nat -> Faults)
      requires Valid() && closed
      modifies this`queue, this`records, this`deliveries
      ensures Valid() && queue == []
      ensures forall key :: key in old(deliveries) ==> key in deliveries
      ensures forall k :: 0 <= k < |old(queue)| && !faults(k).record ==> old(queue)[k].key in records
      ensures forall k :: 0 <= k < |old(queue)| && !faults(k).record && old(queue)[k].key !in old(records) ==>
                deliveries[old(queue)[k].key] == 1
    {
      ghost var jobs := queue;
      var done: nat := 0;
      while queue != []
        invariant Valid() && done <= |jobs| && queue == jobs[done..]
        invariant old(records).Keys <= records.Keys && forall key :: key in old(deliveries) ==> key in deliveries
        invariant forall k :: 0 <= k < done && !faults(k).record ==> jobs[k].key in records
        invariant forall key :: key in records && key !in old(records) ==> deliveries[key] == 1
        decreases |queue|
      {
        var job := queue[0];
        queue := queue[1..];
        assert Settled(records, deliveries, job.key);
        Process(job, faults(done));
        done := done + 1;
      }
    }

    /** Stops the intake and works off what was accepted before. */
    method Close(faults: nat -> Faults)
      requires Valid()
      modifies this
      ensures Valid() && closed && queue == []
      ensures forall k :: 0 <= k < |old(queue)| && !faults(k).record && old(queue)[k].key !in old(records) ==>
                deliveries[old(queue)[k].key] == 1
    {
      closed := true;
      Work(faults);
    }
  }
}
