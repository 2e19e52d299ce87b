/** Bounded channels, and the task an activation spawns (src/worker/job_poller.rs). */
module Activation {
  import opened Common
  import opened PollerSpec
  import opened JobPolling
  import opened WorkerProtocol

  /** A bounded channel: a sender needs a free place, the receiver takes the oldest item. */
  class Channel<T> {
    const capacity: nat
    var items: seq<T>

    constructor (capacity: nat)
      ensures items == [] && this.capacity == capacity
    {
      this.capacity := capacity;
      items := [];
    }

    method Send(item: T)
      requires |items| < capacity
      modifies this
      ensures items == old(items) + [item]
    {
      items := items + [item];
    }

    method Receive() returns (item: T)
      requires |items| > 0
      modifies this
      ensures [item] + items == old(items) && items == old(items)[1..] && item == old(items)[0]
    {
      item := items[0];
      items := items[1..];
    }
  }

  datatype Stage = Called | Open | Closed | Over

  class ActivationTask {
    const id: nat
    const request: ActivateJobsRequest
    var stage: Stage
    var totalJobs: nat
    var batch: seq<int>

    function State(): Task
      reads this
    {
      match stage
      case Called => Requesting(id, request.maxJobsToActivate)
      case Open => Streaming(id, request.maxJobsToActivate, totalJobs, batch)
      case Closed => Reporting(id, request.maxJobsToActivate, totalJobs)
      case Over => Completing(id)
    }

    constructor (id: nat, request: ActivateJobsRequest)
      ensures this.id == id && this.request == request && State() == Requesting(id, request.maxJobsToActivate)
    {
      this.id, this.request, stage, totalJobs, batch := id, request, Called, 0, [];
    }

    /** What the task does between one await and the next. It is done when it has sent its last message. */
    method Advance(step: TaskStep, jobQueue: Channel<Job>, pollQueue: Channel<PollMessage>, serial: nat)
      returns (done: bool)
      requires TaskReady(State(), step)
      requires Fits(TaskMessage(State(), step), |pollQueue.items|, pollQueue.capacity)
      requires Fits(TaskJob(State(), step, serial), |jobQueue.items|, jobQueue.capacity)
      modifies this, jobQueue, pollQueue
      ensures NextTask(old(State()), step) == if done then [] else [State()]
      ensures pollQueue.items == old(pollQueue.items) + TaskMessage(old(State()), step)
      ensures jobQueue.items == old(jobQueue.items) + TaskJob(old(State()), step, serial)
    {
      done := false;
      match step
      case CallFails =>
        stage := Over;
      case StreamOpens =>
        stage, totalJobs, batch := Open, 0, [];
      case Receive(keys) =>
        totalJobs, batch := totalJobs + |keys|, keys;
      case QueueJob =>
        jobQueue.Send(Job(serial, id, batch[0]));
        batch := batch[1..];
      case StreamEnds =>
        stage := Closed;
      case Announce =>
        pollQueue.Send(JobsArrived(id, totalJobs));
        stage := Over;
      case TimesOut =>
        stage := Over;
      case Complete =>
        pollQueue.Send(FetchJobsComplete(id));
        done := true;
    }

    /**
     The task from its call to its end, step by step, when no queue is full and no timeout strikes:
     every job of every batch is queued in order, then their number is announced.
     */
    method RunUndisturbed(batches: seq<seq<int>>, jobQueue: Channel<Job>, pollQueue: Channel<PollMessage>, serial: nat)
      returns (done: bool)
      requires stage == Called && |Flatten(batches)| <= request.maxJobsToActivate
      requires |jobQueue.items| + |Flatten(batches)| <= jobQueue.capacity && |pollQueue.items| + 2 <= pollQueue.capacity
      modifies this, jobQueue, pollQueue
      ensures done && jobQueue.items == old(jobQueue.items) + Jobs(id, serial, Flatten(batches))
      ensures pollQueue.items == old(pollQueue.items) + [JobsArrived(id, |Flatten(batches)|), FetchJobsComplete(id)]
    {
      ghost var queued := jobQueue.items;
      done := Advance(StreamOpens, jobQueue, pollQueue, serial);
      assert batches[..0] == [];
      for b := 0 to |batches|
        invariant State() == Streaming(id, request.maxJobsToActivate, |Flatten(batches[..b])|, [])
        invariant jobQueue.items == queued + Jobs(id, serial, Flatten(batches[..b]))
        invariant pollQueue.items == old(pollQueue.items)
      {
        assert batches[..b + 1][..b] == batches[..b];
        FlattenGrows(batches, b + 1);
        done := Advance(Receive(batches[b]), jobQueue, pollQueue, serial);
        QueueBatch(Flatten(batches[..b]), jobQueue, pollQueue, serial, queued);
      }
      assert batches[..|batches|] == batches;
      done := Advance(StreamEnds, jobQueue, pollQueue, serial);
      done := Advance(Announce, jobQueue, pollQueue, serial);
      done := Advance(Complete, jobQueue, pollQueue, serial);
    }

    /** The inner loop: queues the current batch, after the jobs of the batches `before` it. */
    method QueueBatch(before: seq<int>, jobQueue: Channel<Job>, pollQueue: Channel<PollMessage>, serial: nat,
                      ghost queued: seq<Job>)
      requires stage == Open && totalJobs == |before| + |batch| && |queued| + totalJobs <= jobQueue.capacity
      requires jobQueue.items == queued + Jobs(id, serial, before)
      modifies this, jobQueue, pollQueue
      ensures State() == Streaming(id, request.maxJobsToActivate, old(totalJobs), [])
      ensures pollQueue.items == old(pollQueue.items)
      ensures jobQueue.items == queued + Jobs(id, serial, before + old(batch))
    {
      var keys := batch;
      assert before + keys[..0] == before;
      for j := 0 to |keys|
        invariant State() == Streaming(id, request.maxJobsToActivate, old(totalJobs), keys[j..])
        invariant jobQueue.items == queued + Jobs(id, serial, before + keys[..j])
        invariant pollQueue.items == old(pollQueue.items)
      {
        assert before + keys[..j + 1] == before + keys[..j] + [keys[j]];
        var _ := Advance(QueueJob, jobQueue, pollQueue, serial + |before| + j);
      }
      assert keys[..|keys|] == keys;
    }
  }

  function Flatten(batches: seq<seq<int>>): seq<int> {
    if |batches| == 0 then [] else Flatten(batches[..|batches| - 1]) + batches[|batches| - 1]
  }

  lemma {:induction false} FlattenGrows(batches: seq<seq<int>>, n: nat)
    requires n <= |batches|
    ensures |Flatten(batches[..n])| <= |Flatten(batches)|
    decreases |batches|
  {
    if n < |batches| {
      FlattenGrows(batches[..|batches| - 1], n);
      assert batches[..|batches| - 1][..n] == batches[..n];
    } else {
      assert batches[..n] == batches;
    }
  }

  /** The jobs one activation puts in the queue, numbered from `serial`. */
  function Jobs(id: nat, serial: nat, keys: seq<int>): seq<Job> {
    seq(|keys|, i requires 0 <= i < |keys| => Job(serial + i, id, keys[i]))
  }
}
