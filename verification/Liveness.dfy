/**
 When the worker keeps asking for jobs, and when it stops for good. A `JobFinished` polled
 before the `JobsArrived` that counts its job is clipped away, and that job is then counted
 as active for ever: enough of these, and the poller never activates again.
 */
module Liveness {
  import opened Common
  import opened JobReports
  import opened PollerSpec
  import opened WorkerProtocol
  import opened WorkerInvariants
  import opened FlowControl

  /** The jobs counted as active though they are not, beyond those active but never counted. */
  function Phantom(s: State): int {
    s.clipped - s.lost
  }

  /** At rest, the next tick activates exactly when the phantom jobs leave room below the threshold. */
  lemma DrainedTick(c: Config, run: seq<Event>, s: State)
    requires ValidConfig(c) && Reaches(c, run, s) && Drained(s)
    ensures s.poller.remaining == Phantom(s)
    ensures Activates(c, s.poller, FetchJobs) <==> Phantom(s) <= c.threshold
    ensures |Apply(c, s, Tick).requests| == |s.requests| + if Phantom(s) <= c.threshold then 1 else 0
  {
    Reached(c, run, s);
  }

  /** Without timeouts, clipped decrements only accumulate, and never beyond the maximum. */
  lemma ClippedGrows(c: Config, run: seq<Event>, s: State, more: seq<Event>)
    requires ValidConfig(c) && Reaches(c, run, s) && NoTimeouts(run)
    requires Legal(c, s, more)
    ensures s.clipped <= c.max && s.clipped <= After(c, s, more).clipped
  {
    Reached(c, run, s);
    var start :| IsStart(start) && Legal(c, start, run) && After(c, start, run) == s;
    OnlyTimeoutsLose(c, start, run);
    CreditInState(c, s);
    ClippedNeverDrops(c, s, more);
  }

  lemma {:induction false} ClippedNeverDrops(c: Config, s: State, run: seq<Event>)
    requires Legal(c, s, run)
    ensures s.clipped <= After(c, s, run).clipped
    decreases |run|
  {
    if |run| > 0 {
      ClippedNeverDrops(c, Apply(c, s, run[0]), run[1..]);
    }
  }

  /** Too many phantom jobs, and nothing under way that could still lose some. */
  predicate Wedged(c: Config, s: State) {
    Phantom(s) > c.threshold && !s.poller.requestInProgress
  }

  lemma WedgedStep(c: Config, s: State, e: Event)
    requires ValidConfig(c) && Invariant(c, s) && Wedged(c, s) && Enabled(c, s, e)
    ensures Wedged(c, Apply(c, s, e)) && Apply(c, s, e).requests == s.requests
  {
    NothingQueued(s.messages);
    if e.Poll? {
      assert s.messages[0] in s.messages;
    }
  }

  /** A wedged worker never activates again, whatever happens. */
  lemma {:induction false} WedgedForEver(c: Config, s: State, run: seq<Event>)
    requires ValidConfig(c) && Invariant(c, s) && Wedged(c, s) && Legal(c, s, run)
    ensures Wedged(c, After(c, s, run)) && After(c, s, run).requests == s.requests
    decreases |run|
  {
    if |run| > 0 {
      WedgedStep(c, s, run[0]);
      InvariantKept(c, s, run[0]);
      WedgedForEver(c, Apply(c, s, run[0]), run[1..]);
    }
  }

  // Every worker can be wedged.

  /** The first activation, `k` of whose jobs have been polled as finished before their arrival. */
  predicate Overtaken(c: Config, s: State, k: nat) {
    && s.tasks == [Streaming(0, c.max, k, [])]
    && s.jobQueue == [] && s.messages == [] && s.handlers == []
    && s.poller == PollerState(0, true)
    && s.clipped == k && s.lost == 0
    && |s.sent| == k && KeyedInOrder(s.sent)
  }

  predicate KeyedInOrder(jobs: seq<Job>) {
    forall i :: 0 <= i < |jobs| ==> jobs[i].key == i
  }

  /** One job, of a key not seen before, is streamed, queued and taken by the dispatcher. */
  lemma JobTaken(c: Config, s: State, k: nat) returns (run: seq<Event>, end: State)
    requires ValidConfig(c) && Overtaken(c, s, k) && k < c.max
    ensures Quietly(c, s, run, end)
    ensures end.tasks == [Streaming(0, c.max, k + 1, [])] && end.jobQueue == [] && end.messages == []
    ensures |end.handlers| == 1 && end.handlers[0].phase == Running
    ensures end.poller == s.poller && end.clipped == s.clipped && end.lost == s.lost
    ensures |end.sent| == k + 1 && KeyedInOrder(end.sent)
  {
    run, end := [], s;
    run, end := Extend(c, s, run, end, Advance(0, Receive([k])));
    assert end.tasks == [Streaming(0, c.max, k + 1, [k])];
    run, end := Extend(c, s, run, end, Advance(0, QueueJob));
    assert end.tasks[0].batch == [];
    run, end := Extend(c, s, run, end, Start);
  }

  /** The one handler runs to its end, and its `JobFinished` is polled. */
  lemma JobOvertakes(c: Config, s: State) returns (run: seq<Event>, end: State)
    requires ValidConfig(c) && s.messages == [] && |s.handlers| == 1 && s.handlers[0].phase == Running
    requires s.poller.remaining == 0
    ensures Quietly(c, s, run, end)
    ensures end.tasks == s.tasks && end.jobQueue == s.jobQueue && end.handlers == [] && end.messages == []
    ensures end.poller == s.poller && end.clipped == s.clipped + 1 && end.lost == s.lost && end.sent == s.sent
  {
    run, end := [], s;
    if c.autoHandler {
      run, end := Extend(c, s, run, end, Serve(0, Attempt(Failed(""))));
      assert |end.handlers| == 1 && end.handlers[0].phase == Awaiting;
    }
    run, end := Extend(c, s, run, end, Serve(0, Return));
    assert |end.handlers| == 1 && end.handlers[0].phase == Finished;
    run, end := Extend(c, s, run, end, Serve(0, Finish));
    assert |end.messages| == 1 && end.messages[0].JobFinished?;
    run, end := Extend(c, s, run, end, Poll);
  }

  lemma Joined(c: Config, s: State, first: seq<Event>, mid: State, second: seq<Event>, end: State)
    requires Quietly(c, s, first, mid) && Quietly(c, mid, second, end)
    ensures Quietly(c, s, first + second, end)
  {
    RunsCompose(c, s, first, second);
  }

  lemma FirstStreamOpens(c: Config, start: State) returns (run: seq<Event>, end: State)
    requires ValidConfig(c) && IsStart(start)
    ensures Quietly(c, start, run, end) && Overtaken(c, end, 0)
  {
    RequestedIsRoom(c, start.poller);
    run, end := [], start;
    run, end := Extend(c, start, run, end, Tick);
    assert end.tasks == [Requesting(0, c.max)];
    run, end := Extend(c, start, run, end, Advance(0, StreamOpens));
  }

  lemma OvertakeOne(c: Config, s: State, k: nat) returns (run: seq<Event>, end: State)
    requires ValidConfig(c) && Overtaken(c, s, k) && k < c.max
    ensures Quietly(c, s, run, end) && Overtaken(c, end, k + 1)
  {
    var taken, busy := JobTaken(c, s, k);
    var rest, done := JobOvertakes(c, busy);
    Joined(c, s, taken, busy, rest, done);
    run, end := taken + rest, done;
  }

  lemma {:induction false} Overtake(c: Config, start: State, k: nat) returns (run: seq<Event>, end: State)
    requires ValidConfig(c) && IsStart(start) && k <= c.max
    ensures Quietly(c, start, run, end) && Overtaken(c, end, k)
  {
    run, end := FirstStreamOpens(c, start);
    for n := 0 to k
      invariant Quietly(c, start, run, end) && Overtaken(c, end, n)
    {
      var more, next := OvertakeOne(c, end, n);
      Joined(c, start, run, end, more, next);
      run, end := run + more, next;
    }
  }

  /** The overtaken activation ends and is polled: its jobs are now counted, all of them finished. */
  lemma ActivationEnds(c: Config, s: State, k: nat) returns (run: seq<Event>, end: State)
    requires ValidConfig(c) && Overtaken(c, s, k) && k <= c.max
    ensures Quietly(c, s, run, end) && Drained(end) && Phantom(end) == k && !end.poller.requestInProgress
    ensures end.sent == s.sent
  {
    run, end := [], s;
    run, end := Extend(c, s, run, end, Advance(0, StreamEnds));
    assert end.tasks == [Reporting(0, c.max, k)];
    run, end := Extend(c, s, run, end, Advance(0, Announce));
    assert end.tasks == [Completing(0)] && end.messages == [JobsArrived(0, k)];
    run, end := Extend(c, s, run, end, Poll);
    assert end.messages == [] && end.tasks == [Completing(0)];
    run, end := Extend(c, s, run, end, Advance(0, Complete));
    assert end.messages == [FetchJobsComplete(0)] && end.tasks == [];
    run, end := Extend(c, s, run, end, Poll);
  }

  /**
   Whatever the settings, there is a run without timeouts, its jobs all of different keys, that
   leaves the worker at rest with no job anywhere, and from which no continuation activates again.
   */
  lemma EveryWorkerCanWedge(c: Config, start: State) returns (run: seq<Event>, end: State)
    requires ValidConfig(c) && IsStart(start)
    ensures Legal(c, start, run) && NoTimeouts(run) && After(c, start, run) == end
    ensures Drained(end) && Phantom(end) == c.threshold + 1 && DistinctKeys(end.sent)
    ensures forall more :: Legal(c, end, more) ==> After(c, end, more).requests == end.requests
  {
    var first, mid := Overtake(c, start, c.threshold + 1);
    var second, last := ActivationEnds(c, mid, c.threshold + 1);
    Joined(c, start, first, mid, second, last);
    run, end := first + second, last;
    assert Reaches(c, run, end);
    Reached(c, run, end);
    forall more | Legal(c, end, more) ensures After(c, end, more).requests == end.requests {
      WedgedForEver(c, end, more);
    }
  }
}
