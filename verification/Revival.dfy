/** When a worker can activate again: exactly while its phantom jobs are within the threshold. */
module Revival {
  import opened Common
  import opened JobReports
  import opened PollerSpec
  import opened WorkerProtocol
  import opened WorkerInvariants
  import opened FlowControl
  import opened Liveness
  import opened Progress

  lemma Prepended(c: Config, s: State, e: Event, next: State, rest: seq<Event>, end: State)
    requires Enabled(c, s, e) && !IsTimeout(e) && next == Apply(c, s, e) && Quietly(c, next, rest, end)
    ensures Quietly(c, s, [e] + rest, end)
  {
    Prepend(c, s, e, rest);
  }

  /** Nothing was requested, sent, clipped or lost in between. */
  predicate Alike(s: State, next: State) {
    next.clipped == s.clipped && next.lost == s.lost && next.requests == s.requests && next.sent == s.sent
  }

  /** With no request in progress, a count above its phantom part means that jobs are outstanding. */
  lemma SomeOutstanding(c: Config, s: State)
    requires Invariant(c, s) && !s.poller.requestInProgress && s.poller.remaining > Phantom(s)
    ensures s.tasks == [] && !Drained(s)
    ensures |s.messages| > 0 ==> s.messages[0].JobFinished?
  {
    NothingQueued(s.messages);
    ControlCounts(s.messages);
    if |s.messages| > 0 {
      assert s.messages[0] in s.messages;
    }
  }

  /** Then the worker's next step counts one of them down, or comes closer to it. */
  lemma RecedeStep(c: Config, s: State) returns (e: Event, next: State)
    requires ValidConfig(c) && Invariant(c, s) && !s.poller.requestInProgress
    requires s.poller.remaining > c.threshold >= Phantom(s)
    ensures Enabled(c, s, e) && Internal(e) && !IsTimeout(e) && next == Apply(c, s, e)
    ensures !next.poller.requestInProgress && Alike(s, next)
  {
    SomeOutstanding(c, s);
    e := NextStep(c, s);
    next := Apply(c, s, e);
  }

  /** Hence it can always come down to the threshold, losing and clipping nothing on the way. */
  lemma {:induction false} Recede(c: Config, s: State) returns (run: seq<Event>, end: State)
    requires ValidConfig(c) && Invariant(c, s) && !s.poller.requestInProgress && Phantom(s) <= c.threshold
    ensures Quietly(c, s, run, end) && Invariant(c, end)
    ensures ShouldActivate(c, end.poller) && Alike(s, end)
    decreases Measure(s)
  {
    run, end := [], s;
    if s.poller.remaining > c.threshold {
      var e, next := RecedeStep(c, s);
      SettlesOnce(c, s, e);
      var rest, last := Recede(c, next);
      Prepended(c, s, e, next, rest, last);
      run, end := [e] + rest, last;
    }
  }

  /** From there the next tick activates. */
  lemma Reactivates(c: Config, s: State) returns (run: seq<Event>)
    requires ValidConfig(c) && Invariant(c, s) && !s.poller.requestInProgress && Phantom(s) <= c.threshold
    ensures Legal(c, s, run) && NoTimeouts(run) && |After(c, s, run).requests| == |s.requests| + 1
  {
    var down, low := Recede(c, s);
    var longer, end := Extend(c, s, down, low, Tick);
    run := longer;
  }

  /**
   The dichotomy. A worker with no request in progress, whatever jobs are still about, can
   activate again if and only if its phantom jobs are within the threshold; else it never
   will, in any continuation. At rest, the next tick already decides.
   */
  lemma Dichotomy(c: Config, run: seq<Event>, s: State)
    requires ValidConfig(c) && Reaches(c, run, s) && !s.poller.requestInProgress
    ensures (exists more :: Legal(c, s, more) && After(c, s, more).requests != s.requests) <==>
            Phantom(s) <= c.threshold
    ensures Drained(s) ==> (Activates(c, s.poller, FetchJobs) <==> Phantom(s) <= c.threshold)
  {
    Reached(c, run, s);
    if Phantom(s) <= c.threshold {
      var more := Reactivates(c, s);
      assert After(c, s, more).requests != s.requests;
    } else {
      forall more | Legal(c, s, more) ensures After(c, s, more).requests == s.requests {
        WedgedForEver(c, s, more);
      }
    }
    if Drained(s) {
      DrainedTick(c, run, s);
    }
  }

  // While a request is in progress: what will be clipped for certain before it is over.

  /** The decrements clipped for certain while messages are polled, from a count of `remaining`, up to a completion. */
  function ForcedClips(remaining: nat, ms: seq<PollMessage>): nat
    decreases |ms|
  {
    if |ms| == 0 then 0 else
      match ms[0]
      case FetchJobsComplete(_) => 0
      case FetchJobs => ForcedClips(remaining, ms[1..])
      case JobsArrived(_, count) => ForcedClips(remaining + count, ms[1..])
      case JobFinished(_) =>
        if remaining == 0 then 1 + ForcedClips(0, ms[1..]) else ForcedClips(remaining - 1, ms[1..])
  }

  /** The clipped decrements, once the request in progress is over, if nothing more is finished before. */
  function ClippedByThen(s: State): nat {
    s.clipped + if s.poller.requestInProgress then ForcedClips(s.poller.remaining, s.messages) else 0
  }

  lemma {:induction false} ForcedByAppending(remaining: nat, ms: seq<PollMessage>, more: seq<PollMessage>)
    ensures ForcedClips(remaining, ms + more) >= ForcedClips(remaining, ms)
    decreases |ms|
  {
    if |ms| == 0 {
      assert ms + more == more;
    } else {
      assert (ms + more)[0] == ms[0] && (ms + more)[1..] == ms[1..] + more;
      match ms[0]
      case FetchJobsComplete(_) =>
      case FetchJobs => ForcedByAppending(remaining, ms[1..], more);
      case JobsArrived(_, count) => ForcedByAppending(remaining + count, ms[1..], more);
      case JobFinished(_) => ForcedByAppending(if remaining == 0 then 0 else remaining - 1, ms[1..], more);
    }
  }

  /** Polling takes a clipped decrement from those to come. */
  lemma PollKeepsClipped(c: Config, s: State)
    requires Capacities(c, s) && Flight(s) && Range(c, s) && ValidConfig(c) && Enabled(c, s, Poll)
    ensures ClippedByThen(Apply(c, s, Poll)) >= ClippedByThen(s)
    ensures s.poller.requestInProgress ==> ClippedByThen(Apply(c, s, Poll)) == ClippedByThen(s)
  {
    assert s.messages[0] in s.messages;
    OneTask(s.tasks);
    ControlCounts(s.messages);
    if s.messages[0].JobsArrived? {
      ArrivalIsCounted(s);
    }
  }

  lemma ControlForcesNone(remaining: nat, ms: seq<PollMessage>)
    requires |ms| <= 1 && forall i :: 0 <= i < |ms| ==> IsControl(ms[i])
    ensures ForcedClips(remaining, ms) == 0
  {
  }

  lemma FinishForces(remaining: nat, job: Job)
    ensures ForcedClips(remaining, [JobFinished(job)]) == if remaining == 0 then 1 else 0
  {
    assert [JobFinished(job)][1..] == [];
  }

  /** The next job of a batch finds the job queue full. */
  predicate Blocked(c: Config, s: State) {
    |s.tasks| == 1 && s.tasks[0].Streaming? && s.tasks[0].batch != [] && |s.jobQueue| >= c.max
  }

  /** With nothing queued for the poller, a step towards the end of the task, or towards a place in the job queue. */
  lemma TaskEndStep(c: Config, s: State) returns (e: Event)
    requires ValidConfig(c) && Invariant(c, s) && s.poller.requestInProgress && s.messages == []
    ensures Enabled(c, s, e) && Internal(e) && !IsTimeout(e) && !e.Tick? && !e.Poll?
    ensures e.Serve? ==> Blocked(c, s)
    ensures Blocked(c, s) ==> Outstanding(s) + StillAllowed(s) > c.max
  {
    OneTask(s.tasks);
    if Blocked(c, s) {
      if HandlerSlotFree(c, s) {
        e := Start;
      } else {
        e := Serve(0, match s.handlers[0].phase
                      case Running => if c.autoHandler then Attempt(Failed("")) else Return
                      case Awaiting => Return
                      case Finished => Finish);
      }
    } else {
      e := Advance(0, match s.tasks[0]
                      case Requesting(_, _) => CallFails
                      case Streaming(_, _, _, batch) => if batch == [] then StreamEnds else QueueJob
                      case Reporting(_, _, _) => Announce
                      case Completing(_) => Complete);
    }
  }

  /** A job finished to make a place is clipped only when more were lost than clipped. */
  lemma BlockedClips(c: Config, s: State, h: nat, action: HandlerStep)
    requires ValidConfig(c) && Invariant(c, s) && s.messages == [] && Blocked(c, s) && s.poller.requestInProgress
    requires Enabled(c, s, Serve(h, action))
    ensures var next := Apply(c, s, Serve(h, action));
            next.lost == s.lost && (ClippedByThen(next) == ClippedByThen(s) || ClippedByThen(next) <= next.lost)
  {
    OneTask(s.tasks);
    FinishForces(s.poller.remaining, s.handlers[h].job);
    assert [] + HandlerMessage(s.handlers[h], action) == HandlerMessage(s.handlers[h], action);
  }

  /** A step towards the end of the request in progress that clips only what must be clipped. */
  lemma ConcludeStep(c: Config, s: State) returns (e: Event)
    requires ValidConfig(c) && Invariant(c, s) && s.poller.requestInProgress
    ensures Enabled(c, s, e) && Internal(e) && !IsTimeout(e)
    ensures var next := Apply(c, s, e);
            && next.lost == s.lost && next.requests == s.requests
            && (ClippedByThen(next) == ClippedByThen(s)
                || (ClippedByThen(next) <= s.lost && Outstanding(s) + StillAllowed(s) > c.max))
  {
    if |s.messages| > 0 {
      e := Poll;
      PollKeepsClipped(c, s);
      assert s.messages[0] in s.messages;
    } else {
      e := TaskEndStep(c, s);
      match e
      case Serve(h, action) =>
        BlockedClips(c, s, h, action);
      case Advance(t, step) =>
        var message := TaskMessage(s.tasks[t], step);
        assert [] + message == message;
        ControlForcesNone(s.poller.remaining, message);
      case Start =>
    }
  }

  lemma {:induction false} QuietlyReactivates(c: Config, s: State) returns (run: seq<Event>)
    requires ValidConfig(c) && Invariant(c, s) && ClippedByThen(s) - s.lost <= c.threshold
    ensures Legal(c, s, run) && NoTimeouts(run) && |After(c, s, run).requests| == |s.requests| + 1
    decreases Measure(s)
  {
    if s.poller.requestInProgress {
      var e := ConcludeStep(c, s);
      var next := Apply(c, s, e);
      SettlesOnce(c, s, e);
      var rest := QuietlyReactivates(c, next);
      Prepended(c, s, e, next, rest, After(c, next, rest));
      run := [e] + rest;
    } else {
      run := Reactivates(c, s);
    }
  }

  /** Only a timeout brings the phantom jobs to come down. */
  lemma ExcessStep(c: Config, s: State, e: Event)
    requires ValidConfig(c) && Invariant(c, s) && ClippedByThen(s) - s.lost > c.threshold
    requires Enabled(c, s, e) && !IsTimeout(e)
    ensures ClippedByThen(Apply(c, s, e)) - Apply(c, s, e).lost > c.threshold && Apply(c, s, e).requests == s.requests
  {
    match e
    case Tick =>
      if !s.poller.requestInProgress {
        NothingQueued(s.messages);
      }
    case Poll =>
      PollKeepsClipped(c, s);
      assert s.messages[0] in s.messages;
    case Start =>
    case Advance(t, step) =>
      ForcedByAppending(s.poller.remaining, s.messages, TaskMessage(s.tasks[t], step));
    case Serve(h, action) =>
      ForcedByAppending(s.poller.remaining, s.messages, HandlerMessage(s.handlers[h], action));
  }

  lemma {:induction false} ExcessForEver(c: Config, s: State, run: seq<Event>)
    requires ValidConfig(c) && Invariant(c, s) && ClippedByThen(s) - s.lost > c.threshold
    requires Legal(c, s, run) && NoTimeouts(run)
    ensures After(c, s, run).requests == s.requests
    decreases |run|
  {
    if |run| > 0 {
      assert !IsTimeout(run[0]);
      assert forall i :: 0 <= i < |run[1..]| ==> run[1..][i] == run[i + 1];
      ExcessStep(c, s, run[0]);
      InvariantKept(c, s, run[0]);
      ExcessForEver(c, Apply(c, s, run[0]), run[1..]);
    }
  }

  /**
   The dichotomy without timeouts, from every reachable state, a request in progress or not: another
   activation can follow if and only if the decrements clipped by the end of the one under way will
   exceed the lost jobs by no more than the threshold.
   */
  lemma QuietDichotomy(c: Config, run: seq<Event>, s: State)
    requires ValidConfig(c) && Reaches(c, run, s)
    ensures (exists more :: Legal(c, s, more) && NoTimeouts(more) && After(c, s, more).requests != s.requests) <==>
            ClippedByThen(s) - s.lost <= c.threshold
  {
    Reached(c, run, s);
    if ClippedByThen(s) - s.lost <= c.threshold {
      var more := QuietlyReactivates(c, s);
      assert After(c, s, more).requests != s.requests;
    } else {
      forall more | Legal(c, s, more) && NoTimeouts(more) ensures After(c, s, more).requests == s.requests {
        ExcessForEver(c, s, more);
      }
    }
  }
}
