/**
 What the parts can always do, whatever the others are doing: jobs run side by side up to the
 limit and finish in any order, a send waits for nothing but a place, and a timeout ends any request.
 */
module Availability {
  import opened Common
  import opened JobReports
  import opened PollerSpec
  import opened WorkerProtocol
  import opened WorkerInvariants
  import opened FlowControl
  import opened Liveness
  import opened Progress

  /** Exactly when a job starts and its handler goes on: a free slot, the step before, a place in the poll queue. */
  lemma HandlersWait(c: Config, s: State, h: nat, outcome: Outcome)
    requires h < |s.handlers|
    ensures Enabled(c, s, Start) <==> |s.jobQueue| > 0 && (c.concurrency == 0 || |s.handlers| < c.concurrency)
    ensures Enabled(c, s, Serve(h, Attempt(outcome))) <==> c.autoHandler && s.handlers[h].phase.Running?
    ensures Enabled(c, s, Serve(h, HandlerStep.Return)) <==>
            if c.autoHandler then s.handlers[h].phase.Awaiting? else s.handlers[h].phase.Running?
    ensures Enabled(c, s, Serve(h, Finish)) <==> s.handlers[h].phase.Finished? && |s.messages| < c.capacity
  {
  }

  /** Exactly when a task goes on: as the gateway answers, and as there is a place in the queue it sends to. */
  lemma TasksWait(c: Config, s: State, t: nat, keys: seq<int>)
    requires t < |s.tasks|
    ensures var task := s.tasks[t];
            && (Enabled(c, s, Advance(t, CallFails)) <==> task.Requesting?)
            && (Enabled(c, s, Advance(t, StreamOpens)) <==> task.Requesting?)
            && (Enabled(c, s, Advance(t, Receive(keys))) <==>
                  task.Streaming? && task.batch == [] && task.total + |keys| <= task.requested)
            && (Enabled(c, s, Advance(t, QueueJob)) <==>
                  task.Streaming? && task.batch != [] && |s.jobQueue| < c.max)
            && (Enabled(c, s, Advance(t, StreamEnds)) <==> task.Streaming? && task.batch == [])
            && (Enabled(c, s, Advance(t, Announce)) <==> task.Reporting? && |s.messages| < c.capacity)
            && (Enabled(c, s, Advance(t, TimesOut)) <==> !task.Completing?)
            && (Enabled(c, s, Advance(t, Complete)) <==> task.Completing? && |s.messages| < c.capacity)
  {
  }

  // Jobs run side by side.

  predicate AllRunning(hs: seq<Handler>) {
    forall i :: 0 <= i < |hs| ==> hs[i].phase.Running?
  }

  /** The first activation has streamed `n` jobs, `k` of which run already. */
  predicate Serving(c: Config, s: State, n: nat, k: nat) {
    && |s.tasks| == 1 && s.tasks[0].Streaming?
    && s.tasks[0].batch == seq(if k <= n then n - k else 0, i => k + i)
    && s.jobQueue == [] && s.messages == [] && |s.handlers| == k && AllRunning(s.handlers)
    && |s.sent| == k && KeyedInOrder(s.sent)
  }

  lemma JobsStream(c: Config, start: State, n: nat) returns (run: seq<Event>, end: State)
    requires ValidConfig(c) && IsStart(start) && n <= c.max
    ensures Quietly(c, start, run, end) && Serving(c, end, n, 0)
  {
    var first, open := FirstStreamOpens(c, start);
    var keys := seq(n, i => i);
    run, end := Extend(c, start, first, open, Advance(0, Receive(keys)));
    assert end.tasks == [Streaming(0, c.max, n, keys)];
  }

  lemma OneMoreRuns(c: Config, s: State, n: nat, k: nat) returns (run: seq<Event>, end: State)
    requires ValidConfig(c) && Serving(c, s, n, k) && k < n && (c.concurrency == 0 || k < c.concurrency)
    ensures Quietly(c, s, run, end) && Serving(c, end, n, k + 1)
  {
    run, end := [], s;
    run, end := Extend(c, s, run, end, Advance(0, QueueJob));
    assert |end.tasks| == 1 && end.tasks[0].batch == seq(n - k - 1, i => k + 1 + i);
    run, end := Extend(c, s, run, end, Start);
  }

  lemma {:induction false} JobsRun(c: Config, start: State, n: nat) returns (run: seq<Event>, end: State)
    requires ValidConfig(c) && IsStart(start) && n <= c.max && (c.concurrency == 0 || n <= c.concurrency)
    ensures Quietly(c, start, run, end) && |end.handlers| == n && AllRunning(end.handlers) && DistinctKeys(end.sent)
  {
    run, end := JobsStream(c, start, n);
    for k := 0 to n
      invariant Quietly(c, start, run, end) && Serving(c, end, n, k)
    {
      var more, next := OneMoreRuns(c, end, n, k);
      Joined(c, start, run, end, more, next);
      run, end := run + more, next;
    }
  }

  /** Some run without timeouts has `n` jobs running at once, of different keys. */
  ghost predicate CanRunAtOnce(c: Config, n: nat) {
    exists start, run, end ::
      IsStart(start) && Quietly(c, start, run, end) && |end.handlers| == n && AllRunning(end.handlers)
      && DistinctKeys(end.sent)
  }

  /** Without timeouts, as many jobs can run at once as the maximum and the concurrency allow, and no more. */
  lemma RunsAtOnceExactly(c: Config, n: nat)
    requires ValidConfig(c)
    ensures CanRunAtOnce(c, n) <==> n <= c.max && (c.concurrency == 0 || n <= c.concurrency)
  {
    if CanRunAtOnce(c, n) {
      var start, run, end :|
        IsStart(start) && Quietly(c, start, run, end) && |end.handlers| == n && AllRunning(end.handlers)
        && DistinctKeys(end.sent);
      SendsNeverWait(c, run, end);
      Reached(c, run, end);
    }
    if n <= c.max && (c.concurrency == 0 || n <= c.concurrency) {
      var start := State(INITIAL, [], [], [], [], [], [], [], [], 0, 0, []);
      var run, end := JobsRun(c, start, n);
    }
  }

  // Steps of one part only.

  /** The poller only polls: the other parts stand still. */
  predicate OnlyPolled(s: State, end: State) {
    && end.tasks == s.tasks && end.jobQueue == s.jobQueue && end.handlers == s.handlers && end.reports == s.reports
    && end.sent == s.sent && Posted(end) == Posted(s)
  }

  predicate OnlyPolls(run: seq<Event>) {
    forall i :: 0 <= i < |run| ==> run[i] == Poll
  }

  /** The poller can always empty its queue. */
  lemma {:induction false} PollsAll(c: Config, s: State) returns (run: seq<Event>, end: State)
    requires Capacities(c, s)
    ensures Leads(c, s, run, end) && OnlyPolls(run) && OnlyPolled(s, end) && end.messages == []
    decreases |s.messages|
  {
    run, end := [], s;
    if |s.messages| > 0 {
      var e := Poll;
      var next := Apply(c, s, e);
      PollOnlyPolls(c, s);
      CapacitiesKept(c, s, e);
      var rest, last := PollsAll(c, next);
      Prepend(c, s, e, rest);
      run, end := [e] + rest, last;
    }
  }

  lemma PollOnlyPolls(c: Config, s: State)
    requires Capacities(c, s) && Enabled(c, s, Poll)
    ensures OnlyPolled(s, Apply(c, s, Poll)) && |Apply(c, s, Poll).messages| == |s.messages| - 1
  {
    PostedStep(c, s, Poll);
    assert s.messages[0] in s.messages;
    assert s.tasks + [] == s.tasks;
  }

  /** Steps of handler `h`, and polls. */
  predicate OnlyServes(run: seq<Event>, h: nat) {
    forall i :: 0 <= i < |run| ==> run[i] == Poll || (run[i].Serve? && run[i].h == h)
  }

  /** What a handler's report is, if it has still to make one. */
  function ReportDue(c: Config, h: Handler, outcome: Outcome): seq<Report> {
    if c.autoHandler && h.phase.Running? then [Report(h.job, outcome, AutoReport(Some(h.job.key), outcome))] else []
  }

  /** The tasks and the job queue stand still. */
  predicate SameSupply(s: State, end: State) {
    end.tasks == s.tasks && end.jobQueue == s.jobQueue && end.sent == s.sent
  }

  /** Any handler can run to its end without another part moving, its function having any outcome. */
  lemma HandlerReturns(c: Config, s: State, h: nat, outcome: Outcome) returns (run: seq<Event>, end: State)
    requires Bound(s.handlers) && h < |s.handlers| && (!c.autoHandler ==> NoneAwaiting(s.handlers))
    ensures Quietly(c, s, run, end) && OnlyServes(run, h) && SameSupply(s, end)
    ensures end.handlers == s.handlers[h := s.handlers[h].(phase := Finished)] && Posted(end) == Posted(s)
    ensures end.reports == s.reports + ReportDue(c, s.handlers[h], outcome)
  {
    run, end := [], s;
    assert s.messages + [] == s.messages && s.reports + [] == s.reports;
    if c.autoHandler && s.handlers[h].phase.Running? {
      run, end := Extend(c, s, run, end, Serve(h, Attempt(outcome)));
      assert end.handlers == s.handlers[h := s.handlers[h].(phase := Awaiting)];
    }
    if !end.handlers[h].phase.Finished? {
      var mid := end;
      assert mid.messages + [] == mid.messages && mid.reports + [] == mid.reports;
      run, end := Extend(c, s, run, mid, Serve(h, Return));
      assert end.handlers == mid.handlers[h := mid.handlers[h].(phase := Finished)];
    } else {
      assert s.handlers == s.handlers[h := s.handlers[h]];
    }
  }

  lemma FinishOnly(c: Config, s: State, h: nat)
    requires ValidConfig(c) && h < |s.handlers| && s.handlers[h].phase.Finished? && s.messages == []
    ensures Enabled(c, s, Serve(h, Finish))
    ensures var end := Apply(c, s, Serve(h, Finish));
            && SameSupply(s, end) && end.handlers == s.handlers[..h] + s.handlers[h + 1..]
            && Posted(end) == Posted(s) + [JobFinished(s.handlers[h].job)] && end.reports == s.reports
  {
    PostedStep(c, s, Serve(h, Finish));
    assert s.reports + [] == s.reports;
  }

  lemma IsCounted(c: Config, s: State, h: nat) returns (run: seq<Event>, end: State)
    requires ValidConfig(c) && Capacities(c, s) && h < |s.handlers| && s.handlers[h].phase.Finished?
    ensures Quietly(c, s, run, end) && OnlyServes(run, h)
    ensures SameSupply(s, end) && end.handlers == s.handlers[..h] + s.handlers[h + 1..]
    ensures Posted(end) == Posted(s) + [JobFinished(s.handlers[h].job)] && end.reports == s.reports
  {
    var polls, idle := PollsAll(c, s);
    var e := Serve(h, Finish);
    FinishOnly(c, idle, h);
    run, end := Extend(c, s, polls, idle, e);
  }

  /**
   Jobs finish in any order: whatever the others are doing, the handler of any job can run to its end
   and be counted, while all other handlers, the tasks and the job queue stand still.
   */
  lemma AnyJobCanFinish(c: Config, past: seq<Event>, s: State, h: nat, outcome: Outcome)
    returns (run: seq<Event>, end: State)
    requires ValidConfig(c) && Reaches(c, past, s) && h < |s.handlers|
    ensures Quietly(c, s, run, end) && OnlyServes(run, h) && SameSupply(s, end)
    ensures end.handlers == s.handlers[..h] + s.handlers[h + 1..]
    ensures Posted(end) == Posted(s) + [JobFinished(s.handlers[h].job)]
    ensures end.reports == s.reports + ReportDue(c, s.handlers[h], outcome)
  {
    Reached(c, past, s);
    var first, returned := HandlerReturns(c, s, h, outcome);
    RunsKeepInvariant(c, s, first);
    var second, last := IsCounted(c, returned, h);
    Joined(c, s, first, returned, second, last);
    run, end := first + second, last;
  }

  /** What happens to a request without any help from the gateway. */
  predicate Unaided(e: Event) {
    e == Poll || (e.Advance? && (e.step.TimesOut? || e.step.Complete?))
  }

  predicate AllUnaided(run: seq<Event>) {
    forall i :: 0 <= i < |run| ==> Unaided(run[i])
  }

  predicate AtMostOneTimeout(run: seq<Event>) {
    forall i, j :: 0 <= i < |run| && 0 <= j < |run| && IsTimeout(run[i]) && IsTimeout(run[j]) ==> i == j
  }

  /** A task that has been cut short tells the poller so as soon as there is a place. */
  lemma Completes(c: Config, s: State) returns (run: seq<Event>, end: State)
    requires ValidConfig(c) && Invariant(c, s) && (|s.tasks| > 0 ==> s.tasks[0].Completing?)
    ensures Quietly(c, s, run, end) && AllUnaided(run) && !end.poller.requestInProgress
    ensures end.handlers == s.handlers && end.jobQueue == s.jobQueue
  {
    run, end := PollsAll(c, s);
    RunsKeepInvariant(c, s, run);
    if |end.tasks| > 0 {
      var rest, last := LastSteps(c, end);
      Joined(c, s, run, end, rest, last);
      run, end := run + rest, last;
    }
  }

  lemma LastSteps(c: Config, s: State) returns (run: seq<Event>, end: State)
    requires ValidConfig(c) && Invariant(c, s) && |s.tasks| > 0 && s.tasks[0].Completing? && s.messages == []
    ensures Quietly(c, s, run, end) && AllUnaided(run) && !end.poller.requestInProgress
    ensures end.handlers == s.handlers && end.jobQueue == s.jobQueue
  {
    var e := Advance(0, Complete);
    var told := Apply(c, s, e);
    assert s.jobQueue + [] == s.jobQueue;
    ReplaceOnly(s.tasks, 0, []);
    InvariantKept(c, s, e);
    var polls, last := PollsAll(c, told);
    Ended(c, told, polls, last);
    Prepend(c, s, e, polls);
    run, end := [e] + polls, last;
  }

  lemma Ended(c: Config, s: State, polls: seq<Event>, end: State)
    requires ValidConfig(c) && Invariant(c, s) && s.tasks == [] && Leads(c, s, polls, end) && OnlyPolled(s, end)
    requires end.messages == []
    ensures !end.poller.requestInProgress
  {
    RunsKeepInvariant(c, s, polls);
  }

  /**
   No request lasts for ever: from every reachable state with one in progress, whatever its task is
   waiting for, one timeout at most and the poller's own polling end it. Neither the gateway
   nor a handler has to move.
   */
  lemma TimeoutEndsRequest(c: Config, past: seq<Event>, s: State) returns (run: seq<Event>, end: State)
    requires ValidConfig(c) && Reaches(c, past, s) && s.poller.requestInProgress
    ensures Leads(c, s, run, end) && AllUnaided(run) && AtMostOneTimeout(run)
    ensures !end.poller.requestInProgress
    ensures end.handlers == s.handlers && end.jobQueue == s.jobQueue
  {
    Reached(c, past, s);
    if |s.tasks| > 0 && !s.tasks[0].Completing? {
      var e := Advance(0, TimesOut);
      var cut := Apply(c, s, e);
      InvariantKept(c, s, e);
      ReplaceOnly(s.tasks, 0, NextTask(s.tasks[0], TimesOut));
      assert s.jobQueue + [] == s.jobQueue;
      var rest, last := Completes(c, cut);
      Prepend(c, s, e, rest);
      run, end := [e] + rest, last;
      assert forall i :: 0 < i < |run| ==> run[i] == rest[i - 1];
    } else {
      run, end := Completes(c, s);
    }
  }
}
