/** What every event keeps, one family of facts at a time, and the induction over runs. */
module WorkerInvariants {
  import opened Common
  import opened JobReports
  import opened PollerSpec
  import opened PollerReflection
  import opened WorkerProtocol

  predicate Capacities(c: Config, s: State) {
    && |s.jobQueue| <= c.max
    && |s.messages| <= c.capacity
    && (c.concurrency == 0 || |s.handlers| <= c.concurrency)
    && FetchJobs !in s.messages
  }

  /** The control messages of activation `id` once its task is gone and its last one is still queued. */
  predicate Closing(cs: seq<PollMessage>, id: int) {
    || (|cs| == 1 && cs[0].FetchJobsComplete? && cs[0].activation == id)
    || (|cs| == 2 && cs[0].JobsArrived? && cs[0].activation == id && cs[1].FetchJobsComplete? && cs[1].activation == id)
  }

  /** One activation at a time: where its task stands, and which of its messages are queued. */
  predicate Flight(s: State) {
    var cs := Control(s.messages);
    var id := |s.requests| - 1;
    if !s.poller.requestInProgress then
      s.tasks == [] && cs == []
    else if |s.tasks| == 0 then
      Closing(cs, id)
    else
      && |s.tasks| == 1
      && s.tasks[0].id == id
      && (cs == [] || (s.tasks[0].Completing? && |cs| == 1 && cs[0].JobsArrived? && cs[0].activation == id))
  }

  /** The most by which `remaining` can still be raised on behalf of a task. */
  function Claim(t: Task): int {
    match t
    case Requesting(_, requested) => requested
    case Streaming(_, requested, _, _) => requested
    case Reporting(_, _, total) => total
    case Completing(_) => 0
  }

  function Claims(ts: seq<Task>): int {
    if |ts| == 0 then 0 else Claim(ts[0]) + Claims(ts[1..])
  }

  predicate TaskInRange(t: Task) {
    match t
    case Requesting(_, requested) => 1 <= requested
    case Streaming(_, requested, total, batch) => |batch| <= total <= requested
    case Reporting(_, requested, total) => total <= requested
    case Completing(_) => true
  }

  /** `remaining`, with all that may still be added to it, stays within the maximum. */
  predicate Range(c: Config, s: State) {
    && (forall i :: 0 <= i < |s.requests| ==> 1 <= s.requests[i] <= c.max)
    && (forall i :: 0 <= i < |s.tasks| ==> TaskInRange(s.tasks[i]))
    && s.poller.remaining + Claims(s.tasks) + Arrivals(s.messages) <= c.max
  }

  /** The ledger between the poller's count and the jobs really outstanding. */
  predicate Ledger(s: State) {
    && 0 <= s.lost
    && Outstanding(s) + s.clipped == s.poller.remaining + s.lost + Unreported(s)
  }

  /** Every job taken by the dispatcher is with a handler or has been reported finished. */
  predicate Conserved(started: seq<Job>, handlers: seq<Handler>, posted: seq<PollMessage>) {
    multiset(started) == JobsOf(handlers) + FinishedJobs(posted)
  }

  /** Jobs wait in the queue in the order they were sent, and leave it from the front. */
  predicate Queued(s: State) {
    && s.sent == s.started + s.jobQueue
    && (forall i :: 0 <= i < |s.sent| ==> s.sent[i].serial == i)
  }

  predicate Dispatched(s: State) {
    Queued(s) && Conserved(s.started, s.handlers, Posted(s))
  }

  /** The call is the one its outcome asks for, made through a client bound to the job. */
  predicate WellAddressed(r: Report) {
    r.call == AutoReport(Some(r.job.key), r.outcome)
  }

  predicate Bound(handlers: seq<Handler>) {
    forall i :: 0 <= i < |handlers| ==> handlers[i].boundKey == Some(handlers[i].job.key)
  }

  predicate NoneAwaiting(handlers: seq<Handler>) {
    forall i :: 0 <= i < |handlers| ==> !handlers[i].phase.Awaiting?
  }

  predicate AllWellAddressed(reports: seq<Report>) {
    forall i :: 0 <= i < |reports| ==> WellAddressed(reports[i])
  }

  /** Each handler past `Running`, and each finished job, has made its one report. */
  predicate Accounted(reports: seq<Report>, handlers: seq<Handler>, posted: seq<PollMessage>) {
    ReportedJobs(reports) == Attempted(handlers) + FinishedJobs(posted)
  }

  predicate Reported(c: Config, s: State) {
    && Bound(s.handlers)
    && AllWellAddressed(s.reports)
    && if c.autoHandler then
         Accounted(s.reports, s.handlers, Posted(s))
       else
         s.reports == [] && NoneAwaiting(s.handlers)
  }

  /** The poller's state is the fold of the messages it polled; `clipped` is the depth of the walk. */
  ghost predicate History(c: Config, s: State) {
    && s.poller == HandleAll(c, INITIAL, s.handled)
    && s.poller.remaining == Reflected(s.handled)
    && FitsU32(s.handled)
    && s.clipped == -Lowest(s.handled)
  }

  /** Two control messages, in the order they were sent: a later activation, or the end of the same one. */
  predicate Precedes(m: PollMessage, n: PollMessage)
    requires IsControl(m) && IsControl(n)
  {
    m.activation < n.activation || (m.activation == n.activation && m.JobsArrived? && n.FetchJobsComplete?)
  }

  predicate InOrder(cs: seq<PollMessage>) {
    && (forall i :: 0 <= i < |cs| ==> IsControl(cs[i]))
    && forall i, j :: 0 <= i < j < |cs| ==> Precedes(cs[i], cs[j])
  }

  /** The control messages ever sent, against the activations ever started and the live task. */
  predicate OrderedPosts(cs: seq<PollMessage>, tasks: seq<Task>, activations: nat) {
    && InOrder(cs)
    && (forall i :: 0 <= i < |cs| ==> cs[i].activation < activations)
    && (|tasks| > 0 ==> forall i :: 0 <= i < |cs| && cs[i].activation == tasks[0].id ==>
                          tasks[0].Completing? && cs[i].JobsArrived?)
    && (forall a :: 0 <= a < activations && FetchJobsComplete(a) !in cs ==> |tasks| > 0 && tasks[0].id == a)
  }

  predicate PostOrder(s: State) {
    OrderedPosts(Control(Posted(s)), s.tasks, |s.requests|)
  }

  /** The unreported jobs are the last ones sent, all by the latest activation. */
  predicate Latest(s: State) {
    && 0 <= Unreported(s) <= |s.sent|
    && forall i :: |s.sent| - Unreported(s) <= i < |s.sent| ==> s.sent[i].activation == |s.requests| - 1
  }

  ghost predicate Invariant(c: Config, s: State) {
    && Capacities(c, s)
    && Flight(s)
    && Range(c, s)
    && Ledger(s)
    && Dispatched(s)
    && Reported(c, s)
    && History(c, s)
    && PostOrder(s)
    && Latest(s)
  }

  // Small facts about one task, one handler and one message.

  /** No task step makes or loses a job: what it sent goes on to be announced, or is counted as lost. */
  lemma TaskConserves(t: Task, step: TaskStep, serial: nat)
    requires TaskReady(t, step) && TaskInRange(t)
    ensures TasksSent(NextTask(t, step)) + Arrivals(TaskMessage(t, step)) + TaskLoss(t, step) ==
            Sent(t) + |TaskJob(t, step, serial)|
    ensures 0 <= TaskLoss(t, step)
    ensures Claims(NextTask(t, step)) + Arrivals(TaskMessage(t, step)) <= Claim(t)
  {
    OneTask(NextTask(t, step));
    if TaskMessage(t, step) != [] {
      OneMessage(TaskMessage(t, step)[0]);
    }
  }

  lemma TaskMessageIs(t: Task, step: TaskStep)
    requires TaskReady(t, step)
    ensures Finishes(TaskMessage(t, step)) == 0 && FinishedIn(TaskMessage(t, step)) == []
    ensures Control(TaskMessage(t, step)) == TaskMessage(t, step)
  {
    if TaskMessage(t, step) != [] {
      OneMessage(TaskMessage(t, step)[0]);
    }
  }

  lemma OneMessage(m: PollMessage)
    ensures Control([m]) == if IsControl(m) then [m] else []
    ensures Arrivals([m]) == if m.JobsArrived? then m.count else 0
    ensures Finishes([m]) == if m.JobFinished? then 1 else 0
    ensures FinishedIn([m]) == if m.JobFinished? then [m.job] else []
  {
  }

  lemma TaskStaysInRange(t: Task, step: TaskStep)
    requires TaskReady(t, step) && TaskInRange(t)
    ensures |NextTask(t, step)| == if step.Complete? then 0 else 1
    ensures !step.Complete? ==> TaskInRange(NextTask(t, step)[0]) && NextTask(t, step)[0].id == t.id
  {
  }

  lemma OneTask(ts: seq<Task>)
    requires |ts| <= 1
    ensures TasksSent(ts) == if |ts| == 0 then 0 else Sent(ts[0])
    ensures Claims(ts) == if |ts| == 0 then 0 else Claim(ts[0])
  {
  }

  lemma ReplaceOnly<T>(xs: seq<T>, i: nat, ys: seq<T>)
    requires i < |xs| <= 1
    ensures Replace(xs, i, ys) == ys
  {
  }

  lemma RequestedIsRoom(c: Config, p: PollerState)
    requires ValidConfig(c) && p.remaining <= c.max
    ensures Requested(c, p) == c.max - p.remaining
  {
  }

  lemma NothingQueued(ms: seq<PollMessage>)
    requires Control(ms) == []
    ensures Arrivals(ms) == 0 && Completions(ms) == 0
  {
    ControlCounts(ms);
  }

  lemma HandlerMessageIs(h: Handler, action: HandlerStep)
    ensures Finishes(HandlerMessage(h, action)) == 1 - |NextHandler(h, action)|
    ensures Arrivals(HandlerMessage(h, action)) == 0 && Control(HandlerMessage(h, action)) == []
    ensures FinishedIn(HandlerMessage(h, action)) == if action.Finish? then [h.job] else []
  {
    OneMessage(JobFinished(h.job));
  }

  lemma JobsOfOne(h: Handler)
    ensures JobsOf([h]) == multiset{h.job}
  {
    assert seq(1, i requires 0 <= i < 1 => [h][i].job) == [h.job];
  }

  lemma HandlerKeepsJob(h: Handler, action: HandlerStep)
    ensures FinishedJobs(HandlerMessage(h, action)) + JobsOf(NextHandler(h, action)) == JobsOf([h])
  {
    HandlerMessageIs(h, action);
    JobsOfOne(h);
    if action.Finish? {
      assert JobsOf([]) == multiset{};
    } else {
      JobsOfOne(NextHandler(h, action)[0]);
    }
  }

  // One family at a time.

  lemma CapacitiesKept(c: Config, s: State, e: Event)
    requires Capacities(c, s) && Enabled(c, s, e)
    ensures Capacities(c, Apply(c, s, e))
  {
  }

  lemma PollKeepsFlight(c: Config, s: State)
    requires Capacities(c, s) && Flight(s) && Enabled(c, s, Poll)
    ensures Flight(Apply(c, s, Poll))
  {
    assert s.messages[0] in s.messages;
  }

  lemma AdvanceKeepsFlight(c: Config, s: State, t: nat, step: TaskStep)
    requires Flight(s) && Range(c, s) && Enabled(c, s, Advance(t, step))
    ensures Flight(Apply(c, s, Advance(t, step)))
  {
    ReplaceOnly(s.tasks, t, NextTask(s.tasks[t], step));
    TaskMessageIs(s.tasks[t], step);
    TaskStaysInRange(s.tasks[t], step);
    ControlConcat(s.messages, TaskMessage(s.tasks[t], step));
  }

  lemma FlightKept(c: Config, s: State, e: Event)
    requires Capacities(c, s) && Flight(s) && Range(c, s) && Enabled(c, s, e)
    ensures Flight(Apply(c, s, e))
  {
    match e
    case Tick =>
    case Poll =>
      PollKeepsFlight(c, s);
    case Start =>
    case Advance(t, step) =>
      AdvanceKeepsFlight(c, s, t, step);
    case Serve(h, action) =>
      HandlerMessageIs(s.handlers[h], action);
      ControlConcat(s.messages, HandlerMessage(s.handlers[h], action));
  }

  lemma AdvanceKeepsRange(c: Config, s: State, t: nat, step: TaskStep)
    requires Flight(s) && Range(c, s) && Enabled(c, s, Advance(t, step))
    ensures Range(c, Apply(c, s, Advance(t, step)))
  {
    ReplaceOnly(s.tasks, t, NextTask(s.tasks[t], step));
    TaskConserves(s.tasks[t], step, |s.sent|);
    TaskStaysInRange(s.tasks[t], step);
    OneTask(s.tasks);
    CountsConcat(s.messages, TaskMessage(s.tasks[t], step));
  }

  lemma ServeKeepsRange(c: Config, s: State, h: nat, action: HandlerStep)
    requires Range(c, s) && Enabled(c, s, Serve(h, action))
    ensures Range(c, Apply(c, s, Serve(h, action)))
  {
    HandlerMessageIs(s.handlers[h], action);
    CountsConcat(s.messages, HandlerMessage(s.handlers[h], action));
  }

  lemma TickKeepsRange(c: Config, s: State)
    requires ValidConfig(c) && Flight(s) && Range(c, s)
    ensures Range(c, Apply(c, s, Tick))
  {
    if Activates(c, s.poller, FetchJobs) {
      NothingQueued(s.messages);
      RequestedIsRoom(c, s.poller);
      OneTask(Apply(c, s, Tick).tasks);
    } else {
      assert s.tasks + [] == s.tasks;
    }
  }

  lemma RangeKept(c: Config, s: State, e: Event)
    requires ValidConfig(c) && Capacities(c, s) && Flight(s) && Range(c, s) && Enabled(c, s, e)
    ensures Range(c, Apply(c, s, e))
  {
    match e
    case Tick =>
      TickKeepsRange(c, s);
    case Poll =>
      assert s.messages[0] in s.messages;
      assert s.tasks + [] == s.tasks;
    case Start =>
    case Advance(t, step) =>
      AdvanceKeepsRange(c, s, t, step);
    case Serve(h, action) =>
      ServeKeepsRange(c, s, h, action);
  }

  /** What one event does to the sums of the ledger. */
  lemma SumsStep(c: Config, s: State, e: Event)
    requires ValidConfig(c) && Capacities(c, s) && Flight(s) && Range(c, s) && Enabled(c, s, e)
    ensures var next := Apply(c, s, e);
            match e
            case Tick => Unreported(next) == Unreported(s) && Outstanding(next) == Outstanding(s)
            case Poll =>
              && Unreported(next) == Unreported(s) - (if s.messages[0].JobsArrived? then s.messages[0].count else 0)
              && Outstanding(next) == Outstanding(s) - (if s.messages[0].JobFinished? then 1 else 0)
            case Start => Unreported(next) == Unreported(s) && Outstanding(next) == Outstanding(s)
            case Advance(t, step) =>
              && 0 <= TaskLoss(s.tasks[t], step)
              && Unreported(next) + TaskLoss(s.tasks[t], step) == Unreported(s) + |TaskJob(s.tasks[t], step, |s.sent|)|
              && Outstanding(next) == Outstanding(s) + |TaskJob(s.tasks[t], step, |s.sent|)|
            case Serve(_, _) => Unreported(next) == Unreported(s) && Outstanding(next) == Outstanding(s)
  {
    match e
    case Tick =>
      if Activates(c, s.poller, FetchJobs) {
        OneTask(Apply(c, s, e).tasks);
      } else {
        assert s.tasks + [] == s.tasks;
      }
    case Poll =>
      assert s.messages[0] in s.messages;
      assert s.tasks + [] == s.tasks;
    case Start =>
    case Advance(t, step) =>
      ReplaceOnly(s.tasks, t, NextTask(s.tasks[t], step));
      TaskConserves(s.tasks[t], step, |s.sent|);
      TaskMessageIs(s.tasks[t], step);
      OneTask(s.tasks);
      CountsConcat(s.messages, TaskMessage(s.tasks[t], step));
    case Serve(h, action) =>
      HandlerMessageIs(s.handlers[h], action);
      CountsConcat(s.messages, HandlerMessage(s.handlers[h], action));
  }

  lemma ArrivalIsCounted(s: State)
    requires |s.messages| > 0 && s.messages[0].JobsArrived?
    ensures s.messages[0].count <= Arrivals(s.messages)
  {
  }

  lemma LedgerKept(c: Config, s: State, e: Event)
    requires ValidConfig(c) && Capacities(c, s) && Flight(s) && Range(c, s) && Ledger(s) && Latest(s)
    requires Enabled(c, s, e)
    ensures Ledger(Apply(c, s, e))
  {
    SumsStep(c, s, e);
    OneTask(s.tasks);
    if e.Poll? && s.messages[0].JobsArrived? {
      ArrivalIsCounted(s);
    }
  }

  /** The messages ever sent: a task's and a handler's are added at the end, polling moves one across. */
  lemma PostedStep(c: Config, s: State, e: Event)
    requires Enabled(c, s, e)
    ensures var next := Apply(c, s, e);
            match e
            case Advance(t, step) => Posted(next) == Posted(s) + TaskMessage(s.tasks[t], step)
            case Serve(h, action) => Posted(next) == Posted(s) + HandlerMessage(s.handlers[h], action)
            case Tick => Posted(next) == s.handled + [FetchJobs] + s.messages
            case _ => Posted(next) == Posted(s)
  {
    if e.Poll? {
      assert s.messages == [s.messages[0]] + s.messages[1..];
    }
  }

  lemma TickKeepsFinished(handled: seq<PollMessage>, messages: seq<PollMessage>)
    ensures FinishedJobs(handled + [FetchJobs] + messages) == FinishedJobs(handled + messages)
  {
    FinishedConcat(handled + [FetchJobs], messages);
    FinishedConcat(handled, [FetchJobs]);
    FinishedConcat(handled, messages);
  }

  lemma NothingFinished(posted: seq<PollMessage>, more: seq<PollMessage>)
    requires FinishedIn(more) == []
    ensures FinishedJobs(posted + more) == FinishedJobs(posted)
  {
    FinishedConcat(posted, more);
  }

  lemma ConservedByStart(started: seq<Job>, handlers: seq<Handler>, posted: seq<PollMessage>, next: Handler)
    requires Conserved(started, handlers, posted)
    ensures Conserved(started + [next.job], handlers + [next], posted)
  {
    JobsOfConcat(handlers, [next]);
    assert JobsOf([next]) == multiset{next.job};
  }

  /** Sums of multisets in which one part is exchanged for others. */
  lemma Exchange<T>(
    a: multiset<T>, a': multiset<T>, gone: multiset<T>, come: multiset<T>,
    more: multiset<T>, done: multiset<T>, rest: multiset<T>)
    requires a' + gone == a + come
    requires more + gone == come + done
    ensures a' + (rest + done) == (a + rest) + more
  {
    forall x ensures (a' + (rest + done))[x] == ((a + rest) + more)[x] {
      assert (a' + gone)[x] == (a + come)[x];
      assert (more + gone)[x] == (come + done)[x];
    }
  }

  lemma ConservedByServe(
    started: seq<Job>, handlers: seq<Handler>, posted: seq<PollMessage>, h: nat, action: HandlerStep)
    requires Conserved(started, handlers, posted) && h < |handlers|
    ensures Conserved(
              started,
              Replace(handlers, h, NextHandler(handlers[h], action)),
              posted + HandlerMessage(handlers[h], action))
  {
    var next := NextHandler(handlers[h], action);
    var message := HandlerMessage(handlers[h], action);
    JobsOfReplace(handlers, h, next);
    HandlerKeepsJob(handlers[h], action);
    FinishedConcat(posted, message);
    Exchange(JobsOf(handlers), JobsOf(Replace(handlers, h, next)), JobsOf([handlers[h]]), JobsOf(next),
      multiset{}, FinishedJobs(message), FinishedJobs(posted));
  }

  lemma QueuedKept(c: Config, s: State, e: Event)
    requires Queued(s) && Enabled(c, s, e)
    ensures Queued(Apply(c, s, e))
  {
    match e
    case Start =>
      assert s.started + s.jobQueue == (s.started + [s.jobQueue[0]]) + s.jobQueue[1..];
    case Advance(t, step) =>
      var jobs := TaskJob(s.tasks[t], step, |s.sent|);
      assert s.started + (s.jobQueue + jobs) == s.sent + jobs;
    case _ =>
  }

  lemma DispatchedKept(c: Config, s: State, e: Event)
    requires Dispatched(s) && Enabled(c, s, e)
    ensures Dispatched(Apply(c, s, e))
  {
    QueuedKept(c, s, e);
    PostedStep(c, s, e);
    match e
    case Tick =>
      TickKeepsFinished(s.handled, s.messages);
    case Poll =>
    case Start =>
      ConservedByStart(s.started, s.handlers, Posted(s), Handler(s.jobQueue[0], Some(s.jobQueue[0].key), Running));
    case Advance(t, step) =>
      TaskMessageIs(s.tasks[t], step);
      NothingFinished(Posted(s), TaskMessage(s.tasks[t], step));
    case Serve(h, action) =>
      ConservedByServe(s.started, s.handlers, Posted(s), h, action);
  }

  lemma BoundByServe(c: Config, handlers: seq<Handler>, reports: seq<Report>, h: nat, action: HandlerStep)
    requires Bound(handlers) && AllWellAddressed(reports) && h < |handlers|
    ensures Bound(Replace(handlers, h, NextHandler(handlers[h], action)))
    ensures AllWellAddressed(reports + HandlerReport(handlers[h], action))
  {
  }

  lemma AttemptedOne(h: Handler)
    ensures AttemptedIn([h]) == if h.phase.Running? then [] else [h.job]
  {
  }

  lemma OneReport(h: Handler, action: HandlerStep)
    requires action.Attempt? <==> h.phase.Running?
    ensures ReportedJobs(HandlerReport(h, action)) + Attempted([h]) ==
            Attempted(NextHandler(h, action)) + FinishedJobs(HandlerMessage(h, action))
  {
    HandlerMessageIs(h, action);
    AttemptedOne(h);
    if !action.Finish? {
      AttemptedOne(NextHandler(h, action)[0]);
    }
    var reports := HandlerReport(h, action);
    assert seq(|reports|, i requires 0 <= i < |reports| => reports[i].job) == if action.Attempt? then [h.job] else [];
  }

  lemma AccountedByStart(reports: seq<Report>, handlers: seq<Handler>, posted: seq<PollMessage>, next: Handler)
    requires Accounted(reports, handlers, posted) && next.phase.Running?
    ensures Accounted(reports, handlers + [next], posted)
  {
    AttemptedOne(next);
    AttemptedConcat(handlers, [next]);
  }

  lemma AccountedByServe(
    reports: seq<Report>, handlers: seq<Handler>, posted: seq<PollMessage>, h: nat, action: HandlerStep)
    requires Accounted(reports, handlers, posted) && h < |handlers|
    requires action.Attempt? <==> handlers[h].phase.Running?
    ensures Accounted(
              reports + HandlerReport(handlers[h], action),
              Replace(handlers, h, NextHandler(handlers[h], action)),
              posted + HandlerMessage(handlers[h], action))
  {
    var next := NextHandler(handlers[h], action);
    var message := HandlerMessage(handlers[h], action);
    AttemptedReplace(handlers, h, next);
    OneReport(handlers[h], action);
    ReportedConcat(reports, HandlerReport(handlers[h], action));
    FinishedConcat(posted, message);
    Exchange(Attempted(handlers), Attempted(Replace(handlers, h, next)), Attempted([handlers[h]]), Attempted(next),
      ReportedJobs(HandlerReport(handlers[h], action)), FinishedJobs(message), FinishedJobs(posted));
  }

  lemma ReportedKept(c: Config, s: State, e: Event)
    requires Reported(c, s) && Enabled(c, s, e)
    ensures Reported(c, Apply(c, s, e))
  {
    PostedStep(c, s, e);
    match e
    case Tick =>
      TickKeepsFinished(s.handled, s.messages);
    case Poll =>
    case Start =>
      if c.autoHandler {
        AccountedByStart(s.reports, s.handlers, Posted(s), Handler(s.jobQueue[0], Some(s.jobQueue[0].key), Running));
      }
    case Advance(t, step) =>
      TaskMessageIs(s.tasks[t], step);
      NothingFinished(Posted(s), TaskMessage(s.tasks[t], step));
    case Serve(h, action) =>
      BoundByServe(c, s.handlers, s.reports, h, action);
      if c.autoHandler {
        AccountedByServe(s.reports, s.handlers, Posted(s), h, action);
      }
  }

  lemma FitsExtends(ms: seq<PollMessage>, m: PollMessage)
    requires FitsU32(ms) && Reflected(ms + [m]) <= U32_MAX
    ensures FitsU32(ms + [m])
  {
    forall k | 0 <= k <= |ms + [m]| ensures Reflected((ms + [m])[..k]) <= U32_MAX {
      if k <= |ms| {
        assert (ms + [m])[..k] == ms[..k];
      } else {
        assert (ms + [m])[..k] == ms + [m];
      }
    }
  }

  lemma HistoryKept(c: Config, s: State, e: Event)
    requires ValidConfig(c) && Capacities(c, s) && Flight(s) && Range(c, s) && History(c, s) && Enabled(c, s, e)
    ensures History(c, Apply(c, s, e))
  {
    if e.Tick? || e.Poll? {
      var m := if e.Tick? then FetchJobs else s.messages[0];
      assert (s.handled + [m])[..|s.handled|] == s.handled;
      if m.JobsArrived? {
        ArrivalIsCounted(s);
      }
      OneTask(s.tasks);
      ReflectionStep(c, s.handled, m);
      FitsExtends(s.handled, m);
    }
  }

  lemma {:induction false} OrderExtends(cs: seq<PollMessage>, m: PollMessage)
    requires InOrder(cs) && IsControl(m)
    requires forall i :: 0 <= i < |cs| ==> Precedes(cs[i], m)
    ensures InOrder(cs + [m])
  {
  }

  lemma OrderedByAdvance(cs: seq<PollMessage>, task: Task, step: TaskStep, activations: nat)
    requires OrderedPosts(cs, [task], activations) && TaskReady(task, step)
    requires task.id == activations - 1
    ensures OrderedPosts(cs + TaskMessage(task, step), NextTask(task, step), activations)
  {
    var more := TaskMessage(task, step);
    if more == [] {
      assert cs + [] == cs;
    } else {
      OrderExtends(cs, more[0]);
    }
    assert forall m :: m in cs || m in more ==> m in cs + more;
  }

  lemma OrderedBySpawn(cs: seq<PollMessage>, task: Task, activations: nat)
    requires OrderedPosts(cs, [], activations) && task.id == activations
    ensures OrderedPosts(cs, [task], activations + 1)
  {
  }

  lemma TickKeepsControl(handled: seq<PollMessage>, messages: seq<PollMessage>)
    ensures Control(handled + [FetchJobs] + messages) == Control(handled + messages)
  {
    ControlConcat(handled + [FetchJobs], messages);
    ControlConcat(handled, [FetchJobs]);
    ControlConcat(handled, messages);
    assert Control(handled) + [] == Control(handled);
  }

  lemma PostOrderKept(c: Config, s: State, e: Event)
    requires Flight(s) && PostOrder(s) && Range(c, s) && Capacities(c, s) && Enabled(c, s, e)
    ensures PostOrder(Apply(c, s, e))
  {
    PostedStep(c, s, e);
    match e
    case Tick =>
      TickKeepsControl(s.handled, s.messages);
      if Activates(c, s.poller, FetchJobs) {
        OrderedBySpawn(Control(Posted(s)), Spawned(c, s, FetchJobs)[0], |s.requests|);
      } else {
        assert s.tasks + [] == s.tasks;
      }
    case Poll =>
      assert s.messages[0] in s.messages;
      assert s.tasks + [] == s.tasks;
    case Start =>
    case Advance(t, step) =>
      ReplaceOnly(s.tasks, t, NextTask(s.tasks[t], step));
      assert s.tasks == [s.tasks[t]];
      TaskMessageIs(s.tasks[t], step);
      ControlConcat(Posted(s), TaskMessage(s.tasks[t], step));
      OrderedByAdvance(Control(Posted(s)), s.tasks[t], step, |s.requests|);
    case Serve(h, action) =>
      HandlerMessageIs(s.handlers[h], action);
      ControlConcat(Posted(s), HandlerMessage(s.handlers[h], action));
      assert Control(Posted(s)) + [] == Control(Posted(s));
  }

  lemma LatestKept(c: Config, s: State, e: Event)
    requires ValidConfig(c) && Capacities(c, s) && Flight(s) && Range(c, s) && Latest(s) && Enabled(c, s, e)
    ensures Latest(Apply(c, s, e))
  {
    SumsStep(c, s, e);
    match e
    case Tick =>
      if Activates(c, s.poller, FetchJobs) {
        NothingQueued(s.messages);
      }
    case Poll =>
      assert s.messages[0] in s.messages;
      OneTask(s.tasks);
      if s.messages[0].JobsArrived? {
        ArrivalIsCounted(s);
      }
    case Start =>
    case Advance(t, step) =>
      OneTask(s.tasks);
      OneTask(Apply(c, s, e).tasks);
    case Serve(h, action) =>
  }

  lemma InvariantKept(c: Config, s: State, e: Event)
    requires ValidConfig(c) && Invariant(c, s) && Enabled(c, s, e)
    ensures Invariant(c, Apply(c, s, e))
  {
    CapacitiesKept(c, s, e);
    FlightKept(c, s, e);
    RangeKept(c, s, e);
    LedgerKept(c, s, e);
    DispatchedKept(c, s, e);
    ReportedKept(c, s, e);
    HistoryKept(c, s, e);
    PostOrderKept(c, s, e);
    LatestKept(c, s, e);
  }

  /** Every run, whatever the interleaving, the stream errors and the timeouts, keeps the invariant. */
  lemma {:induction false} RunsKeepInvariant(c: Config, s: State, run: seq<Event>)
    requires ValidConfig(c) && Invariant(c, s) && Legal(c, s, run)
    ensures Invariant(c, After(c, s, run))
    decreases |run|
  {
    if |run| > 0 {
      InvariantKept(c, s, run[0]);
      RunsKeepInvariant(c, Apply(c, s, run[0]), run[1..]);
    }
  }

  lemma StartInvariant(c: Config, s: State)
    requires ValidConfig(c) && IsStart(s)
    ensures Invariant(c, s)
  {
    assert Posted(s) == [];
    assert JobsOf(s.handlers) == multiset{} == ReportedJobs(s.reports);
    assert Ledger(s) && Latest(s);
    assert Reported(c, s);
    assert Dispatched(s);
    assert History(c, s);
  }

  lemma Reached(c: Config, run: seq<Event>, s: State)
    requires ValidConfig(c) && Reaches(c, run, s)
    ensures Invariant(c, s)
  {
    var start :| IsStart(start) && Legal(c, start, run) && After(c, start, run) == s;
    StartInvariant(c, start);
    RunsKeepInvariant(c, start, run);
  }
}
