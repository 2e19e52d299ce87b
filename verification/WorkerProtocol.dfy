/**
 One running worker as a step system: the poller, the spawned activation tasks, the job
 queue, the dispatcher's handlers and the poll queue, interleaved in any order.

 Each event is one stretch of code between two awaits. An event is enabled only when the
 await in front of it can complete: a send needs a free slot, a receive needs an item.
 */
module WorkerProtocol {
  import opened Common
  import opened JobReports
  import opened PollerSpec

  /**
   A spawned activation: waiting for the gateway's answer; reading the stream, with the
   rest of the current batch still to be queued; about to send `JobsArrived`; or, its
   timed part over or cut short, about to send `FetchJobsComplete`.
   */
  datatype Task =
    | Requesting(id: nat, requested: int)
    | Streaming(id: nat, requested: int, total: nat, batch: seq<int>)
    | Reporting(id: nat, requested: int, total: nat)
    | Completing(id: nat)

  /** Jobs this task has put in the job queue and not yet announced. */
  function Sent(t: Task): int {
    match t
    case Requesting(_, _) => 0
    case Streaming(_, _, total, batch) => total - |batch|
    case Reporting(_, _, total) => total
    case Completing(_) => 0
  }

  /** A handler runs, then (auto handlers only) awaits the answer to its report, then waits to send `JobFinished`. */
  datatype Phase = Running | Awaiting | Finished

  /** A dispatched job. `boundKey` is the current job key of the client made for it. */
  datatype Handler = Handler(job: Job, boundKey: Option<int>, phase: Phase)

  /** A report the auto handler attempted for `job`: what became of the job, and the call made for it. */
  datatype Report = Report(job: Job, outcome: Outcome, call: Result<GatewayCall, Error>)

  /**
   The queues and the parts, then the history: the sizes of all activations, the jobs put
   in the job queue, the jobs dispatched, the messages polled, the decrements lost to
   saturation, the jobs whose `JobsArrived` a timeout dropped, and the reports.
   */
  datatype State = State(
    poller: PollerState,
    tasks: seq<Task>,
    jobQueue: seq<Job>,
    messages: seq<PollMessage>,
    handlers: seq<Handler>,
    requests: seq<int>,
    sent: seq<Job>,
    started: seq<Job>,
    handled: seq<PollMessage>,
    clipped: nat,
    lost: int,
    reports: seq<Report>)

  /** A worker that has just started. */
  predicate IsStart(s: State) {
    && s.poller == INITIAL && s.clipped == 0 && s.lost == 0
    && s.tasks == [] && s.jobQueue == [] && s.messages == [] && s.handlers == []
    && s.requests == [] && s.sent == [] && s.started == [] && s.handled == [] && s.reports == []
  }

  /** What an activation task does next. */
  datatype TaskStep =
    | CallFails               // the gateway rejects the activation
    | StreamOpens             // the gateway accepts it
    | Receive(keys: seq<int>) // the stream yields a batch of jobs
    | QueueJob                // the task queues the next job of its batch
    | StreamEnds              // the stream ends or breaks
    | Announce                // the task sends `JobsArrived`
    | TimesOut                // the request timeout cuts the task short
    | Complete                // the task sends `FetchJobsComplete` and is over

  /** What a handler does next. */
  datatype HandlerStep =
    | Attempt(outcome: Outcome) // the auto handler issues its report
    | Return                    // the handler is done
    | Finish                    // the dispatcher sends `JobFinished`

  datatype Event =
    | Tick                             // the poll interval elapsed
    | Poll                             // the poller takes the next queued message
    | Start                            // the dispatcher takes the next queued job
    | Advance(t: nat, step: TaskStep)
    | Serve(h: nat, action: HandlerStep)

  /** The gateway streams at most as many jobs as an activation asked for. */
  predicate TaskReady(t: Task, step: TaskStep) {
    match step
    case CallFails => t.Requesting?
    case StreamOpens => t.Requesting?
    case Receive(keys) => t.Streaming? && t.batch == [] && t.total + |keys| <= t.requested
    case QueueJob => t.Streaming? && t.batch != []
    case StreamEnds => t.Streaming? && t.batch == []
    case Announce => t.Reporting?
    case TimesOut => !t.Completing?
    case Complete => t.Completing?
  }

  /** The task after a step, or nothing once it is over. */
  function NextTask(t: Task, step: TaskStep): seq<Task>
    requires TaskReady(t, step)
  {
    match step
    case CallFails => [Completing(t.id)]
    case StreamOpens => [Streaming(t.id, t.requested, 0, [])]
    case Receive(keys) => [Streaming(t.id, t.requested, t.total + |keys|, keys)]
    case QueueJob => [Streaming(t.id, t.requested, t.total, t.batch[1..])]
    case StreamEnds => [Reporting(t.id, t.requested, t.total)]
    case Announce => [Completing(t.id)]
    case TimesOut => [Completing(t.id)]
    case Complete => []
  }

  /** The message a step sends to the poller. */
  function TaskMessage(t: Task, step: TaskStep): seq<PollMessage>
    requires TaskReady(t, step)
  {
    match step
    case Announce => [JobsArrived(t.id, t.total)]
    case Complete => [FetchJobsComplete(t.id)]
    case _ => []
  }

  /** The job a step puts in the job queue, as number `serial`. */
  function TaskJob(t: Task, step: TaskStep, serial: nat): seq<Job>
    requires TaskReady(t, step)
  {
    if step.QueueJob? then [Job(serial, t.id, t.batch[0])] else []
  }

  /** The jobs already sent whose announcement a step abandons. */
  function TaskLoss(t: Task, step: TaskStep): int {
    if step.TimesOut? then Sent(t) else 0
  }

  predicate HandlerReady(c: Config, h: Handler, step: HandlerStep) {
    match step
    case Attempt(_) => c.autoHandler && h.phase.Running?
    case Return => h.phase == if c.autoHandler then Awaiting else Running
    case Finish => h.phase.Finished?
  }

  function NextHandler(h: Handler, step: HandlerStep): seq<Handler> {
    match step
    case Attempt(_) => [h.(phase := Awaiting)]
    case Return => [h.(phase := Finished)]
    case Finish => []
  }

  function HandlerMessage(h: Handler, step: HandlerStep): seq<PollMessage> {
    if step.Finish? then [JobFinished(h.job)] else []
  }

  function HandlerReport(h: Handler, step: HandlerStep): seq<Report> {
    if step.Attempt? then [Report(h.job, step.outcome, AutoReport(h.boundKey, step.outcome))] else []
  }

  predicate HandlerSlotFree(c: Config, s: State) {
    c.concurrency == 0 || |s.handlers| < c.concurrency
  }

  /** A queue with `n` items takes some more: a send waits for a free place. */
  predicate Fits<T>(more: seq<T>, n: nat, capacity: nat) {
    more == [] || n + |more| <= capacity
  }

  predicate Enabled(c: Config, s: State, e: Event) {
    match e
    case Tick => true
    case Poll => |s.messages| > 0
    case Start => |s.jobQueue| > 0 && HandlerSlotFree(c, s)
    case Advance(t, step) =>
      && t < |s.tasks| && TaskReady(s.tasks[t], step)
      && Fits(TaskMessage(s.tasks[t], step), |s.messages|, c.capacity)
      && Fits(TaskJob(s.tasks[t], step, |s.sent|), |s.jobQueue|, c.max)
    case Serve(h, step) =>
      && h < |s.handlers| && HandlerReady(c, s.handlers[h], step)
      && Fits(HandlerMessage(s.handlers[h], step), |s.messages|, c.capacity)
  }

  /** The sequence with its element at `i` replaced by the elements `ys`. */
  function Replace<T>(xs: seq<T>, i: nat, ys: seq<T>): seq<T>
    requires i < |xs|
  {
    xs[..i] + ys + xs[i + 1..]
  }

  /** The task a message makes the poller spawn. */
  function Spawned(c: Config, s: State, m: PollMessage): seq<Task> {
    if Activates(c, s.poller, m) then [Requesting(|s.requests|, Requested(c, s.poller))] else []
  }

  /** The poller handles one message; if that starts an activation, its task is spawned. */
  function Deliver(c: Config, s: State, m: PollMessage): State {
    s.(poller := HandleMessage(c, s.poller, m),
       tasks := s.tasks + Spawned(c, s, m),
       requests := s.requests + if Activates(c, s.poller, m) then [Requested(c, s.poller)] else [],
       handled := s.handled + [m],
       clipped := s.clipped + if m.JobFinished? && s.poller.remaining == 0 then 1 else 0)
  }

  function Apply(c: Config, s: State, e: Event): State
    requires Enabled(c, s, e)
  {
    match e
    case Tick => Deliver(c, s, FetchJobs)
    case Poll => Deliver(c, s.(messages := s.messages[1..]), s.messages[0])
    case Start =>
      var job := s.jobQueue[0];
      s.(jobQueue := s.jobQueue[1..],
         started := s.started + [job],
         handlers := s.handlers + [Handler(job, Some(job.key), Running)])
    case Advance(t, step) =>
      var task := s.tasks[t];
      var jobs := TaskJob(task, step, |s.sent|);
      s.(tasks := Replace(s.tasks, t, NextTask(task, step)),
         messages := s.messages + TaskMessage(task, step),
         jobQueue := s.jobQueue + jobs,
         sent := s.sent + jobs,
         lost := s.lost + TaskLoss(task, step))
    case Serve(h, step) =>
      var handler := s.handlers[h];
      s.(handlers := Replace(s.handlers, h, NextHandler(handler, step)),
         messages := s.messages + HandlerMessage(handler, step),
         reports := s.reports + HandlerReport(handler, step))
  }

  /** A sequence of events each enabled where it happens. */
  predicate Legal(c: Config, s: State, run: seq<Event>)
    decreases |run|
  {
    |run| == 0 || (Enabled(c, s, run[0]) && Legal(c, Apply(c, s, run[0]), run[1..]))
  }

  function After(c: Config, s: State, run: seq<Event>): State
    requires Legal(c, s, run)
    decreases |run|
  {
    if |run| == 0 then s else After(c, Apply(c, s, run[0]), run[1..])
  }

  /** A run of a started worker that ends in `s`. */
  ghost predicate Reaches(c: Config, run: seq<Event>, s: State) {
    exists start :: IsStart(start) && Legal(c, start, run) && After(c, start, run) == s
  }

  lemma {:induction false} RunsCompose(c: Config, s: State, first: seq<Event>, second: seq<Event>)
    requires Legal(c, s, first) && Legal(c, After(c, s, first), second)
    ensures Legal(c, s, first + second)
    ensures After(c, s, first + second) == After(c, After(c, s, first), second)
    decreases |first|
  {
    if |first| == 0 {
      assert first + second == second;
    } else {
      RunsCompose(c, Apply(c, s, first[0]), first[1..], second);
      assert (first + second)[1..] == first[1..] + second;
    }
  }

  predicate IsTimeout(e: Event) {
    e.Advance? && e.step.TimesOut?
  }

  predicate NoTimeouts(run: seq<Event>) {
    forall i :: 0 <= i < |run| ==> !IsTimeout(run[i])
  }

  /** `run` is legal from `s` and ends in `end`. */
  predicate Leads(c: Config, s: State, run: seq<Event>, end: State) {
    Legal(c, s, run) && After(c, s, run) == end
  }

  predicate Quietly(c: Config, s: State, run: seq<Event>, end: State) {
    Leads(c, s, run, end) && NoTimeouts(run)
  }

  lemma Extend(c: Config, s: State, run: seq<Event>, mid: State, e: Event) returns (longer: seq<Event>, end: State)
    requires Leads(c, s, run, mid) && Enabled(c, mid, e)
    ensures longer == run + [e] && end == Apply(c, mid, e) && Leads(c, s, longer, end)
    ensures NoTimeouts(run) && !IsTimeout(e) ==> NoTimeouts(longer)
  {
    longer, end := run + [e], Apply(c, mid, e);
    var last := [e];
    assert |last[1..]| == 0;
    RunsCompose(c, s, run, last);
  }

  // What is read off a state.

  predicate IsControl(m: PollMessage) {
    m.JobsArrived? || m.FetchJobsComplete?
  }

  /** The activation tasks' messages among `ms`. */
  function Control(ms: seq<PollMessage>): seq<PollMessage> {
    if |ms| == 0 then [] else (if IsControl(ms[0]) then [ms[0]] else []) + Control(ms[1..])
  }

  function Arrivals(ms: seq<PollMessage>): nat {
    if |ms| == 0 then 0 else (if ms[0].JobsArrived? then ms[0].count else 0) + Arrivals(ms[1..])
  }

  function Finishes(ms: seq<PollMessage>): nat {
    if |ms| == 0 then 0 else (if ms[0].JobFinished? then 1 else 0) + Finishes(ms[1..])
  }

  function Completions(ms: seq<PollMessage>): nat {
    if |ms| == 0 then 0 else (if ms[0].FetchJobsComplete? then 1 else 0) + Completions(ms[1..])
  }

  function FinishedIn(ms: seq<PollMessage>): seq<Job> {
    if |ms| == 0 then [] else (if ms[0].JobFinished? then [ms[0].job] else []) + FinishedIn(ms[1..])
  }

  function FinishedJobs(ms: seq<PollMessage>): multiset<Job> {
    multiset(FinishedIn(ms))
  }

  function JobsOf(hs: seq<Handler>): multiset<Job> {
    multiset(seq(|hs|, i requires 0 <= i < |hs| => hs[i].job))
  }

  function AttemptedIn(hs: seq<Handler>): seq<Job> {
    if |hs| == 0 then [] else (if hs[0].phase.Running? then [] else [hs[0].job]) + AttemptedIn(hs[1..])
  }

  /** The jobs whose handlers have attempted their report. */
  function Attempted(hs: seq<Handler>): multiset<Job> {
    multiset(AttemptedIn(hs))
  }

  function ReportedJobs(rs: seq<Report>): multiset<Job> {
    multiset(seq(|rs|, i requires 0 <= i < |rs| => rs[i].job))
  }

  function TasksSent(ts: seq<Task>): int {
    if |ts| == 0 then 0 else Sent(ts[0]) + TasksSent(ts[1..])
  }

  /** Everything ever sent to the poller, ticks included, in order. */
  function Posted(s: State): seq<PollMessage> {
    s.handled + s.messages
  }

  /** Jobs sent by a live task, or counted in a queued `JobsArrived`. */
  function Unreported(s: State): int {
    TasksSent(s.tasks) + Arrivals(s.messages)
  }

  /** Jobs put in the job queue whose `JobFinished` has not been polled. */
  function Outstanding(s: State): nat {
    |s.jobQueue| + |s.handlers| + Finishes(s.messages)
  }

  /** No two jobs have the same key, as when the gateway hands out each job once. */
  predicate DistinctKeys(jobs: seq<Job>) {
    forall i, j :: 0 <= i < j < |jobs| ==> jobs[i].key != jobs[j].key
  }

  predicate Drained(s: State) {
    s.tasks == [] && s.jobQueue == [] && s.handlers == [] && s.messages == []
  }

  // How these behave on concatenations.

  lemma {:induction false} ControlConcat(a: seq<PollMessage>, b: seq<PollMessage>)
    ensures Control(a + b) == Control(a) + Control(b)
  {
    if |a| == 0 {
      assert a + b == b;
    } else {
      ControlConcat(a[1..], b);
      assert (a + b)[1..] == a[1..] + b && (a + b)[0] == a[0];
    }
  }

  lemma {:induction false} CountsConcat(a: seq<PollMessage>, b: seq<PollMessage>)
    ensures Arrivals(a + b) == Arrivals(a) + Arrivals(b)
    ensures Finishes(a + b) == Finishes(a) + Finishes(b)
    ensures Completions(a + b) == Completions(a) + Completions(b)
  {
    if |a| == 0 {
      assert a + b == b;
    } else {
      CountsConcat(a[1..], b);
      assert (a + b)[1..] == a[1..] + b && (a + b)[0] == a[0];
    }
  }

  lemma {:induction false} FinishedInConcat(a: seq<PollMessage>, b: seq<PollMessage>)
    ensures FinishedIn(a + b) == FinishedIn(a) + FinishedIn(b)
  {
    if |a| == 0 {
      assert a + b == b;
    } else {
      FinishedInConcat(a[1..], b);
      assert (a + b)[1..] == a[1..] + b && (a + b)[0] == a[0];
    }
  }

  lemma FinishedConcat(a: seq<PollMessage>, b: seq<PollMessage>)
    ensures FinishedJobs(a + b) == FinishedJobs(a) + FinishedJobs(b)
  {
    FinishedInConcat(a, b);
  }

  /** Only control messages count arrivals and completions. */
  lemma {:induction false} ControlCounts(ms: seq<PollMessage>)
    ensures Arrivals(ms) == Arrivals(Control(ms))
    ensures Completions(ms) == Completions(Control(ms))
    ensures forall m :: m in Control(ms) <==> m in ms && IsControl(m)
  {
    if |ms| > 0 {
      ControlCounts(ms[1..]);
      if IsControl(ms[0]) {
        CountsConcat([ms[0]], Control(ms[1..]));
      } else {
        assert Control(ms) == Control(ms[1..]);
      }
    }
  }

  lemma {:induction false} FinishedJobsCount(ms: seq<PollMessage>)
    ensures |FinishedJobs(ms)| == |FinishedIn(ms)| == Finishes(ms)
    ensures forall m :: m in ms && m.JobFinished? ==> m.job in FinishedJobs(ms)
  {
    if |ms| > 0 {
      FinishedJobsCount(ms[1..]);
    }
  }

  lemma JobsOfConcat(a: seq<Handler>, b: seq<Handler>)
    ensures JobsOf(a + b) == JobsOf(a) + JobsOf(b)
  {
    var jobs := (hs: seq<Handler>) => seq(|hs|, i requires 0 <= i < |hs| => hs[i].job);
    assert jobs(a + b) == jobs(a) + jobs(b);
  }

  lemma ReportedConcat(a: seq<Report>, b: seq<Report>)
    ensures ReportedJobs(a + b) == ReportedJobs(a) + ReportedJobs(b)
  {
    var jobs := (rs: seq<Report>) => seq(|rs|, i requires 0 <= i < |rs| => rs[i].job);
    assert jobs(a + b) == jobs(a) + jobs(b);
  }

  lemma {:induction false} AttemptedInConcat(a: seq<Handler>, b: seq<Handler>)
    ensures AttemptedIn(a + b) == AttemptedIn(a) + AttemptedIn(b)
  {
    if |a| == 0 {
      assert a + b == b;
    } else {
      AttemptedInConcat(a[1..], b);
      assert (a + b)[1..] == a[1..] + b && (a + b)[0] == a[0];
    }
  }

  lemma AttemptedConcat(a: seq<Handler>, b: seq<Handler>)
    ensures Attempted(a + b) == Attempted(a) + Attempted(b)
  {
    AttemptedInConcat(a, b);
  }

  lemma JobsOfReplace(hs: seq<Handler>, i: nat, ys: seq<Handler>)
    requires i < |hs|
    ensures JobsOf(Replace(hs, i, ys)) + JobsOf([hs[i]]) == JobsOf(hs) + JobsOf(ys)
  {
    assert hs == hs[..i] + [hs[i]] + hs[i + 1..];
    JobsOfConcat(hs[..i] + [hs[i]], hs[i + 1..]);
    JobsOfConcat(hs[..i], [hs[i]]);
    JobsOfConcat(hs[..i] + ys, hs[i + 1..]);
    JobsOfConcat(hs[..i], ys);
  }

  lemma AttemptedReplace(hs: seq<Handler>, i: nat, ys: seq<Handler>)
    requires i < |hs|
    ensures Attempted(Replace(hs, i, ys)) + Attempted([hs[i]]) == Attempted(hs) + Attempted(ys)
  {
    assert hs == hs[..i] + [hs[i]] + hs[i + 1..];
    AttemptedConcat(hs[..i] + [hs[i]], hs[i + 1..]);
    AttemptedConcat(hs[..i], [hs[i]]);
    AttemptedConcat(hs[..i] + ys, hs[i + 1..]);
    AttemptedConcat(hs[..i], ys);
  }

  lemma JobsOfCount(hs: seq<Handler>)
    ensures |JobsOf(hs)| == |hs|
    ensures forall h :: h in hs ==> h.job in JobsOf(hs)
  {
    var jobs := seq(|hs|, i requires 0 <= i < |hs| => hs[i].job);
    forall h | h in hs ensures h.job in JobsOf(hs) {
      var i :| 0 <= i < |hs| && hs[i] == h;
      assert jobs[i] == h.job;
    }
  }
}
