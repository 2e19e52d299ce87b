/** Between ticks the worker always comes to rest: no deadlock, and a measure that bounds every run. */
module Progress {
  import opened Common
  import opened JobReports
  import opened PollerSpec
  import opened WorkerProtocol
  import opened WorkerInvariants
  import opened FlowControl

  /** Steps left to a task: those of each job still to stream or queue, and its own. */
  function TaskWeight(t: Task): int {
    match t
    case Requesting(_, requested) => 6 + 7 * requested
    case Streaming(_, requested, total, batch) => 5 + 6 * |batch| + 7 * (requested - total)
    case Reporting(_, _, _) => 4
    case Completing(_) => 2
  }

  function TasksWeight(ts: seq<Task>): int {
    if |ts| == 0 then 0 else TaskWeight(ts[0]) + TasksWeight(ts[1..])
  }

  function HandlerWeight(h: Handler): nat {
    match h.phase
    case Running => 4
    case Awaiting => 3
    case Finished => 2
  }

  function HandlersWeight(hs: seq<Handler>): nat {
    if |hs| == 0 then 0 else HandlerWeight(hs[0]) + HandlersWeight(hs[1..])
  }

  /** A bound on the number of steps until rest. */
  function Measure(s: State): int {
    TasksWeight(s.tasks) + 5 * |s.jobQueue| + HandlersWeight(s.handlers) + |s.messages|
  }

  /** An empty batch changes nothing: the stream only shows that it is alive. */
  predicate Idle(e: Event) {
    e.Advance? && e.step == Receive([])
  }

  /** A step of the worker's own, which does something. */
  predicate Internal(e: Event) {
    !e.Tick? && !Idle(e)
  }

  lemma {:induction false} HandlersWeightConcat(a: seq<Handler>, b: seq<Handler>)
    ensures HandlersWeight(a + b) == HandlersWeight(a) + HandlersWeight(b)
  {
    if |a| == 0 {
      assert a + b == b;
    } else {
      HandlersWeightConcat(a[1..], b);
      assert (a + b)[1..] == a[1..] + b && (a + b)[0] == a[0];
    }
  }

  lemma OneHandlerWeight(hs: seq<Handler>)
    requires |hs| <= 1
    ensures HandlersWeight(hs) == if |hs| == 0 then 0 else HandlerWeight(hs[0])
  {
  }

  lemma HandlersWeightReplace(hs: seq<Handler>, i: nat, ys: seq<Handler>)
    requires i < |hs|
    ensures HandlersWeight(Replace(hs, i, ys)) + HandlerWeight(hs[i]) == HandlersWeight(hs) + HandlersWeight(ys)
  {
    assert hs == hs[..i] + [hs[i]] + hs[i + 1..];
    OneHandlerWeight([hs[i]]);
    HandlersWeightConcat(hs[..i] + [hs[i]], hs[i + 1..]);
    HandlersWeightConcat(hs[..i], [hs[i]]);
    HandlersWeightConcat(hs[..i] + ys, hs[i + 1..]);
    HandlersWeightConcat(hs[..i], ys);
  }

  lemma {:induction false} HandlersWeightBounds(hs: seq<Handler>)
    ensures 2 * |hs| <= HandlersWeight(hs) <= 4 * |hs|
  {
    if |hs| > 0 {
      HandlersWeightBounds(hs[1..]);
    }
  }

  lemma OneTaskWeight(ts: seq<Task>)
    requires |ts| <= 1
    ensures TasksWeight(ts) == if |ts| == 0 then 0 else TaskWeight(ts[0])
  {
  }

  lemma TaskDecreases(t: Task, step: TaskStep, serial: nat)
    requires TaskReady(t, step) && TaskInRange(t)
    ensures step != Receive([]) ==>
              TasksWeight(NextTask(t, step)) + 5 * |TaskJob(t, step, serial)| + |TaskMessage(t, step)| < TaskWeight(t)
    ensures step == Receive([]) ==> NextTask(t, step) == [t]
  {
    OneTaskWeight(NextTask(t, step));
  }

  /** Every step of the worker's own comes closer to rest; an empty batch leaves the state as it is. */
  lemma InternalDecreases(c: Config, s: State, e: Event)
    requires Invariant(c, s) && Enabled(c, s, e)
    ensures Internal(e) ==> Measure(Apply(c, s, e)) < Measure(s)
    ensures Idle(e) ==> Apply(c, s, e) == s
  {
    match e
    case Tick =>
    case Poll =>
      assert s.messages[0] in s.messages;
      assert s.tasks + [] == s.tasks;
    case Start =>
      var handler := Handler(s.jobQueue[0], Some(s.jobQueue[0].key), Running);
      HandlersWeightConcat(s.handlers, [handler]);
      OneHandlerWeight([handler]);
    case Advance(t, step) =>
      AdvanceDecreases(c, s, t, step);
    case Serve(h, action) =>
      HandlersWeightReplace(s.handlers, h, NextHandler(s.handlers[h], action));
      OneHandlerWeight(NextHandler(s.handlers[h], action));
  }

  lemma AdvanceDecreases(c: Config, s: State, t: nat, step: TaskStep)
    requires Invariant(c, s) && Enabled(c, s, Advance(t, step))
    ensures step != Receive([]) ==> Measure(Apply(c, s, Advance(t, step))) < Measure(s)
    ensures step == Receive([]) ==> Apply(c, s, Advance(t, step)) == s
  {
    ReplaceOnly(s.tasks, t, NextTask(s.tasks[t], step));
    OneTaskWeight(s.tasks);
    TaskDecreases(s.tasks[t], step, |s.sent|);
    if step == Receive([]) {
      assert s.tasks == [s.tasks[t]];
      assert s.jobQueue + [] == s.jobQueue && s.sent + [] == s.sent && s.messages + [] == s.messages;
    }
  }

  predicate AllInternal(run: seq<Event>) {
    forall i :: 0 <= i < |run| ==> Internal(run[i])
  }

  lemma MeasureIsNatural(c: Config, s: State)
    requires Invariant(c, s)
    ensures 0 <= Measure(s)
    ensures Measure(s) == 0 ==> Drained(s)
  {
    OneTaskWeight(s.tasks);
    HandlersWeightBounds(s.handlers);
  }

  /** With ticks withheld, a run is no longer than the measure it starts from. */
  lemma {:induction false} RunsAreShort(c: Config, s: State, run: seq<Event>)
    requires ValidConfig(c) && Invariant(c, s) && Legal(c, s, run) && AllInternal(run)
    ensures Invariant(c, After(c, s, run))
    ensures |run| <= Measure(s) - Measure(After(c, s, run))
    ensures 0 <= Measure(After(c, s, run))
    decreases |run|
  {
    if |run| == 0 {
      MeasureIsNatural(c, s);
    } else {
      assert Internal(run[0]);
      SettlesOnce(c, s, run[0]);
      assert forall i :: 0 <= i < |run[1..]| ==> run[1..][i] == run[i + 1];
      RunsAreShort(c, Apply(c, s, run[0]), run[1..]);
    }
  }

  /** The measure is linear in the settings and the number of handlers. */
  lemma MeasureIsLinear(c: Config, s: State)
    requires ValidConfig(c) && Invariant(c, s)
    ensures Measure(s) <= 12 * c.max + 6 + 4 * |s.handlers| + c.capacity
  {
    OneTaskWeight(s.tasks);
    HandlersWeightBounds(s.handlers);
    OneTask(s.tasks);
    if |s.tasks| > 0 {
      TaskWeightBound(s.tasks[0]);
    }
  }

  lemma TaskWeightBound(t: Task)
    requires TaskInRange(t)
    ensures TaskWeight(t) <= 6 + 7 * Max(Claim(t), 0)
  {
  }

  /** A step that can be taken without a tick and without a timeout. */
  ghost function NextStep(c: Config, s: State): (e: Event)
    requires ValidConfig(c) && Invariant(c, s) && !Drained(s)
    ensures Enabled(c, s, e) && Internal(e) && !IsTimeout(e)
  {
    if |s.messages| > 0 then Poll
    else if |s.handlers| > 0 then
      match s.handlers[0].phase
      case Running => Serve(0, if c.autoHandler then Attempt(Failed("")) else Return)
      case Awaiting => Serve(0, Return)
      case Finished => Serve(0, Finish)
    else if |s.jobQueue| > 0 then Start
    else
      Advance(0,
              match s.tasks[0]
              case Requesting(_, _) => CallFails
              case Streaming(_, _, _, batch) => if batch == [] then StreamEnds else QueueJob
              case Reporting(_, _, _) => Announce
              case Completing(_) => Complete)
  }

  /** However full the channels, a worker not at rest can take a step of its own, and needs no timeout for it. */
  lemma NoDeadlock(c: Config, run: seq<Event>, s: State)
    requires ValidConfig(c) && Reaches(c, run, s)
    ensures Drained(s) || exists e :: Enabled(c, s, e) && Internal(e) && !IsTimeout(e)
  {
    Reached(c, run, s);
    if !Drained(s) {
      var e := NextStep(c, s);
      assert Enabled(c, s, e) && Internal(e) && !IsTimeout(e);
    }
  }

  /** Taking `NextStep` again and again brings the worker to rest. */
  lemma {:induction false} Settles(c: Config, s: State) returns (run: seq<Event>)
    requires ValidConfig(c) && Invariant(c, s)
    ensures AllInternal(run) && NoTimeouts(run)
    ensures Legal(c, s, run) && Drained(After(c, s, run))
    decreases Measure(s)
  {
    run := [];
    if !Drained(s) {
      var e := NextStep(c, s);
      SettlesOnce(c, s, e);
      var rest := Settles(c, Apply(c, s, e));
      Prepend(c, s, e, rest);
      run := [e] + rest;
    }
  }

  lemma Prepend(c: Config, s: State, e: Event, rest: seq<Event>)
    requires Enabled(c, s, e) && Legal(c, Apply(c, s, e), rest)
    ensures Legal(c, s, [e] + rest) && After(c, s, [e] + rest) == After(c, Apply(c, s, e), rest)
  {
    assert ([e] + rest)[1..] == rest;
  }

  lemma SettlesOnce(c: Config, s: State, e: Event)
    requires ValidConfig(c) && Invariant(c, s) && Enabled(c, s, e) && Internal(e)
    ensures Invariant(c, Apply(c, s, e))
    ensures 0 <= Measure(Apply(c, s, e)) < Measure(s)
  {
    InternalDecreases(c, s, e);
    InvariantKept(c, s, e);
    MeasureIsNatural(c, Apply(c, s, e));
  }

  /** A run without ticks is no longer than a bound linear in the settings. */
  lemma RunsAreLinear(c: Config, past: seq<Event>, s: State, run: seq<Event>)
    requires ValidConfig(c) && Reaches(c, past, s) && Legal(c, s, run) && AllInternal(run)
    ensures |run| <= 12 * c.max + 6 + 4 * |s.handlers| + c.capacity
  {
    Reached(c, past, s);
    RunsAreShort(c, s, run);
    MeasureIsLinear(c, s);
  }

  /**
   From every reachable state, with ticks withheld: a run that cannot be continued, whatever
   steps it chose, has drained the worker, and left no request in progress.
   */
  lemma StuckIsDrained(c: Config, past: seq<Event>, s: State)
    requires ValidConfig(c) && Reaches(c, past, s)
    requires forall e :: Enabled(c, s, e) ==> !Internal(e)
    ensures Drained(s) && !s.poller.requestInProgress && Unreported(s) == 0 && Outstanding(s) == 0
  {
    NoDeadlock(c, past, s);
    Reached(c, past, s);
  }

  /** And every reachable state can be drained without ticks or timeouts. */
  lemma ComesToRest(c: Config, past: seq<Event>, s: State) returns (run: seq<Event>)
    requires ValidConfig(c) && Reaches(c, past, s)
    ensures Legal(c, s, run) && AllInternal(run) && NoTimeouts(run)
    ensures Drained(After(c, s, run)) && !After(c, s, run).poller.requestInProgress
    ensures |run| <= Measure(s)
  {
    Reached(c, past, s);
    run := Settles(c, s);
    RunsAreShort(c, s, run);
  }
}
