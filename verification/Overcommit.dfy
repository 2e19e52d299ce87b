/**
 When a worker can come to hold more jobs than its maximum, and how many it can hold at all.
 With no request in progress: exactly when timeouts have lost more jobs than were clipped.
 */
module Overcommit {
  import opened Common
  import opened PollerSpec
  import opened WorkerProtocol
  import opened WorkerInvariants
  import opened FlowControl
  import opened Liveness
  import opened Progress
  import opened Revival

  // Keys that no job has yet.

  /** None of the keys is that of a job, and no two are equal. */
  predicate NewKeys(jobs: seq<Job>, keys: seq<int>) {
    && (forall i, j :: 0 <= i < |jobs| && 0 <= j < |keys| ==> jobs[i].key != keys[j])
    && (forall i, j :: 0 <= i < j < |keys| ==> keys[i] != keys[j])
  }

  lemma {:induction false} KeyAbove(jobs: seq<Job>) returns (base: int)
    ensures forall i :: 0 <= i < |jobs| ==> jobs[i].key < base
  {
    base := 0;
    if |jobs| > 0 {
      var last := |jobs| - 1;
      var below := KeyAbove(jobs[..last]);
      base := Max(below, jobs[last].key + 1);
      assert forall i :: 0 <= i < last ==> jobs[i] == jobs[..last][i];
    }
  }

  lemma ChooseKeys(jobs: seq<Job>, n: nat) returns (keys: seq<int>)
    ensures |keys| == n && NewKeys(jobs, keys)
  {
    var base := KeyAbove(jobs);
    keys := seq(n, i => base + i);
  }

  lemma KeyTaken(jobs: seq<Job>, keys: seq<int>, job: Job)
    requires keys != [] && NewKeys(jobs, keys) && job.key == keys[0]
    ensures NewKeys(jobs + [job], keys[1..])
    ensures DistinctKeys(jobs) ==> DistinctKeys(jobs + [job])
  {
  }

  // The condition, and that no step but a timeout brings it about.

  /** The activation under way is allowed more jobs than there is room for, or will leave more lost than clipped. */
  predicate Overdrawn(c: Config, s: State) {
    Outstanding(s) + StillAllowed(s) > c.max || s.lost > ClippedByThen(s)
  }

  lemma AllowanceStep(t: Task, step: TaskStep, serial: nat)
    requires TaskReady(t, step) && TaskInRange(t) && !step.TimesOut?
    ensures var allowed := Claims(NextTask(t, step)) - TasksSent(NextTask(t, step)) + |TaskJob(t, step, serial)|;
            && allowed <= Claim(t) - Sent(t)
            && (step.QueueJob? || step.StreamOpens? || step.Receive? ==> allowed == Claim(t) - Sent(t))
  {
    OneTask(NextTask(t, step));
  }

  lemma AdvanceKeepsSolvent(c: Config, s: State, t: nat, step: TaskStep)
    requires ValidConfig(c) && Invariant(c, s) && !Overdrawn(c, s) && Enabled(c, s, Advance(t, step)) && !step.TimesOut?
    ensures !Overdrawn(c, Apply(c, s, Advance(t, step)))
  {
    SumsStep(c, s, Advance(t, step));
    ReplaceOnly(s.tasks, t, NextTask(s.tasks[t], step));
    OneTask(s.tasks);
    AllowanceStep(s.tasks[t], step, |s.sent|);
    ForcedByAppending(s.poller.remaining, s.messages, TaskMessage(s.tasks[t], step));
  }

  lemma TickKeepsSolvent(c: Config, s: State)
    requires ValidConfig(c) && Invariant(c, s) && !Overdrawn(c, s)
    ensures !Overdrawn(c, Apply(c, s, Tick))
  {
    SumsStep(c, s, Tick);
    if Activates(c, s.poller, FetchJobs) {
      NothingQueued(s.messages);
      RequestedIsRoom(c, s.poller);
      OneTask(Apply(c, s, Tick).tasks);
    } else {
      assert s.tasks + [] == s.tasks;
    }
  }

  lemma KeepsSolvent(c: Config, s: State, e: Event)
    requires ValidConfig(c) && Invariant(c, s) && !Overdrawn(c, s) && Enabled(c, s, e) && !IsTimeout(e)
    ensures !Overdrawn(c, Apply(c, s, e))
  {
    match e
    case Tick =>
      TickKeepsSolvent(c, s);
    case Poll =>
      PollKeepsClipped(c, s);
      SumsStep(c, s, e);
      assert s.messages[0] in s.messages;
      assert s.tasks + [] == s.tasks;
    case Start =>
      SumsStep(c, s, e);
    case Advance(t, step) =>
      AdvanceKeepsSolvent(c, s, t, step);
    case Serve(h, action) =>
      SumsStep(c, s, e);
      ForcedByAppending(s.poller.remaining, s.messages, HandlerMessage(s.handlers[h], action));
  }

  lemma {:induction false} StaysSolvent(c: Config, s: State, run: seq<Event>)
    requires ValidConfig(c) && Invariant(c, s) && !Overdrawn(c, s) && Legal(c, s, run) && NoTimeouts(run)
    ensures Outstanding(After(c, s, run)) <= c.max
    decreases |run|
  {
    if |run| == 0 {
      CreditInState(c, s);
    } else {
      assert !IsTimeout(run[0]);
      assert forall i :: 0 <= i < |run[1..]| ==> run[1..][i] == run[i + 1];
      KeepsSolvent(c, s, run[0]);
      InvariantKept(c, s, run[0]);
      StaysSolvent(c, Apply(c, s, run[0]), run[1..]);
    }
  }

  // From an overdrawn state the maximum can be exceeded.

  /** The keys of the current batch still to be queued. */
  function Pending(s: State): seq<int> {
    if |s.tasks| == 1 && s.tasks[0].Streaming? then s.tasks[0].batch else []
  }

  /** No key has been seen twice, among the jobs sent and those of the current batch. */
  predicate FreshKeys(s: State) {
    DistinctKeys(s.sent) && NewKeys(s.sent, Pending(s))
  }

  /** A step of the activation towards its allowance, any batch streamed being of new keys, or one making a place. */
  predicate Fills(s: State, e: Event) {
    match e
    case Start => true
    case Advance(t, step) =>
      t == 0 && (step.StreamOpens? || step.QueueJob? || (step.Receive? && NewKeys(s.sent, step.keys)))
    case _ => false
  }

  /** The activation under way comes closer to its allowance: one more job queued, or taken to make a place. */
  lemma FillStep(c: Config, s: State) returns (e: Event)
    requires ValidConfig(c) && Invariant(c, s) && Outstanding(s) <= c.max < Outstanding(s) + StillAllowed(s)
    ensures Enabled(c, s, e) && Internal(e) && !IsTimeout(e)
    ensures Fills(s, e)
  {
    OneTask(s.tasks);
    var task := s.tasks[0];
    if task.Requesting? {
      e := Advance(0, StreamOpens);
    } else if task.batch == [] {
      var keys := ChooseKeys(s.sent, task.requested - task.total);
      e := Advance(0, Receive(keys));
    } else if |s.jobQueue| < c.max {
      e := Advance(0, QueueJob);
    } else {
      e := Start;
    }
  }

  lemma FillKeeps(c: Config, s: State, e: Event)
    requires ValidConfig(c) && Invariant(c, s) && Enabled(c, s, e)
    requires Fills(s, e)
    ensures var next := Apply(c, s, e);
            && Outstanding(next) + StillAllowed(next) == Outstanding(s) + StillAllowed(s)
            && next.lost == s.lost && next.clipped == s.clipped
  {
    SumsStep(c, s, e);
    if e.Advance? {
      ReplaceOnly(s.tasks, 0, NextTask(s.tasks[0], e.step));
      OneTask(s.tasks);
      AllowanceStep(s.tasks[0], e.step, |s.sent|);
    }
  }

  lemma FillKeepsKeys(c: Config, s: State, e: Event)
    requires |s.tasks| <= 1 && Enabled(c, s, e) && FreshKeys(s)
    requires Fills(s, e)
    ensures FreshKeys(Apply(c, s, e))
  {
    if e.Advance? {
      ReplaceOnly(s.tasks, 0, NextTask(s.tasks[0], e.step));
      if e.step.QueueJob? {
        KeyTaken(s.sent, Pending(s), Job(|s.sent|, s.tasks[0].id, Pending(s)[0]));
      } else {
        assert s.sent + [] == s.sent;
      }
    }
  }

  lemma {:induction false} Fill(c: Config, s: State) returns (run: seq<Event>, end: State)
    requires ValidConfig(c) && Invariant(c, s) && Outstanding(s) + StillAllowed(s) > c.max
    ensures Quietly(c, s, run, end) && Outstanding(end) > c.max
    ensures end.lost == s.lost && end.clipped == s.clipped
    ensures FreshKeys(s) ==> FreshKeys(end)
    decreases Measure(s)
  {
    run, end := [], s;
    if Outstanding(s) <= c.max {
      var e := FillStep(c, s);
      var next := Apply(c, s, e);
      SettlesOnce(c, s, e);
      FillKeeps(c, s, e);
      if FreshKeys(s) {
        FillKeepsKeys(c, s, e);
      }
      var rest, last := Fill(c, next);
      Prepended(c, s, e, next, rest, last);
      run, end := [e] + rest, last;
    }
  }

  lemma TickAsks(c: Config, s: State)
    requires ValidConfig(c) && Flight(s) && Range(c, s) && Ledger(s) && ShouldActivate(c, s.poller)
    ensures var next := Apply(c, s, Tick);
            && Outstanding(next) + StillAllowed(next) == c.max + s.lost - s.clipped
            && next.lost == s.lost && next.clipped == s.clipped && next.sent == s.sent && Pending(next) == []
  {
    NothingQueued(s.messages);
    RequestedIsRoom(c, s.poller);
    OneTask(Apply(c, s, Tick).tasks);
  }

  /** Asking for the room left raises what may come to be outstanding to the maximum, plus lost less clipped. */
  lemma AskForRoom(c: Config, s: State) returns (e: Event, next: State)
    requires ValidConfig(c) && Invariant(c, s) && ShouldActivate(c, s.poller)
    ensures Enabled(c, s, e) && !IsTimeout(e) && next == Apply(c, s, e) && Invariant(c, next)
    ensures Outstanding(next) + StillAllowed(next) == c.max + s.lost - s.clipped
    ensures next.lost == s.lost && next.clipped == s.clipped && next.sent == s.sent && Pending(next) == []
  {
    e := Tick;
    next := Apply(c, s, e);
    InvariantKept(c, s, e);
    TickAsks(c, s);
  }

  lemma AskAndFill(c: Config, s: State) returns (run: seq<Event>, end: State)
    requires ValidConfig(c) && Invariant(c, s) && ShouldActivate(c, s.poller) && s.lost > s.clipped
    ensures Quietly(c, s, run, end) && Outstanding(end) > c.max
    ensures end.lost == s.lost && end.clipped == s.clipped
    ensures DistinctKeys(s.sent) ==> DistinctKeys(end.sent)
  {
    var e, asking := AskForRoom(c, s);
    var rest, full := Fill(c, asking);
    Prepended(c, s, e, asking, rest, full);
    run, end := [e] + rest, full;
  }

  /** With no request in progress: come down to the threshold, ask for the room left, and fill it. */
  lemma Overfill(c: Config, s: State) returns (run: seq<Event>, end: State)
    requires ValidConfig(c) && Invariant(c, s) && !s.poller.requestInProgress && s.lost > s.clipped
    ensures Quietly(c, s, run, end) && Outstanding(end) > c.max
    ensures end.lost == s.lost && end.clipped == s.clipped
    ensures DistinctKeys(s.sent) ==> DistinctKeys(end.sent)
  {
    var first, low := Recede(c, s);
    var rest, full := AskAndFill(c, low);
    Joined(c, s, first, low, rest, full);
    run, end := first + rest, full;
  }

  lemma {:induction false} Exceed(c: Config, s: State) returns (run: seq<Event>, end: State)
    requires ValidConfig(c) && Invariant(c, s) && Overdrawn(c, s)
    ensures Quietly(c, s, run, end) && Outstanding(end) > c.max
    decreases Measure(s)
  {
    if Outstanding(s) + StillAllowed(s) > c.max {
      run, end := Fill(c, s);
    } else if !s.poller.requestInProgress {
      run, end := Overfill(c, s);
    } else {
      var e := ConcludeStep(c, s);
      var next := Apply(c, s, e);
      SettlesOnce(c, s, e);
      var rest, last := Exceed(c, next);
      Prepended(c, s, e, next, rest, last);
      run, end := [e] + rest, last;
    }
  }

  /** The jobs outstanding exceed the maximum in some continuation without timeouts. */
  ghost predicate CanExceed(c: Config, s: State) {
    exists more :: Legal(c, s, more) && NoTimeouts(more) && Outstanding(After(c, s, more)) > c.max
  }

  /**
   When the maximum holds. Whatever timeouts a run has seen, the worker can come to exceed its maximum
   without another one if and only if it is overdrawn; which, with no request in progress, says
   that its timeouts have lost more jobs than were clipped.
   */
  lemma ExceedsExactly(c: Config, run: seq<Event>, s: State)
    requires ValidConfig(c) && Reaches(c, run, s)
    ensures CanExceed(c, s) <==> Overdrawn(c, s)
    ensures !s.poller.requestInProgress ==> (CanExceed(c, s) <==> s.lost > s.clipped)
    ensures CanExceed(c, s) ==> s.lost > s.clipped
  {
    Reached(c, run, s);
    CreditInState(c, s);
    if Overdrawn(c, s) {
      var more, end := Exceed(c, s);
      assert Outstanding(After(c, s, more)) > c.max;
    }
    if CanExceed(c, s) && !Overdrawn(c, s) {
      var more :| Legal(c, s, more) && NoTimeouts(more) && Outstanding(After(c, s, more)) > c.max;
      StaysSolvent(c, s, more);
      assert false;
    }
  }

  // Such states occur: a timeout between a job's queueing and its announcement loses it.

  /** At rest but for `k` handlers, whose jobs were all lost to timeouts. */
  predicate Leaked(s: State, k: nat) {
    && s.tasks == [] && s.jobQueue == [] && s.messages == [] && |s.handlers| == k
    && s.poller == INITIAL && s.lost == k && s.clipped == 0
    && |s.sent| == k && KeyedInOrder(s.sent)
  }

  /** The same during an activation, which has queued one job more. */
  predicate Leaking(s: State, k: nat) {
    && |s.tasks| == 1 && s.tasks[0].Streaming? && s.tasks[0].total == 1 && s.tasks[0].batch == []
    && s.jobQueue == [] && s.messages == [] && |s.handlers| == k + 1
    && s.poller == PollerState(0, true) && s.lost == k && s.clipped == 0
    && |s.sent| == k + 1 && KeyedInOrder(s.sent)
  }

  lemma Leak(c: Config, s: State, k: nat) returns (run: seq<Event>, end: State)
    requires ValidConfig(c) && Leaked(s, k) && HandlerSlotFree(c, s)
    ensures Quietly(c, s, run, end) && Leaking(end, k)
  {
    RequestedIsRoom(c, s.poller);
    var id := |s.requests|;
    run, end := [], s;
    run, end := Extend(c, s, run, end, Tick);
    assert end.tasks == [Requesting(id, c.max)];
    run, end := Extend(c, s, run, end, Advance(0, StreamOpens));
    assert end.tasks == [Streaming(id, c.max, 0, [])];
    run, end := Extend(c, s, run, end, Advance(0, Receive([k])));
    assert end.tasks == [Streaming(id, c.max, 1, [k])];
    run, end := Extend(c, s, run, end, Advance(0, QueueJob));
    assert |end.tasks| == 1 && end.tasks[0].Streaming? && end.tasks[0].total == 1 && end.tasks[0].batch == [];
    run, end := Extend(c, s, run, end, Start);
  }

  lemma CutShort(c: Config, s: State, k: nat) returns (mid: State, run: seq<Event>, end: State)
    requires ValidConfig(c) && Leaking(s, k)
    ensures Enabled(c, s, Advance(0, TimesOut)) && mid == Apply(c, s, Advance(0, TimesOut))
    ensures Quietly(c, mid, run, end) && Leaked(end, k + 1)
  {
    var id := s.tasks[0].id;
    mid := Apply(c, s, Advance(0, TimesOut));
    assert mid.tasks == [Completing(id)];
    run, end := [], mid;
    run, end := Extend(c, mid, run, end, Advance(0, Complete));
    assert end.messages == [FetchJobsComplete(id)] && end.tasks == [];
    run, end := Extend(c, mid, run, end, Poll);
  }

  /** A run with the one timeout `e` between two runs without any. */
  ghost predicate WithOneTimeout(c: Config, s: State, before: seq<Event>, e: Event, after: seq<Event>, end: State) {
    NoTimeouts(before) && IsTimeout(e) && NoTimeouts(after) && Leads(c, s, before + [e] + after, end)
  }

  lemma Around(
    c: Config, s: State, before: seq<Event>, held: State, e: Event, mid: State, after: seq<Event>, end: State)
    requires Quietly(c, s, before, held) && Enabled(c, held, e) && IsTimeout(e) && mid == Apply(c, held, e)
    requires Quietly(c, mid, after, end)
    ensures WithOneTimeout(c, s, before, e, after, end)
  {
    var longer, _ := Extend(c, s, before, held, e);
    RunsCompose(c, s, longer, after);
  }

  lemma LeakOnce(c: Config, s: State, k: nat) returns (before: seq<Event>, e: Event, after: seq<Event>, end: State)
    requires ValidConfig(c) && Leaked(s, k) && HandlerSlotFree(c, s)
    ensures WithOneTimeout(c, s, before, e, after, end) && Leaked(end, k + 1)
  {
    var first, held := Leak(c, s, k);
    var mid, rest, last := CutShort(c, held, k);
    before, e, after, end := first, Advance(0, TimesOut), rest, last;
    Around(c, s, before, held, e, mid, after, end);
  }

  lemma Kept(c: Config, s: State, run: seq<Event>, end: State)
    requires ValidConfig(c) && Invariant(c, s) && Leads(c, s, run, end)
    ensures Invariant(c, end)
  {
    RunsKeepInvariant(c, s, run);
  }

  /**
   Whatever the settings, a run with one timeout, its jobs all of different keys, holds more jobs
   than the maximum, as many as the credit bound allows.
   */
  lemma TimeoutsOvercommit(c: Config, start: State)
    returns (before: seq<Event>, e: Event, after: seq<Event>, end: State)
    requires ValidConfig(c) && IsStart(start)
    ensures WithOneTimeout(c, start, before, e, after, end) && DistinctKeys(end.sent)
    ensures Outstanding(end) == c.max + end.lost - end.clipped == c.max + 1
  {
    var held, mid, leaked, rest, more;
    before, held := Leak(c, start, 0);
    e := Advance(0, TimesOut);
    mid, rest, leaked := CutShort(c, held, 0);
    StartInvariant(c, start);
    Kept(c, start, before, held);
    InvariantKept(c, held, e);
    Kept(c, mid, rest, leaked);
    more, end := Overfill(c, leaked);
    Joined(c, mid, rest, leaked, more, end);
    after := rest + more;
    Around(c, start, before, held, e, mid, after, end);
    Kept(c, leaked, more, end);
    CreditInState(c, end);
  }

  // How many jobs there can be in all.

  ghost predicate NeverAbove(c: Config, bound: nat) {
    forall run, s :: Reaches(c, run, s) ==> Outstanding(s) <= bound
  }

  lemma {:induction false} FewFinishes(ms: seq<PollMessage>)
    ensures Finishes(ms) <= |ms|
  {
    if |ms| > 0 {
      FewFinishes(ms[1..]);
    }
  }

  lemma {:induction false} LeakAgain(c: Config, start: State, n: nat) returns (run: seq<Event>, end: State)
    requires ValidConfig(c) && IsStart(start) && c.concurrency == 0
    ensures Leads(c, start, run, end) && Leaked(end, n)
  {
    run, end := [], start;
    for k := 0 to n
      invariant Leads(c, start, run, end) && Leaked(end, k)
    {
      var before, e, after, next := LeakOnce(c, end, k);
      RunsCompose(c, start, run, before + [e] + after);
      run, end := run + (before + [e] + after), next;
    }
  }

  /** However many timeouts: the queues and the handlers hold no more than they have places. */
  lemma PlacesBound(c: Config, run: seq<Event>, s: State)
    requires ValidConfig(c) && Reaches(c, run, s) && c.concurrency > 0
    ensures Outstanding(s) <= c.max + c.concurrency + c.capacity
  {
    Reached(c, run, s);
    FewFinishes(s.messages);
  }

  /** The jobs outstanding are bounded over all runs exactly when the concurrency is limited. */
  lemma BoundedExactly(c: Config)
    requires ValidConfig(c)
    ensures (exists bound :: NeverAbove(c, bound)) <==> c.concurrency > 0
    ensures c.concurrency > 0 ==> NeverAbove(c, c.max + c.concurrency + c.capacity)
  {
    if c.concurrency > 0 {
      forall run, s | Reaches(c, run, s) ensures Outstanding(s) <= c.max + c.concurrency + c.capacity {
        PlacesBound(c, run, s);
      }
      assert NeverAbove(c, c.max + c.concurrency + c.capacity);
    } else {
      forall bound: nat ensures !NeverAbove(c, bound) {
        var start := State(INITIAL, [], [], [], [], [], [], [], [], 0, 0, []);
        var run, end := LeakAgain(c, start, bound + 1);
        assert Reaches(c, run, end);
      }
    }
  }
}
