/** Flow control over all runs: the ledger, the credit bound, the range of requests, single flight. */
module FlowControl {
  import opened Common
  import opened PollerSpec
  import opened PollerReflection
  import opened WorkerProtocol
  import opened WorkerInvariants

  lemma SentIsAccounted(c: Config, s: State)
    requires Invariant(c, s)
    ensures |s.sent| == Finishes(s.handled) + Outstanding(s)
  {
    JobsOfCount(s.handlers);
    FinishedJobsCount(Posted(s));
    CountsConcat(s.handled, s.messages);
    assert |multiset(s.started)| == |s.started|;
  }

  /**
   In every state of every run, the jobs sent and not yet polled as finished are those in
   the job queue, with handlers and in queued `JobFinished` messages; and the poller's count
   differs from that number by exactly the clipped decrements, the lost and the unreported jobs.
   */
  lemma ExactLedger(c: Config, run: seq<Event>, s: State)
    requires ValidConfig(c) && Reaches(c, run, s)
    ensures |s.sent| - Finishes(s.handled) == |s.jobQueue| + |s.handlers| + Finishes(s.messages)
    ensures |s.sent| - Finishes(s.handled) == s.poller.remaining - s.clipped + s.lost + Unreported(s)
  {
    Reached(c, run, s);
    SentIsAccounted(c, s);
  }

  lemma {:induction false} OnlyTimeoutsLose(c: Config, s: State, run: seq<Event>)
    requires Legal(c, s, run) && NoTimeouts(run)
    ensures After(c, s, run).lost == s.lost
    decreases |run|
  {
    if |run| > 0 {
      assert !IsTimeout(run[0]);
      assert forall i :: 0 <= i < |run[1..]| ==> run[1..][i] == run[i + 1];
      OnlyTimeoutsLose(c, Apply(c, s, run[0]), run[1..]);
    }
  }

  /** The jobs a live task may still receive or queue. */
  function StillAllowed(s: State): int {
    Claims(s.tasks) - TasksSent(s.tasks)
  }

  lemma CreditInState(c: Config, s: State)
    requires Invariant(c, s)
    ensures Outstanding(s) + s.clipped + StillAllowed(s) <= c.max + s.lost
    ensures forall t :: 0 <= t < |s.tasks| && TaskReady(s.tasks[t], QueueJob) ==>
              StillAllowed(s) >= |s.tasks[t].batch| > 0
    ensures StillAllowed(s) >= 0
  {
    OneTask(s.tasks);
  }

  /** The jobs outstanding never exceed the maximum by more than timeouts have lost, less what was clipped. */
  lemma CreditBound(c: Config, run: seq<Event>, s: State)
    requires ValidConfig(c) && Reaches(c, run, s)
    ensures Outstanding(s) <= c.max + s.lost - s.clipped
  {
    Reached(c, run, s);
    CreditInState(c, s);
  }

  /**
   Without timeouts, at most `max` jobs are ever outstanding, and a task with a job to
   queue always finds a free place: that send never waits.
   */
  lemma SendsNeverWait(c: Config, run: seq<Event>, s: State)
    requires ValidConfig(c) && Reaches(c, run, s) && NoTimeouts(run)
    ensures Outstanding(s) <= c.max
    ensures forall t :: 0 <= t < |s.tasks| && TaskReady(s.tasks[t], QueueJob) ==> Enabled(c, s, Advance(t, QueueJob))
  {
    Reached(c, run, s);
    var start :| IsStart(start) && Legal(c, start, run) && After(c, start, run) == s;
    OnlyTimeoutsLose(c, start, run);
    CreditInState(c, s);
  }

  /**
   In every state `remaining`, the unreported jobs and those still allowed to stream stay
   within the maximum. Hence every activation asked for between 1 and `max` jobs, the next
   one would ask for exactly the room left, and adding a queued arrival never saturates.
   */
  lemma RequestRange(c: Config, run: seq<Event>, s: State)
    requires ValidConfig(c) && Reaches(c, run, s)
    ensures s.poller.remaining + Unreported(s) + StillAllowed(s) <= c.max
    ensures (forall i :: 0 <= i < |s.requests| ==> 1 <= s.requests[i] <= c.max)
    ensures (ShouldActivate(c, s.poller) ==> 1 <= Requested(c, s.poller) == c.max - s.poller.remaining)
    ensures (forall m :: m in s.messages && m.JobsArrived? ==>
                  SaturatingAddU32(s.poller.remaining, m.count) == s.poller.remaining + m.count)
  {
    Reached(c, run, s);
    OneTask(s.tasks);
    RequestedIsRoom(c, s.poller);
    forall m | m in s.messages && m.JobsArrived? ensures m.count <= Arrivals(s.messages) {
      ArrivalWithin(s.messages, m);
    }
  }

  lemma {:induction false} ArrivalWithin(ms: seq<PollMessage>, m: PollMessage)
    requires m in ms && m.JobsArrived?
    ensures m.count <= Arrivals(ms)
  {
    if ms[0] != m {
      ArrivalWithin(ms[1..], m);
    }
  }

  lemma {:induction false} ControlAt(ms: seq<PollMessage>, i: nat, j: nat)
    requires i < j < |ms| && IsControl(ms[i]) && IsControl(ms[j]) && InOrder(Control(ms))
    ensures Precedes(ms[i], ms[j])
  {
    var front, back := ms[..i + 1], ms[i + 1..];
    assert ms == front + back;
    ControlConcat(front, back);
    ControlCounts(front);
    ControlCounts(back);
    assert front[i] == ms[i] && back[j - i - 1] == ms[j];
    assert ms[i] in Control(front) && ms[j] in Control(back);
    var a :| 0 <= a < |Control(front)| && Control(front)[a] == ms[i];
    var b :| 0 <= b < |Control(back)| && Control(back)[b] == ms[j];
    assert Control(ms)[a] == ms[i] && Control(ms)[|Control(front)| + b] == ms[j];
  }

  /**
   One activation at a time: the live tasks and the queued `FetchJobsComplete` together
   number one exactly while a request is in progress. Among all messages ever sent, those
   of an activation come before those of the next, each activation sends `JobsArrived` at
   most once and before its one `FetchJobsComplete`, and only the live one owes the latter.
   */
  lemma SingleFlight(c: Config, run: seq<Event>, s: State)
    requires ValidConfig(c) && Reaches(c, run, s)
    ensures |s.tasks| + Completions(s.messages) == (if s.poller.requestInProgress then 1 else 0)
    ensures (forall i, j :: 0 <= i < j < |Posted(s)| && IsControl(Posted(s)[i]) && IsControl(Posted(s)[j]) ==>
                  Precedes(Posted(s)[i], Posted(s)[j]))
    ensures (forall a :: 0 <= a < |s.requests| ==>
                  (FetchJobsComplete(a) !in Posted(s) <==> |s.tasks| == 1 && s.tasks[0].id == a))
  {
    Reached(c, run, s);
    ControlCounts(s.messages);
    CompletionsOfControl(s);
    forall i, j | 0 <= i < j < |Posted(s)| && IsControl(Posted(s)[i]) && IsControl(Posted(s)[j])
      ensures Precedes(Posted(s)[i], Posted(s)[j])
    {
      ControlAt(Posted(s), i, j);
    }
    ControlCounts(Posted(s));
  }

  lemma CompletionsOfControl(s: State)
    requires Flight(s)
    ensures |s.tasks| + Completions(Control(s.messages)) == if s.poller.requestInProgress then 1 else 0
  {
    var cs := Control(s.messages);
    if |cs| > 0 {
      assert Completions(cs[1..]) == if |cs| == 1 then 0 else 1;
    }
  }

  /** The sizes requested over a run are the ones the poller's fold gives for the messages it has polled. */
  predicate RequestsFold(c: Config, s: State) {
    s.poller == HandleAll(c, INITIAL, s.handled) && s.requests == ActivationsOf(c, INITIAL, s.handled)
  }

  lemma {:induction false} RequestsAreFolded(c: Config, s: State, run: seq<Event>)
    requires RequestsFold(c, s) && Legal(c, s, run)
    ensures RequestsFold(c, After(c, s, run))
    decreases |run|
  {
    if |run| > 0 {
      if run[0].Tick? || run[0].Poll? {
        var m := if run[0].Tick? then FetchJobs else s.messages[0];
        assert (s.handled + [m])[..|s.handled|] == s.handled;
      }
      RequestsAreFolded(c, Apply(c, s, run[0]), run[1..]);
    }
  }

  /**
   The poller's count is the reflected walk of the messages it has polled, and the clipped
   decrements are the depth of that walk; its requests are those the messages call for, in order.
   */
  lemma CountIsReflection(c: Config, run: seq<Event>, s: State)
    requires ValidConfig(c) && Reaches(c, run, s)
    ensures s.poller == HandleAll(c, INITIAL, s.handled) && s.requests == ActivationsOf(c, INITIAL, s.handled)
    ensures s.poller.remaining == Reflected(s.handled)
    ensures s.clipped == -Lowest(s.handled)
    ensures Net(s.handled) == s.poller.remaining - s.clipped
  {
    Reached(c, run, s);
    var start :| IsStart(start) && Legal(c, start, run) && After(c, start, run) == s;
    RequestsAreFolded(c, start, run);
  }

  /** Activation `a` is over, or about to be, and has not announced any jobs. */
  predicate Silent(s: State, a: nat) {
    && a < |s.requests|
    && (forall i :: 0 <= i < |s.tasks| ==> s.tasks[i].id != a || s.tasks[i].Completing?)
    && (forall i :: 0 <= i < |Posted(s)| ==> !(Posted(s)[i].JobsArrived? && Posted(s)[i].activation == a))
  }

  lemma SilentKept(c: Config, s: State, a: nat, e: Event)
    requires Silent(s, a) && Enabled(c, s, e)
    ensures Silent(Apply(c, s, e), a)
  {
    PostedStep(c, s, e);
    if e.Tick? {
      var posted := s.handled + [FetchJobs] + s.messages;
      forall i | 0 <= i < |posted| ensures !(posted[i].JobsArrived? && posted[i].activation == a) {
        assert i < |s.handled| ==> posted[i] == Posted(s)[i];
        assert i > |s.handled| ==> posted[i] == Posted(s)[i - 1];
      }
    }
  }

  lemma {:induction false} SilentForEver(c: Config, s: State, a: nat, run: seq<Event>)
    requires Silent(s, a) && Legal(c, s, run)
    ensures Silent(After(c, s, run), a)
    decreases |run|
  {
    if |run| > 0 {
      SilentKept(c, s, a, run[0]);
      SilentForEver(c, Apply(c, s, run[0]), a, run[1..]);
    }
  }

  /** Activation `a` never sends `JobsArrived`, before or after this state. */
  ghost predicate NeverAnnounces(c: Config, s: State, a: nat) {
    forall more, i :: Legal(c, s, more) && 0 <= i < |Posted(After(c, s, more))| ==>
      !(Posted(After(c, s, more))[i].JobsArrived? && Posted(After(c, s, more))[i].activation == a)
  }

  /** A call the gateway refuses, or a task cut short by its timeout, never announces any jobs. */
  lemma AbandonedIsSilent(c: Config, run: seq<Event>, s: State, t: nat, step: TaskStep)
    requires ValidConfig(c) && Reaches(c, run, s) && Enabled(c, s, Advance(t, step))
    requires step.CallFails? || step.TimesOut?
    ensures NeverAnnounces(c, Apply(c, s, Advance(t, step)), s.tasks[t].id)
  {
    Reached(c, run, s);
    var a, next := s.tasks[t].id, Apply(c, s, Advance(t, step));
    NotYetAnnounced(c, s, t);
    PostedStep(c, s, Advance(t, step));
    ReplaceOnly(s.tasks, t, NextTask(s.tasks[t], step));
    forall more, i | Legal(c, next, more) && 0 <= i < |Posted(After(c, next, more))|
      ensures !(Posted(After(c, next, more))[i].JobsArrived? && Posted(After(c, next, more))[i].activation == a)
    {
      SilentForEver(c, next, a, more);
    }
  }

  /** Only a task at its last step has announced its jobs. */
  lemma NotYetAnnounced(c: Config, s: State, t: nat)
    requires Invariant(c, s) && t < |s.tasks|
    ensures forall i ::
              0 <= i < |Posted(s)| && Posted(s)[i].JobsArrived? && Posted(s)[i].activation == s.tasks[t].id ==>
                s.tasks[t].Completing?
  {
    forall i | 0 <= i < |Posted(s)| && Posted(s)[i].JobsArrived? && Posted(s)[i].activation == s.tasks[t].id
      ensures s.tasks[t].Completing?
    {
      AnnouncedOnlyLast(Control(Posted(s)), s.tasks, |s.requests|, t, InControl(Posted(s), i));
    }
  }

  lemma AnnouncedOnlyLast(cs: seq<PollMessage>, tasks: seq<Task>, activations: nat, t: nat, k: nat)
    requires OrderedPosts(cs, tasks, activations) && t < |tasks| == 1
    requires k < |cs| && cs[k].activation == tasks[t].id
    ensures tasks[t].Completing?
  {
  }

  /** Where a control message is found among the control messages. */
  ghost function InControl(ms: seq<PollMessage>, i: nat): (k: nat)
    requires i < |ms| && IsControl(ms[i])
    ensures k < |Control(ms)| && Control(ms)[k] == ms[i]
  {
    if i == 0 then 0 else (if IsControl(ms[0]) then 1 else 0) + InControl(ms[1..], i - 1)
  }
}
