/**
 Runs in which every activation is announced before any of its jobs is polled as finished.
 In these the saturating, late-informed count is the plain count of jobs outstanding.
 */
module OrderedRuns {
  import opened Common
  import opened PollerSpec
  import opened PollerReflection
  import opened WorkerProtocol
  import opened WorkerInvariants
  import opened FlowControl

  ghost predicate Announced(ms: seq<PollMessage>, activation: nat) {
    exists i :: 0 <= i < |ms| && ms[i].JobsArrived? && ms[i].activation == activation
  }

  /** A job polled as finished belongs to an announced activation. */
  ghost predicate OrderedEvent(s: State, e: Event) {
    e.Poll? && |s.messages| > 0 && s.messages[0].JobFinished? ==> Announced(s.handled, s.messages[0].job.activation)
  }

  ghost predicate Ordered(c: Config, s: State, run: seq<Event>)
    requires Legal(c, s, run)
    decreases |run|
  {
    |run| == 0 || (OrderedEvent(s, run[0]) && !IsTimeout(run[0]) && Ordered(c, Apply(c, s, run[0]), run[1..]))
  }

  /** The jobs before this serial number have been announced. */
  function Base(s: State): int {
    |s.sent| - Unreported(s)
  }

  predicate AllBelow(jobs: seq<Job>, base: int) {
    forall i :: 0 <= i < |jobs| ==> jobs[i].serial < base
  }

  /** Nothing was clipped or lost, and only announced jobs have been polled as finished. */
  predicate Exact(s: State) {
    s.lost == 0 && s.clipped == 0 && AllBelow(FinishedIn(s.handled), Base(s))
  }

  lemma {:induction false} FewBelow(jobs: seq<Job>, base: nat, part: multiset<Job>)
    requires base <= |jobs| && part <= multiset(jobs)
    requires forall i :: 0 <= i < |jobs| ==> jobs[i].serial == i
    requires forall job :: job in part ==> job.serial < base
    ensures |part| <= base
  {
    var low, high := jobs[..base], jobs[base..];
    assert jobs == low + high;
    forall job ensures part[job] <= multiset(low)[job] {
      if job in part {
        assert job !in high;
        assert multiset(jobs)[job] == multiset(low)[job] + multiset(high)[job];
      }
    }
    assert part <= multiset(low);
    assert multiset(low) == part + (multiset(low) - part);
    assert |multiset(low)| == |part| + |multiset(low) - part|;
  }

  /** The jobs of an announced activation come before all unreported ones. */
  lemma AnnouncedBelowBase(c: Config, s: State, job: Job)
    requires Invariant(c, s) && job in s.sent && Announced(s.handled, job.activation)
    ensures job.serial < Base(s)
  {
    var n :| 0 <= n < |s.sent| && s.sent[n] == job;
    if job.serial >= Base(s) {
      var i :| 0 <= i < |s.handled| && s.handled[i].JobsArrived? && s.handled[i].activation == job.activation;
      assert job.activation == |s.requests| - 1;
      LatestNotAnnounced(c, s, i);
      assert false;
    }
  }

  lemma LatestNotAnnounced(c: Config, s: State, i: nat)
    requires Invariant(c, s) && Unreported(s) > 0
    requires i < |s.handled| && s.handled[i].JobsArrived?
    ensures s.handled[i].activation != |s.requests| - 1
  {
    if s.handled[i].activation == |s.requests| - 1 {
      if Arrivals(s.messages) > 0 {
        var j := QueuedArrival(s);
        assert Posted(s)[i] == s.handled[i] && Posted(s)[|s.handled| + j] == s.messages[j];
        ControlAt(Posted(s), i, |s.handled| + j);
      } else {
        LiveNotAnnounced(s, i);
      }
      assert false;
    }
  }

  /** A task that has sent jobs and not announced them has sent no message yet. */
  lemma LiveNotAnnounced(s: State, i: nat)
    requires Flight(s) && PostOrder(s) && TasksSent(s.tasks) > 0
    requires i < |s.handled| && s.handled[i].JobsArrived?
    ensures s.handled[i].activation != |s.requests| - 1
  {
    OneTask(s.tasks);
    ControlCounts(Posted(s));
    assert Posted(s)[i] == s.handled[i] && s.handled[i] in Posted(s);
    var k :| 0 <= k < |Control(Posted(s))| && Control(Posted(s))[k] == s.handled[i];
  }

  lemma QueuedArrival(s: State) returns (j: nat)
    requires Flight(s) && Arrivals(s.messages) > 0
    ensures j < |s.messages| && s.messages[j].JobsArrived? && s.messages[j].activation == |s.requests| - 1
  {
    ControlCounts(s.messages);
    var cs := Control(s.messages);
    assert cs != [] && cs[0] in cs;
    assert cs[0].JobsArrived?;
    j :| 0 <= j < |s.messages| && s.messages[j] == cs[0];
  }

  lemma NextFinished(s: State)
    requires |s.messages| > 0 && s.messages[0].JobFinished?
    ensures FinishedJobs(Posted(s)) ==
            FinishedJobs(s.messages[1..]) + (FinishedJobs(s.handled) + multiset{s.messages[0].job})
  {
    FinishedInConcat(s.handled, s.messages);
    assert FinishedIn(s.messages) == [s.messages[0].job] + FinishedIn(s.messages[1..]);
  }

  /** A job about to be polled as finished was sent, and so were those polled before it. */
  lemma PolledWereSent(s: State)
    requires Dispatched(s) && |s.messages| > 0 && s.messages[0].JobFinished?
    ensures FinishedJobs(s.handled) + multiset{s.messages[0].job} <= multiset(s.sent)
    ensures s.messages[0].job in s.sent
  {
    NextFinished(s);
    var job := s.messages[0].job;
    assert multiset(s.sent) == multiset(s.started) + multiset(s.jobQueue);
    assert job in FinishedJobs(s.handled) + multiset{job};
    assert job in multiset(s.sent);
  }

  /** Polling a finished job of an announced activation finds it counted. */
  lemma FinishIsCounted(c: Config, s: State)
    requires Invariant(c, s) && Exact(s) && |s.messages| > 0 && s.messages[0].JobFinished?
    requires Announced(s.handled, s.messages[0].job.activation)
    ensures s.messages[0].job.serial < Base(s)
    ensures Finishes(s.handled) + 1 <= Base(s)
  {
    var job := s.messages[0].job;
    var polled := FinishedJobs(s.handled) + multiset{job};
    PolledWereSent(s);
    AnnouncedBelowBase(c, s, job);
    FinishedJobsCount(s.handled);
    forall j | j in polled ensures j.serial < Base(s) {
      if j != job {
        assert j in FinishedIn(s.handled);
      }
    }
    FewBelow(s.sent, Base(s), polled);
  }

  /** Announcing jobs raises the base; nothing but a timeout could raise it otherwise. */
  lemma BaseOnlyRises(c: Config, s: State, e: Event)
    requires ValidConfig(c) && Invariant(c, s) && Enabled(c, s, e) && !IsTimeout(e)
    ensures Base(s) <= Base(Apply(c, s, e)) && Apply(c, s, e).lost == s.lost
  {
    SumsStep(c, s, e);
  }

  lemma FinishedInStep(c: Config, s: State, e: Event)
    requires Enabled(c, s, e)
    ensures FinishedIn(Apply(c, s, e).handled) ==
            FinishedIn(s.handled) + if e.Poll? && s.messages[0].JobFinished? then [s.messages[0].job] else []
  {
    if e.Tick? || e.Poll? {
      var m := if e.Tick? then FetchJobs else s.messages[0];
      FinishedInConcat(s.handled, [m]);
      OneMessage(m);
    }
  }

  lemma NotClipped(c: Config, s: State, e: Event)
    requires ValidConfig(c) && Invariant(c, s) && Exact(s) && Enabled(c, s, e) && OrderedEvent(s, e)
    ensures Apply(c, s, e).clipped == 0
  {
    if e.Poll? && s.messages[0].JobFinished? {
      FinishIsCounted(c, s);
      SentIsAccounted(c, s);
    }
  }

  lemma ExactStep(c: Config, s: State, e: Event)
    requires ValidConfig(c) && Invariant(c, s) && Exact(s) && Enabled(c, s, e) && OrderedEvent(s, e) && !IsTimeout(e)
    ensures Exact(Apply(c, s, e))
  {
    NotClipped(c, s, e);
    BaseOnlyRises(c, s, e);
    FinishedInStep(c, s, e);
    if e.Poll? && s.messages[0].JobFinished? {
      FinishIsCounted(c, s);
    }
  }

  lemma {:induction false} OrderedRunsStayExact(c: Config, s: State, run: seq<Event>)
    requires ValidConfig(c) && Invariant(c, s) && Exact(s) && Legal(c, s, run) && Ordered(c, s, run)
    ensures Invariant(c, After(c, s, run)) && Exact(After(c, s, run))
    decreases |run|
  {
    if |run| > 0 {
      ExactStep(c, s, run[0]);
      InvariantKept(c, s, run[0]);
      OrderedRunsStayExact(c, Apply(c, s, run[0]), run[1..]);
    }
  }

  /** A counter that is never asked to go below zero. */
  ghost predicate PlainCount(c: Config, ms: seq<PollMessage>) {
    forall k :: 0 <= k <= |ms| ==> 0 <= Net(ms[..k]) == HandleAll(c, INITIAL, ms[..k]).remaining
  }

  lemma NeverClippedIsPlain(c: Config, ms: seq<PollMessage>)
    requires FitsU32(ms) && Lowest(ms) == 0
    ensures PlainCount(c, ms)
  {
    ReflectionFormula(c, ms);
    forall k | 0 <= k <= |ms| ensures 0 <= Net(ms[..k]) == HandleAll(c, INITIAL, ms[..k]).remaining {
      LowestIsMinimum(ms);
      LowestIsMinimum(ms[..k]);
      assert HandleAll(c, INITIAL, ms[..k]).remaining == Reflected(ms[..k]);
      assert ms[..k][..0] == [];
      var least :| 0 <= least <= k && Lowest(ms[..k]) == Net(ms[..k][..least]);
      assert ms[..k][..least] == ms[..least];
      assert Lowest(ms) <= Net(ms[..least]);
      assert Lowest(ms[..k]) <= Net(ms[..k][..0]);
    }
  }

  /**
   An ordered run without timeouts refines the plain counter: no decrement is ever clipped,
   at every message the saturating count equals arrivals minus finishes, and whenever no
   activation is unreported it is exactly the number of jobs outstanding.
   */
  lemma OrderedRunsRefineCounter(c: Config, start: State, run: seq<Event>)
    requires ValidConfig(c) && IsStart(start) && Legal(c, start, run) && Ordered(c, start, run)
    ensures var s := After(c, start, run);
            && s.clipped == 0
            && PlainCount(c, s.handled)
            && s.poller.remaining == Outstanding(s) - Unreported(s)
            && (Unreported(s) == 0 ==> s.poller.remaining == Outstanding(s))
  {
    StartInvariant(c, start);
    OrderedRunsStayExact(c, start, run);
    NeverClippedIsPlain(c, After(c, start, run).handled);
  }

  /** So a worker at rest after an ordered run always asks for jobs again. */
  lemma OrderedRunsKeepAsking(c: Config, start: State, run: seq<Event>)
    requires ValidConfig(c) && IsStart(start) && Legal(c, start, run) && Ordered(c, start, run)
    requires Drained(After(c, start, run))
    ensures Activates(c, After(c, start, run).poller, FetchJobs)
  {
    StartInvariant(c, start);
    OrderedRunsStayExact(c, start, run);
  }
}
