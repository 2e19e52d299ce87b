/** What becomes of each job: it is dispatched once, in order, and reported once, under its own key. */
module Delivery {
  import opened Common
  import opened JobReports
  import opened PollerSpec
  import opened WorkerProtocol
  import opened WorkerInvariants
  import opened FlowControl

  lemma {:induction false} SerialsAreDistinct(jobs: seq<Job>, job: Job)
    requires forall i :: 0 <= i < |jobs| ==> jobs[i].serial == i
    ensures multiset(jobs)[job] == if job.serial < |jobs| && jobs[job.serial] == job then 1 else 0
  {
    if |jobs| > 0 {
      var front := jobs[..|jobs| - 1];
      SerialsAreDistinct(front, job);
      assert jobs == front + [jobs[|jobs| - 1]];
    }
  }

  lemma {:induction false} AttemptedAreHandled(hs: seq<Handler>)
    ensures Attempted(hs) <= JobsOf(hs)
  {
    if |hs| > 0 {
      AttemptedAreHandled(hs[1..]);
      AttemptedOne(hs[0]);
      JobsOfOne(hs[0]);
      assert hs == [hs[0]] + hs[1..];
      AttemptedConcat([hs[0]], hs[1..]);
      JobsOfConcat([hs[0]], hs[1..]);
    }
  }

  lemma {:induction false} PastRunningAttempted(hs: seq<Handler>, h: nat)
    requires h < |hs| && !hs[h].phase.Running?
    ensures hs[h].job in Attempted(hs)
  {
    if h > 0 {
      PastRunningAttempted(hs[1..], h - 1);
    }
  }

  /**
   The jobs sent are, each exactly once, in the job queue, with a handler, or finished; they
   start in the order they were sent; and handlers stay within the concurrency limit.
   */
  lemma DispatchConservation(c: Config, run: seq<Event>, s: State)
    requires ValidConfig(c) && Reaches(c, run, s)
    ensures s.sent == s.started + s.jobQueue
    ensures multiset(s.sent) == multiset(s.jobQueue) + JobsOf(s.handlers) + FinishedJobs(Posted(s))
    ensures (forall job :: multiset(s.sent)[job] <= 1)
    ensures (c.concurrency > 0 ==> |s.handlers| <= c.concurrency)
  {
    Reached(c, run, s);
    forall job ensures multiset(s.sent)[job] <= 1 {
      SerialsAreDistinct(s.sent, job);
    }
  }

  /** At most one report is ever attempted for a job, and it is one of the jobs dispatched. */
  lemma AtMostOneReport(c: Config, s: State, job: Job)
    requires Invariant(c, s)
    ensures ReportedJobs(s.reports)[job] <= 1
  {
    SerialsAreDistinct(s.sent, job);
    AttemptedAreHandled(s.handlers);
    if c.autoHandler {
      assert ReportedJobs(s.reports)[job] == Attempted(s.handlers)[job] + FinishedJobs(Posted(s))[job];
      assert multiset(s.started)[job] == JobsOf(s.handlers)[job] + FinishedJobs(Posted(s))[job];
      assert multiset(s.sent)[job] == multiset(s.started)[job] + multiset(s.jobQueue)[job];
    } else {
      assert ReportedJobs(s.reports) == multiset{};
    }
  }

  /**
   With an auto handler, in every interleaving: each finished job has exactly one report; a
   handler about to send `JobFinished` has already made its own; and every report reached the
   gateway call, naming the key of its job: it completes the job, with the function's result,
   exactly when the parameters were extracted and the function succeeded, and else fails it.
   */
  lemma ExactlyOneReport(c: Config, run: seq<Event>, s: State)
    requires ValidConfig(c) && Reaches(c, run, s) && c.autoHandler
    ensures (forall job :: JobFinished(job) in Posted(s) ==> ReportedJobs(s.reports)[job] == 1)
    ensures (forall h :: 0 <= h < |s.handlers| ==>
                  ReportedJobs(s.reports)[s.handlers[h].job] == if s.handlers[h].phase.Running? then 0 else 1)
    ensures (forall i :: 0 <= i < |s.reports| ==>
                  && Fulfils(s.reports[i].call, s.reports[i].job.key, s.reports[i].outcome)
                  && (s.reports[i].call.value.CompleteJob? <==> s.reports[i].outcome.Completed?))
  {
    Reached(c, run, s);
    FinishedJobsCount(Posted(s));
    forall job | JobFinished(job) in Posted(s) ensures ReportedJobs(s.reports)[job] == 1 {
      AtMostOneReport(c, s, job);
      assert job in FinishedJobs(Posted(s));
    }
    forall h | 0 <= h < |s.handlers|
      ensures ReportedJobs(s.reports)[s.handlers[h].job] == if s.handlers[h].phase.Running? then 0 else 1
    {
      HandlerReports(c, s, h);
    }
    forall i | 0 <= i < |s.reports|
      ensures Fulfils(s.reports[i].call, s.reports[i].job.key, s.reports[i].outcome)
    {
      assert WellAddressed(s.reports[i]);
      AutoReportIsRight(Some(s.reports[i].job.key), s.reports[i].outcome);
    }
  }

  lemma HandlerReports(c: Config, s: State, h: nat)
    requires Invariant(c, s) && c.autoHandler && h < |s.handlers|
    ensures ReportedJobs(s.reports)[s.handlers[h].job] == if s.handlers[h].phase.Running? then 0 else 1
  {
    var job := s.handlers[h].job;
    AtMostOneReport(c, s, job);
    if s.handlers[h].phase.Running? {
      RunningNotReported(c, s, h);
    } else {
      PastRunningAttempted(s.handlers, h);
    }
  }

  lemma RunningNotAttempted(hs: seq<Handler>, h: nat)
    requires h < |hs| && hs[h].phase.Running? && JobsOf(hs)[hs[h].job] <= 1
    ensures Attempted(hs)[hs[h].job] == 0
  {
    var job, others := hs[h].job, Replace(hs, h, []);
    JobsOfReplace(hs, h, []);
    JobsOfOne(hs[h]);
    assert (JobsOf(others) + JobsOf([hs[h]]))[job] == (JobsOf(hs) + JobsOf([]))[job];
    assert JobsOf([])[job] == 0 && JobsOf(others)[job] == 0;
    AttemptedAreHandled(others);
    AttemptedReplace(hs, h, []);
    AttemptedOne(hs[h]);
    assert Attempted([])[job] == 0;
    assert (Attempted(others) + Attempted([hs[h]]))[job] == (Attempted(hs) + Attempted([]))[job];
  }

  lemma RunningNotReported(c: Config, s: State, h: nat)
    requires Invariant(c, s) && c.autoHandler && h < |s.handlers| && s.handlers[h].phase.Running?
    ensures ReportedJobs(s.reports)[s.handlers[h].job] == 0
  {
    var job := s.handlers[h].job;
    SerialsAreDistinct(s.sent, job);
    JobsOfCount(s.handlers);
    assert s.handlers[h] in s.handlers;
    assert multiset(s.sent)[job] == multiset(s.started)[job] + multiset(s.jobQueue)[job];
    assert multiset(s.started)[job] == JobsOf(s.handlers)[job] + FinishedJobs(Posted(s))[job];
    RunningNotAttempted(s.handlers, h);
    assert ReportedJobs(s.reports)[job] == Attempted(s.handlers)[job] + FinishedJobs(Posted(s))[job];
  }
}
