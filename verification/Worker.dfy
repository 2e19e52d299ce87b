/** The running worker assembled from its objects, proved to take exactly the protocol's steps. */
module RunningWorker {
  import opened Common
  import opened JobReports
  import opened AutoHandler
  import opened PollerSpec
  import opened LongPolling
  import opened JobPolling
  import opened WorkerProtocol
  import opened WorkerInvariants
  import opened Activation
  import opened Dispatcher

  /** Delivering a message: the poller takes its step, and then the activation this starts is spawned. */
  lemma DeliveredInTwo(c: Config, s: State, digested: State, m: PollMessage)
    requires digested == s.(
                           poller := HandleMessage(c, s.poller, m),
                           handled := s.handled + [m],
                           clipped := s.clipped + if m.JobFinished? && s.poller.remaining == 0 then 1 else 0)
    ensures Deliver(c, s, m) ==
            if Activates(c, s.poller, m) then
              digested.(tasks := s.tasks + [Requesting(|s.requests|, Requested(c, s.poller))],
                        requests := s.requests + [Requested(c, s.poller)])
            else
              digested
  {
    assert s.tasks + [] == s.tasks && s.requests + [] == s.requests;
  }

  class Worker {
    const config: Config
    const poller: JobPoller
    const jobQueue: Channel<Job>
    const pollQueue: Channel<PollMessage>
    const dispatcher: JobDispatcher
    var activations: seq<ActivationTask>

    // History: the first two number the activations and the jobs, the rest is only recorded.
    var requests: seq<int>
    var sent: seq<Job>
    ghost var started: seq<Job>
    ghost var handled: seq<PollMessage>
    ghost var clipped: nat
    ghost var lost: int

    function Activations(): set<object>
      reads this
    {
      set a | a in activations :: a as object
    }

    ghost function Footprint(): set<object>
      reads this, dispatcher
    {
      {this, poller, jobQueue, pollQueue} + Activations() + dispatcher.Footprint()
    }

    ghost predicate Valid()
      reads Footprint()
    {
      && poller.config == config && dispatcher.config == config
      && jobQueue.capacity == config.max && pollQueue.capacity == config.capacity
      && (forall i, j :: 0 <= i < j < |activations| ==> activations[i] != activations[j])
      && dispatcher.Valid()
    }

    function Tasks(): seq<Task>
      reads this, Activations()
    {
      seq(|activations|, i requires 0 <= i < |activations| reads this, Activations() =>
        assert activations[i] in activations; activations[i].State())
    }

    ghost function Abs(): State
      reads Footprint()
    {
      State(poller.State(), Tasks(), jobQueue.items, pollQueue.items, dispatcher.Handlers(),
            requests, sent, started, handled, clipped, lost, dispatcher.reports)
    }

    ghost predicate JustStarted()
      reads Footprint()
    {
      && poller.State() == INITIAL && clipped == 0 && lost == 0
      && activations == [] && jobQueue.items == [] && pollQueue.items == [] && dispatcher.tasks == []
      && requests == [] && sent == [] && started == [] && handled == [] && dispatcher.reports == []
    }

    lemma StartsTheProtocol()
      requires Valid() && JustStarted()
      ensures IsStart(Abs())
    {
    }

    constructor (config: Config, requestTimeout: nat, request: ActivateJobsRequest,
                 jobClient: Client, extensions: set<TypeId>)
      ensures Valid() && JustStarted()
      ensures this.config == config && poller.requestTimeout == requestTimeout && poller.request == request
      ensures dispatcher.jobClient == jobClient && dispatcher.extensions == extensions
      ensures fresh(poller) && fresh(jobQueue) && fresh(pollQueue) && fresh(dispatcher)
    {
      this.config := config;
      poller := new JobPoller(config, requestTimeout, request);
      jobQueue := new Channel(config.max);
      pollQueue := new Channel(config.capacity);
      dispatcher := new JobDispatcher(config, jobClient, extensions);
      activations := [];
      requests, sent, started, handled, clipped, lost := [], [], [], [], 0, 0;
    }

    /** Hands an activation to the runtime. */
    method Spawn(request: ActivateJobsRequest)
      requires Valid()
      modifies this`activations, this`requests
      ensures Valid() && fresh(Footprint() - old(Footprint()))
      ensures Abs() == old(Abs()).(
                         tasks := old(Tasks()) + [Requesting(|old(requests)|, request.maxJobsToActivate)],
                         requests := old(requests) + [request.maxJobsToActivate])
      ensures |activations| == |old(activations)| + 1 && activations[|old(activations)|].request == request
    {
      ghost var before := Abs();
      var task := new ActivationTask(|requests|, request);
      activations := activations + [task];
      requests := requests + [request.maxJobsToActivate];
      assert Tasks() == before.tasks + [task.State()];
      assert dispatcher.Handlers() == before.handlers;
    }

    /** The same, if there is an activation. */
    method SpawnAny(spawned: Option<ActivateJobsRequest>)
      requires Valid()
      modifies this`activations, this`requests
      ensures Valid() && fresh(Footprint() - old(Footprint()))
      ensures Abs() == if spawned.None? then old(Abs()) else
                         old(Abs()).(
                           tasks := old(Tasks()) + [Requesting(|old(requests)|, spawned.value.maxJobsToActivate)],
                           requests := old(requests) + [spawned.value.maxJobsToActivate])
      ensures spawned.Some? ==> |activations| > 0 && activations[|activations| - 1].request == spawned.value
    {
      if spawned.Some? {
        Spawn(spawned.value);
      }
    }

    /** The poller handles a message, and returns the request of the activation this starts, if any. */
    method Digest(m: PollMessage) returns (spawned: Option<ActivateJobsRequest>)
      requires Valid()
      modifies this`handled, this`clipped, poller
      ensures Valid() && Footprint() == old(Footprint())
      ensures Abs() == old(Abs()).(
                         poller := HandleMessage(config, old(poller.State()), m),
                         handled := old(handled) + [m],
                         clipped := old(clipped) + if m.JobFinished? && old(poller.remaining) == 0 then 1 else 0)
      ensures poller.request == if spawned.Some? then old(poller.Filled(poller.request)) else old(poller.request)
      ensures spawned.Some? ==> spawned.value == poller.request
      ensures spawned.Some? <==> Activates(config, old(poller.State()), m)
    {
      ghost var before := Abs();
      handled := handled + [m];
      if m.JobFinished? && poller.remaining == 0 {
        clipped := clipped + 1;
      }
      spawned := poller.Handle(m);
      assert Tasks() == before.tasks && dispatcher.Handlers() == before.handlers;
    }

    /**
     The poller handles a message; if it starts an activation, the task is spawned with the poller's
     request, in which only the number of jobs and the deadline are new.
     */
    method Deliver(m: PollMessage)
      requires Valid()
      modifies this, poller
      ensures Valid() && fresh(Footprint() - old(Footprint()))
      ensures Abs() == WorkerProtocol.Deliver(config, old(Abs()), m)
      ensures Activates(config, old(poller.State()), m) ==>
                && poller.request == old(poller.Filled(poller.request))
                && |activations| > 0 && activations[|activations| - 1].request == poller.request
    {
      ghost var before := Abs();
      var spawned := Digest(m);
      ghost var digested := Abs();
      DeliveredInTwo(config, before, digested, m);
      SpawnAny(spawned);
      assert Abs() == WorkerProtocol.Deliver(config, before, m);
    }

    method TakeJob() returns (job: Job)
      requires Valid() && |jobQueue.items| > 0
      modifies this`started, jobQueue
      ensures Valid() && Footprint() == old(Footprint())
      ensures job == old(jobQueue.items)[0]
      ensures Abs() == old(Abs()).(jobQueue := old(jobQueue.items)[1..], started := old(started) + [job])
    {
      ghost var before := Abs();
      job := jobQueue.Receive();
      started := started + [job];
      assert Tasks() == before.tasks && dispatcher.Handlers() == before.handlers;
    }

    method HandOver(job: Job)
      requires Valid()
      modifies dispatcher
      ensures Valid() && fresh(Footprint() - old(Footprint()))
      ensures Abs() == old(Abs()).(handlers := old(dispatcher.Handlers()) + [Handler(job, Some(job.key), Running)])
    {
      ghost var before := Tasks();
      ghost var objects := dispatcher.Footprint();
      dispatcher.Dispatch(job);
      assert Tasks() == before;
      assert Footprint() - old(Footprint()) <= dispatcher.Footprint() - objects;
    }

    /** The dispatcher takes the next queued job. */
    method StartJob()
      requires Valid() && Enabled(config, Abs(), Start)
      modifies this`started, jobQueue, dispatcher
      ensures Valid() && fresh(Footprint() - old(Footprint()))
      ensures Abs() == Apply(config, old(Abs()), Start)
    {
      var job := TakeJob();
      HandOver(job);
    }

    /** Activation task `t` is over and forgotten. */
    method Forget(t: nat)
      requires Valid() && t < |activations|
      modifies this`activations
      ensures Valid() && Footprint() <= old(Footprint())
      ensures Tasks() == Replace(old(Tasks()), t, [])
    {
      activations := activations[..t] + activations[t + 1..];
      assert forall a :: a in activations ==> a in old(activations);
      assert Activations() <= old(Activations());
    }

    /** Activation task `t` takes a step, with its effect on the two queues. */
    method RunTask(t: nat, step: TaskStep) returns (done: bool)
      requires Valid() && t < |activations| && TaskReady(activations[t].State(), step)
      requires Fits(TaskMessage(activations[t].State(), step), |pollQueue.items|, pollQueue.capacity)
      requires Fits(TaskJob(activations[t].State(), step, |sent|), |jobQueue.items|, jobQueue.capacity)
      modifies jobQueue, pollQueue, activations[t]
      ensures Valid() && Footprint() == old(Footprint())
      ensures var task := old(activations[t].State());
              && NextTask(task, step) == (if done then [] else [activations[t].State()])
              && Tasks() == old(Tasks())[t := activations[t].State()]
              && jobQueue.items == old(jobQueue.items) + TaskJob(task, step, |sent|)
              && pollQueue.items == old(pollQueue.items) + TaskMessage(task, step)
      ensures dispatcher.Handlers() == old(dispatcher.Handlers())
    {
      ghost var before := Tasks();
      done := activations[t].Advance(step, jobQueue, pollQueue, |sent|);
      assert Tasks() == before[t := activations[t].State()];
    }

    /** The same, and a task that is over is forgotten. */
    method MoveTask(t: nat, step: TaskStep)
      requires Valid() && t < |activations| && TaskReady(activations[t].State(), step)
      requires Fits(TaskMessage(activations[t].State(), step), |pollQueue.items|, pollQueue.capacity)
      requires Fits(TaskJob(activations[t].State(), step, |sent|), |jobQueue.items|, jobQueue.capacity)
      modifies this`activations, jobQueue, pollQueue, activations[t]
      ensures Valid() && Footprint() <= old(Footprint())
      ensures var task := old(Tasks())[t];
              && Tasks() == Replace(old(Tasks()), t, NextTask(task, step))
              && jobQueue.items == old(jobQueue.items) + TaskJob(task, step, |sent|)
              && pollQueue.items == old(pollQueue.items) + TaskMessage(task, step)
      ensures dispatcher.Handlers() == old(dispatcher.Handlers())
    {
      var done := RunTask(t, step);
      if done {
        Forget(t);
      }
    }

    method Record(queued: seq<Job>, ghost loss: int)
      requires Valid()
      modifies this`sent, this`lost
      ensures Valid() && Footprint() == old(Footprint())
      ensures Abs() == old(Abs()).(sent := old(sent) + queued, lost := old(lost) + loss)
    {
      ghost var before := Abs();
      sent := sent + queued;
      lost := lost + loss;
      assert Tasks() == before.tasks;
    }

    /** Activation task `t` takes a step. */
    method AdvanceTask(t: nat, step: TaskStep)
      requires Valid() && Enabled(config, Abs(), Advance(t, step))
      modifies this`sent, this`lost, this`activations, jobQueue, pollQueue, activations[t]
      ensures Valid() && Footprint() <= old(Footprint())
      ensures Abs() == Apply(config, old(Abs()), Advance(t, step))
    {
      ghost var task := Tasks()[t];
      var queued := TaskJob(activations[t].State(), step, |sent|);
      MoveTask(t, step);
      Record(queued, TaskLoss(task, step));
    }

    /** The auto handler of job `h` issues its report. */
    method IssueReport(h: nat, outcome: Outcome)
      requires Valid() && Enabled(config, Abs(), Serve(h, Attempt(outcome)))
      modifies dispatcher, dispatcher.tasks[h]
      ensures Valid() && Footprint() <= old(Footprint())
      ensures Abs() == Apply(config, old(Abs()), Serve(h, Attempt(outcome)))
    {
      ghost var before := Abs();
      dispatcher.AttemptReport(h, outcome);
      assert dispatcher.Handlers() == Replace(before.handlers, h, NextHandler(before.handlers[h], Attempt(outcome)));
      assert Tasks() == before.tasks && before.messages + [] == before.messages;
    }

    /**
     The auto handler of job `h` runs, with a function that would return `result`: one protocol step,
     whose report completes the job exactly when every parameter is available and the function succeeds.
     */
    method RunAutoHandler(
      h: nat, parameters: seq<Extractor>, problems: map<TypeId, string>, result: Result<string, string>)
      returns (outcome: Outcome)
      requires Valid() && h < |dispatcher.tasks| && config.autoHandler && dispatcher.tasks[h].phase.Running?
      modifies dispatcher, dispatcher.tasks[h]
      ensures Valid() && Footprint() <= old(Footprint())
      ensures Enabled(config, old(Abs()), Serve(h, Attempt(outcome)))
      ensures Abs() == Apply(config, old(Abs()), Serve(h, Attempt(outcome)))
      ensures outcome.Completed? <==>
              && result.Ok?
              && forall i :: 0 <= i < |parameters| ==> Available(parameters[i], problems, dispatcher.extensions)
      ensures outcome.Completed? ==> outcome.variables == result.value
      ensures outcome.Failed? ==> result == Err(outcome.message)
      ensures outcome.ExtractionFailed? <==> exists i :: FirstMissing(parameters, problems, dispatcher.extensions, i)
      ensures forall i :: FirstMissing(parameters, problems, dispatcher.extensions, i) ==>
                outcome == ExtractionFailed(if parameters[i].DataParameter? then
                                              DeserializationError(problems[parameters[i].ty])
                                            else
                                              MissingWorkerStateConfig)
      ensures |dispatcher.reports| == |old(dispatcher.reports)| + 1 && h < |dispatcher.tasks|
      ensures Fulfils(dispatcher.reports[|old(dispatcher.reports)|].call, dispatcher.tasks[h].job.key, outcome)
    {
      ghost var before := Abs();
      var _, what := dispatcher.CallAutoHandler(h, parameters, problems, result);
      outcome := what;
      assert dispatcher.Handlers() == Replace(before.handlers, h, NextHandler(before.handlers[h], Attempt(outcome)));
      assert Tasks() == before.tasks && before.messages + [] == before.messages;
    }

    /** The handler of job `h` is done. */
    method FinishHandler(h: nat)
      requires Valid() && Enabled(config, Abs(), Serve(h, HandlerStep.Return))
      modifies dispatcher.tasks[h]
      ensures Valid() && Footprint() <= old(Footprint())
      ensures Abs() == Apply(config, old(Abs()), Serve(h, HandlerStep.Return))
    {
      ghost var before := Abs();
      dispatcher.Return(h);
      assert dispatcher.Handlers() == Replace(before.handlers, h, NextHandler(before.handlers[h], HandlerStep.Return));
      assert Tasks() == before.tasks;
      assert before.messages + [] == before.messages && before.reports + [] == before.reports;
    }

    /** The dispatcher tells the poller that job `h` is finished, and frees its place. */
    method SendFinished(h: nat)
      requires Valid() && Enabled(config, Abs(), Serve(h, Finish))
      modifies pollQueue, dispatcher
      ensures Valid() && Footprint() <= old(Footprint())
      ensures Abs() == Apply(config, old(Abs()), Serve(h, Finish))
    {
      ghost var before := Abs();
      pollQueue.Send(JobFinished(dispatcher.tasks[h].job));
      assert dispatcher.Handlers() == before.handlers && Tasks() == before.tasks;
      dispatcher.Remove(h);
      assert Tasks() == before.tasks && before.reports + [] == before.reports;
    }

    /** One event, whichever part it belongs to: exactly the protocol's step. */
    method Step(e: Event)
      requires Valid() && Enabled(config, Abs(), e)
      modifies Footprint()
      ensures Valid() && fresh(Footprint() - old(Footprint()))
      ensures Abs() == Apply(config, old(Abs()), e)
    {
      match e
      case Tick =>
        Deliver(FetchJobs);
      case Poll =>
        PollOne();
      case Start =>
        StartJob();
      case Advance(t, step) =>
        assert activations[t] in activations;
        AdvanceTask(t, step);
      case Serve(h, action) =>
        assert dispatcher.tasks[h] in dispatcher.tasks;
        match action
        case Attempt(outcome) => IssueReport(h, outcome);
        case Return => FinishHandler(h);
        case Finish => SendFinished(h);
    }

    /** The poller takes the next queued message. */
    method PollOne()
      requires Valid() && Enabled(config, Abs(), Poll)
      modifies this, poller, pollQueue
      ensures Valid() && fresh(Footprint() - old(Footprint()))
      ensures Abs() == Apply(config, old(Abs()), Poll)
    {
      ghost var before := Abs();
      var m := pollQueue.Receive();
      assert Tasks() == before.tasks && dispatcher.Handlers() == before.handlers;
      assert Abs() == before.(messages := before.messages[1..]);
      Deliver(m);
    }

    /** A whole schedule of events. */
    method Execute(run: seq<Event>)
      requires Valid() && Legal(config, Abs(), run)
      modifies Footprint()
      ensures Valid() && Abs() == After(config, old(Abs()), run)
      decreases |run|
    {
      if |run| > 0 {
        ghost var next := Apply(config, Abs(), run[0]);
        ghost var end := After(config, Abs(), run);
        assert Legal(config, next, run[1..]) && After(config, next, run[1..]) == end;
        Step(run[0]);
        assert Abs() == next;
        Execute(run[1..]);
        assert Abs() == end;
      }
    }

    /** A started worker keeps the protocol's invariant whatever schedule it meets. */
    method ExecuteFromStart(run: seq<Event>)
      requires ValidConfig(config) && Valid() && JustStarted() && Legal(config, Abs(), run)
      modifies Footprint()
      ensures Valid() && Reaches(config, run, Abs()) && Invariant(config, Abs())
    {
      ghost var start := Abs();
      StartsTheProtocol();
      Execute(run);
      assert IsStart(start) && After(config, start, run) == Abs();
      Reached(config, run, Abs());
    }
  }
}
