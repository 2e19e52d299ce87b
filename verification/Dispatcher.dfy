/**
 The dispatcher of src/worker/job_dispatcher.rs. Every job gets a client of its own, an
 object like the worker's; that no two jobs share one has to be kept, not just typed.
 */
module Dispatcher {
  import opened Common
  import opened JobReports
  import opened AutoHandler
  import opened PollerSpec
  import opened WorkerProtocol

  class Client {
    var currentJobKey: Option<int>
    var currentJobExtensions: Option<set<TypeId>>

    constructor ()
      ensures currentJobKey == None && currentJobExtensions == None
    {
      currentJobKey, currentJobExtensions := None, None;
    }

    method Clone() returns (copy: Client)
      ensures fresh(copy)
      ensures copy.currentJobKey == currentJobKey && copy.currentJobExtensions == currentJobExtensions
    {
      copy := new Client();
      copy.currentJobKey := currentJobKey;
      copy.currentJobExtensions := currentJobExtensions;
    }
  }

  class JobTask {
    const job: Job
    const client: Client
    var phase: Phase

    constructor (job: Job, client: Client)
      ensures this.job == job && this.client == client && phase == Running
    {
      this.job, this.client, phase := job, client, Running;
    }

    function State(): Handler
      reads this, client
    {
      Handler(job, client.currentJobKey, phase)
    }
  }

  /** The outcome is a completion, with the function's result, exactly when all parameters are there and it succeeds. */
  lemma OutcomeIsRight(
    parameters: seq<Extractor>, problems: map<TypeId, string>, registered: set<TypeId>, result: Result<string, string>)
    ensures var extracted := FromJobAll(parameters, problems, Some(registered));
            var outcome := OutcomeOf(extracted, result);
            && (extracted.Ok? <==> forall i :: 0 <= i < |parameters| ==> Available(parameters[i], problems, registered))
            && (extracted.Err? ==> exists i :: FirstMissing(parameters, problems, registered, i))
            && (outcome.Completed? <==> extracted.Ok? && result.Ok?)
            && (outcome.Completed? ==> outcome.variables == result.value)
            && (extracted.Ok? && result.Err? ==> outcome == Failed(result.error))
            && (forall i :: FirstMissing(parameters, problems, registered, i) ==>
                              outcome == ExtractionFailed(if parameters[i].DataParameter? then
                                                            DeserializationError(problems[parameters[i].ty])
                                                          else
                                                            MissingWorkerStateConfig))
  {
    ExtractionIsComplete(parameters, problems, registered);
  }

  class JobDispatcher {
    const config: Config
    const jobClient: Client
    const extensions: set<TypeId>
    var tasks: seq<JobTask>
    var reports: seq<Report>

    function Clients(): set<object>
      reads this
    {
      set t | t in tasks :: t.client as object
    }

    function Footprint(): set<object>
      reads this
    {
      {this} + (set t | t in tasks :: t as object) + Clients()
    }

    /** No two tasks share a client, none uses the worker's own, and each client is bound to its task's job. */
    ghost predicate Valid()
      reads Footprint()
    {
      && (forall i, j :: 0 <= i < j < |tasks| ==> tasks[i] != tasks[j] && tasks[i].client != tasks[j].client)
      && (forall i :: 0 <= i < |tasks| ==> tasks[i].client != jobClient)
      && (forall i :: 0 <= i < |tasks| ==>
            && tasks[i].client.currentJobKey == Some(tasks[i].job.key)
            && tasks[i].client.currentJobExtensions == Some(extensions))
    }

    function Handlers(): seq<Handler>
      reads Footprint()
    {
      seq(|tasks|, i requires 0 <= i < |tasks| reads Footprint() => assert tasks[i] in tasks; tasks[i].State())
    }

    constructor (config: Config, jobClient: Client, extensions: set<TypeId>)
      ensures Valid() && Handlers() == [] && reports == [] && tasks == []
      ensures this.config == config && this.jobClient == jobClient && this.extensions == extensions
    {
      this.config, this.jobClient, this.extensions := config, jobClient, extensions;
      tasks, reports := [], [];
    }

    /** A task with a clone of the client, bound to the job's key. */
    method Bind(job: Job) returns (task: JobTask)
      ensures fresh(task) && fresh(task.client) && task.State() == Handler(job, Some(job.key), Running)
      ensures task.job == job && task.client.currentJobExtensions == Some(extensions)
    {
      var client := jobClient.Clone();
      task := new JobTask(job, client);
      task.client.currentJobKey := Some(job.key);
      task.client.currentJobExtensions := Some(extensions);
    }

    /** Takes a job: it gets a task, and a client, of its own. */
    method Dispatch(job: Job)
      requires Valid()
      modifies this`tasks
      ensures Valid() && fresh(Footprint() - old(Footprint()))
      ensures Handlers() == old(Handlers()) + [Handler(job, Some(job.key), Running)]
      ensures |tasks| == |old(tasks)| + 1 && tasks[..|old(tasks)|] == old(tasks)
    {
      ghost var before := Handlers();
      var task := Bind(job);
      assert Handlers() == before;
      tasks := tasks + [task];
      assert Handlers() == before + [task.State()];
    }

    /** The report of task `h` is attempted through its own client, and its answer awaited. */
    method AttemptReport(h: nat, outcome: Outcome)
      requires Valid() && h < |tasks|
      modifies this`reports, tasks[h]
      ensures Valid()
      ensures Handlers() == old(Handlers())[h := old(Handlers())[h].(phase := Awaiting)]
      ensures reports == old(reports) + HandlerReport(old(Handlers())[h], Attempt(outcome))
    {
      var call := AutoReport(tasks[h].client.currentJobKey, outcome);
      reports := reports + [Report(tasks[h].job, outcome, call)];
      tasks[h].phase := Awaiting;
    }

    /**
     The auto handler of task `h`: the user's function, whose result would be `result`, is called
     exactly when all its parameters can be extracted. Then the one report is made: it completes
     the job, with that result, exactly when the function was called and succeeded.
     */
    method CallAutoHandler(
      h: nat, parameters: seq<Extractor>, problems: map<TypeId, string>, result: Result<string, string>)
      returns (called: bool, outcome: Outcome)
      requires Valid() && h < |tasks|
      modifies this`reports, tasks[h]
      ensures Valid()
      ensures called <==> forall i :: 0 <= i < |parameters| ==> Available(parameters[i], problems, extensions)
      ensures outcome.Completed? <==> called && result.Ok?
      ensures outcome.Completed? ==> outcome.variables == result.value
      ensures called && result.Err? ==> outcome == Failed(result.error)
      ensures !called ==> exists i :: FirstMissing(parameters, problems, extensions, i)
      ensures forall i :: FirstMissing(parameters, problems, extensions, i) ==>
                outcome == ExtractionFailed(if parameters[i].DataParameter? then
                                              DeserializationError(problems[parameters[i].ty])
                                            else
                                              MissingWorkerStateConfig)
      ensures Handlers() == old(Handlers())[h := old(Handlers())[h].(phase := Awaiting)]
      ensures reports == old(reports) + HandlerReport(old(Handlers())[h], Attempt(outcome))
      ensures Fulfils(reports[|old(reports)|].call, tasks[h].job.key, outcome)
    {
      var extracted := FromJobAll(parameters, problems, tasks[h].client.currentJobExtensions);
      OutcomeIsRight(parameters, problems, extensions, result);
      called, outcome := extracted.Ok?, OutcomeOf(extracted, result);
      AutoReportIsRight(Some(tasks[h].job.key), outcome);
      AttemptReport(h, outcome);
    }

    /** The handler of task `h` is done. */
    method Return(h: nat)
      requires Valid() && h < |tasks|
      modifies tasks[h]
      ensures Valid()
      ensures Handlers() == old(Handlers())[h := old(Handlers())[h].(phase := Finished)]
    {
      tasks[h].phase := Finished;
    }

    /** Task `h` is over, and frees its place. */
    method Remove(h: nat)
      requires Valid() && h < |tasks|
      modifies this`tasks
      ensures Valid() && Footprint() <= old(Footprint())
      ensures Handlers() == Replace(old(Handlers()), h, [])
    {
      tasks := tasks[..h] + tasks[h + 1..];
      assert forall t :: t in tasks ==> t in old(tasks);
      assert Clients() <= old(Clients());
    }
  }
}
