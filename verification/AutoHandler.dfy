/**
 Auto handlers: the user's function gets its parameters from the job and from the client
 the dispatcher made for it, and its result decides the one report.
 */
module AutoHandler {
  import opened Common
  import opened JobReports

  /** The identity of a user type. */
  type TypeId = nat

  /** A parameter of the user's function: the client, the job, decoded variables, or shared state. */
  datatype Extractor =
    | ClientParameter
    | JobParameter
    | DataParameter(ty: TypeId)
    | StateParameter(ty: TypeId)

  /**
   Extracting one parameter. `problems` are the types into which the job's variables do
   not deserialize, each with the parser's error; `extensions` the state types reachable through the client, if any.
   */
  function FromJob(x: Extractor, problems: map<TypeId, string>, extensions: Option<set<TypeId>>)
    : Result<Extractor, ExtractionError>
  {
    match x
    case ClientParameter => Ok(x)
    case JobParameter => Ok(x)
    case DataParameter(ty) => if ty in problems then Err(DeserializationError(problems[ty])) else Ok(x)
    case StateParameter(ty) =>
      if extensions.Some? && ty in extensions.value then Ok(x) else Err(MissingWorkerStateConfig)
  }

  /** Extracting all parameters in order, giving up at the first that fails. */
  function FromJobAll(xs: seq<Extractor>, problems: map<TypeId, string>, extensions: Option<set<TypeId>>)
    : Result<seq<Extractor>, ExtractionError>
  {
    if |xs| == 0 then Ok([]) else
      match FromJob(xs[0], problems, extensions)
      case Err(e) => Err(e)
      case Ok(first) =>
        match FromJobAll(xs[1..], problems, extensions)
        case Err(e) => Err(e)
        case Ok(rest) => Ok([first] + rest)
  }

  /** A parameter can be had when its data problems, or its state was registered with the worker. */
  predicate Available(x: Extractor, problems: map<TypeId, string>, registered: set<TypeId>) {
    match x
    case ClientParameter => true
    case JobParameter => true
    case DataParameter(ty) => ty !in problems
    case StateParameter(ty) => ty in registered
  }

  /** Parameter `i` is the first that cannot be had. */
  predicate FirstMissing(xs: seq<Extractor>, problems: map<TypeId, string>, registered: set<TypeId>, i: int) {
    && 0 <= i < |xs| && !Available(xs[i], problems, registered)
    && forall j :: 0 <= j < i ==> Available(xs[j], problems, registered)
  }

  /**
   With the extensions the dispatcher attaches, extraction succeeds exactly when every
   parameter is available, yielding all of them; else it reports the first one missing.
   */
  lemma {:induction false} ExtractionIsComplete(
    xs: seq<Extractor>, problems: map<TypeId, string>, registered: set<TypeId>)
    ensures var r := FromJobAll(xs, problems, Some(registered));
            && (r.Ok? <==> forall i :: 0 <= i < |xs| ==> Available(xs[i], problems, registered))
            && (r.Ok? <==> forall i :: 0 <= i < |xs| ==>
                             && (xs[i].DataParameter? ==> xs[i].ty !in problems)
                             && (xs[i].StateParameter? ==> xs[i].ty in registered))
            && (r.Ok? ==> r.value == xs)
            && (r.Err? ==> exists i :: FirstMissing(xs, problems, registered, i))
            && (forall i :: FirstMissing(xs, problems, registered, i) ==>
                              r == Err(if xs[i].DataParameter? then DeserializationError(problems[xs[i].ty])
                                       else MissingWorkerStateConfig))
  {
    if |xs| > 0 {
      var rest := xs[1..];
      ExtractionIsComplete(rest, problems, registered);
      assert forall i :: 0 <= i < |rest| ==> rest[i] == xs[i + 1];
      var r := FromJobAll(xs, problems, Some(registered));
      if !Available(xs[0], problems, registered) {
        assert FirstMissing(xs, problems, registered, 0);
      } else {
        forall i | FirstMissing(xs, problems, registered, i)
          ensures i > 0 && FirstMissing(rest, problems, registered, i - 1)
        {
          assert forall j :: 0 <= j < i - 1 ==> rest[j] == xs[j + 1];
        }
        if FromJobAll(rest, problems, Some(registered)).Err? {
          var i :| FirstMissing(rest, problems, registered, i);
          assert forall j :: 0 < j < i + 1 ==> xs[j] == rest[j - 1];
          assert FirstMissing(xs, problems, registered, i + 1);
        } else {
          forall i | 0 <= i < |xs| ensures Available(xs[i], problems, registered) {
            assert i > 0 ==> Available(rest[i - 1], problems, registered);
          }
        }
      }
    }
  }

  /** Without extensions no shared state can be had, whatever was registered. */
  lemma {:induction false} NoStateWithoutExtensions(xs: seq<Extractor>, problems: map<TypeId, string>, i: nat)
    requires i < |xs| && xs[i].StateParameter?
    ensures FromJobAll(xs, problems, None).Err?
  {
    if i > 0 {
      NoStateWithoutExtensions(xs[1..], problems, i - 1);
    }
  }

  /** What becomes of the job: `result` is what the user's function would return if called. */
  function OutcomeOf(extracted: Result<seq<Extractor>, ExtractionError>, result: Result<string, string>): Outcome {
    match extracted
    case Err(e) => ExtractionFailed(e)
    case Ok(_) =>
      match result
      case Ok(variables) => Completed(variables)
      case Err(message) => Failed(message)
  }
}
