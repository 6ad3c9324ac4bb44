/** The task chain fetch_data >> clean_data >> post_to_elastic of the DAG,
    run once per scheduled tick: a run starts with the first task, moves to
    the next task only when the current one completed, and stops for good at
    the first task that fails. */
module Pipeline {
  import opened TableModel
  import Duplicates
  import C = Cleaning
  import L = Loader

  /** The three tasks of the DAG. */
  datatype Task = FetchData | CleanData | PostToElastic

  /** fetch_data >> clean_data >> post_to_elastic */
  const Chain: seq<Task> := [FetchData, CleanData, PostToElastic]

  /** The state of one run. */
  datatype State = Pending | Extracting | Cleaning | Loading | Done | Failed(at: Task)

  /** Where a task stands in the chain. */
  function Position(t: Task): (k: nat)
    ensures k < |Chain| && Chain[k] == t
  {
    match t
    case FetchData => 0
    case CleanData => 1
    case PostToElastic => 2
  }

  /** The task a state is running, if any. */
  function Running(s: State): Option<Task>
  {
    match s
    case Extracting => Some(FetchData)
    case Cleaning => Some(CleanData)
    case Loading => Some(PostToElastic)
    case _ => None
  }

  /** How many tasks of the chain have completed in a state. */
  function Completed(s: State): nat
  {
    match s
    case Pending => 0
    case Extracting => 0
    case Cleaning => 1
    case Loading => 2
    case Done => 3
    case Failed(t) => Position(t)
  }

  /** The tick starts a pending run with its first task. */
  function Start(s: State): State
  {
    if s == Pending then Extracting else s
  }

  /** The running task ends: on success the next task starts (or the run is
      done after the last one), on failure the run fails at that task. */
  function Complete(s: State, ok: bool): (s': State)
    requires Running(s).Some?
    ensures !ok ==> s' == Failed(Running(s).value)
    ensures ok ==> Completed(s') == Completed(s) + 1 && !s'.Failed?
  {
    if !ok then Failed(Running(s).value)
    else match s
      case Extracting => Cleaning
      case Cleaning => Loading
      case Loading => Done
  }

  /** Tasks are run one at a time until none is running; ok says whether a
      task succeeds when it is run. */
  datatype Run = Run(state: State, ran: seq<Task>)

  function Drive(s: State, ok: Task -> bool, ran: seq<Task>): (r: Run)
    ensures Running(r.state).None?
    ensures |ran| <= |r.ran| && r.ran[..|ran|] == ran
    decreases 3 - Completed(s), if Running(s).Some? then 1 else 0
  {
    match Running(s)
    case None => Run(s, ran)
    case Some(t) => Drive(Complete(s, ok(t)), ok, ran + [t])
  }

  /** One scheduled run of the DAG: it starts with fetch_data and ends done
      or failed. */
  function Schedule(ok: Task -> bool): (r: Run)
    ensures r.state == Done || r.state.Failed?
    ensures r.ran != [] && r.ran[0] == FetchData
  {
    assert Consistent(Extracting, ok, []);
    DriveConsistent(Extracting, ok, []);
    Drive(Start(Pending), ok, [])
  }

  /** What must hold of a state and the tasks run so far: those tasks are the
      start of the chain, every task that completed succeeded, and a failed
      run's last task is the one it failed at, which did not succeed. */
  predicate Consistent(s: State, ok: Task -> bool, ran: seq<Task>)
  {
    (forall k :: 0 <= k < Completed(s) ==> ok(Chain[k])) &&
    match s
    case Pending => false
    case Failed(t) => ran == Chain[..Position(t) + 1] && !ok(t)
    case _ => ran == Chain[..Completed(s)]
  }

  /** Running the chain keeps it consistent and always ends done or failed. */
  lemma {:induction false} DriveConsistent(s: State, ok: Task -> bool, ran: seq<Task>)
    requires Consistent(s, ok, ran)
    ensures Consistent(Drive(s, ok, ran).state, ok, Drive(s, ok, ran).ran)
    ensures Drive(s, ok, ran).state == Done || Drive(s, ok, ran).state.Failed?
    decreases 3 - Completed(s), if Running(s).Some? then 1 else 0
  {
    match Running(s)
    case None =>
    case Some(t) =>
      var s' := Complete(s, ok(t));
      assert Completed(s) == Position(t);
      assert ran + [t] == Chain[..Position(t) + 1];
      DriveConsistent(s', ok, ran + [t]);
  }

  /** A run ends done exactly when the three tasks all succeed, and then it
      ran them in chain order; otherwise it failed at the first task that did
      not succeed and ran nothing after it. */
  lemma ScheduleOutcome(ok: Task -> bool)
    ensures Schedule(ok).state == Done <==> ok(FetchData) && ok(CleanData) && ok(PostToElastic)
    ensures Schedule(ok).state == Done ==> Schedule(ok).ran == Chain
    ensures Schedule(ok).state != Done ==>
      Schedule(ok).state.Failed? && Schedule(ok).ran == Chain[..Position(Schedule(ok).state.at) + 1]
    ensures Schedule(ok).state == Failed(FetchData) <==> !ok(FetchData)
    ensures Schedule(ok).state == Failed(CleanData) <==> ok(FetchData) && !ok(CleanData)
    ensures Schedule(ok).state == Failed(PostToElastic) <==> ok(FetchData) && ok(CleanData) && !ok(PostToElastic)
  {
    assert Consistent(Extracting, ok, []);
    DriveConsistent(Extracting, ok, []);
  }

  /** clean_data never runs unless fetch_data succeeded, and post_to_elastic
      never runs unless both earlier tasks succeeded. */
  lemma TasksRunOnlyAfterTheirUpstream(ok: Task -> bool)
    ensures CleanData in Schedule(ok).ran ==> ok(FetchData)
    ensures PostToElastic in Schedule(ok).ran ==> ok(FetchData) && ok(CleanData)
    ensures Schedule(ok).ran[0] == FetchData
  {
    ScheduleOutcome(ok);
  }

  /** The whole run against its surroundings: fetched is the table the query
      returned (None when the database could not be reached or the query
      failed), bulkAccepted says whether the index accepted every document.
      The cleaner fails on a malformed raw table. */
  datatype Outcome = Outcome(state: State, ran: seq<Task>, reported: Option<nat>)

  /** Which tasks succeed when run: cleaning can only succeed on a table
      that was fetched, posting succeeds when the index accepts the batch. */
  function TaskSucceeds(fetched: Option<Table>, bulkAccepted: bool): (ok: Task -> bool)
    ensures ok(FetchData) <==> fetched.Some?
    ensures ok(CleanData) ==> ok(FetchData)
    ensures ok(PostToElastic) == bulkAccepted
  {
    (t: Task) => match t
      case FetchData => fetched.Some?
      case CleanData => fetched.Some? && WellFormed(fetched.value)
      case PostToElastic => bulkAccepted
  }

  function RunPipeline(fetched: Option<Table>, bulkAccepted: bool): (o: Outcome)
    ensures o.reported.Some? <==> o.state == Done
    ensures o.state == Done <==> fetched.Some? && WellFormed(fetched.value) && bulkAccepted
  {
    ScheduleOutcome(TaskSucceeds(fetched, bulkAccepted));
    var run := Schedule(TaskSucceeds(fetched, bulkAccepted));
    if run.state == Done && fetched.Some? && WellFormed(fetched.value)
    then Outcome(run.state, run.ran, Some(L.ReportedCount(C.Clean(fetched.value))))
    else Outcome(run.state, run.ran, None)
  }

  /** A count is reported only by a run that is done, and it is the number of
      distinct rows the database returned. */
  lemma ReportedCountIsDistinctRows(fetched: Option<Table>, bulkAccepted: bool)
    ensures RunPipeline(fetched, bulkAccepted).reported.Some? ==>
      RunPipeline(fetched, bulkAccepted).state == Done &&
      fetched.Some? && WellFormed(fetched.value) &&
      RunPipeline(fetched, bulkAccepted).reported.value == |Duplicates.Dedup(fetched.value.rows)|
    ensures RunPipeline(fetched, bulkAccepted).state == Done ==>
      RunPipeline(fetched, bulkAccepted).reported.Some?
  {
    var ok := TaskSucceeds(fetched, bulkAccepted);
    ScheduleOutcome(ok);
    if fetched.Some? && WellFormed(fetched.value) {
      C.CleanShape(fetched.value);
      L.ActionsOnePerRow(C.Clean(fetched.value));
    }
  }

  /** An index that rejects the batch fails the run at post_to_elastic, after
      the two other tasks ran, and no count is reported. */
  lemma BulkRejectionFailsRun(raw: Table)
    requires WellFormed(raw)
    ensures RunPipeline(Some(raw), false).state == Failed(PostToElastic)
    ensures RunPipeline(Some(raw), false).ran == Chain
    ensures RunPipeline(Some(raw), false).reported == None
  {
    ScheduleOutcome(TaskSucceeds(Some(raw), false));
  }

  /** An unreachable database fails the run at fetch_data: neither the
      cleaner nor the loader runs. */
  lemma SourceFailureStopsChain(bulkAccepted: bool)
    ensures RunPipeline(None, bulkAccepted).state == Failed(FetchData)
    ensures RunPipeline(None, bulkAccepted).ran == [FetchData]
    ensures RunPipeline(None, bulkAccepted).reported == None
  {
    ScheduleOutcome(TaskSucceeds(None, bulkAccepted));
  }
}
