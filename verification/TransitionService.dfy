/**
 The calls of the transition service, and of the writers beside it, as one caller sees them. Each is
 proved to be a run of the protocol, so what the protocol keeps in every interleaving holds of the
 tables between any calls.
 */
module TransitionServices {
  import opened Options
  import opened Runs
  import opened Lifecycles
  import opened EventLog
  import opened Transitions
  import P = TransitionProtocol

  function CallSteps(run: P.State, r: Request): P.State {
    P.Next(P.Next(P.Next(run, P.Check(0, r)), P.Read(0)), P.Commit(0))
  }

  function MovedRows(rows: map<Id, Row>, r: Request): map<Id, Row>
    requires r.id in rows
  {
    rows[r.id := Row(r.kind, r.to, rows[r.id].version + 1)]
  }

  function EventOf(rows: map<Id, Row>, r: Request): Event
    requires r.id in rows
  {
    MoveEvent(r, rows[r.id].lifecycle, rows[r.id].version)
  }

  /** What a whole call leaves. */
  function AfterCall(run: P.State, r: Request): P.State {
    if r.key !in run.keys && Succeeds(run.rows, run.log, r)
    then run.(rows := MovedRows(run.rows, r), log := run.log + [EventOf(run.rows, r)], keys := run.keys + {r.key})
    else run
  }

  lemma {:induction false} CallHasEffect(run: P.State, r: Request)
    requires run.calls == map[]
    ensures CallSteps(run, r) == AfterCall(run, r)
  {
    var checked := P.Next(run, P.Check(0, r));
    var read := P.Next(checked, P.Read(0));
    if r.key !in run.keys && PassesValidation(r) {
      assert checked == run.(calls := map[0 := P.Call(r, |run.log|, P.Checked)]);
      ReadHasEffect(run, checked, r);
    } else {
      assert checked == run && read == run;
    }
  }

  lemma {:induction false} ReadHasEffect(run: P.State, checked: P.State, r: Request)
    requires run.calls == map[] && PassesValidation(r)
    requires checked == run.(calls := map[0 := P.Call(r, |run.log|, P.Checked)])
    ensures var after := P.Next(P.Next(checked, P.Read(0)), P.Commit(0));
      if Succeeds(run.rows, run.log, r)
      then after == run.(rows := MovedRows(run.rows, r), log := run.log + [EventOf(run.rows, r)], keys := run.keys + {r.key})
      else after == run
  {
    match ReadRow(run.rows, r)
    case Refused(_) =>
      assert P.Next(checked, P.Read(0)) == run;
    case Fetched(l, v) =>
      assert P.Next(checked, P.Read(0)) == run.(calls := map[0 := P.Call(r, |run.log|, P.HasRead(l, v))]);
      CommitHasEffect(run, r, l, v);
  }

  lemma {:induction false} CommitHasEffect(run: P.State, r: Request, l: Lifecycle, v: int)
    requires run.calls == map[]
    ensures P.Next(run.(calls := map[0 := P.Call(r, |run.log|, P.HasRead(l, v))]), P.Commit(0)) ==
      if Commits(run.rows, run.log, r, l, v)
      then run.(rows := run.rows[r.id := Row(r.kind, r.to, v + 1)], log := run.log + [MoveEvent(r, l, v)], keys := run.keys + {r.key})
      else run
  {
  }

  lemma {:induction false} CallIsRun(run: P.State, r: Request)
    requires P.Reachable(run)
    ensures P.Reachable(CallSteps(run, r))
  {
    ReachesNext(P.Next, P.Initial(), run, P.Check(0, r));
    ReachesNext(P.Next, P.Initial(), P.Next(run, P.Check(0, r)), P.Read(0));
    ReachesNext(P.Next, P.Initial(), P.Next(P.Next(run, P.Check(0, r)), P.Read(0)), P.Commit(0));
  }

  // ----- calls along a path -----

  /** The calls, one after the other, none interleaved. */
  function CallAll(run: P.State, requests: seq<Request>): P.State
    decreases requests
  {
    if requests == [] then run else CallAll(AfterCall(run, requests[0]), requests[1..])
  }

  /** Each call returns Ok, and does so because it moves the row. */
  ghost predicate AllMove(run: P.State, requests: seq<Request>)
    decreases requests
  {
    requests != [] ==>
      && requests[0].key !in run.keys && Succeeds(run.rows, run.log, requests[0])
      && AllMove(AfterCall(run, requests[0]), requests[1..])
  }

  predicate IsPath(kind: Kind, path: seq<Lifecycle>) {
    path != [] && forall i :: 0 <= i < |path| - 1 ==> Legal(kind, path[i], path[i + 1])
  }

  function Along(kind: Kind, id: Id, path: seq<Lifecycle>, keys: seq<string>): seq<Request>
    requires |path| == |keys| + 1
  {
    if keys == [] then [] else [Request(kind, id, path[0], path[1], keys[0])] + Along(kind, id, path[1..], keys[1..])
  }

  /** The keys are new and distinct, and no event lies above the row's version on its stream. */
  ghost predicate IsFree(run: P.State, id: Id, keys: seq<string>) {
    && id in run.rows
    && (forall i :: 0 <= i < |keys| ==> keys[i] !in run.keys)
    && (forall i, j :: 0 <= i < j < |keys| ==> keys[i] != keys[j])
    && (forall i :: 0 <= i < |run.log| ==> run.log[i].key !in keys)
    && (forall i :: 0 <= i < |run.log| && run.log[i].stream == id ==> run.log[i].version <= run.rows[id].version)
  }

  /** From where the row stands, the calls along any path of legal moves all succeed, and leave it at the end of the path. */
  lemma {:induction false} PathSucceeds(run: P.State, kind: Kind, id: Id, path: seq<Lifecycle>, keys: seq<string>)
    requires run.calls == map[] && |path| == |keys| + 1 && IsPath(kind, path) && IsFree(run, id, keys)
    requires run.rows[id].kind == kind && run.rows[id].lifecycle == path[0]
    ensures AllMove(run, Along(kind, id, path, keys))
    ensures CallAll(run, Along(kind, id, path, keys)).rows ==
      run.rows[id := Row(kind, path[|path| - 1], run.rows[id].version + |keys|)]
    decreases keys
  {
    if keys != [] {
      var requests := Along(kind, id, path, keys);
      assert requests[1..] == Along(kind, id, path[1..], keys[1..]);
      assert Legal(kind, path[0], path[0 + 1]);
      StepAlong(run, requests[0], keys);
      PathSucceeds(AfterCall(run, requests[0]), kind, id, path[1..], keys[1..]);
    } else {
      assert run.rows == run.rows[id := Row(kind, path[0], run.rows[id].version + 0)];
    }
  }

  lemma {:induction false} StepAlong(run: P.State, r: Request, keys: seq<string>)
    requires run.calls == map[] && keys != [] && r.key == keys[0] && IsFree(run, r.id, keys)
    requires run.rows[r.id].kind == r.kind && run.rows[r.id].lifecycle == r.from && Legal(r.kind, r.from, r.to)
    ensures Succeeds(run.rows, run.log, r)
    ensures var after := AfterCall(run, r);
      && after.calls == map[] && after.rows == MovedRows(run.rows, r) && IsFree(after, r.id, keys[1..])
  {
    assert keys[0] in keys;
    var after := AfterCall(run, r);
    forall i | 0 <= i < |after.log| ensures after.log[i].key !in keys[1..] {
      assert i < |run.log| ==> after.log[i] == run.log[i];
    }
  }

  const TASK_PATH := [OfTask(TaskLifecycle.Pending), OfTask(Ready), OfTask(Dispatched), OfTask(TaskLifecycle.Running),
                      OfTask(Submitted), OfTask(Verified), OfTask(TaskLifecycle.Done)]

  const RETRY_PATH := [OfTask(TaskLifecycle.Running), OfTask(RetryPending), OfTask(Dispatched), OfTask(TaskLifecycle.Running)]

  const PROJECT_PATH := [OfProject(ProjectLifecycle.Created), OfProject(Clarifying), OfProject(GoalLocked), OfProject(Planning),
                         OfProject(AwaitingApproval), OfProject(Active), OfProject(Integrating), OfProject(Verifying),
                         OfProject(Delivering), OfProject(ProjectLifecycle.Done)]

  const EXECUTION_PATH := [OfExecution(ExecutionLifecycle.Created), P.RUNNING, P.COMPLETED]

  /** These are the ways to the good end of a task, a project and an execution, and of a running task to its next attempt. */
  lemma {:induction false} TaskPathIsLegal()
    ensures IsPath(Task, TASK_PATH) && IsPath(Task, RETRY_PATH)
  {
  }

  lemma {:induction false} ProjectPathIsLegal()
    ensures IsPath(Project, PROJECT_PATH)
  {
  }

  lemma {:induction false} ExecutionPathIsLegal()
    ensures IsPath(Execution, EXECUTION_PATH)
  {
  }

  /** So a task that is pending becomes done by six calls that each return Ok. */
  lemma {:induction false} TaskCanBeDone(run: P.State, id: Id, keys: seq<string>)
    requires run.calls == map[] && |keys| == 6 && IsFree(run, id, keys)
    requires run.rows[id].kind.Task? && run.rows[id].lifecycle == OfTask(TaskLifecycle.Pending)
    ensures AllMove(run, Along(Task, id, TASK_PATH, keys))
    ensures CallAll(run, Along(Task, id, TASK_PATH, keys)).rows ==
      run.rows[id := Row(Task, OfTask(TaskLifecycle.Done), run.rows[id].version + 6)]
  {
    TaskPathIsLegal();
    PathSucceeds(run, Task, id, TASK_PATH, keys);
  }

  /** A project that is created becomes done by nine. */
  lemma {:induction false} ProjectCanBeDone(run: P.State, id: Id, keys: seq<string>)
    requires run.calls == map[] && |keys| == 9 && IsFree(run, id, keys)
    requires run.rows[id].kind.Project? && run.rows[id].lifecycle == OfProject(ProjectLifecycle.Created)
    ensures AllMove(run, Along(Project, id, PROJECT_PATH, keys))
    ensures CallAll(run, Along(Project, id, PROJECT_PATH, keys)).rows ==
      run.rows[id := Row(Project, OfProject(ProjectLifecycle.Done), run.rows[id].version + 9)]
  {
    ProjectPathIsLegal();
    PathSucceeds(run, Project, id, PROJECT_PATH, keys);
  }

  /** An execution that is created runs and completes by two. */
  lemma {:induction false} ExecutionCanComplete(run: P.State, id: Id, keys: seq<string>)
    requires run.calls == map[] && |keys| == 2 && IsFree(run, id, keys)
    requires run.rows[id].kind.Execution? && run.rows[id].lifecycle == OfExecution(ExecutionLifecycle.Created)
    ensures AllMove(run, Along(Execution, id, EXECUTION_PATH, keys))
    ensures CallAll(run, Along(Execution, id, EXECUTION_PATH, keys)).rows ==
      run.rows[id := Row(Execution, P.COMPLETED, run.rows[id].version + 2)]
  {
    ExecutionPathIsLegal();
    PathSucceeds(run, Execution, id, EXECUTION_PATH, keys);
  }

  const FAILED := OfExecution(ExecutionLifecycle.Failed)
  const CANCELLED := OfExecution(ExecutionLifecycle.Cancelled)

  /** Which error a call returns that is not interleaved with others; it never meets a version conflict. */
  ghost predicate IsRefusal(rows: map<Id, Row>, log: seq<Event>, r: Request, o: Outcome) {
    var found := Exists(rows, r.kind, r.id);
    var isExecution := r.kind.Execution?;
    && (o == Err(IllegalMove) <==>
          if isExecution
          then found && !IsTerminal(Execution, rows[r.id].lifecycle) && !Legal(Execution, rows[r.id].lifecycle, r.to)
          else !Legal(r.kind, r.from, r.to))
    && (o == Err(NotFound) <==> !found && (isExecution || Legal(r.kind, r.from, r.to)))
    && (o == Err(EntityTerminal) <==> isExecution && found && IsTerminal(Execution, rows[r.id].lifecycle))
    && (o == Err(UnexpectedLifecycle) <==>
          !isExecution && found && Legal(r.kind, r.from, r.to) && rows[r.id].lifecycle != r.from)
    && (o == Err(NotUnique) <==>
          && found && Legal(r.kind, rows[r.id].lifecycle, r.to) && (isExecution || rows[r.id].lifecycle == r.from)
          && !Admits(log, EventOf(rows, r)))
    && o != Err(VersionConflict)
  }

  class TransitionService {
    var rows: map<Id, Row>
    var log: seq<Event>
    var keys: set<string>
    ghost var run: P.State

    /** The tables are what a run of the protocol has left, with no call in flight. */
    ghost predicate Valid()
      reads this
    {
      P.Reachable(run) && run.rows == rows && run.log == log && run.keys == keys && run.calls == map[]
    }

    constructor ()
      ensures Valid() && rows == map[] && log == [] && keys == {}
    {
      rows, log, keys, run := map[], [], {}, P.Initial();
      new;
      assert P.Initial() == Run(P.Next, P.Initial(), []);
    }

    /**
     What the protocol gives for the tables between any calls: each stream holds legal moves of rising
     versions, and its last one ends where the row stands, except for an execution that was marked.
     */
    lemma TablesAreSound(id: Id)
      requires Valid() && id in rows
      ensures P.LegalMoves(rows[id].kind, Moves(log, id)) && Increasing(Moves(log, id))
      ensures var moves := Moves(log, id);
        moves != [] ==> rows[id].lifecycle == moves[|moves| - 1].body.to || P.EndedExecution(rows[id])
      ensures forall i, j :: 0 <= i < j < |log| ==> log[i].key != log[j].key
    {
      P.LogRefinesState(run, id);
      P.OneEventPerKey(run);
    }

    ghost predicate HasRun()
      reads this
    {
      P.Reachable(run) && run.calls == map[]
    }

    /** The call is the step `a`, and nothing else. */
    ghost method Step(a: P.Action)
      requires HasRun() && rows == P.Next(run, a).rows && log == run.log && keys == run.keys
      requires a.Create? || a.Bump? || a.Mark?
      modifies this`run
      ensures Valid() && run == P.Next(old(run), a)
    {
      ReachesNext(P.Next, P.Initial(), run, a);
      run := P.Next(run, a);
    }

    method Create(id: Id, kind: Kind, lifecycle: Lifecycle) returns (ok: bool)
      requires Valid()
      modifies this`rows, this`run
      ensures Valid() && run == P.Next(old(run), P.Create(id, Row(kind, lifecycle, 1)))
      ensures ok <==> id !in old(rows)
      ensures rows == if ok then old(rows)[id := Row(kind, lifecycle, 1)] else old(rows)
    {
      ok := id !in rows;
      if ok { rows := rows[id := Row(kind, lifecycle, 1)]; }
      Step(P.Create(id, Row(kind, lifecycle, 1)));
    }

    /** The transaction, for a lifecycle and a version read earlier. */
    method CommitTx(r: Request, seen: Lifecycle, version: int) returns (o: Outcome)
      modifies this`rows, this`log, this`keys
      ensures o.Ok? <==> Commits(old(rows), old(log), r, seen, version)
      ensures o.Ok? ==>
        && rows == old(rows)[r.id := Row(r.kind, r.to, version + 1)]
        && log == old(log) + [MoveEvent(r, seen, version)]
        && keys == old(keys) + {r.key}
      ensures !o.Ok? ==> rows == old(rows) && log == old(log) && keys == old(keys)
      ensures var matched, actual := CasMatches(old(rows), r, seen, version), ActualLifecycle(old(rows), r);
        && (o == Err(UnexpectedLifecycle) <==> !matched && actual != seen)
        && (o == Err(VersionConflict) <==> !matched && actual == seen)
        && (o == Err(NotUnique) <==> matched && !Admits(old(log), MoveEvent(r, seen, version)))
    {
      if !CasMatches(rows, r, seen, version) {
        if ActualLifecycle(rows, r) != seen { return Err(UnexpectedLifecycle); }
        return Err(VersionConflict);
      }
      var e := MoveEvent(r, seen, version);
      if !Admits(log, e) { return Err(NotUnique); }
      rows := rows[r.id := Row(r.kind, r.to, rows[r.id].version + 1)];
      log := log + [e];
      keys := keys + {r.key};
      o := Ok;
    }

    /** `transition_project`, `transition_task` and `transition_execution`, not interleaved with other calls. */
    method Transition(r: Request) returns (o: Outcome)
      requires Valid()
      modifies this
      ensures Valid() && run == CallSteps(old(run), r) == AfterCall(old(run), r)
      ensures o.Ok? <==> r.key in old(keys) || Succeeds(old(rows), old(log), r)
      ensures o.Ok? && r.key !in old(keys) ==>
        && rows == old(rows)[r.id := Row(r.kind, r.to, old(rows)[r.id].version + 1)]
        && log == old(log) + [Event(r.id, old(rows)[r.id].version + 1, Moved(r.kind, old(rows)[r.id].lifecycle, r.to), r.key)]
        && keys == old(keys) + {r.key}
      ensures !o.Ok? || r.key in old(keys) ==> rows == old(rows) && log == old(log) && keys == old(keys)
      ensures r.key !in old(keys) ==> IsRefusal(old(rows), old(log), r, o)
    {
      CallIsRun(run, r);
      CallHasEffect(run, r);
      ghost var after := CallSteps(run, r);
      if r.key in keys { run := after; return Ok; }
      if !PassesValidation(r) { run := after; return Err(IllegalMove); }
      match ReadRow(rows, r) {
        case Refused(e) => run := after; return Err(e);
        case Fetched(lifecycle, version) =>
          o := CommitTx(r, lifecycle, version);
          run := after;
      }
    }

    /** `set_current_execution` and the update of `increment_retry_count`: the version moves, the lifecycle stays. */
    method BumpTask(id: Id, version: int) returns (ok: bool)
      requires Valid()
      modifies this`rows, this`run
      ensures Valid() && run == P.Next(old(run), P.Bump(id, version))
      ensures ok <==> Exists(old(rows), Task, id) && old(rows)[id].version == version
      ensures rows == if ok then old(rows)[id := old(rows)[id].(version := version + 1)] else old(rows)
    {
      ok := Exists(rows, Task, id) && rows[id].version == version;
      if ok { rows := rows[id := rows[id].(version := version + 1)]; }
      Step(P.Bump(id, version));
    }

    // ----- the writers that end an execution behind the log's back -----

    /** The scheduler's reconciler. */
    method MarkLost(id: Id)
      requires Valid()
      modifies this`rows, this`run
      ensures Valid() && (run == old(run) || run == P.Next(old(run), P.Mark(id, P.LOST)))
      ensures rows == if Exists(old(rows), Execution, id) && old(rows)[id].lifecycle == P.RUNNING
                      then old(rows)[id := old(rows)[id].(lifecycle := P.LOST)] else old(rows)
    {
      if Exists(rows, Execution, id) && rows[id].lifecycle == P.RUNNING {
        rows := rows[id := rows[id].(lifecycle := P.LOST)];
        Step(P.Mark(id, P.LOST));
      }
    }

    /** The task loop's cancellation: its guard lets a lost execution become a cancelled one. */
    method RequestCancellation(id: Id) returns (ok: bool)
      requires Valid()
      modifies this`rows, this`run
      ensures Valid() && (run == old(run) || run == P.Next(old(run), P.Mark(id, CANCELLED)))
      ensures ok <==> Exists(old(rows), Execution, id) && old(rows)[id].lifecycle !in {P.COMPLETED, FAILED, CANCELLED}
      ensures rows == if ok then old(rows)[id := old(rows)[id].(lifecycle := CANCELLED)] else old(rows)
    {
      ok := Exists(rows, Execution, id) && rows[id].lifecycle !in {P.COMPLETED, FAILED, CANCELLED};
      if ok {
        rows := rows[id := rows[id].(lifecycle := CANCELLED)];
        Step(P.Mark(id, CANCELLED));
      }
    }

    /** The scheduler's compensation, without any guard. */
    method MarkFailed(id: Id)
      requires Valid()
      modifies this`rows, this`run
      ensures Valid() && run == P.Next(old(run), P.Mark(id, FAILED))
      ensures rows == if Exists(old(rows), Execution, id)
                      then old(rows)[id := old(rows)[id].(lifecycle := FAILED)] else old(rows)
    {
      if Exists(rows, Execution, id) { rows := rows[id := rows[id].(lifecycle := FAILED)]; }
      Step(P.Mark(id, FAILED));
    }
  }
}
