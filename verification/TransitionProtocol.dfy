/**
 The transition service under free interleaving: any number of calls, each split into its duplicate
 check, its read and its transaction, mixed with row creation, version bumps of tasks, events of
 other writers on any stream, and the marks of the scheduler and the task loop, which end an
 execution behind the log's back: a terminal lifecycle without a version and without an event.
 */
module TransitionProtocol {
  import opened Options
  import opened Runs
  import opened Lifecycles
  import opened EventLog
  import opened Transitions

  datatype Phase = Checked | HasRead(seen: Lifecycle, version: int)

  /** A call in flight. `since` is the length of the log when its duplicate check passed. */
  datatype Call = Call(request: Request, since: nat, phase: Phase)

  /** The tables, the calls in flight, and the rows as they were created. */
  datatype State = State(
    rows: map<Id, Row>, log: seq<Event>, keys: set<string>, calls: map<nat, Call>, origins: map<Id, Row>)

  datatype Action =
    | Create(id: Id, row: Row)
    | Check(call: nat, request: Request)
    | Read(call: nat)
    | Commit(call: nat)
    | Bump(id: Id, version: int)
    | Append(event: Event)
    | RecordKey(key: string)
    | Mark(id: Id, lifecycle: Lifecycle)

  const RUNNING := OfExecution(ExecutionLifecycle.Running)
  const LOST := OfExecution(ExecutionLifecycle.Lost)

  function Initial(): State {
    State(map[], [], {}, map[], map[])
  }

  predicate IsReady(s: State, c: nat) {
    c in s.calls && s.calls[c].phase.HasRead?
  }

  predicate CommitsNow(s: State, c: nat) {
    IsReady(s, c) && Commits(s.rows, s.log, s.calls[c].request, s.calls[c].phase.seen, s.calls[c].phase.version)
  }

  /** One atomic step. An action that is not possible in `s` leaves `s` as it is. */
  function Next(s: State, a: Action): State {
    match a
    case Create(id, row) =>
      if id in s.rows || row.version < 0 then s
      else s.(rows := s.rows[id := row], origins := s.origins[id := row])
    case Check(c, r) =>
      if c in s.calls || r.key in s.keys || !PassesValidation(r) then s
      else s.(calls := s.calls[c := Call(r, |s.log|, Checked)])
    case Read(c) =>
      if c !in s.calls || s.calls[c].phase.HasRead? then s
      else
        (match ReadRow(s.rows, s.calls[c].request)
         case Refused(_) => s.(calls := s.calls - {c})
         case Fetched(l, v) => s.(calls := s.calls[c := s.calls[c].(phase := HasRead(l, v))]))
    case Commit(c) =>
      if !IsReady(s, c) then s
      else if !CommitsNow(s, c) then s.(calls := s.calls - {c})
      else
        var r, seen, v := s.calls[c].request, s.calls[c].phase.seen, s.calls[c].phase.version;
        s.(rows := s.rows[r.id := Row(r.kind, r.to, v + 1)], log := s.log + [MoveEvent(r, seen, v)],
           keys := s.keys + {r.key}, calls := s.calls - {c})
    case Bump(id, v) =>
      if Exists(s.rows, Task, id) && s.rows[id].version == v
      then s.(rows := s.rows[id := s.rows[id].(version := v + 1)]) else s
    case Append(e) =>
      if e.body.Other? && Admits(s.log, e) then s.(log := s.log + [e]) else s
    case RecordKey(key) => s.(keys := s.keys + {key})
    case Mark(id, l) =>
      if Exists(s.rows, Execution, id) && IsTerminal(Execution, l)
      then s.(rows := s.rows[id := s.rows[id].(lifecycle := l)]) else s
  }

  ghost predicate Reachable(s: State) {
    Reaches(Next, Initial(), s)
  }

  // ----- replaying the log -----

  /** Replays moves from a lifecycle; `None` if a move does not start where the one before ended. */
  function Replay(from: Lifecycle, moves: seq<Event>): Option<Lifecycle> {
    if moves == [] then Some(from)
    else
      var before := Replay(from, moves[..|moves| - 1]);
      var e := moves[|moves| - 1];
      if e.body.Moved? && before == Some(e.body.from) then Some(e.body.to) else None
  }

  ghost predicate LegalMoves(kind: Kind, moves: seq<Event>) {
    forall i :: 0 <= i < |moves| ==>
      moves[i].body.Moved? && moves[i].body.kind == kind && Legal(kind, moves[i].body.from, moves[i].body.to)
  }

  /** What a row is that has been ended behind the log's back. */
  predicate EndedExecution(row: Row) {
    row.kind.Execution? && IsTerminal(Execution, row.lifecycle)
  }

  // ----- the invariant -----

  ghost predicate StreamInv(origin: Row, row: Row, moves: seq<Event>) {
    && row.kind == origin.kind
    && LegalMoves(row.kind, moves)
    && Increasing(moves)
    && (forall i :: 0 <= i < |moves| ==> origin.version < moves[i].version <= row.version)
    && 0 <= origin.version <= row.version
    && Replay(origin.lifecycle, moves).Some?
    && (row.lifecycle == Replay(origin.lifecycle, moves).value || EndedExecution(row))
  }

  ghost predicate StreamsInv(s: State) {
    && s.origins.Keys == s.rows.Keys
    && (forall id :: id in s.rows ==> StreamInv(s.origins[id], s.rows[id], Moves(s.log, id)))
    && (forall id :: id !in s.rows ==> Moves(s.log, id) == [])
  }

  /** The version a call read fixes the lifecycle the log had then. */
  ghost predicate CallInv(origin: Row, row: Row, moves: seq<Event>, call: Call) {
    call.phase.HasRead? ==>
      && row.kind == call.request.kind
      && (!row.kind.Execution? ==> call.phase.seen == call.request.from)
      && call.phase.version <= row.version
      && (call.phase.version == row.version ==> Replay(origin.lifecycle, moves) == Some(call.phase.seen))
  }

  /** A call past its checks asks for a legal move. */
  ghost predicate AsksLegalMove(call: Call) {
    && PassesValidation(call.request)
    && (call.phase.HasRead? ==> Legal(call.request.kind, call.phase.seen, call.request.to))
  }

  ghost predicate CallsInv(s: State) {
    && (forall c :: c in s.calls ==> AsksLegalMove(s.calls[c]))
    && (forall c :: c in s.calls && s.calls[c].phase.HasRead? ==>
          var id := s.calls[c].request.id;
          id in s.rows && id in s.origins && CallInv(s.origins[id], s.rows[id], Moves(s.log, id), s.calls[c]))
  }

  ghost predicate KeysInv(s: State) {
    && Unique(s.log)
    && (forall i :: 0 <= i < |s.log| && s.log[i].body.Moved? ==> s.log[i].key in s.keys)
    && (forall c :: c in s.calls ==> s.calls[c].since <= |s.log|)
    && (forall c, i :: c in s.calls && 0 <= i < s.calls[c].since && i < |s.log| && s.log[i].body.Moved? ==>
          s.log[i].key != s.calls[c].request.key)
  }

  ghost predicate Inv(s: State) {
    StreamsInv(s) && CallsInv(s) && KeysInv(s)
  }

  lemma {:induction false} NextKeepsKeys(s: State, a: Action)
    requires KeysInv(s)
    ensures KeysInv(Next(s, a))
  {
    if a.Commit? && CommitsNow(s, a.call) {
      var call := s.calls[a.call];
      AdmittedIsUnique(s.log, MoveEvent(call.request, call.phase.seen, call.phase.version));
    } else if a.Append? && a.event.body.Other? && Admits(s.log, a.event) {
      AdmittedIsUnique(s.log, a.event);
    }
  }

  lemma {:induction false} AdmittedIsUnique(log: seq<Event>, e: Event)
    requires Unique(log) && Admits(log, e)
    ensures Unique(log + [e])
  {
  }

  lemma {:induction false} ReplayExtends(from: Lifecycle, moves: seq<Event>, e: Event)
    ensures Replay(from, moves + [e]) ==
      if e.body.Moved? && Replay(from, moves) == Some(e.body.from) then Some(e.body.to) else None
  {
    assert (moves + [e])[..|moves|] == moves;
  }

  function CommittedEvent(s: State, c: nat): Event
    requires IsReady(s, c)
  {
    MoveEvent(s.calls[c].request, s.calls[c].phase.seen, s.calls[c].phase.version)
  }

  predicate CommitsOn(s: State, a: Action, id: Id) {
    a.Commit? && CommitsNow(s, a.call) && s.calls[a.call].request.id == id
  }

  /** What a step does to the moves of a stream. */
  ghost predicate MovesStep(s: State, a: Action, s': State, id: Id) {
    Moves(s'.log, id) == Moves(s.log, id) + if CommitsOn(s, a, id) then [CommittedEvent(s, a.call)] else []
  }

  predicate Marks(a: Action, id: Id) {
    a.Mark? && a.id == id
  }

  /** The four things a step can do to an existing row. */
  ghost predicate RowStep(s: State, a: Action, s': State, id: Id)
    requires id in s.rows
  {
    && id in s'.rows
    && (id in s.origins ==> id in s'.origins && s'.origins[id] == s.origins[id])
    && var row, row' := s.rows[id], s'.rows[id];
      if CommitsOn(s, a, id) then
        && row.kind == s.calls[a.call].request.kind && row.version == s.calls[a.call].phase.version
        && row' == Row(row.kind, s.calls[a.call].request.to, row.version + 1)
        && (row.kind.Execution? || row.lifecycle == s.calls[a.call].phase.seen)
      else
        || row' == row
        || (row.kind.Task? && row' == row.(version := row.version + 1))
        || (Marks(a, id) && EndedExecution(row') && row.kind.Execution? && row' == row.(lifecycle := row'.lifecycle))
  }

  /** Where a call in flight after a step came from. */
  ghost predicate CallStep(s: State, s': State, c: nat)
    requires c in s'.calls
  {
    var call := s'.calls[c];
    || (c in s.calls && s.calls[c] == call)
    || (call.phase.Checked? && PassesValidation(call.request))
    || (c in s.calls && call.request == s.calls[c].request && call.phase.HasRead? && s'.rows == s.rows
        && s'.log == s.log && s'.origins == s.origins
        && ReadRow(s.rows, call.request) == Fetched(call.phase.seen, call.phase.version))
  }

  ghost predicate Stepped(s: State, a: Action, s': State) {
    && (s.origins.Keys == s.rows.Keys ==> s'.origins.Keys == s'.rows.Keys)
    && (forall id :: MovesStep(s, a, s', id))
    && (forall id :: id in s.rows ==> RowStep(s, a, s', id))
    && (forall id :: id in s'.rows && id !in s.rows ==>
          id in s'.origins && s'.origins[id] == s'.rows[id] && s'.rows[id].version >= 0 && !CommitsOn(s, a, id))
    && (forall c :: c in s'.calls ==> CallStep(s, s', c))
  }

  lemma {:induction false} NextMoves(s: State, a: Action, id: Id)
    ensures MovesStep(s, a, Next(s, a), id)
  {
    if a.Commit? && CommitsNow(s, a.call) {
      AppendOne(s.log, CommittedEvent(s, a.call), id);
    } else if a.Append? {
      AppendOne(s.log, a.event, id);
    }
  }

  lemma {:induction false} NextCall(s: State, a: Action, c: nat)
    requires c in Next(s, a).calls
    ensures CallStep(s, Next(s, a), c)
  {
  }

  lemma {:induction false} NextRow(s: State, a: Action, id: Id)
    requires id in s.rows
    ensures RowStep(s, a, Next(s, a), id)
  {
  }

  lemma {:induction false} NextNewRow(s: State, a: Action, id: Id)
    requires id !in s.rows && id in Next(s, a).rows
    ensures id in Next(s, a).origins && Next(s, a).origins[id] == Next(s, a).rows[id]
    ensures Next(s, a).rows[id].version >= 0 && !CommitsOn(s, a, id)
  {
  }

  lemma {:induction false} NextKeys(s: State, a: Action)
    requires s.origins.Keys == s.rows.Keys
    ensures Next(s, a).origins.Keys == Next(s, a).rows.Keys
  {
  }

  lemma {:induction false} NextIsStep(s: State, a: Action)
    ensures Stepped(s, a, Next(s, a))
  {
    var s' := Next(s, a);
    if s.origins.Keys == s.rows.Keys { NextKeys(s, a); }
    forall id ensures MovesStep(s, a, s', id) { NextMoves(s, a, id); }
    forall id | id in s.rows ensures RowStep(s, a, s', id) { NextRow(s, a, id); }
    forall id | id in s'.rows && id !in s.rows
      ensures id in s'.origins && s'.origins[id] == s'.rows[id] && s'.rows[id].version >= 0 && !CommitsOn(s, a, id)
    {
      NextNewRow(s, a, id);
    }
    forall c | c in s'.calls ensures CallStep(s, s', c) { NextCall(s, a, c); }
  }

  lemma {:induction false} MovesExtend(kind: Kind, moves: seq<Event>, e: Event, floor: int)
    requires LegalMoves(kind, moves) && Increasing(moves)
    requires forall i :: 0 <= i < |moves| ==> floor < moves[i].version < e.version
    requires floor < e.version && e.body.Moved? && e.body.kind == kind && Legal(kind, e.body.from, e.body.to)
    ensures LegalMoves(kind, moves + [e]) && Increasing(moves + [e])
    ensures forall i :: 0 <= i <= |moves| ==> floor < (moves + [e])[i].version <= e.version
  {
  }

  lemma {:induction false} CommitKeepsStream(origin: Row, row: Row, moves: seq<Event>, call: Call)
    requires StreamInv(origin, row, moves) && CallInv(origin, row, moves, call) && AsksLegalMove(call)
    requires call.phase.HasRead? && call.phase.version == row.version
    ensures StreamInv(origin, Row(row.kind, call.request.to, row.version + 1),
                      moves + [MoveEvent(call.request, call.phase.seen, call.phase.version)])
  {
    var e := MoveEvent(call.request, call.phase.seen, call.phase.version);
    ReplayExtends(origin.lifecycle, moves, e);
    MovesExtend(row.kind, moves, e, origin.version);
  }

  lemma {:induction false} PlainStepKeepsStream(origin: Row, row: Row, row': Row, moves: seq<Event>)
    requires StreamInv(origin, row, moves)
    requires
      || row' == row
      || (row.kind.Task? && row' == row.(version := row.version + 1))
      || (EndedExecution(row') && row.kind.Execution? && row' == row.(lifecycle := row'.lifecycle))
    ensures StreamInv(origin, row', moves)
  {
  }

  lemma {:induction false} StepKeepsStream(s: State, a: Action, s': State, id: Id)
    requires StreamsInv(s) && CallsInv(s) && id in s.rows
    requires RowStep(s, a, s', id) && MovesStep(s, a, s', id)
    ensures id in s'.rows && id in s'.origins && StreamInv(s'.origins[id], s'.rows[id], Moves(s'.log, id))
  {
    assert StreamInv(s.origins[id], s.rows[id], Moves(s.log, id));
    if CommitsOn(s, a, id) {
      CommitKeepsStream(s.origins[id], s.rows[id], Moves(s.log, id), s.calls[a.call]);
    } else {
      assert Moves(s'.log, id) == Moves(s.log, id);
      PlainStepKeepsStream(s.origins[id], s.rows[id], s'.rows[id], Moves(s.log, id));
    }
  }

  lemma {:induction false} StepKeepsStreams(s: State, a: Action, s': State)
    requires StreamsInv(s) && CallsInv(s) && Stepped(s, a, s')
    ensures StreamsInv(s')
  {
    forall id | id in s'.rows ensures id in s'.origins && StreamInv(s'.origins[id], s'.rows[id], Moves(s'.log, id)) {
      assert MovesStep(s, a, s', id);
      if id in s.rows { StepKeepsStream(s, a, s', id); }
    }
    forall id | id !in s'.rows ensures Moves(s'.log, id) == [] {
      assert MovesStep(s, a, s', id);
    }
  }

  lemma {:induction false} ReadStartsCall(origin: Row, row: Row, moves: seq<Event>, rows: map<Id, Row>, call: Call)
    requires StreamInv(origin, row, moves) && PassesValidation(call.request) && call.phase.HasRead?
    requires call.request.id in rows && rows[call.request.id] == row
    requires ReadRow(rows, call.request) == Fetched(call.phase.seen, call.phase.version)
    ensures AsksLegalMove(call) && CallInv(origin, row, moves, call)
  {
  }

  lemma {:induction false} CallOutlivesStep(s: State, a: Action, s': State, id: Id, call: Call)
    requires id in s.rows && id in s.origins && CallInv(s.origins[id], s.rows[id], Moves(s.log, id), call)
    requires RowStep(s, a, s', id) && MovesStep(s, a, s', id)
    ensures CallInv(s'.origins[id], s'.rows[id], Moves(s'.log, id), call)
  {
    if s'.rows[id].version == s.rows[id].version {
      assert Moves(s'.log, id) == Moves(s.log, id);
    }
  }

  lemma {:induction false} StepKeepsCall(s: State, a: Action, s': State, c: nat)
    requires StreamsInv(s) && CallsInv(s) && c in s'.calls && CallStep(s, s', c)
    requires var id := s'.calls[c].request.id; MovesStep(s, a, s', id) && (id in s.rows ==> RowStep(s, a, s', id))
    ensures AsksLegalMove(s'.calls[c])
    ensures s'.calls[c].phase.HasRead? ==>
      var id := s'.calls[c].request.id;
      id in s'.rows && id in s'.origins && CallInv(s'.origins[id], s'.rows[id], Moves(s'.log, id), s'.calls[c])
  {
    var id := s'.calls[c].request.id;
    if c in s.calls && s.calls[c] == s'.calls[c] {
      if s.calls[c].phase.HasRead? { CallOutlivesStep(s, a, s', id, s.calls[c]); }
    } else if s'.calls[c].phase.HasRead? {
      ReadStartsCall(s.origins[id], s.rows[id], Moves(s.log, id), s.rows, s'.calls[c]);
    }
  }

  lemma {:induction false} StepKeepsCalls(s: State, a: Action, s': State)
    requires StreamsInv(s) && CallsInv(s) && Stepped(s, a, s')
    ensures CallsInv(s')
  {
    forall c | c in s'.calls
      ensures AsksLegalMove(s'.calls[c])
      ensures s'.calls[c].phase.HasRead? ==>
        var id := s'.calls[c].request.id;
        id in s'.rows && id in s'.origins && CallInv(s'.origins[id], s'.rows[id], Moves(s'.log, id), s'.calls[c])
    {
      assert CallStep(s, s', c) && MovesStep(s, a, s', s'.calls[c].request.id);
      StepKeepsCall(s, a, s', c);
    }
  }

  lemma {:induction false} NextKeepsInv(s: State, a: Action)
    requires Inv(s)
    ensures Inv(Next(s, a))
  {
    NextKeepsKeys(s, a);
    NextIsStep(s, a);
    StepKeepsStreams(s, a, Next(s, a));
    StepKeepsCalls(s, a, Next(s, a));
  }

  lemma {:induction false} RunKeepsInv(s: State, actions: seq<Action>)
    requires Inv(s)
    ensures Inv(Run(Next, s, actions))
  {
    forall t, a | Inv(t) ensures Inv(Next(t, a)) { NextKeepsInv(t, a); }
    RunKeeps(Next, Inv, s, actions);
  }

  lemma {:induction false} ReachableInv(s: State)
    requires Reachable(s)
    ensures Inv(s)
  {
    var actions :| s == Run(Next, Initial(), actions);
    RunKeepsInv(Initial(), actions);
  }

  // ----- the log refines the state -----

  /**
   In every interleaving the moves of a stream are legal, rise in version up to the row's, replay
   from the row's first lifecycle, and end where the row stands, but for executions that were marked
   as ended.
   */
  lemma {:induction false} LogRefinesState(s: State, id: Id)
    requires Reachable(s) && id in s.rows
    ensures id in s.origins
    ensures var moves, origin, row := Moves(s.log, id), s.origins[id], s.rows[id];
      && LegalMoves(row.kind, moves) && Increasing(moves)
      && (forall i :: 0 <= i < |moves| ==> origin.version < moves[i].version <= row.version)
      && Replay(origin.lifecycle, moves).Some?
      && (row.lifecycle == Replay(origin.lifecycle, moves).value || EndedExecution(row))
  {
    ReachableInv(s);
    assert StreamInv(s.origins[id], s.rows[id], Moves(s.log, id));
  }

  /** The row stands where the log says. */
  ghost predicate Logged(s: State, id: Id) {
    id in s.rows && id in s.origins && Replay(s.origins[id].lifecycle, Moves(s.log, id)) == Some(s.rows[id].lifecycle)
  }

  lemma {:induction false} StepStaysLogged(s: State, a: Action, s': State, id: Id)
    requires CallsInv(s) && Logged(s, id) && !Marks(a, id)
    requires RowStep(s, a, s', id) && MovesStep(s, a, s', id)
    ensures Logged(s', id)
  {
    if CommitsOn(s, a, id) {
      ReplayExtends(s.origins[id].lifecycle, Moves(s.log, id), CommittedEvent(s, a.call));
    } else {
      assert Moves(s'.log, id) == Moves(s.log, id);
    }
  }

  lemma {:induction false} NewRowIsLogged(s: State, a: Action, id: Id)
    requires StreamsInv(s) && id !in s.rows && id in Next(s, a).rows
    ensures Logged(Next(s, a), id)
  {
    NextNewRow(s, a, id);
    NextMoves(s, a, id);
    assert Moves(s.log, id) == [];
  }

  ghost predicate Unmarked(actions: seq<Action>, id: Id) {
    forall a :: a in actions ==> !Marks(a, id)
  }

  lemma {:induction false} RunStaysLogged(s: State, actions: seq<Action>, id: Id)
    requires Inv(s) && (id in s.rows ==> Logged(s, id)) && Unmarked(actions, id)
    ensures id in Run(Next, s, actions).rows ==> Logged(Run(Next, s, actions), id)
    decreases actions
  {
    if actions != [] {
      var a := actions[0];
      NextKeepsInv(s, a);
      NextMoves(s, a, id);
      if id in s.rows {
        NextRow(s, a, id);
        StepStaysLogged(s, a, Next(s, a), id);
      } else if id in Next(s, a).rows {
        NewRowIsLogged(s, a, id);
      }
      RunStaysLogged(Next(s, a), actions[1..], id);
    }
  }

  /** Unless an execution was marked, replaying its stream gives exactly the row's lifecycle. */
  lemma {:induction false} ReplayGivesTheRow(actions: seq<Action>, id: Id)
    requires Unmarked(actions, id) && id in Run(Next, Initial(), actions).rows
    ensures var s := Run(Next, Initial(), actions);
      id in s.origins && Replay(s.origins[id].lifecycle, Moves(s.log, id)) == Some(s.rows[id].lifecycle)
  {
    RunStaysLogged(Initial(), actions, id);
  }

  // ----- no stage is skipped -----

  /** How far a lifecycle is on the way to its good end. */
  function Stage(l: Lifecycle): nat {
    match l
    case OfTask(t) => TaskStage(t)
    case OfProject(p) => ProjectStage(p)
    case OfExecution(e) => if e.Running? then 1 else if e.Completed? || e.Lost? then 2 else 0
    case Unknown(_) => 0
  }

  lemma {:induction false} StageRisesByOne(kind: Kind, from: Lifecycle, to: Lifecycle)
    requires Legal(kind, from, to)
    ensures Stage(to) <= Stage(from) + 1
  {
  }

  /** Move `k` takes the entity from stage `m - 1` to stage `m`, and no later move falls back below. */
  ghost predicate EntersForGood(moves: seq<Event>, k: nat, m: nat) {
    && k < |moves| && moves[k].body.Moved? && Stage(moves[k].body.from) + 1 == m == Stage(moves[k].body.to)
    && forall j :: k < j < |moves| ==> moves[j].body.Moved? && Stage(moves[j].body.to) >= m
  }

  lemma {:induction false} ChainSkipsNoStage(kind: Kind, from: Lifecycle, moves: seq<Event>, m: nat) returns (k: nat)
    requires LegalMoves(kind, moves) && Replay(from, moves).Some? && Stage(from) < m <= Stage(Replay(from, moves).value)
    ensures EntersForGood(moves, k, m)
    decreases moves
  {
    var front, e := moves[..|moves| - 1], moves[|moves| - 1];
    if Stage(Replay(from, front).value) >= m {
      k := ChainSkipsNoStage(kind, from, front, m);
    } else {
      k := |moves| - 1;
      StageRisesByOne(kind, e.body.from, e.body.to);
    }
  }

  /**
   In every run, whatever stage the log has an entity in, it has entered that and each stage below by a
   move from the stage before, since when it has not fallen back: no task is done without having been
   submitted and verified, no project active without having awaited approval.
   */
  lemma {:induction false} NoStageSkipped(s: State, id: Id, m: nat)
    requires Reachable(s) && id in s.rows && id in s.origins
    requires var logged := Replay(s.origins[id].lifecycle, Moves(s.log, id));
      logged.Some? && Stage(s.origins[id].lifecycle) < m <= Stage(logged.value)
    ensures exists k: nat :: EntersForGood(Moves(s.log, id), k, m)
  {
    LogRefinesState(s, id);
    var k := ChainSkipsNoStage(s.rows[id].kind, s.origins[id].lifecycle, Moves(s.log, id), m);
  }

  const DONE_TASK := OfTask(TaskLifecycle.Done)
  const VERIFIED_TASK := OfTask(TaskLifecycle.Verified)

  ghost predicate HasMove(moves: seq<Event>, from: Lifecycle, to: Lifecycle) {
    exists k :: 0 <= k < |moves| && moves[k].body.Moved? && moves[k].body.from == from && moves[k].body.to == to
  }

  /** The only ways into the last three stages of a task. */
  function WayInto(m: nat): (Lifecycle, Lifecycle) {
    if m == 4 then (OfTask(TaskLifecycle.Running), OfTask(TaskLifecycle.Submitted))
    else if m == 5 then (OfTask(TaskLifecycle.Submitted), VERIFIED_TASK)
    else (VERIFIED_TASK, DONE_TASK)
  }

  lemma {:induction false} HasTaskMove(from: Lifecycle, moves: seq<Event>, m: nat)
    requires LegalMoves(Task, moves) && Replay(from, moves).Some? && 4 <= m <= 6
    requires Stage(from) < m <= Stage(Replay(from, moves).value)
    ensures HasMove(moves, WayInto(m).0, WayInto(m).1)
  {
    var k := ChainSkipsNoStage(Task, from, moves, m);
    TaskMoveEnds(moves[k].body.from, moves[k].body.to);
  }

  lemma {:induction false} TaskMoveEnds(from: Lifecycle, to: Lifecycle)
    requires Legal(Task, from, to) && 4 <= Stage(to) <= 6
    ensures (from, to) == WayInto(Stage(to))
  {
  }

  lemma {:induction false} ReplayToDone(moves: seq<Event>)
    requires LegalMoves(Task, moves) && Replay(OfTask(TaskLifecycle.Pending), moves) == Some(DONE_TASK)
    ensures HasMove(moves, OfTask(TaskLifecycle.Running), OfTask(TaskLifecycle.Submitted))
    ensures HasMove(moves, OfTask(TaskLifecycle.Submitted), VERIFIED_TASK) && HasMove(moves, VERIFIED_TASK, DONE_TASK)
  {
    assert Stage(DONE_TASK) == 6 && Stage(OfTask(TaskLifecycle.Pending)) == 0;
    HasTaskMove(OfTask(TaskLifecycle.Pending), moves, 4);
    HasTaskMove(OfTask(TaskLifecycle.Pending), moves, 5);
    HasTaskMove(OfTask(TaskLifecycle.Pending), moves, 6);
  }

  /** A task that began as pending and is done has been submitted, verified after that, and then done. */
  lemma {:induction false} DoneTaskWasVerified(s: State, id: Id)
    requires Reachable(s) && id in s.rows && s.rows[id].kind.Task? && s.rows[id].lifecycle == DONE_TASK
    requires id in s.origins && s.origins[id].lifecycle == OfTask(TaskLifecycle.Pending)
    ensures var moves := Moves(s.log, id);
      && HasMove(moves, OfTask(TaskLifecycle.Running), OfTask(TaskLifecycle.Submitted))
      && HasMove(moves, OfTask(TaskLifecycle.Submitted), VERIFIED_TASK) && HasMove(moves, VERIFIED_TASK, DONE_TASK)
  {
    LogRefinesState(s, id);
    ReplayToDone(Moves(s.log, id));
  }

  const ACTIVE_PROJECT := OfProject(ProjectLifecycle.Active)
  const AWAITING_APPROVAL := OfProject(ProjectLifecycle.AwaitingApproval)

  /** A project that began as created and is active, or further, was approved. */
  lemma {:induction false} ActiveProjectWasApproved(s: State, id: Id)
    requires Reachable(s) && id in s.rows && s.rows[id].kind.Project? && s.rows[id].lifecycle.OfProject?
    requires ProjectStage(s.rows[id].lifecycle.project) >= ProjectStage(ProjectLifecycle.Active)
    requires id in s.origins && s.origins[id].lifecycle == OfProject(ProjectLifecycle.Created)
    ensures HasMove(Moves(s.log, id), AWAITING_APPROVAL, ACTIVE_PROJECT)
  {
    LogRefinesState(s, id);
    var k := ChainSkipsNoStage(Project, s.origins[id].lifecycle, Moves(s.log, id), 5);
    var e := Moves(s.log, id)[k];
    assert Legal(Project, e.body.from, e.body.to);
  }

  /** An execution that began as created and that the log has as completed or lost was started. */
  lemma {:induction false} EndedExecutionRan(s: State, id: Id)
    requires Reachable(s) && id in s.rows && s.rows[id].kind.Execution? && id in s.origins
    requires s.origins[id].lifecycle == OfExecution(ExecutionLifecycle.Created)
    requires Replay(s.origins[id].lifecycle, Moves(s.log, id)) in {Some(OfExecution(ExecutionLifecycle.Completed)), Some(LOST)}
    ensures exists from :: HasMove(Moves(s.log, id), from, RUNNING)
  {
    LogRefinesState(s, id);
    var k := ChainSkipsNoStage(Execution, s.origins[id].lifecycle, Moves(s.log, id), 1);
    var e := Moves(s.log, id)[k];
    assert Legal(Execution, e.body.from, e.body.to);
    assert HasMove(Moves(s.log, id), e.body.from, RUNNING);
  }

  // ----- version determines lifecycle -----

  /**
   Every commit, also the one whose compare-and-set checks the version alone, makes a legal move
   from the lifecycle it validated, and that is the one the log shows.
   */
  lemma {:induction false} CommitStartsWhereValidated(s: State, c: nat)
    requires Reachable(s) && CommitsNow(s, c)
    ensures var r, seen := s.calls[c].request, s.calls[c].phase.seen;
      && Legal(r.kind, seen, r.to)
      && r.id in s.origins && Replay(s.origins[r.id].lifecycle, Moves(s.log, r.id)) == Some(seen)
      && (s.rows[r.id].lifecycle == seen || EndedExecution(s.rows[r.id]))
  {
    ReachableInv(s);
    var id := s.calls[c].request.id;
    assert StreamInv(s.origins[id], s.rows[id], Moves(s.log, id));
  }

  /** The log has the entity in a terminal lifecycle. */
  ghost predicate LogEnded(s: State, id: Id) {
    && id in s.rows && id in s.origins
    && var logged := Replay(s.origins[id].lifecycle, Moves(s.log, id));
      logged.Some? && IsTerminal(s.rows[id].kind, logged.value)
  }

  lemma {:induction false} EndedStep(s: State, a: Action, s': State, id: Id)
    requires CallsInv(s) && LogEnded(s, id) && RowStep(s, a, s', id) && MovesStep(s, a, s', id)
    ensures !CommitsOn(s, a, id) && LogEnded(s', id) && Moves(s'.log, id) == Moves(s.log, id)
    ensures s'.rows[id].lifecycle == s.rows[id].lifecycle || Marks(a, id)
  {
    if CommitsOn(s, a, id) {
      TerminalHasNoMove(s.rows[id].kind, s.calls[a.call].phase.seen, s.calls[a.call].request.to);
      assert false;
    } else {
      assert Moves(s'.log, id) == Moves(s.log, id);
    }
  }

  lemma {:induction false} EndedStays(s: State, actions: seq<Action>, id: Id)
    requires Inv(s) && LogEnded(s, id)
    ensures var s' := Run(Next, s, actions);
      && LogEnded(s', id) && Moves(s'.log, id) == Moves(s.log, id)
      && (Unmarked(actions, id) ==> s'.rows[id].lifecycle == s.rows[id].lifecycle)
    decreases actions
  {
    if actions != [] {
      NextRow(s, actions[0], id);
      NextMoves(s, actions[0], id);
      EndedStep(s, actions[0], Next(s, actions[0]), id);
      NextKeepsInv(s, actions[0]);
      EndedStays(Next(s, actions[0]), actions[1..], id);
    }
  }

  /**
   Once the log has an entity in a terminal lifecycle, its stream gets no more moves in any run, its
   row stays terminal, and only a mark on it can still put another terminal lifecycle there.
   */
  lemma {:induction false} TerminalIsForever(s: State, actions: seq<Action>, id: Id)
    requires Reachable(s) && LogEnded(s, id)
    ensures var s' := Run(Next, s, actions);
      && id in s'.rows && IsTerminal(s'.rows[id].kind, s'.rows[id].lifecycle)
      && Moves(s'.log, id) == Moves(s.log, id)
      && (Unmarked(actions, id) ==> s'.rows[id].lifecycle == s.rows[id].lifecycle)
  {
    ReachableInv(s);
    EndedStays(s, actions, id);
    RunKeepsInv(s, actions);
    var s' := Run(Next, s, actions);
    assert StreamInv(s'.origins[id], s'.rows[id], Moves(s'.log, id));
  }

  // ----- executions that were marked as ended -----

  ghost predicate NoneCommitsOn(s: State, id: Id) {
    forall c :: c in s.calls && s.calls[c].request.id == id ==> !CommitsNow(s, c)
  }

  lemma {:induction false} RefusedStaysRefused(s: State, s': State, c: nat, id: Id)
    requires c in s.calls && c in s'.calls && s'.calls[c] == s.calls[c] && s.calls[c].request.id == id
    requires id in s.rows && id in s'.rows && s'.rows[id] == s.rows[id] && s.log <= s'.log && !CommitsNow(s, c)
    ensures !CommitsNow(s', c)
  {
  }

  lemma {:induction false} EndedRowStep(s: State, a: Action, id: Id)
    requires id in s.rows && EndedExecution(s.rows[id]) && NoneCommitsOn(s, id) && !Marks(a, id)
    ensures id in Next(s, a).rows && Next(s, a).rows[id] == s.rows[id] && NoneCommitsOn(Next(s, a), id)
  {
    var s' := Next(s, a);
    NextRow(s, a, id);
    forall c | c in s'.calls && s'.calls[c].request.id == id ensures !CommitsNow(s', c) {
      NextCall(s, a, c);
      if c in s.calls && s.calls[c] == s'.calls[c] {
        RefusedStaysRefused(s, s', c, id);
      }
    }
  }

  lemma {:induction false} EndedRowStays(s: State, actions: seq<Action>, id: Id)
    requires id in s.rows && EndedExecution(s.rows[id]) && NoneCommitsOn(s, id) && Unmarked(actions, id)
    ensures id in Run(Next, s, actions).rows && Run(Next, s, actions).rows[id] == s.rows[id]
    decreases actions
  {
    if actions != [] {
      EndedRowStep(s, actions[0], id);
      EndedRowStays(Next(s, actions[0]), actions[1..], id);
    }
  }

  lemma {:induction false} CommitReadBefore(s: State, c: nat, id: Id)
    requires Reachable(s) && CommitsNow(s, c) && s.calls[c].request.id == id && EndedExecution(s.rows[id])
    ensures s.calls[c].phase.version == s.rows[id].version && !IsTerminal(Execution, s.calls[c].phase.seen)
    ensures id in s.origins && Replay(s.origins[id].lifecycle, Moves(s.log, id)) == Some(s.calls[c].phase.seen)
  {
    CommitStartsWhereValidated(s, c);
    if IsTerminal(Execution, s.calls[c].phase.seen) {
      TerminalHasNoMove(Execution, s.calls[c].phase.seen, s.calls[c].request.to);
    }
  }

  lemma {:induction false} CommitMovesRow(s: State, c: nat, id: Id)
    requires CommitsNow(s, c) && s.calls[c].request.id == id
    ensures Unmarked([Commit(c)], id)
    ensures id in s.rows && id in Run(Next, s, [Commit(c)]).rows && Run(Next, s, [Commit(c)]).rows[id] != s.rows[id]
  {
    assert Run(Next, s, [Commit(c)]) == Next(s, Commit(c));
  }

  ghost predicate RowIsFinal(s: State, id: Id)
    requires id in s.rows
  {
    forall actions :: Unmarked(actions, id) ==>
      id in Run(Next, s, actions).rows && Run(Next, s, actions).rows[id] == s.rows[id]
  }

  /**
   An ended execution, marked or not, keeps its row in every run without a further mark on it, if and
   only if no call in flight can commit on it now; and such a call has read it before it was marked, at
   the version it still has and in the lifecycle the log still shows.
   */
  lemma {:induction false} EndIsFinalUnlessReadBefore(s: State, id: Id)
    requires Reachable(s) && id in s.rows && EndedExecution(s.rows[id])
    ensures RowIsFinal(s, id) <==> NoneCommitsOn(s, id)
    ensures forall c :: c in s.calls && s.calls[c].request.id == id && CommitsNow(s, c) ==>
      && s.calls[c].phase.version == s.rows[id].version && !IsTerminal(Execution, s.calls[c].phase.seen)
      && id in s.origins && Replay(s.origins[id].lifecycle, Moves(s.log, id)) == Some(s.calls[c].phase.seen)
  {
    if NoneCommitsOn(s, id) {
      forall actions | Unmarked(actions, id)
        ensures id in Run(Next, s, actions).rows && Run(Next, s, actions).rows[id] == s.rows[id]
      {
        EndedRowStays(s, actions, id);
      }
    }
    forall c | c in s.calls && s.calls[c].request.id == id && CommitsNow(s, c)
      ensures s.calls[c].phase.version == s.rows[id].version && !IsTerminal(Execution, s.calls[c].phase.seen)
      ensures id in s.origins && Replay(s.origins[id].lifecycle, Moves(s.log, id)) == Some(s.calls[c].phase.seen)
      ensures !RowIsFinal(s, id)
    {
      CommitReadBefore(s, c, id);
      CommitMovesRow(s, c, id);
    }
  }

  const COMPLETED := OfExecution(ExecutionLifecycle.Completed)
  const COMPLETE_E := Request(Execution, "e", RUNNING, COMPLETED, "k")
  const RUNNING_E := map["e" := Row(Execution, RUNNING, 1)]

  lemma {:induction false} RunningExecution() returns (s: State)
    ensures Reachable(s) && s == State(RUNNING_E, [], {}, map[], RUNNING_E)
  {
    s := Initial();
    assert s == Run(Next, s, []);
    ReachesNext(Next, Initial(), s, Create("e", Row(Execution, RUNNING, 1)));
    s := Next(s, Create("e", Row(Execution, RUNNING, 1)));
  }

  /** A call that is to complete the execution has read it as running. */
  lemma {:induction false} PendingCompletion(s: State) returns (s': State)
    requires Reachable(s) && s.rows == RUNNING_E && s.calls == map[] && s.keys == {}
    ensures Reachable(s') && s' == s.(calls := map[1 := Call(COMPLETE_E, |s.log|, HasRead(RUNNING, 1))])
  {
    ReachesNext(Next, Initial(), s, Check(1, COMPLETE_E));
    s' := Next(s, Check(1, COMPLETE_E));
    assert s' == s.(calls := map[1 := Call(COMPLETE_E, |s.log|, Checked)]);
    ReachesNext(Next, Initial(), s', Read(1));
    s' := Next(s', Read(1));
  }

  /** Such runs exist: the execution is terminal as `lost`, and a call that read `running` completes it. */
  lemma {:induction false} LostMarkCanBeUndone() returns (s: State)
    ensures Reachable(s) && "e" in s.rows && s.rows["e"] == Row(Execution, LOST, 1)
    ensures "e" in Next(s, Commit(1)).rows && Next(s, Commit(1)).rows["e"] == Row(Execution, COMPLETED, 2)
  {
    s := RunningExecution();
    s := PendingCompletion(s);
    ReachesNext(Next, Initial(), s, Mark("e", LOST));
    s := Next(s, Mark("e", LOST));
    assert s.rows == map["e" := Row(Execution, LOST, 1)];
    assert CommitsNow(s, 1);
  }

  // ----- idempotence -----

  /** Whatever overlaps, no key ever has two events. */
  lemma {:induction false} OneEventPerKey(s: State)
    requires Reachable(s)
    ensures forall i, j :: 0 <= i < j < |s.log| ==> s.log[i].key != s.log[j].key
  {
    ReachableInv(s);
  }

  lemma {:induction false} LogAndKeysOnlyGrow(s: State, actions: seq<Action>)
    ensures s.log <= Run(Next, s, actions).log && s.keys <= Run(Next, s, actions).keys
    decreases actions
  {
    if actions != [] {
      LogAndKeysOnlyGrow(Next(s, actions[0]), actions[1..]);
    }
  }

  /** A call that starts after a commit with its key returns at the duplicate check and changes nothing. */
  lemma {:induction false} RepeatedCallChangesNothing(s: State, actions: seq<Action>, i: nat, c: nat, r: Request)
    requires Reachable(s) && i < |s.log| && s.log[i].body.Moved? && s.log[i].key == r.key
    ensures r.key in Run(Next, s, actions).keys
    ensures Next(Run(Next, s, actions), Check(c, r)) == Run(Next, s, actions)
  {
    ReachableInv(s);
    LogAndKeysOnlyGrow(s, actions);
  }

  /** A call that passed its duplicate check can meet its own key only in a move committed after that check. */
  lemma {:induction false} KeyClashNeedsOverlap(s: State, c: nat, i: nat)
    requires Reachable(s) && c in s.calls && i < |s.log| && s.log[i].body.Moved?
    requires s.log[i].key == s.calls[c].request.key
    ensures s.calls[c].since <= i
    ensures !CommitsNow(s, c)
  {
    ReachableInv(s);
  }

  lemma {:induction false} RowVersionsOnlyGrow(s: State, actions: seq<Action>, id: Id)
    requires id in s.rows
    ensures id in Run(Next, s, actions).rows && s.rows[id].version <= Run(Next, s, actions).rows[id].version
    decreases actions
  {
    if actions != [] {
      NextRow(s, actions[0], id);
      RowVersionsOnlyGrow(Next(s, actions[0]), actions[1..], id);
    }
  }

  /** Of all calls that read the same version of an entity, at most one commits. */
  lemma {:induction false} OneCommitPerVersion(s: State, c: nat, actions: seq<Action>, d: nat)
    requires Reachable(s) && CommitsNow(s, c)
    requires IsReady(Run(Next, Next(s, Commit(c)), actions), d)
    requires var call := Run(Next, Next(s, Commit(c)), actions).calls[d];
      call.request.id == s.calls[c].request.id && call.phase.version == s.calls[c].phase.version
    ensures !CommitsNow(Run(Next, Next(s, Commit(c)), actions), d)
  {
    RowVersionsOnlyGrow(Next(s, Commit(c)), actions, s.calls[c].request.id);
  }

  lemma {:induction false} MoveIsInItsStream(log: seq<Event>, i: nat)
    requires i < |log| && log[i].body.Moved?
    ensures log[i] in Moves(log, log[i].stream)
  {
    if i < |log| - 1 { MoveIsInItsStream(log[..|log| - 1], i); }
  }

  lemma {:induction false} MovesStayBelowRow(s: State, i: nat)
    requires StreamsInv(s) && i < |s.log| && s.log[i].body.Moved?
    ensures s.log[i].stream in s.rows && s.log[i].version <= s.rows[s.log[i].stream].version
  {
    var id := s.log[i].stream;
    MoveIsInItsStream(s.log, i);
    assert id in s.rows ==> StreamInv(s.origins[id], s.rows[id], Moves(s.log, id));
  }

  lemma {:induction false} MovesStayBelow(s: State, id: Id, v: int)
    requires StreamsInv(s) && id in s.rows && s.rows[id].version == v
    ensures forall i :: 0 <= i < |s.log| && s.log[i].body.Moved? && s.log[i].stream == id ==> s.log[i].version < v + 1
  {
    forall i | 0 <= i < |s.log| && s.log[i].body.Moved? && s.log[i].stream == id ensures s.log[i].version < v + 1 {
      MovesStayBelowRow(s, i);
    }
  }

  /** The key is not in the log, and no event of another writer has that version on that stream. */
  ghost predicate IsFree(log: seq<Event>, id: Id, version: int, key: string) {
    && (forall i :: 0 <= i < |log| ==> log[i].key != key)
    && (forall i :: 0 <= i < |log| && log[i].body.Other? ==> !(log[i].stream == id && log[i].version == version))
  }

  /**
   A call whose compare-and-set matches is stopped only by its key being in the log already, or by
   another writer's event holding the version it needs; the service never blocks itself on a version.
   */
  lemma {:induction false} MatchedCommitStoppedOnlyBy(s: State, c: nat)
    requires Reachable(s) && IsReady(s, c)
    requires CasMatches(s.rows, s.calls[c].request, s.calls[c].phase.seen, s.calls[c].phase.version)
    ensures var r, v := s.calls[c].request, s.calls[c].phase.version;
      CommitsNow(s, c) <==> IsFree(s.log, r.id, v + 1, r.key)
  {
    assert StreamsInv(s) by { ReachableInv(s); }
    MatchedCommitNeedsAdmission(s, c);
    MovesStayBelow(s, s.calls[c].request.id, s.calls[c].phase.version);
    AdmitsWhenFree(s.log, CommittedEvent(s, c));
  }

  lemma {:induction false} MatchedCommitNeedsAdmission(s: State, c: nat)
    requires IsReady(s, c) && CasMatches(s.rows, s.calls[c].request, s.calls[c].phase.seen, s.calls[c].phase.version)
    ensures CommitsNow(s, c) <==> Admits(s.log, CommittedEvent(s, c))
    ensures var r, v := s.calls[c].request, s.calls[c].phase.version;
      r.id in s.rows && s.rows[r.id].version == v && CommittedEvent(s, c).stream == r.id &&
      CommittedEvent(s, c).version == v + 1 && CommittedEvent(s, c).key == r.key
  {
  }

  lemma {:induction false} AdmitsWhenFree(log: seq<Event>, e: Event)
    requires forall i :: 0 <= i < |log| && log[i].body.Moved? && log[i].stream == e.stream ==> log[i].version < e.version
    ensures Admits(log, e) <==> IsFree(log, e.stream, e.version, e.key)
  {
  }

  // ----- reading along -----

  /** The log at each poll of a reader, one poll after each segment of the run. */
  function Logs(s: State, segments: seq<seq<Action>>): seq<seq<Event>>
    decreases segments
  {
    if segments == [] then [] else [Run(Next, s, segments[0]).log] + Logs(Run(Next, s, segments[0]), segments[1..])
  }

  function RunAll(s: State, segments: seq<seq<Action>>): State
    decreases segments
  {
    if segments == [] then s else RunAll(Run(Next, s, segments[0]), segments[1..])
  }

  lemma {:induction false} LogsGrow(s: State, segments: seq<seq<Action>>)
    ensures |Logs(s, segments)| == |segments| && Growing(Logs(s, segments))
    ensures forall i :: 0 <= i < |segments| ==> s.log <= Logs(s, segments)[i]
    ensures segments != [] ==> Logs(s, segments)[|segments| - 1] == RunAll(s, segments).log
    decreases segments
  {
    if segments != [] {
      LogAndKeysOnlyGrow(s, segments[0]);
      LogsGrow(Run(Next, s, segments[0]), segments[1..]);
    }
  }

  lemma {:induction false} RunAllKeepsInv(s: State, segments: seq<seq<Action>>)
    requires Inv(s)
    ensures Inv(RunAll(s, segments))
    decreases segments
  {
    if segments != [] {
      RunKeepsInv(s, segments[0]);
      RunAllKeepsInv(Run(Next, s, segments[0]), segments[1..]);
    }
  }

  lemma {:induction false} StreamAndMoves(log: seq<Event>, id: Id)
    ensures forall e :: e in Moves(log, id) <==> e in Stream(log, id) && e.body.Moved?
    ensures (forall e :: e in Stream(log, id) ==> e.body.Moved?) ==> Stream(log, id) == Moves(log, id)
  {
    if log != [] {
      StreamAndMoves(log[..|log| - 1], id);
      assert forall e :: e in Stream(log[..|log| - 1], id) ==> e in Stream(log, id);
    }
  }

  lemma {:induction false} MovesOfPrefix(log: seq<Event>, more: seq<Event>, id: Id)
    requires log <= more
    ensures Moves(log, id) <= Moves(more, id)
    decreases more
  {
    if |log| < |more| {
      assert log <= more[..|more| - 1];
      MovesOfPrefix(log, more[..|more| - 1], id);
    } else {
      assert log == more;
    }
  }

  lemma {:induction false} LaterMovesAreHigher(log: seq<Event>, more: seq<Event>, id: Id, f: Event, e: Event)
    requires log <= more && Increasing(Moves(more, id))
    requires f in Moves(log, id) && e in Moves(more, id) && e !in Moves(log, id)
    ensures f.version < e.version
  {
    MovesOfPrefix(log, more, id);
    var before, after := Moves(log, id), Moves(more, id);
    var m :| 0 <= m < |before| && before[m] == f;
    var n :| 0 <= n < |after| && after[n] == e;
    assert after[m] == f;
    PrefixHas(before, after, n);
  }

  /** The versions on a stream stay within what a reader's cursor can hold. */
  ghost predicate StreamFits(segments: seq<seq<Action>>, id: Id) {
    Fits(Stream(RunAll(Initial(), segments).log, id))
  }

  lemma {:induction false} LogsAreFirstParts(logs: seq<seq<Event>>, id: Id)
    requires logs != [] && Growing(logs) && Unique(logs[|logs| - 1]) && Fits(Stream(logs[|logs| - 1], id))
    ensures AllFit(logs, id) && forall k :: 0 <= k < |logs| ==> Unique(logs[k])
  {
    GrowingStreams(logs, id);
    forall k | 0 <= k < |logs| ensures Unique(logs[k]) {
      assert logs[k] <= logs[|logs| - 1];
    }
  }

  lemma {:induction false} MovesRise(s: State, id: Id)
    requires StreamsInv(s)
    ensures Increasing(Moves(s.log, id))
  {
    if id in s.rows { assert StreamInv(s.origins[id], s.rows[id], Moves(s.log, id)); }
  }

  lemma {:induction false} LogsOfRun(segments: seq<seq<Action>>, id: Id)
    requires segments != [] && StreamFits(segments, id)
    ensures var logs, s := Logs(Initial(), segments), RunAll(Initial(), segments);
      && logs != [] && logs[|logs| - 1] == s.log && Growing(logs) && Increasing(Moves(s.log, id))
      && AllFit(logs, id) && (forall k :: 0 <= k < |logs| ==> Unique(logs[k]))
  {
    LogsGrow(Initial(), segments);
    RunAllKeepsInv(Initial(), segments);
    MovesRise(RunAll(Initial(), segments), id);
    LogsAreFirstParts(Logs(Initial(), segments), id);
  }

  /** Versions of moves rise, so only other writers' events can overtake a move. */
  lemma {:induction false} OnlyOthersOvertake(logs: seq<seq<Event>>, id: Id, k: nat, e: Event)
    requires Growing(logs) && FirstShown(logs, k, id, e) && e.body.Moved?
    requires Increasing(Moves(logs[k], id))
    ensures AllShownBelow(logs, 0, k, id, e.version) <==>
      forall j, f :: 0 <= j < k && f in Stream(logs[j], id) && f.body.Other? ==> f.version < e.version
  {
    forall j, f | 0 <= j < k && f in Stream(logs[j], id) && f.body.Moved? ensures f.version < e.version {
      StreamAndMoves(logs[j], id);
      StreamAndMoves(logs[k], id);
      LaterMovesAreHigher(logs[j], logs[k], id, f, e);
    }
  }

  lemma {:induction false} ReceivedIfNotOvertakenAtFirst(logs: seq<seq<Event>>, id: Id, k: nat, e: Event)
    requires AllFit(logs, id) && FirstShown(logs, k, id, e)
    ensures e in Polls(logs, id) <==> AllShownBelow(logs, 0, k, id, e.version)
  {
    ReceivedExactly(logs, id, e);
    if AllShownBelow(logs, 0, k, id, e.version) {
      assert ShownInTime(logs, 0, k, id, e);
    }
  }

  /**
   A reader that polls any entity's stream with its last seen version, at any points of any run,
   whoever writes to the stream: it receives a move exactly if no poll before the first that could
   show it has shown another writer's event of a higher version. What it receives rises strictly in
   version, so nothing arrives twice.
   */
  lemma {:induction false} MoveReceivedUnlessOvertaken(segments: seq<seq<Action>>, id: Id, k: nat, e: Event)
    requires segments != [] && StreamFits(segments, id) && e.body.Moved?
    requires FirstShown(Logs(Initial(), segments), k, id, e)
    ensures e in Polls(Logs(Initial(), segments), id) <==>
      forall j, f :: 0 <= j < k && f in Stream(Logs(Initial(), segments)[j], id) && f.body.Other? ==> f.version < e.version
    ensures Increasing(Polls(Logs(Initial(), segments), id))
  {
    var logs, s := Logs(Initial(), segments), RunAll(Initial(), segments);
    LogsOfRun(segments, id);
    MovesOfPrefix(logs[k], s.log, id);
    OnlyOthersOvertake(logs, id, k, e);
    ReceivedIfNotOvertakenAtFirst(logs, id, k, e);
    NothingTwice(logs, id);
  }

  /** On a stream that only the service writes, nothing overtakes: every move once, in commit order. */
  lemma {:induction false} ReaderReceivesEveryMove(segments: seq<seq<Action>>, id: Id)
    requires segments != [] && StreamFits(segments, id)
    requires forall e :: e in Stream(RunAll(Initial(), segments).log, id) ==> e.body.Moved?
    ensures Polls(Logs(Initial(), segments), id) == Moves(RunAll(Initial(), segments).log, id)
  {
    LogsOfRun(segments, id);
    StreamAndMoves(RunAll(Initial(), segments).log, id);
    GaplessCursor(Logs(Initial(), segments), id);
  }

  const AGENT_EVENT := Event("e", 3, Other("message"), "a")

  /** A running execution at version 1 whose stream holds an agent event at version 3, and a call about to commit. */
  lemma {:induction false} AgentEventOnStream() returns (s: State)
    ensures Reachable(s) && s.log == [AGENT_EVENT] && s.rows == RUNNING_E
    ensures s.calls == map[1 := Call(COMPLETE_E, 1, HasRead(RUNNING, 1))]
  {
    s := RunningExecution();
    ReachesNext(Next, Initial(), s, Append(AGENT_EVENT));
    s := Next(s, Append(AGENT_EVENT));
    s := PendingCompletion(s);
  }

  /** Other writers use the same streams: a reader that has seen an event of a higher version never gets the move. */
  lemma {:induction false} AgentEventCanHideMove() returns (before: State, after: State, move: Event)
    ensures Reachable(before) && after == Next(before, Commit(1)) && move in after.log && move.stream == "e"
    ensures Query(before.log, "e", 0) == [AGENT_EVENT]
    ensures forall log, cursor :: cursor >= Advance(0, [AGENT_EVENT]) ==> move !in Query(log, "e", cursor)
  {
    before := AgentEventOnStream();
    after, move := Next(before, Commit(1)), MoveEvent(COMPLETE_E, RUNNING, 1);
    assert CommitsNow(before, 1);
    assert after.log == before.log + [move];
    QueryOfOne(AGENT_EVENT);
    forall log, cursor | cursor >= Advance(0, [AGENT_EVENT]) ensures move !in Query(log, "e", cursor) {
      BatchIsAboveCursor(log, "e", cursor);
    }
  }

  lemma {:induction false} QueryOfOne(e: Event)
    requires e.version > 0
    ensures Query([e], e.stream, 0) == [e]
  {
    assert [e][..0] == [];
    assert Stream([e], e.stream) == [e];
    assert Above([e], 0) == [e];
    assert OrderByVersion([e]) == Insert(e, []);
  }
}
