/**
 The transition service: a duplicate check, a read of (lifecycle, version), and one transaction
 that moves the row by compare-and-set, appends the event and records the idempotency key.
 */
module Transitions {
  import opened Lifecycles
  import opened EventLog

  /** A row of `projects`, `tasks` or `execution_attempts`; ids are distinct across the three. */
  datatype Row = Row(kind: Kind, lifecycle: Lifecycle, version: int)

  /** A call. For executions the source passes no `from`; the field is then not used. */
  datatype Request = Request(kind: Kind, id: Id, from: Lifecycle, to: Lifecycle, key: string)

  datatype Error = IllegalMove | NotFound | UnexpectedLifecycle | EntityTerminal | VersionConflict | NotUnique

  datatype Outcome = Ok | Err(error: Error)

  datatype Found = Refused(error: Error) | Fetched(lifecycle: Lifecycle, version: int)

  predicate Exists(rows: map<Id, Row>, kind: Kind, id: Id) {
    id in rows && rows[id].kind == kind
  }

  /** Projects and tasks name the lifecycle they expect, and are checked before the read. */
  predicate PassesValidation(r: Request) {
    r.kind.Execution? || Legal(r.kind, r.from, r.to)
  }

  function ReadRow(rows: map<Id, Row>, r: Request): Found {
    if !Exists(rows, r.kind, r.id) then Refused(NotFound)
    else
      var row := rows[r.id];
      if r.kind.Execution? then
        if IsTerminal(Execution, row.lifecycle) then Refused(EntityTerminal)
        else if !Legal(Execution, row.lifecycle, r.to) then Refused(IllegalMove)
        else Fetched(row.lifecycle, row.version)
      else if row.lifecycle != r.from then Refused(UnexpectedLifecycle)
      else Fetched(row.lifecycle, row.version)
  }

  /** The WHERE of the compare-and-set; the one for executions leaves the lifecycle out. */
  predicate CasMatches(rows: map<Id, Row>, r: Request, seen: Lifecycle, version: int) {
    Exists(rows, r.kind, r.id) && rows[r.id].version == version && (r.kind.Execution? || rows[r.id].lifecycle == seen)
  }

  function MoveEvent(r: Request, seen: Lifecycle, version: int): Event {
    Event(r.id, version + 1, Moved(r.kind, seen, r.to), r.key)
  }

  /** Whether the transaction commits; otherwise it is rolled back whole. */
  predicate Commits(rows: map<Id, Row>, log: seq<Event>, r: Request, seen: Lifecycle, version: int) {
    CasMatches(rows, r, seen, version) && Admits(log, MoveEvent(r, seen, version))
  }

  /** The lifecycle that the failed compare-and-set finds when it looks again; a missing row reads as empty text. */
  function ActualLifecycle(rows: map<Id, Row>, r: Request): Lifecycle {
    if Exists(rows, r.kind, r.id) then rows[r.id].lifecycle else Lifecycle.Unknown("")
  }

  /** What a whole call, not interleaved with others, may do. */
  predicate Succeeds(rows: map<Id, Row>, log: seq<Event>, r: Request) {
    && Exists(rows, r.kind, r.id)
    && Legal(r.kind, rows[r.id].lifecycle, r.to)
    && (r.kind.Execution? || rows[r.id].lifecycle == r.from)
    && Admits(log, MoveEvent(r, rows[r.id].lifecycle, rows[r.id].version))
  }
}
