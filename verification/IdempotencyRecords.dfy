/**
 The `idempotency_records` table: one row per key, each SQL statement a guarded effect on the row
 of its key, and the calls of the claim API as a single caller sees them.
 */
module IdempotencyRecords {
  import opened Options
  import opened Timestamps

  /** A claim token. A fresh one is drawn for every `try_claim`. */
  type Token = nat

  datatype Status = Pending | Completed | FailedRetryable | FailedFinal

  /** A row. `None` is SQL NULL; `lease` is the stored expiry in whole seconds. */
  datatype Record = Record(
    status: Status, hash: string, owner: Option<Token>, lease: Option<int>,
    attempts: int, version: int, fencing: int, result: Option<string>, error: Option<string>)

  predicate IsFinal(r: Record) {
    r.status.Completed? || r.status.FailedFinal?
  }

  /** `lease_expires_at < datetime('now')`: a NULL lease makes the comparison NULL, so not true. */
  predicate Expired(r: Record, now: int) {
    r.lease.Some? && r.lease.value < Seconds(now)
  }

  /** The guard on the stored texts is the guard on whole seconds, counted from any epoch. */
  lemma ExpiryGuardOnText(r: Record, now: int, lease: Civil, clock: Civil, epoch: int)
    requires Valid(lease) && Valid(clock)
    requires r.lease == Some(Instant(lease) - epoch) && Seconds(now) == Instant(clock) - epoch
    ensures Expired(r, now) <==> TextLess(Format(lease), Format(clock))
  {
    TextOrderIsTimeOrder(lease, clock);
  }

  // ----- SQL statements; `None` means that no row was affected -----

  function Fresh(token: Token, hash: string, lease: int): Record {
    Record(Pending, hash, Some(token), Some(lease), 1, 1, 1, None, None)
  }

  function Reassigned(r: Record, token: Token, hash: string, lease: int): Record {
    r.(status := Pending, owner := Some(token), lease := Some(lease), attempts := r.attempts + 1,
       hash := hash, version := r.version + 1, fencing := r.fencing + 1)
  }

  function TakeOverRow(row: Option<Record>, seenVersion: int, token: Token, hash: string, lease: int, now: int): Option<Record> {
    if row.Some? && Expired(row.value, now) && row.value.version == seenVersion
    then Some(Reassigned(row.value, token, hash, lease)) else None
  }

  function UpsertRow(row: Option<Record>, token: Token, hash: string, lease: int, now: int): Option<Record> {
    match row
    case None => Some(Fresh(token, hash, lease))
    case Some(r) => if Expired(r, now) || !r.status.Pending? then Some(Reassigned(r, token, hash, lease)) else None
  }

  /** `owner_token = ? AND status = 'pending'`, the guard of every call that presents a token. */
  predicate Holds(row: Option<Record>, token: Token) {
    row.Some? && row.value.owner == Some(token) && row.value.status.Pending?
  }

  function RenewRow(row: Option<Record>, token: Token, lease: int): Option<Record> {
    if Holds(row, token) then Some(row.value.(lease := Some(lease))) else None
  }

  function CompleteRow(row: Option<Record>, token: Token, result: string): Option<Record> {
    if Holds(row, token)
    then Some(row.value.(status := Completed, result := Some(result), owner := None, lease := None)) else None
  }

  function FailRow(row: Option<Record>, token: Token, error: string, isFinal: bool): Option<Record> {
    if Holds(row, token)
    then Some(row.value.(status := if isFinal then FailedFinal else FailedRetryable,
                         error := Some(error), owner := None, lease := None)) else None
  }

  /** `INSERT OR IGNORE` of an already completed key. */
  function RecordRow(row: Option<Record>, key: string, result: string): Option<Record> {
    if row.None? then Some(Record(Completed, key, None, None, 1, 1, 1, Some(result), None)) else None
  }

  // ----- what try_claim does with the row it read -----

  datatype Decision = Finished | Mismatch | TakeOver(version: int) | Upsert

  function Decide(row: Option<Record>, hash: string): Decision {
    match row
    case None => Upsert
    case Some(r) =>
      match r.status
      case Completed => Finished
      case FailedFinal => Finished
      case FailedRetryable => if r.hash != hash then Mismatch else Upsert
      case Pending => if r.hash != hash then Mismatch else TakeOver(r.version)
  }

  function ClaimRow(d: Decision, row: Option<Record>, token: Token, hash: string, lease: int, now: int): Option<Record> {
    match d
    case TakeOver(v) => TakeOverRow(row, v, token, hash, lease, now)
    case Upsert => UpsertRow(row, token, hash, lease, now)
    case _ => None
  }

  datatype ClaimResult = Granted(token: Token) | NotGranted | HashMismatch

  /** The keys a caller may claim: new ones, retryable ones and expired ones, for its own request. */
  predicate Claimable(row: Option<Record>, hash: string, now: int) {
    row.None? || (row.value.hash == hash &&
                  (row.value.status.FailedRetryable? || (row.value.status.Pending? && Expired(row.value, now))))
  }

  /** The row a granted claim leaves, whichever of the two statements wrote it. */
  predicate ClaimedFrom(before: Option<Record>, after: Record, token: Token, hash: string, lease: int) {
    && after.status.Pending? && after.owner == Some(token) && after.lease == Some(lease) && after.hash == hash
    && after.version == (if before.None? then 0 else before.value.version) + 1
    && after.fencing == (if before.None? then 0 else before.value.fencing) + 1
    && after.attempts == (if before.None? then 0 else before.value.attempts) + 1
    && after.result == (if before.None? then None else before.value.result)
    && after.error == (if before.None? then None else before.value.error)
  }
}
