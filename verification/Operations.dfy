/**
 The `operations` table: every write is one guarded UPDATE of the row of one operation. Claimed
 writes present a token; the legacy and repository writes present none.
 */
module Operations {
  import opened Options
  import opened Timestamps

  type Token = nat

  datatype Status = Pending | Running | ReconciliationRequired | Completed | Failed

  /** A row; `expires` is the stored claim expiry in whole seconds, `None` is SQL NULL. */
  datatype Operation = Operation(
    status: Status, token: Option<Token>, expires: Option<int>,
    attempts: int, version: int, result: Option<string>, lastError: Option<string>)

  predicate IsTerminal(op: Operation) {
    op.status.Completed? || op.status.Failed?
  }

  /** `status IN ('pending','running')`, the guard of the tokenless writes. */
  predicate IsUnreconciled(op: Operation) {
    op.status.Pending? || op.status.Running?
  }

  function Created(): Operation {
    Operation(Pending, None, None, 1, 1, None, None)
  }

  // ----- SQL statements; `None` means that no row was affected -----

  /** `claim_token IS NULL OR claim_expires_at < now`, on a row that is not terminal. */
  predicate IsClaimable(op: Operation, now: int) {
    !IsTerminal(op) && (op.token.None? || (op.expires.Some? && op.expires.value < Seconds(now)))
  }

  function ClaimRow(op: Operation, token: Token, expires: int, now: int): Option<Operation> {
    if IsClaimable(op, now)
    then Some(op.(token := Some(token), expires := Some(expires), attempts := op.attempts + 1)) else None
  }

  predicate Holds(op: Operation, token: Token) {
    op.token == Some(token) && !IsTerminal(op)
  }

  function RenewRow(op: Operation, token: Token, expires: int): Option<Operation> {
    if Holds(op, token) then Some(op.(expires := Some(expires))) else None
  }

  /** The release has no guard on the status. */
  function ReleaseRow(op: Operation, token: Token): Option<Operation> {
    if op.token == Some(token) then Some(op.(token := None, expires := None)) else None
  }

  function CompleteClaimedRow(op: Operation, token: Token, result: string): Option<Operation> {
    if Holds(op, token)
    then Some(op.(status := Completed, result := Some(result), token := None, expires := None)) else None
  }

  function FailClaimedRow(op: Operation, token: Token, reason: string): Option<Operation> {
    if Holds(op, token)
    then Some(op.(status := Failed, result := Some(reason), lastError := Some(reason), token := None, expires := None))
    else None
  }

  function ReconcileRow(op: Operation): Option<Operation> {
    if IsUnreconciled(op) then Some(op.(status := ReconciliationRequired)) else None
  }

  function LegacyCompleteRow(op: Operation, result: string): Option<Operation> {
    if IsUnreconciled(op) then Some(op.(status := Completed, result := Some(result))) else None
  }

  function LegacyFailRow(op: Operation, reason: string): Option<Operation> {
    if IsUnreconciled(op) then Some(op.(status := Failed, result := Some(reason), lastError := Some(reason))) else None
  }

  function RepoCompleteRow(op: Operation, result: string, version: int): Option<Operation> {
    if IsUnreconciled(op) && op.version == version
    then Some(op.(status := Completed, result := Some(result), version := op.version + 1)) else None
  }

  function RepoFailRow(op: Operation, reason: string, version: int): Option<Operation> {
    if IsUnreconciled(op) && op.version == version
    then Some(op.(status := Failed, result := Some(reason), version := op.version + 1)) else None
  }
}
