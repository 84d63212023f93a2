/**
 * A task row and the guarded update each store transaction makes to it (internal/store/mysql.go,
 * internal/store/review_delivery.go). `now` is the database clock.
 */
module TaskRows {
  import opened Collections
  import opened Text

  datatype Status = Received | Queued | Running | Done | Failed | Retrying | DeadLetter | Superseded

  datatype Row = Row(
    commitSHA: string, status: Status, error: Option<string>,
    attemptCount: nat, maxAttempts: nat, nextRetryAt: Option<int>, updatedAt: int)

  const DEFAULT_MAX_ATTEMPTS: nat := 3

  function NewRow(commitSHA: string, now: int): Row {
    Row(commitSHA, Received, None, 0, DEFAULT_MAX_ATTEMPTS, None, now)
  }

  /** A transaction refuses (its guard fails), commits without a write, or writes the row and an audit entry. */
  datatype Update = Refused | Unchanged | Changed(row: Row)

  /** `updated_at` moves only when another column changes. */
  function Stamp(old': Row, new': Row, now: int): Row {
    if new' == old' then old' else new'.(updatedAt := now)
  }

  function Message(taskError: string): Option<string> {
    if TrimSpace(taskError) != "" then Some(taskError) else None
  }

  function UpdateStatus(row: Row, status: Status, taskError: string, now: int): Update {
    if row.status == Superseded then (if status == Superseded then Unchanged else Refused)
    else if status == Superseded && row.status != Running then Refused
    else if row.status == Done && status == Done && Message(taskError).None? then Unchanged
    else Changed(Stamp(row, row.(status := status, error := Message(taskError),
                                 nextRetryAt := if status == Superseded then None else row.nextRetryAt), now))
  }

  predicate Due(row: Row, now: int) {
    row.nextRetryAt.None? || row.nextRetryAt.value <= now
  }

  predicate Claimable(row: Row, attempt: nat, now: int) {
    || ((row.status == Queued || row.status == Retrying) && Due(row, now))
    || (row.status == Running && attempt > row.attemptCount)
  }

  function Claim(row: Row, attempt: nat, now: int): Update {
    if Claimable(row, attempt, now) then
      Changed(row.(status := Running, error := None, attemptCount := Max(row.attemptCount, attempt), updatedAt := now))
    else Refused
  }

  function MarkRetry(row: Row, attempt: nat, maxAttempts: nat, taskError: string, nextRetryAt: int, now: int): Update {
    if row.status == Running then
      Changed(row.(status := Retrying, attemptCount := attempt, maxAttempts := maxAttempts, error := Some(taskError),
                   nextRetryAt := Some(nextRetryAt), updatedAt := now))
    else Refused
  }

  function MarkDeadLetter(row: Row, attempt: nat, maxAttempts: nat, taskError: string, now: int): Update {
    if row.status == Running then
      Changed(row.(status := DeadLetter, attemptCount := attempt, maxAttempts := maxAttempts, error := Some(taskError),
                   nextRetryAt := None, updatedAt := now))
    else Refused
  }

  function Requeue(row: Row, now: int): Update {
    if row.status == DeadLetter then
      Changed(row.(status := Queued, attemptCount := 0, nextRetryAt := None, updatedAt := now))
    else Refused
  }

  /** Moves `updated_at` only; the update reports no affected row when the time is unchanged. */
  function TouchQueued(row: Row, updatedAt: int): Update {
    if (row.status == Received || row.status == Queued) && row.updatedAt != updatedAt then
      Changed(row.(updatedAt := updatedAt))
    else Refused
  }

  /** The task side of recording a published review. `recorded` says whether this review ID is stored already. */
  function MarkDelivered(row: Row, recorded: bool, now: int): Update {
    if row.status != Running && row.status != Done then Refused
    else if recorded && row.status == Done then Unchanged
    else Changed(Stamp(row, row.(status := Done, error := None, nextRetryAt := None), now))
  }

  function After(row: Row, update: Update): Row {
    if update.Changed? then update.row else row
  }

  // ----- which status can follow which -----

  /** The status changes some transaction makes and audits. */
  predicate Follows(old': Status, new': Status) {
    match new'
    case Running => old' == Queued || old' == Retrying || old' == Running
    case Retrying => old' == Running
    case DeadLetter => old' == Running
    case Superseded => old' == Running
    case Received => false
    case _ => old' != Superseded
  }

  /** Every audited update of the row moves along `Follows`; in particular nothing leaves `Superseded`. */
  lemma UpdatesFollow(row: Row, status: Status, taskError: string, attempt: nat, maxAttempts: nat, at: int, recorded: bool,
                      now: int)
    requires status == Queued || status == Failed || status == Done || status == Superseded
    ensures var u := UpdateStatus(row, status, taskError, now); u.Changed? ==> Follows(row.status, u.row.status)
    ensures var u := Claim(row, attempt, now); u.Changed? ==> Follows(row.status, u.row.status)
    ensures var u := MarkRetry(row, attempt, maxAttempts, taskError, at, now); u.Changed? ==> Follows(row.status, u.row.status)
    ensures var u := MarkDeadLetter(row, attempt, maxAttempts, taskError, now); u.Changed? ==> Follows(row.status, u.row.status)
    ensures var u := Requeue(row, now); u.Changed? ==> Follows(row.status, u.row.status)
    ensures var u := MarkDelivered(row, recorded, now); u.Changed? ==> Follows(row.status, u.row.status)
  {
  }
}
