/**
 * The store: task rows, delivery snapshots, review results and the audit log, each method one transaction
 * (internal/store/mysql.go, internal/store/review_delivery.go, internal/store/audit.go).
 */
module TaskStore {
  import opened Collections
  import opened TaskRows

  datatype Action = TaskCreated | TaskStatusChanged | ReviewResultCreated

  datatype AuditEntry = AuditEntry(taskId: nat, action: Action, oldStatus: Option<Status>, newStatus: Option<Status>)

  datatype NewTask = NewTask(commitSHA: string, deliveryId: string)

  datatype Delivery = Delivery(commitSHA: string, marker: string, reviewId: nat)

  datatype Error = NotFound | TransitionFailed | Conflict | Invalid | Duplicate

  datatype Result<T> = Ok(value: T) | Err(error: Error)

  // ----- the audit log of one task -----

  datatype Move = Move(from: Option<Status>, to: Status)

  /** The status entries of task `id`, oldest first. */
  function History(audit: seq<AuditEntry>, id: nat): seq<Move> {
    if |audit| == 0 then []
    else
      var e := audit[|audit| - 1];
      var before := History(audit[..|audit| - 1], id);
      if e.taskId == id && e.newStatus.Some? then before + [Move(e.oldStatus, e.newStatus.value)] else before
  }

  /**
   * The entries tell the whole story of the row: from nothing to `received`, every old status the previous new one,
   * every move one that some transaction makes, and the last new status the row's own.
   */
  predicate Tells(history: seq<Move>, current: Status) {
    && |history| > 0 && history[0] == Move(None, Received)
    && history[|history| - 1].to == current
    && forall i | 0 < i < |history| ::
         history[i].from == Some(history[i - 1].to) && Follows(history[i - 1].to, history[i].to)
  }

  lemma HistoryAppend(audit: seq<AuditEntry>, e: AuditEntry, id: nat)
    ensures History(audit + [e], id) == History(audit, id)
              + if e.taskId == id && e.newStatus.Some? then [Move(e.oldStatus, e.newStatus.value)] else []
  {
    assert (audit + [e])[..|audit|] == audit;
  }

  /** A told history enters `superseded` only from `running`, and only as its last move. */
  lemma SupersededIsFinal(history: seq<Move>, current: Status, i: nat)
    requires Tells(history, current) && i < |history| && history[i].to == Superseded
    ensures i == |history| - 1 && history[i].from == Some(Running)
  {
    assert i > 0;
    assert Follows(history[i - 1].to, history[i].to);
    forall k | 0 <= k < |history| - 1 ensures history[k].to != Superseded {
      assert Follows(history[k].to, history[k + 1].to);
    }
  }

  /** The audit log tells the story of every row, and of nothing else. */
  ghost predicate Audited(rows: map<nat, Row>, audit: seq<AuditEntry>) {
    && (forall id <- rows :: Tells(History(audit, id), rows[id].status))
    && (forall e <- audit :: e.taskId in rows)
  }

  function StatusEntry(id: nat, old': Row, new': Row): AuditEntry {
    AuditEntry(id, TaskStatusChanged, Some(old'.status), Some(new'.status))
  }

  lemma TellsMore(history: seq<Move>, current: Status, next: Status)
    requires Tells(history, current) && Follows(current, next)
    ensures Tells(history + [Move(Some(current), next)], next)
  {
  }

  lemma AuditedUpdate(rows: map<nat, Row>, audit: seq<AuditEntry>, id: nat, row: Row)
    requires Audited(rows, audit) && id in rows && Follows(rows[id].status, row.status)
    ensures Audited(rows[id := row], audit + [StatusEntry(id, rows[id], row)])
  {
    var entry := StatusEntry(id, rows[id], row);
    forall other | other in rows ensures true == Tells(History(audit + [entry], other), rows[id := row][other].status) {
      HistoryAppend(audit, entry, other);
      if other == id {
        TellsMore(History(audit, id), rows[id].status, row.status);
      } else {
        assert History(audit, other) + [] == History(audit, other);
      }
    }
  }

  lemma {:induction false} NoEntries(audit: seq<AuditEntry>, id: nat)
    requires forall e <- audit :: e.taskId != id
    ensures History(audit, id) == []
  {
    if |audit| > 0 {
      NoEntries(audit[..|audit| - 1], id);
    }
  }

  lemma AuditedCreate(rows: map<nat, Row>, audit: seq<AuditEntry>, id: nat, row: Row)
    requires Audited(rows, audit) && id !in rows && row.status == Received
    ensures Audited(rows[id := row], audit + [AuditEntry(id, TaskCreated, None, Some(Received))])
  {
    var entry := AuditEntry(id, TaskCreated, None, Some(Received));
    NoEntries(audit, id);
    forall other | other in rows[id := row]
      ensures true == Tells(History(audit + [entry], other), rows[id := row][other].status) {
      HistoryAppend(audit, entry, other);
      assert other != id ==> History(audit, other) + [] == History(audit, other);
    }
  }

  lemma AuditedResult(rows: map<nat, Row>, audit: seq<AuditEntry>, id: nat)
    requires Audited(rows, audit) && id in rows
    ensures Audited(rows, audit + [AuditEntry(id, ReviewResultCreated, None, None)])
  {
    var entry := AuditEntry(id, ReviewResultCreated, None, None);
    forall other | other in rows ensures true == Tells(History(audit + [entry], other), rows[other].status) {
      HistoryAppend(audit, entry, other);
      assert History(audit, other) + [] == History(audit, other);
    }
  }

  class Store {
    var rows: map<nat, Row>
    var deliveryIds: map<string, nat>
    var deliveries: map<nat, Delivery>
    var results: map<nat, string>
    var audit: seq<AuditEntry>
    var nextId: nat

    /** Keys are consistent, and the audit log tells the story of every row. */
    ghost predicate Valid()
      reads this
    {
      && nextId > 0
      && (forall id <- rows :: 0 < id < nextId)
      && Audited(rows, audit)
      && (forall d <- deliveryIds :: deliveryIds[d] in rows)
      && deliveries.Keys <= rows.Keys
      && results.Keys <= rows.Keys
    }

    constructor ()
      ensures Valid()
      ensures rows == map[] && deliveryIds == map[] && deliveries == map[] && results == map[] && audit == []
    {
      rows, deliveryIds, deliveries, results, audit, nextId := map[], map[], map[], map[], [], 1;
    }

    /** The end of a transaction that found the row: its write and the audit entry, or nothing. */
    method Commit(id: nat, update: Update)
      requires Valid() && id in rows
      requires update.Changed? ==> Follows(rows[id].status, update.row.status)
      modifies this`rows, this`audit
      ensures Valid()
      ensures rows == if update.Changed? then old(rows)[id := update.row] else old(rows)
      ensures audit == if update.Changed? then old(audit) + [StatusEntry(id, old(rows)[id], update.row)] else old(audit)
    {
      if update.Changed? {
        AuditedUpdate(rows, audit, id, update.row);
        audit := audit + [StatusEntry(id, rows[id], update.row)];
        rows := rows[id := update.row];
      }
    }

    /** A new row unless the webhook delivery is known; in both cases the task's ID. */
    method CreateTask(input: NewTask, freshDeliveryId: string, now: int) returns (id: nat, created: bool)
      requires Valid()
      requires input.deliveryId == "" ==> freshDeliveryId !in deliveryIds
      modifies this`rows, this`deliveryIds, this`audit, this`nextId
      ensures Valid() && id in rows
      ensures var key := if input.deliveryId == "" then freshDeliveryId else input.deliveryId;
              if key in old(deliveryIds) then
                !created && id == old(deliveryIds)[key] && unchanged(this)
              else
                && created && id !in old(rows)
                && rows == old(rows)[id := NewRow(input.commitSHA, now)]
                && deliveryIds == old(deliveryIds)[key := id]
                && audit == old(audit) + [AuditEntry(id, TaskCreated, None, Some(Received))]
    {
      var key := if input.deliveryId == "" then freshDeliveryId else input.deliveryId;
      if key in deliveryIds {
        return deliveryIds[key], false;
      }
      id, created := nextId, true;
      AuditedCreate(rows, audit, id, NewRow(input.commitSHA, now));
      rows := rows[id := NewRow(input.commitSHA, now)];
      deliveryIds := deliveryIds[key := id];
      audit := audit + [AuditEntry(id, TaskCreated, None, Some(Received))];
      nextId := nextId + 1;
    }

    method UpdateTaskStatus(id: nat, status: Status, taskError: string, now: int) returns (error: Option<Error>)
      requires Valid() && (status == Queued || status == Failed || status == Done || status == Superseded)
      modifies this`rows, this`audit
      ensures Valid()
      ensures error == if id !in old(rows) then Some(NotFound)
                       else if UpdateStatus(old(rows)[id], status, taskError, now).Refused? then Some(TransitionFailed)
                       else None
      ensures id !in old(rows) ==> unchanged(this)
      ensures id in old(rows) ==> Committed(old(rows), old(audit), id, UpdateStatus(old(rows)[id], status, taskError, now))
    {
      if id !in rows {
        return Some(NotFound);
      }
      var update := UpdateStatus(rows[id], status, taskError, now);
      Commit(id, update);
      return if update.Refused? then Some(TransitionFailed) else None;
    }

    /** The row and the audit log are those of before, with exactly this update of row `id`. */
    ghost predicate Committed(rows0: map<nat, Row>, audit0: seq<AuditEntry>, id: nat, update: Update)
      requires id in rows0
      reads this
    {
      && rows == (if update.Changed? then rows0[id := update.row] else rows0)
      && audit == (if update.Changed? then audit0 + [StatusEntry(id, rows0[id], update.row)] else audit0)
    }

    method ClaimTask(id: nat, attempt: nat, now: int) returns (claimed: bool)
      requires Valid()
      modifies this`rows, this`audit
      ensures Valid()
      ensures claimed <==> id in old(rows) && Claimable(old(rows)[id], attempt, now)
      ensures id !in old(rows) ==> unchanged(this)
      ensures id in old(rows) ==> Committed(old(rows), old(audit), id, Claim(old(rows)[id], attempt, now))
    {
      if id !in rows {
        return false;
      }
      var update := Claim(rows[id], attempt, now);
      Commit(id, update);
      return update.Changed?;
    }

    method MarkTaskRetry(id: nat, attempt: nat, maxAttempts: nat, taskError: string, nextRetryAt: int, now: int)
      returns (error: Option<Error>)
      requires Valid()
      modifies this`rows, this`audit
      ensures Valid()
      ensures error == if id !in old(rows) then Some(NotFound)
                       else if old(rows)[id].status != Running then Some(TransitionFailed) else None
      ensures id !in old(rows) ==> unchanged(this)
      ensures id in old(rows) ==> Committed(old(rows), old(audit), id,
                                            MarkRetry(old(rows)[id], attempt, maxAttempts, taskError, nextRetryAt, now))
    {
      if id !in rows {
        return Some(NotFound);
      }
      var update := MarkRetry(rows[id], attempt, maxAttempts, taskError, nextRetryAt, now);
      Commit(id, update);
      return if update.Refused? then Some(TransitionFailed) else None;
    }

    method MarkTaskDeadLetter(id: nat, attempt: nat, maxAttempts: nat, taskError: string, now: int)
      returns (error: Option<Error>)
      requires Valid()
      modifies this`rows, this`audit
      ensures Valid()
      ensures error == if id !in old(rows) then Some(NotFound)
                       else if old(rows)[id].status != Running then Some(TransitionFailed) else None
      ensures id !in old(rows) ==> unchanged(this)
      ensures id in old(rows) ==> Committed(old(rows), old(audit), id,
                                            MarkDeadLetter(old(rows)[id], attempt, maxAttempts, taskError, now))
    {
      if id !in rows {
        return Some(NotFound);
      }
      var update := MarkDeadLetter(rows[id], attempt, maxAttempts, taskError, now);
      Commit(id, update);
      return if update.Refused? then Some(TransitionFailed) else None;
    }

    method RequeueTask(id: nat, now: int) returns (error: Option<Error>)
      requires Valid()
      modifies this`rows, this`audit
      ensures Valid()
      ensures error == if id !in old(rows) then Some(NotFound)
                       else if old(rows)[id].status != DeadLetter then Some(TransitionFailed) else None
      ensures id !in old(rows) ==> unchanged(this)
      ensures id in old(rows) ==> Committed(old(rows), old(audit), id, Requeue(old(rows)[id], now))
    {
      if id !in rows {
        return Some(NotFound);
      }
      var update := Requeue(rows[id], now);
      Commit(id, update);
      return if update.Refused? then Some(TransitionFailed) else None;
    }

    /** Moves `updated_at` without an audit entry. */
    method TouchQueuedTask(id: nat, updatedAt: int) returns (error: Option<Error>)
      requires Valid()
      modifies this`rows
      ensures Valid()
      ensures error.None? <==> id in old(rows) && TouchQueued(old(rows)[id], updatedAt).Changed?
      ensures rows == if error.None? then old(rows)[id := old(rows)[id].(updatedAt := updatedAt)] else old(rows)
    {
      if id !in rows || TouchQueued(rows[id], updatedAt).Refused? {
        return Some(TransitionFailed);
      }
      rows := rows[id := rows[id].(updatedAt := updatedAt)];
      return None;
    }

    // ----- delivery snapshots and results -----

    /** Inserts the delivery snapshot once; `token` is the random marker drawn for it. */
    method PrepareReviewDelivery(id: nat, commitSHA: string, token: string) returns (r: Result<Delivery>)
      requires Valid()
      modifies this`deliveries
      ensures Valid()
      ensures r.Ok? <==> id in rows && commitSHA != ""
      ensures r.Err? ==> deliveries == old(deliveries)
      ensures r.Ok? ==> id in deliveries && r.value == deliveries[id]
      ensures r.Ok? ==> deliveries == if id in old(deliveries) then old(deliveries)
                          else old(deliveries)[id := Delivery(
                                 if rows[id].commitSHA != "" then rows[id].commitSHA else commitSHA, token, 0)]
    {
      if id == 0 || commitSHA == "" {
        return Err(Invalid);
      }
      if id !in rows {
        return Err(NotFound);
      }
      if id !in deliveries {
        var commit := if rows[id].commitSHA != "" then rows[id].commitSHA else commitSHA;
        deliveries := deliveries[id := Delivery(commit, token, 0)];
      }
      return Ok(deliveries[id]);
    }

    /** At most one result per task: the unique key refuses a second one. `result` stands for what the row holds. */
    method CreateReviewResult(id: nat, result: string) returns (r: Result<nat>)
      requires Valid()
      modifies this`results, this`audit
      ensures Valid()
      ensures r.Ok? <==> id in rows && id !in old(results)
      ensures r.Ok? ==>
                && results == old(results)[id := result]
                && audit == old(audit) + [AuditEntry(id, ReviewResultCreated, None, None)]
      ensures r.Err? ==> unchanged(this)
    {
      if id !in rows {
        return Err(NotFound);
      }
      if id in results {
        return Err(Duplicate);
      }
      AuditedResult(rows, audit, id);
      results := results[id := result];
      audit := audit + [AuditEntry(id, ReviewResultCreated, None, None)];
      return Ok(id);
    }

    /** Records the published review and completes the task; a recorded ID is never replaced by another. */
    method MarkReviewDelivered(id: nat, reviewId: nat, now: int) returns (error: Option<Error>)
      requires Valid()
      modifies this`rows, this`deliveries, this`audit
      ensures Valid()
      ensures error.None? <==>
                && reviewId != 0 && id in old(rows) && (old(rows)[id].status == Running || old(rows)[id].status == Done)
                && id in old(deliveries) && (old(deliveries)[id].reviewId == 0 || old(deliveries)[id].reviewId == reviewId)
      ensures error.Some? ==> unchanged(this)
      ensures error.None? ==>
                && deliveries == old(deliveries)[id := old(deliveries)[id].(reviewId := reviewId)]
                && Committed(old(rows), old(audit), id,
                             MarkDelivered(old(rows)[id], old(deliveries)[id].reviewId == reviewId, now))
                && rows[id].status == Done
    {
      if reviewId == 0 {
        return Some(Invalid);
      }
      if id !in rows {
        return Some(NotFound);
      }
      var status := rows[id].status;
      if status != Running && status != Done {
        return Some(TransitionFailed);
      }
      if id !in deliveries {
        return Some(NotFound);
      }
      var storedId := deliveries[id].reviewId;
      if storedId != 0 && storedId != reviewId {
        return Some(Conflict);
      }
      if storedId == reviewId && status == Done {
        assert deliveries[id := deliveries[id].(reviewId := reviewId)] == deliveries;
        return None;
      }
      var update := MarkDelivered(rows[id], false, now);
      Commit(id, update);
      deliveries := deliveries[id := deliveries[id].(reviewId := reviewId)];
      return None;
    }
  }
}
