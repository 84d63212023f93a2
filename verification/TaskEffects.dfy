/**
 * What the steps of TaskProtocol do to the task's row, in statuses and fields: an independent reading of the transactions
 * the steps are made of (internal/store/mysql.go, internal/store/review_delivery.go, internal/worker/worker.go).
 */
module TaskEffects {
  import opened Collections
  import opened TaskRows
  import opened TaskProtocol

  /** Nothing but status, error, attempts, next retry and time of the row is ever written. */
  predicate SameTask(found: Row, row: Row) {
    row.commitSHA == found.commitSHA
  }

  predicate SameAttempts(found: Row, row: Row) {
    SameTask(found, row) && row.attemptCount == found.attemptCount && row.maxAttempts == found.maxAttempts
  }

  predicate BecomesQueued(found: Row, row: Row) {
    if found.status == Superseded then row == found
    else row.status == Queued && row.error.None? && row.nextRetryAt == found.nextRetryAt && SameAttempts(found, row)
  }

  predicate BecomesRunning(found: Row, row: Row, attempt: nat) {
    && row.status == Running && row.error.None? && row.nextRetryAt == found.nextRetryAt && SameTask(found, row)
    && row.attemptCount >= found.attemptCount && row.attemptCount >= attempt && row.maxAttempts == found.maxAttempts
    && (row.attemptCount == found.attemptCount || row.attemptCount == attempt)
  }

  /** A reviewed task is done, without error - unless it is done already, or superseded, which is final. */
  predicate BecomesDone(found: Row, row: Row) {
    if found.status == Superseded || found.status == Done then row == found
    else row.status == Done && row.error.None? && row.nextRetryAt == found.nextRetryAt && SameAttempts(found, row)
  }

  /** A task whose review was published is done, unless somebody else has given it another status than running. */
  predicate BecomesDelivered(found: Row, row: Row) {
    if found.status == Running then row.status == Done && row.error.None? && row.nextRetryAt.None? && SameAttempts(found, row)
    else if found.status == Done then row.status == Done && SameAttempts(found, row)
    else row == found
  }

  /** Only a running task can be superseded, once. */
  predicate BecomesSuperseded(found: Row, row: Row) {
    if found.status == Running then
      row.status == Superseded && row.error == Some(ERROR) && row.nextRetryAt.None? && SameAttempts(found, row)
    else found.status == Superseded && row == found
  }

  predicate BecomesFailed(found: Row, row: Row) {
    if found.status == Superseded then row == found
    else row.status == Failed && row.error == Some(ERROR) && row.nextRetryAt == found.nextRetryAt && SameAttempts(found, row)
  }

  /** Only a running task is sent back, with the attempt to come and the time it is due. */
  predicate BecomesRetrying(found: Row, row: Row, attempt: nat, maxAttempts: nat, at: int) {
    if found.status == Running then
      && row.status == Retrying && row.error == Some(ERROR) && row.nextRetryAt == Some(at) && SameTask(found, row)
      && row.attemptCount == attempt && row.maxAttempts == maxAttempts
    else row == found
  }

  predicate BecomesDead(found: Row, row: Row, attempt: nat, maxAttempts: nat) {
    if found.status == Running then
      && row.status == DeadLetter && row.error == Some(ERROR) && row.nextRetryAt.None? && SameTask(found, row)
      && row.attemptCount == attempt && row.maxAttempts == maxAttempts
    else row == found
  }

  predicate Touched(found: Row, row: Row) {
    row == found || ((found.status == Queued || found.status == Received) && row == found.(updatedAt := row.updatedAt))
  }

  predicate Requeued(found: Row, row: Row) {
    && found.status == DeadLetter && row.status == Queued && row.attemptCount == 0 && row.nextRetryAt.None?
    && row.error == found.error && row.maxAttempts == found.maxAttempts && SameTask(found, row)
  }

  /** A row is written with the time of the write. */
  predicate Stamped(found: Row, row: Row, now: int) {
    row == found || row.updatedAt == now
  }

  /** What a step makes of the row it finds; `h` is the worker that holds the task, if the step is its own. */
  predicate MovesRow(cfg: Config, l: Label, h: Option<Holder>, found: Row, row: Row) {
    match l
    case HookQueue(written) => row == found || (written && BecomesQueued(found, row))
    case HookFail(written) => if written then BecomesFailed(found, row) else row == found
    case Start(m) => BecomesRunning(found, row, m.attempt)
    case Deliver(_) => BecomesDelivered(found, row)
    case FinishDone(written) => if written then BecomesDone(found, row) else row == found
    case FinishSuperseded => BecomesSuperseded(found, row)
    case FinishMarked(written) =>
      if !written then row == found
      else h.Some? && (match h.value.stage
                       case Reviewing => false
                       case RetryPublished(at) => BecomesRetrying(found, row, h.value.next, cfg.maxAttempts, at)
                       case DeadPublished => BecomesDead(found, row, h.value.next, cfg.maxAttempts)
                       case PublishFailed => BecomesFailed(found, row))
    case RecoverMark(mark, written) =>
      if written then BecomesRetrying(found, row, mark.attempt, cfg.maxAttempts, mark.nextRetryAt) else row == found
    case RecoverDead(reading) => BecomesDead(found, row, reading + 1, cfg.maxAttempts)
    case RecoverFailed(_) => BecomesFailed(found, row)
    case TouchQueue => Touched(found, row)
    case RequeueDead => Requeued(found, row)
    case _ => row == found
  }

  /** A new task is received, for its commit and without attempts. */
  predicate IsNew(row: Row, commitSHA: string, now: int) {
    && row.commitSHA == commitSHA && row.status == Received && row.error.None? && row.attemptCount == 0
    && row.maxAttempts == 3 && row.nextRetryAt.None? && row.updatedAt == now
  }

  /** That, and the time; without a row, a step creates it or leaves it absent. */
  predicate Moves(cfg: Config, l: Label, s: Sys, t: Sys) {
    if s.row.Some? then
      t.row.Some? && MovesRow(cfg, l, s.holder, s.row.value, t.row.value) && Stamped(s.row.value, t.row.value, s.now)
    else if l.HookCreate? then t.row.Some? && IsNew(t.row.value, l.commitSHA, s.now)
    else t.row.None?
  }

  // ----- the transactions, read so -----

  /** Which rows the transactions refuse. */
  lemma RefusalsAre(row: Row, attempt: nat, maxAttempts: nat, taskError: string, at: int, recorded: bool, now: int)
    ensures !Claim(row, attempt, now).Refused? <==>
            || ((row.status == Queued || row.status == Retrying) && !(row.nextRetryAt.Some? && row.nextRetryAt.value > now))
            || (row.status == Running && attempt > row.attemptCount)
    ensures MarkRetry(row, attempt, maxAttempts, taskError, at, now).Refused? <==> row.status != Running
    ensures MarkDeadLetter(row, attempt, maxAttempts, taskError, now).Refused? <==> row.status != Running
    ensures MarkDelivered(row, recorded, now).Refused? <==> row.status != Running && row.status != Done
    ensures Requeue(row, now).Refused? <==> row.status != DeadLetter
    ensures TouchQueued(row, now).Refused? <==> (row.status != Received && row.status != Queued) || row.updatedAt == now
    ensures forall status ::
              UpdateStatus(row, status, taskError, now).Refused? <==>
              if status == Superseded then row.status != Running && row.status != Superseded else row.status == Superseded
  {
  }

  lemma ErrorIsText()
    ensures Message(ERROR) == Some(ERROR) && Message("") == None
  {
  }

  lemma StatusMovesRow(row: Row, now: int)
    ensures var row' := After(row, UpdateStatus(row, Queued, "", now)); BecomesQueued(row, row') && Stamped(row, row', now)
    ensures var row' := After(row, UpdateStatus(row, Done, "", now)); BecomesDone(row, row') && Stamped(row, row', now)
    ensures var row' := After(row, UpdateStatus(row, Failed, ERROR, now)); BecomesFailed(row, row') && Stamped(row, row', now)
  {
    ErrorIsText();
    hide Message;
  }

  lemma SupersedingMovesRow(row: Row, now: int)
    ensures UpdateStatus(row, Superseded, ERROR, now).Refused? <==> row.status != Running && row.status != Superseded
    ensures row.status == Running || row.status == Superseded ==>
              var row' := After(row, UpdateStatus(row, Superseded, ERROR, now));
              BecomesSuperseded(row, row') && Stamped(row, row', now)
  {
    ErrorIsText();
    hide Message;
  }

  lemma RetryMovesRow(row: Row, attempt: nat, maxAttempts: nat, at: int, now: int)
    ensures var row' := After(row, MarkRetry(row, attempt, maxAttempts, ERROR, at, now));
            BecomesRetrying(row, row', attempt, maxAttempts, at) && Stamped(row, row', now)
    ensures var row' := After(row, MarkDeadLetter(row, attempt, maxAttempts, ERROR, now));
            BecomesDead(row, row', attempt, maxAttempts) && Stamped(row, row', now)
  {
  }

  lemma DeliveryMovesRow(row: Row, recorded: bool, now: int)
    ensures var row' := After(row, MarkDelivered(row, recorded, now)); BecomesDelivered(row, row') && Stamped(row, row', now)
  {
  }

  lemma ClaimMovesRow(row: Row, attempt: nat, now: int)
    requires Claimable(row, attempt, now)
    ensures var row' := After(row, Claim(row, attempt, now)); BecomesRunning(row, row', attempt) && Stamped(row, row', now)
  {
  }

  lemma TouchMovesRow(row: Row, now: int)
    ensures var row' := After(row, TouchQueued(row, now)); Touched(row, row') && Stamped(row, row', now)
    ensures !Requeue(row, now).Refused? ==> var row' := After(row, Requeue(row, now)); Requeued(row, row') && Stamped(row, row', now)
  {
  }

  lemma StaysStamped(row: Row, now: int)
    ensures Stamped(row, row, now)
  {
  }

  // ----- the steps -----

  lemma HookMovesRow(cfg: Config, s: Sys, l: Label)
    requires s.row.Some? && HookLabel(l) && HookStep(s, l).Some?
    ensures true == Moves(cfg, l, s, HookStep(s, l).value)
  {
    hide UpdateStatus, BecomesQueued, BecomesFailed, BecomesDone, Stamped;
    StatusMovesRow(s.row.value, s.now);
    StaysStamped(s.row.value, s.now);
  }

  lemma DeliveryStepMovesRow(cfg: Config, s: Sys, l: Label)
    requires s.row.Some? && DeliveryLabel(l) && DeliveryStep(s, l).Some?
    ensures true == Moves(cfg, l, s, DeliveryStep(s, l).value)
  {
    hide Claimable, BecomesRunning, Stamped, Claim, Early, Stale, Terminal, Delivered;
    StaysStamped(s.row.value, s.now);
    if l.Start? {
      StartClaims(s, l.m);
      ClaimMovesRow(s.row.value, l.m.attempt, s.now);
    }
  }

  lemma StartClaims(s: Sys, m: Msg)
    requires DeliveryStep(s, Start(m)).Some?
    ensures s.row.Some? && Claimable(s.row.value, m.attempt, s.now)
  {
  }

  lemma WorkerMovesRow(cfg: Config, s: Sys, l: Label)
    requires s.row.Some? && WorkerLabel(l) && !l.FinishMarked? && WorkerStep(cfg, s, l).Some?
    ensures true == Moves(cfg, l, s, WorkerStep(cfg, s, l).value)
  {
    hide UpdateStatus, MarkDelivered, BecomesQueued, BecomesDone, BecomesFailed, BecomesSuperseded, BecomesDelivered, Stamped;
    StaysStamped(s.row.value, s.now);
    match l {
      case Deliver(recorded) => DeliveryMovesRow(s.row.value, recorded, s.now);
      case FinishDone(_) => StatusMovesRow(s.row.value, s.now);
      case FinishSuperseded => SupersedingMovesRow(s.row.value, s.now);
      case _ =>
    }
  }

  lemma MarkMovesRow(cfg: Config, s: Sys, written: bool)
    requires s.row.Some? && WorkerStep(cfg, s, FinishMarked(written)).Some?
    ensures true == Moves(cfg, FinishMarked(written), s, WorkerStep(cfg, s, FinishMarked(written)).value)
  {
    hide UpdateStatus, MarkRetry, MarkDeadLetter, BecomesQueued, BecomesDone, BecomesFailed, BecomesRetrying, BecomesDead, Stamped;
    var row, h, now := s.row.value, s.holder.value, s.now;
    StaysStamped(row, now);
    StatusMovesRow(row, now);
    RetryMovesRow(row, h.next, cfg.maxAttempts, if h.stage.RetryPublished? then h.stage.nextRetryAt else 0, now);
  }

  predicate WritesRecovery(l: Label) {
    l.RecoverMark? || l.RecoverDead? || l.RecoverFailed?
  }

  lemma RecoverMarkMovesRow(cfg: Config, s: Sys, mark: Mark, written: bool)
    requires s.row.Some? && RecoveryStep(cfg, s, RecoverMark(mark, written)).Some?
    ensures true == Moves(cfg, RecoverMark(mark, written), s, RecoveryStep(cfg, s, RecoverMark(mark, written)).value)
  {
    hide MarkRetry, BecomesRetrying, BecomesDead, Stamped;
    StaysStamped(s.row.value, s.now);
    RetryMovesRow(s.row.value, mark.attempt, cfg.maxAttempts, mark.nextRetryAt, s.now);
  }

  lemma RecoverDeadMovesRow(cfg: Config, s: Sys, reading: nat)
    requires s.row.Some? && RecoveryStep(cfg, s, RecoverDead(reading)).Some?
    ensures true == Moves(cfg, RecoverDead(reading), s, RecoveryStep(cfg, s, RecoverDead(reading)).value)
  {
    hide MarkDeadLetter, BecomesRetrying, BecomesDead, Stamped;
    RetryMovesRow(s.row.value, reading + 1, cfg.maxAttempts, 0, s.now);
  }

  lemma RecoverFailedMovesRow(cfg: Config, s: Sys, reading: nat)
    requires s.row.Some? && RecoveryStep(cfg, s, RecoverFailed(reading)).Some?
    ensures true == Moves(cfg, RecoverFailed(reading), s, RecoveryStep(cfg, s, RecoverFailed(reading)).value)
  {
    hide UpdateStatus, BecomesQueued, BecomesDone, BecomesFailed, Stamped;
    StatusMovesRow(s.row.value, s.now);
  }

  lemma QueueMovesRow(cfg: Config, s: Sys, l: Label)
    requires s.row.Some? && RecoveryLabel(l) && !WritesRecovery(l) && RecoveryStep(cfg, s, l).Some?
    ensures true == Moves(cfg, l, s, RecoveryStep(cfg, s, l).value)
  {
    hide Requeue, TouchQueued, Listed, Stamped, Touched, Requeued;
    StaysStamped(s.row.value, s.now);
    TouchMovesRow(s.row.value, s.now);
  }

  /** Only the clock moves the time, and forward. */
  lemma TimeGoesOn(cfg: Config, s: Sys, l: Label)
    requires Step(cfg, s, l).Some?
    ensures Step(cfg, s, l).value.now >= s.now
    ensures !l.Tick? ==> Step(cfg, s, l).value.now == s.now
  {
    hide UpdateStatus, MarkRetry, MarkDeadLetter, MarkDelivered, Requeue, TouchQueued, Claim, Claimable, Terminal, Early, Stale;
  }

  /** Every step that finds a row moves it as said. */
  lemma StepMovesRow(cfg: Config, s: Sys, l: Label)
    requires Step(cfg, s, l).Some?
    ensures Moves(cfg, l, s, Step(cfg, s, l).value)
  {
    hide HookStep, DeliveryStep, WorkerStep, RecoveryStep, MovesRow, Stamped;
    if s.row.Some? {
      if l.Tick? {
        TickMovesRow(cfg, s, l.d);
      } else if HookLabel(l) {
        HookMovesRow(cfg, s, l);
      } else if DeliveryLabel(l) {
        DeliveryStepMovesRow(cfg, s, l);
      } else if l.FinishMarked? {
        MarkMovesRow(cfg, s, l.written);
      } else if WorkerLabel(l) {
        WorkerMovesRow(cfg, s, l);
      } else if l.RecoverMark? {
        RecoverMarkMovesRow(cfg, s, l.mark, l.written);
      } else if l.RecoverDead? {
        RecoverDeadMovesRow(cfg, s, l.reading);
      } else if l.RecoverFailed? {
        RecoverFailedMovesRow(cfg, s, l.reading);
      } else {
        QueueMovesRow(cfg, s, l);
      }
    } else {
      NothingMoves(cfg, s, l);
    }
  }

  /** Only the mark after a publish depends on who makes it. */
  lemma MovesAnyway(cfg: Config, l: Label, h: Option<Holder>, found: Row, row: Row)
    requires MovesRow(cfg, l, h, found, row) && !l.FinishMarked?
    ensures true == MovesRow(cfg, l, None, found, row)
  {
  }

  lemma NothingMoves(cfg: Config, s: Sys, l: Label)
    requires s.row.None? && Step(cfg, s, l).Some?
    ensures Moves(cfg, l, s, Step(cfg, s, l).value)
  {
  }

  lemma TickMovesRow(cfg: Config, s: Sys, d: nat)
    ensures Moves(cfg, Tick(d), s, s.(now := s.now + d))
  {
  }
}
