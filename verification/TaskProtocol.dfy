/**
 * One task's way through webhook, queue, worker, store and recovery, as a machine whose steps are the atomic effects of
 * the program (internal/webhook/handler.go, internal/worker/worker.go, internal/taskapi/handler.go). Every external
 * choice is part of the step's label: outcomes of publishes and writes, delays, crashes, redeliveries, the clock.
 *
 * Assumptions, argued where they are discharged: at most one live worker is between claim and lock release (module
 * PrLock); a worker's first read, its lock and its claim act as one step; a write that times out has not happened.
 *
 * A recovery's publish is two steps, since the retry is on its way while the recovery still waits for the broker's
 * confirmation. The publishes of the webhook and of the worker that holds the task are one step each, whose label tells
 * how the confirmation will turn out: until the publisher goes on, the outcome is seen by nobody else.
 */
module TaskProtocol {
  import opened Collections
  import opened TaskRows

  /**
   * `minDelay` is the smallest delay a retry is published with; `publishTimeout` bounds the wait for the broker's
   * confirmation and `markTimeout` the write after it. A running row is listed once it is older than `staleAfter`, by
   * `processes` worker processes that each handle one listed row at a time.
   */
  datatype Config = Config(
    maxAttempts: nat, minDelay: nat, publishTimeout: nat, markTimeout: nat, staleAfter: nat, processes: nat)

  predicate ValidConfig(cfg: Config) {
    cfg.maxAttempts > 0 && cfg.minDelay > 0 && cfg.processes > 0
  }

  /** A message in the main or the retry queue; the retry queue holds it back until `readyAt`. */
  datatype Msg = Msg(attempt: nat, readyAt: int)

  /** The live worker between its claim and its lock release. `next` is the attempt a failure would lead to. */
  datatype Stage = Reviewing | RetryPublished(nextRetryAt: int) | DeadPublished | PublishFailed

  datatype Holder = Holder(msg: Msg, next: nat, stage: Stage)

  /** The webhook request that created the task: about to mark it queued, to publish it, or to mark it failed. */
  datatype Hook = NoHook | HookCreated | HookQueued | HookFailing

  /**
   * A recovery that has sent a retry and waits for its confirmation, or has it and will mark the row; each at the latest
   * at its deadline.
   */
  datatype Mark = Mark(attempt: nat, nextRetryAt: int, confirmed: bool, deadline: int)

  /**
   * `toAck` are deliveries decided on but not yet acknowledged; `readings` the attempt counts that scans have read and
   * whose recoveries are still to come; `claims` the attempt counts claimed since a requeue.
   */
  datatype Sys = Sys(
    now: int, row: Option<Row>, hook: Hook, bag: multiset<Msg>, toAck: multiset<Msg>,
    holder: Option<Holder>, readings: multiset<nat>, marks: multiset<Mark>, claims: seq<nat>)

  const INIT := Sys(0, None, NoHook, multiset{}, multiset{}, None, multiset{}, multiset{}, [])

  datatype Label =
    | Tick(d: nat)
    | HookCreate(commitSHA: string)
    | HookQueue(written: bool)
    | HookPublish(sent: bool, confirmed: bool)
    | HookFail(written: bool)
    | HookCrash
    | Start(m: Msg)
    | Drop(m: Msg)
    | Defer(m: Msg, readyAt: int)
    | DeferDuplicate(m: Msg, readyAt: int)
    | Ack(m: Msg)
    | Redeliver(m: Msg)
    | Crash
    | Deliver(recorded: bool)
    | FinishDone(written: bool)
    | FinishSuperseded
    | PublishRetry(sent: bool, confirmed: bool, delay: nat, nextRetryAt: int)
    | PublishDead(confirmed: bool)
    | FinishMarked(written: bool)
    | Scan
    | RecoverSkip(reading: nat)
    | RecoverRetry(reading: nat, delay: nat, nextRetryAt: int)
    | RecoverConfirm(mark: Mark)
    | RecoverMark(mark: Mark, written: bool)
    | RecoverForget(mark: Mark)
    | RecoverDead(reading: nat)
    | RecoverFailed(reading: nat)
    | PublishMain
    | TouchQueue
    | RequeueDead

  predicate HookLabel(l: Label) {
    l.HookCreate? || l.HookQueue? || l.HookPublish? || l.HookFail? || l.HookCrash?
  }

  predicate DeliveryLabel(l: Label) {
    l.Start? || l.Drop? || l.Defer? || l.DeferDuplicate? || l.Ack? || l.Redeliver?
  }

  predicate WorkerLabel(l: Label) {
    l.Crash? || l.Deliver? || l.FinishDone? || l.FinishSuperseded? || l.PublishRetry? || l.PublishDead? || l.FinishMarked?
  }

  predicate RecoveryLabel(l: Label) {
    !l.Tick? && !HookLabel(l) && !DeliveryLabel(l) && !WorkerLabel(l)
  }

  const ERROR := "review failed"

  // ----- guards -----

  predicate Terminal(row: Row) {
    row.status == Done || row.status == DeadLetter || row.status == Failed || row.status == Superseded
  }

  predicate Delivered(s: Sys, m: Msg) {
    s.row.Some? && m in s.bag && m.readyAt <= s.now
  }

  /** A retrying row whose time has not come. */
  predicate Early(row: Row, now: int) {
    row.status == Retrying && !Due(row, now)
  }

  /** A running row that already counts the message's attempt. */
  predicate Stale(row: Row, m: Msg) {
    row.status == Running && m.attempt <= row.attemptCount
  }

  // ----- effects on parts of the state -----

  function Write(s: Sys, update: Update): Sys
    requires s.row.Some?
  {
    s.(row := Some(TaskRows.After(s.row.value, update)))
  }

  function Finish(s: Sys): Sys
    requires s.holder.Some?
  {
    s.(holder := None, toAck := s.toAck + multiset{s.holder.value.msg})
  }

  // ----- webhook -----

  function HookStep(s: Sys, l: Label): Option<Sys>
    requires HookLabel(l)
  {
    match l
    case HookCreate(commitSHA) =>
      if s.row.Some? then None else Some(s.(row := Some(NewRow(commitSHA, s.now)), hook := HookCreated))
    case HookQueue(written) =>
      if s.row.None? || s.hook != HookCreated then None else
      var u := UpdateStatus(s.row.value, Queued, "", s.now);
      if written && !u.Refused? then Some(Write(s, u).(hook := HookQueued)) else Some(s.(hook := NoHook))
    case HookPublish(sent, confirmed) =>
      if s.row.None? || s.hook != HookQueued || (confirmed && !sent) then None else
      Some(s.(bag := if sent then s.bag + multiset{Msg(0, s.now)} else s.bag,
              hook := if confirmed then NoHook else HookFailing))
    case HookFail(written) =>
      if s.row.None? || s.hook != HookFailing then None else
      Some((if written then Write(s, UpdateStatus(s.row.value, Failed, ERROR, s.now)) else s).(hook := NoHook))
    case HookCrash => Some(s.(hook := NoHook))
  }

  // ----- delivery of a message to a worker -----

  function DeliveryStep(s: Sys, l: Label): Option<Sys>
    requires DeliveryLabel(l)
  {
    match l
    case Start(m) =>
      // read, PR lock and claim
      if !Delivered(s, m) || s.holder.Some? then None else
      var row := s.row.value;
      if Terminal(row) || Early(row, s.now) || Stale(row, m) || !Claimable(row, m.attempt, s.now) then None else
      var claimed := TaskRows.After(row, Claim(row, m.attempt, s.now));
      Some(s.(row := Some(claimed), bag := s.bag - multiset{m},
              holder := Some(Holder(m, claimed.attemptCount + 1, Reviewing)),
              claims := s.claims + [claimed.attemptCount]))
    case Drop(m) =>
      // acknowledged without work: nothing to do, or the claim is refused
      if !Delivered(s, m) || Early(s.row.value, s.now) then None else
      var row := s.row.value;
      if Terminal(row) || Stale(row, m) || !Claimable(row, m.attempt, s.now) then
        Some(s.(bag := s.bag - multiset{m}, toAck := s.toAck + multiset{m}))
      else None
    case Defer(m, readyAt) =>
      // republished because it is early or the PR is busy, then acknowledged
      if !Delivered(s, m) || Terminal(s.row.value) || Stale(s.row.value, m) then None else
      Some(s.(bag := s.bag - multiset{m} + multiset{Msg(m.attempt, readyAt)}, toAck := s.toAck + multiset{m}))
    case DeferDuplicate(m, readyAt) =>
      // the republished copy arrived but its confirmation was lost: the original goes back to the queue as well
      if !Delivered(s, m) || Terminal(s.row.value) || Stale(s.row.value, m) then None else
      Some(s.(bag := s.bag + multiset{Msg(m.attempt, readyAt)}))
    case Ack(m) =>
      if m in s.toAck then Some(s.(toAck := s.toAck - multiset{m})) else None
    case Redeliver(m) =>
      // the broker lost sight of a delivery that was not acknowledged
      if m in s.toAck || (s.holder.Some? && s.holder.value.msg == m) then Some(s.(bag := s.bag + multiset{m})) else None
  }

  // ----- the worker after its claim -----

  function WorkerStep(cfg: Config, s: Sys, l: Label): Option<Sys>
    requires WorkerLabel(l)
  {
    if s.row.None? || s.holder.None? then None else
    var row, h := s.row.value, s.holder.value;
    match l
    case Crash => Some(s.(holder := None, bag := s.bag + multiset{h.msg}))
    case Deliver(recorded) =>
      if h.stage != Reviewing then None else Some(Write(s, MarkDelivered(row, recorded, s.now)))
    case FinishDone(written) =>
      if h.stage != Reviewing then None else
      Some(Finish(if written then Write(s, UpdateStatus(row, Done, "", s.now)) else s))
    case FinishSuperseded =>
      var u := UpdateStatus(row, Superseded, ERROR, s.now);
      if h.stage != Reviewing || u.Refused? then None else Some(Finish(Write(s, u)))
    case PublishRetry(sent, confirmed, delay, nextRetryAt) =>
      if h.stage != Reviewing || h.next >= cfg.maxAttempts || delay < cfg.minDelay || (confirmed && !sent) then None else
      Some(s.(bag := if sent then s.bag + multiset{Msg(h.next, s.now + delay)} else s.bag,
              holder := Some(h.(stage := if confirmed then RetryPublished(nextRetryAt) else PublishFailed))))
    case PublishDead(confirmed) =>
      if h.stage != Reviewing || h.next < cfg.maxAttempts then None else
      Some(s.(holder := Some(h.(stage := if confirmed then DeadPublished else PublishFailed))))
    case FinishMarked(written) =>
      match h.stage
      case Reviewing => None
      case RetryPublished(at) =>
        Some(Finish(if written then Write(s, MarkRetry(row, h.next, cfg.maxAttempts, ERROR, at, s.now)) else s))
      case DeadPublished =>
        Some(Finish(if written then Write(s, MarkDeadLetter(row, h.next, cfg.maxAttempts, ERROR, s.now)) else s))
      case PublishFailed =>
        Some(Finish(if written then Write(s, UpdateStatus(row, Failed, ERROR, s.now)) else s))
  }

  // ----- recovery scans and the requeue request -----

  /** The row of a running task that nobody has updated for long. */
  predicate Listed(cfg: Config, row: Row, now: int) {
    row.status == Running && row.updatedAt < now - cfg.staleAfter
  }

  function RecoveryStep(cfg: Config, s: Sys, l: Label): Option<Sys>
    requires RecoveryLabel(l)
  {
    if s.row.None? then None else
    var row := s.row.value;
    match l
    case Scan =>
      if Listed(cfg, row, s.now) && |s.readings| + |s.marks| < cfg.processes then
        Some(s.(readings := s.readings + multiset{row.attemptCount}))
      else None
    case RecoverSkip(reading) =>
      // the process dies, or nothing could be published or written
      if reading !in s.readings then None else Some(s.(readings := s.readings - multiset{reading}))
    case RecoverRetry(reading, delay, nextRetryAt) =>
      if reading !in s.readings || reading + 1 >= cfg.maxAttempts || delay < cfg.minDelay then None else
      Some(s.(readings := s.readings - multiset{reading}, bag := s.bag + multiset{Msg(reading + 1, s.now + delay)},
              marks := s.marks + multiset{Mark(reading + 1, nextRetryAt, false, s.now + cfg.publishTimeout)}))
    case RecoverConfirm(mark) =>
      if mark !in s.marks || mark.confirmed || s.now > mark.deadline then None else
      Some(s.(marks := s.marks - multiset{mark} + multiset{Confirmed(cfg, mark, s.now)}))
    case RecoverMark(mark, written) =>
      if mark !in s.marks || !mark.confirmed || s.now > mark.deadline then None else
      var s' := s.(marks := s.marks - multiset{mark});
      Some(if written then Write(s', MarkRetry(row, mark.attempt, cfg.maxAttempts, ERROR, mark.nextRetryAt, s.now)) else s')
    case RecoverForget(mark) =>
      // the process dies, or its publish or its write timed out
      if mark !in s.marks then None else Some(s.(marks := s.marks - multiset{mark}))
    case RecoverDead(reading) =>
      if reading !in s.readings || reading + 1 < cfg.maxAttempts then None else
      Some(Write(s, MarkDeadLetter(row, reading + 1, cfg.maxAttempts, ERROR, s.now)).(
             readings := s.readings - multiset{reading}))
    case RecoverFailed(reading) =>
      if reading !in s.readings || reading + 1 < cfg.maxAttempts then None else
      Some(Write(s, UpdateStatus(row, Failed, ERROR, s.now)).(readings := s.readings - multiset{reading}))
    case PublishMain =>
      Some(s.(bag := s.bag + multiset{Msg(0, s.now)}))
    case TouchQueue =>
      Some(Write(s, TouchQueued(row, s.now)))
    case RequeueDead =>
      var u := Requeue(row, s.now);
      if u.Refused? then None else Some(Write(s, u).(claims := []))
  }

  function Confirmed(cfg: Config, mark: Mark, now: int): Mark {
    Mark(mark.attempt, mark.nextRetryAt, true, now + cfg.markTimeout)
  }

  /** The state after a step, if the step is possible. */
  function Step(cfg: Config, s: Sys, l: Label): Option<Sys> {
    if l.Tick? then Some(s.(now := s.now + l.d))
    else if HookLabel(l) then HookStep(s, l)
    else if DeliveryLabel(l) then DeliveryStep(s, l)
    else if WorkerLabel(l) then WorkerStep(cfg, s, l)
    else RecoveryStep(cfg, s, l)
  }

  /** Executes the labels in order from the initial state. */
  function Run(cfg: Config, labels: seq<Label>): Option<Sys> {
    if |labels| == 0 then Some(INIT)
    else
      var s := Run(cfg, labels[..|labels| - 1]);
      if s.None? then None else Step(cfg, s.value, labels[|labels| - 1])
  }
}
