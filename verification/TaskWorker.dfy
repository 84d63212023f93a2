/**
 * The programs behind the steps of TaskProtocol: the webhook request, a worker's `process` and the two recovery scans
 * (internal/webhook/handler.go, internal/worker/worker.go), each as one sequence of atomic effects. Between any two of
 * them everybody else moves, and the program may die. Whatever happens, the whole is a run of the machine, so what is
 * proved about its runs holds for the code.
 */
module TaskWorker {
  import opened Collections
  import opened TaskEffects
  import opened TaskRows
  import opened TaskProtocol
  import LiveAttempts
  import NoTaskStranded
  import ScriptedRuns
  import StrandingRun

  /** What the worker tells the broker about its delivery; `Died` tells it nothing. */
  datatype Action = Acked | Requeued | Died

  // ----- retry delays -----

  /** The base delay, doubled `n` times. */
  function Doubled(base: nat, n: nat): (d: nat)
    ensures d >= base
  {
    if n == 0 then base else 2 * Doubled(base, n - 1)
  }

  datatype Backoff = Backoff(base: nat, max: nat, jitter: int)

  const SECOND: nat := 1_000_000_000

  /** The options New starts the worker with. */
  function NewBackoff(base: int, max: int, jitter: int): (b: Backoff)
    ensures b.base > 0 && b.max > 0 && b.jitter >= 0
    ensures base > 0 && max >= base && jitter >= 0 ==> b == Backoff(base, max, jitter)
  {
    var base' := if base <= 0 then 30 * SECOND else base;
    Backoff(base', if max < base' then 600 * SECOND else max, if jitter < 0 then 5 * SECOND else jitter)
  }

  /** The machine's configuration for the worker's options; the scans' and the processes' are not the worker's. */
  function ServiceConfig(maxAttempts: int, b: Backoff, staleAfter: nat, processes: nat): (cfg: Config)
    ensures cfg.maxAttempts > 0
  {
    Config(if maxAttempts <= 0 then DEFAULT_MAX_ATTEMPTS else maxAttempts, Min(b.base, b.max), PUBLISH_TIMEOUT, MARK_TIMEOUT,
           staleAfter, processes)
  }

  /** How long a recovery waits for the broker's confirmation, and for its write. */
  const PUBLISH_TIMEOUT: nat := 10 * SECOND
  const MARK_TIMEOUT: nat := 5 * SECOND

  /** With the service's timeouts no run strands a task, iff retries are off or the base delay exceeds 15 seconds. */
  lemma ServiceNeverStrandsIff(maxAttempts: int, base: int, max: int, jitter: int, staleAfter: nat, processes: nat)
    requires processes > 0
    ensures var cfg := ServiceConfig(maxAttempts, NewBackoff(base, max, jitter), staleAfter, processes);
            (forall labels | Run(cfg, labels).Some? :: !NoTaskStranded.Stranded(Run(cfg, labels).value))
            <==> maxAttempts == 1 || base <= 0 || base > 15 * SECOND
  {
    StrandingRun.NeverStrandedIff(ServiceConfig(maxAttempts, NewBackoff(base, max, jitter), staleAfter, processes));
  }

  lemma {:induction false} StaysAbove(base: nat, bound: nat, i: nat, n: nat)
    requires i <= n && Doubled(base, i) >= bound
    ensures Doubled(base, n) >= bound
    decreases n
  {
    if i < n {
      StaysAbove(base, bound, i, n - 1);
    }
  }

  function Doublings(attempt: nat): nat {
    if attempt == 0 then 0 else attempt - 1
  }

  /** Exponential backoff up to the maximum, and as much jitter as is left below it. */
  predicate IsDelay(b: Backoff, attempt: nat, delay: nat) {
    var plain := Min(b.max, Doubled(b.base, Doublings(attempt)));
    plain <= delay <= b.max && delay <= plain + (if b.jitter > 0 then b.jitter else 0)
  }

  method RetryDelay(b: Backoff, attempt: nat) returns (delay: nat)
    ensures IsDelay(b, attempt, delay)
    ensures delay >= Min(b.base, b.max)
  {
    delay := b.base;
    var i := 1;
    while i < attempt
      invariant 1 <= i <= Doublings(attempt) + 1
      invariant delay == Doubled(b.base, i - 1)
    {
      delay := delay * 2;
      if delay >= b.max {
        StaysAbove(b.base, b.max, i, Doublings(attempt));
        delay := b.max;
        break;
      }
      i := i + 1;
    }
    if delay > b.max {
      delay := b.max;
    }
    if b.jitter <= 0 {
      return;
    }
    var room := Min(b.max - delay, b.jitter);
    var random: int := *;
    delay := delay + (if 0 <= random <= room then random else room);
  }

  // ----- what one program does, step by step -----

  /** How a review ends. A task is superseded when the pull request has moved on. */
  datatype Verdict = Succeeded | Overtaken | Broken

  /**
   * What a worker runs into: before its claim, in the review - its verdict, and whether it was published, recorded before
   * or not - and at the end: whether the final write and the publish before it succeed.
   */
  datatype Luck = Luck(
    readable: bool, lockable: bool, otherTask: bool, claimable: bool, at: int,
    delivery: Option<bool>, verdict: Verdict, written: bool, sent: bool, confirmed: bool)

  /** The message is handed on with a delay - if that worked, exactly once. */
  predicate Deferral(m: Msg, readyAt: int, luck: Luck, own: seq<Label>, action: Action) {
    if luck.sent && luck.confirmed then own == [Defer(m, readyAt)] && action == Acked
    else own == (if luck.sent then [DeferDuplicate(m, readyAt)] else []) && action == Requeued
  }

  /** The row and the time that a verdict on the review found. */
  datatype Finding = Finding(row: Row, at: int)

  /** Whether the verdict leads to another attempt or the dead letters. `judged` is the row it finds. */
  predicate Fails(luck: Luck, judged: Row) {
    match luck.verdict
    case Succeeded => false
    case Overtaken => !luck.written || (judged.status != Running && judged.status != Superseded)
    case Broken => true
  }

  /** The publish before a failure is written: the next attempt, as long as there is one, or the dead letter. */
  predicate Published(l: Label, luck: Luck, at: int, attempt: nat, cfg: Config, b: Backoff) {
    var confirmed := luck.sent && luck.confirmed;
    if attempt < cfg.maxAttempts then
      && l.PublishRetry? && l.sent == luck.sent && l.confirmed == confirmed
      && IsDelay(b, attempt, l.delay) && l.nextRetryAt == at + l.delay
    else l == PublishDead(confirmed)
  }

  /** After the claim: the outcome is written, or a publish and then its mark; or the worker dies before. */
  predicate Ending(own: seq<Label>, luck: Luck, judged: Option<Finding>, attempt: nat, cfg: Config, b: Backoff, action: Action) {
    if action == Died then
      own == [Crash] ||
      (|own| == 2 && judged.Some? && Fails(luck, judged.value.row) && own[1] == Crash &&
       Published(own[0], luck, judged.value.at, attempt, cfg, b))
    else
      && action == Acked && judged.Some?
      && if Fails(luck, judged.value.row) then
           |own| == 2 && Published(own[0], luck, judged.value.at, attempt, cfg, b) && own[1] == FinishMarked(luck.written)
         else own == [if luck.verdict == Succeeded then FinishDone(luck.written) else FinishSuperseded]
  }

  /** The review may have been delivered before it ends. */
  predicate Reviewed(own: seq<Label>, luck: Luck, judged: Option<Finding>, attempt: nat, cfg: Config, b: Backoff, action: Action) {
    || own == [Crash]
    || (luck.delivery.None? && Ending(own, luck, judged, attempt, cfg, b, action))
    || (luck.delivery.Some? && |own| > 1 && own[0] == Deliver(luck.delivery.value) &&
        Ending(own[1..], luck, judged, attempt, cfg, b, action))
  }

  /**
   * The row that is left when the worker is finished, `found` being the one its last step found: reviewed and written, it
   * is done; superseded, it is superseded; failed, it is sent back with the next attempt and the time it was published
   * with, or dead once there is none - and failed if that could not be published.
   */
  predicate Leaves(own: seq<Label>, luck: Luck, attempt: nat, cfg: Config, found: Row, row: Row)
    requires |own| > 0
  {
    match own[|own| - 1]
    case FinishDone(written) => if written then BecomesDone(found, row) else row == found
    case FinishSuperseded => BecomesSuperseded(found, row)
    case FinishMarked(written) =>
      if !written then row == found
      else if !(luck.sent && luck.confirmed) then BecomesFailed(found, row)
      else if attempt < cfg.maxAttempts then
        |own| > 1 && own[|own| - 2].PublishRetry? &&
        BecomesRetrying(found, row, attempt, cfg.maxAttempts, own[|own| - 2].nextRetryAt)
      else BecomesDead(found, row, attempt, cfg.maxAttempts)
    case _ => row == found
  }

  lemma GuardsAre(row: Row, m: Msg, now: int)
    ensures Terminal(row) <==>
            row.status == Done || row.status == DeadLetter || row.status == Failed || row.status == Superseded
    ensures Early(row, now) <==> row.status == Retrying && row.nextRetryAt.Some? && row.nextRetryAt.value > now
    ensures Stale(row, m) <==> row.status == Running && m.attempt <= row.attemptCount
    ensures !Terminal(row) && !Early(row, now) && !Stale(row, m) ==>
              (Claimable(row, m.attempt, now) <==>
               !(row.status == Received || (row.status == Queued && row.nextRetryAt.Some? && row.nextRetryAt.value > now)))
  {
  }

  /** Whether the row is not to be claimed before some time to come. */
  predicate NotYet(row: Row, now: int) {
    row.nextRetryAt.Some? && row.nextRetryAt.value > now
  }

  /**
   * Everything `process` does with a message it finds in state `s`: a finished task is left alone, an early retry handed
   * on, a message whose attempt is running or counted already dropped; everything else is attempted.
   */
  predicate Processed(
      cfg: Config, s: Sys, m: Msg, luck: Luck, judged: Option<Finding>, b: Backoff, own: seq<Label>, action: Action)
    requires s.row.Some?
  {
    var row := s.row.value;
    if !luck.readable then own == [] && action == Requeued
    else if row.status == Done || row.status == DeadLetter || row.status == Failed || row.status == Superseded then
      own == [Drop(m)] && action == Acked
    else if row.status == Retrying && NotYet(row, s.now) then Deferral(m, row.nextRetryAt.value, luck, own, action)
    else if row.status == Running && m.attempt <= row.attemptCount then own == [Drop(m)] && action == Acked
    else Attempted(cfg, s, m, luck, judged, b, own, action)
  }

  /**
   * What cannot be locked or claimed for a failure goes back to the queue, a busy pull request waits; a task that was never
   * queued, or is queued for later, is left alone. All else is claimed and reviewed.
   */
  predicate Attempted(
      cfg: Config, s: Sys, m: Msg, luck: Luck, judged: Option<Finding>, b: Backoff, own: seq<Label>, action: Action)
    requires s.row.Some?
  {
    var row := s.row.value;
    if !luck.lockable then own == [] && action == Requeued
    else if s.holder.Some? || luck.otherTask then Deferral(m, luck.at, luck, own, action)
    else if !luck.claimable then own == [] && action == Requeued
    else if row.status == Received || (row.status == Queued && NotYet(row, s.now)) then own == [Drop(m)] && action == Acked
    else
      && |own| > 1 && own[0] == Start(m)
      && Reviewed(own[1..], luck, judged, Max(row.attemptCount, m.attempt) + 1, cfg, b, action)
  }

  /**
   * What a recovery does with an attempt count it has read: it sends the next attempt and marks the row only once that
   * was confirmed; or it dead-letters the row, or fails it; or it dies.
   */
  predicate Recovered(cfg: Config, b: Backoff, reading: nat, from: int, until: int, own: seq<Label>) {
    || own == [RecoverSkip(reading)]
    || (if reading + 1 < cfg.maxAttempts then RetrySent(b, reading, from, until, own)
        else own == [RecoverDead(reading)] || own == [RecoverFailed(reading)])
  }

  predicate RetrySent(b: Backoff, reading: nat, from: int, until: int, own: seq<Label>) {
    && 2 <= |own| <= 3 && own[0].RecoverRetry? && own[0].reading == reading
    && IsDelay(b, reading + 1, own[0].delay) && from + own[0].delay <= own[0].nextRetryAt <= until + own[0].delay
    && var attempt, at := reading + 1, own[0].nextRetryAt;
    && if |own| == 2 then own[1].RecoverForget? && Marks(own[1].mark, attempt, at, false)
       else
         && own[1].RecoverConfirm? && Marks(own[1].mark, attempt, at, false)
         && (own[2].RecoverMark? || own[2].RecoverForget?) && Marks(own[2].mark, attempt, at, true)
  }

  predicate Marks(mark: Mark, attempt: nat, at: int, confirmed: bool) {
    mark.attempt == attempt && mark.nextRetryAt == at && mark.confirmed == confirmed
  }

  /** A webhook request as it arrives, with what decoding made of its body. */
  datatype Payload = Payload(action: string, fullName: string, number: int, commitSHA: string)

  datatype Request = Request(readable: bool, tooLarge: bool, signed: bool, event: string, payload: Option<Payload>)

  /** `NoReply` is that of a request that died. */
  datatype Response = BadRequest | TooLarge | Unauthorized | Ignored | ServerError | Duplicate | Accepted | NoReply

  predicate Reviewable(action: string) {
    action == "opened" || action == "synchronize" || action == "reopened"
  }

  /** The first check a request fails; nothing has happened then. */
  function Refusal(r: Request): Option<Response> {
    if !r.readable then Some(BadRequest)
    else if r.tooLarge then Some(TooLarge)
    else if !r.signed then Some(Unauthorized)
    else if r.event != "pull_request" || r.payload.None? then Some(BadRequest)
    else if r.payload.value.action !in {"opened", "synchronize", "reopened"} then Some(Ignored)
    else if '/' !in r.payload.value.fullName || r.payload.value.number == 0 then Some(BadRequest)
    else None
  }

  /** The webhook's order: create, queued, publish, and failed only if the publish was not confirmed; or it dies. */
  predicate Handled(own: seq<Label>, commitSHA: string, accepted: bool) {
    && |own| <= 4
    && (|own| > 0 ==> own[0] == HookCreate(commitSHA) && |own| > 1)
    && (|own| > 1 ==> own[1].HookQueue? || own[1].HookCrash?)
    && (|own| > 2 ==> own[1].HookQueue? && own[1].written && (own[2].HookPublish? || own[2].HookCrash?))
    && (|own| > 3 ==> own[2].HookPublish? && !own[2].confirmed && (own[3].HookFail? || own[3].HookCrash?))
    && (accepted <==> |own| == 3 && own[2].HookPublish?)
    && (accepted ==> own[2].confirmed)
  }

  lemma NextIsPublished(cfg: Config, s: Sys, sent: bool, confirmed: bool, delay: nat, nextRetryAt: int)
    requires s.row.Some? && s.holder.Some? && s.holder.value.stage == Reviewing && s.holder.value.next < cfg.maxAttempts
    requires delay >= cfg.minDelay && (confirmed ==> sent)
    ensures var t := Step(cfg, s, PublishRetry(sent, confirmed, delay, nextRetryAt));
            && t.Some? && t.value.row.Some?
            && t.value.holder == Some(s.holder.value.(stage := if confirmed then RetryPublished(nextRetryAt) else PublishFailed))
  {
  }

  lemma RowIsListed(cfg: Config, s: Sys)
    requires s.row.Some? && Listed(cfg, s.row.value, s.now) && |s.readings| + |s.marks| < cfg.processes
    ensures var t := Step(cfg, s, Scan); t.Some? && t.value.row.Some? && s.row.value.attemptCount in t.value.readings
  {
  }

  lemma RetryIsSent(cfg: Config, s: Sys, reading: nat, delay: nat, nextRetryAt: int)
    requires s.row.Some? && reading in s.readings && reading + 1 < cfg.maxAttempts && delay >= cfg.minDelay
    ensures var t := Step(cfg, s, RecoverRetry(reading, delay, nextRetryAt));
            && t.Some? && t.value.row.Some?
            && Mark(reading + 1, nextRetryAt, false, s.now + cfg.publishTimeout) in t.value.marks
  {
  }

  lemma RetryIsConfirmed(cfg: Config, s: Sys, mark: Mark)
    requires s.row.Some? && mark in s.marks && !mark.confirmed && s.now <= mark.deadline
    ensures var t := Step(cfg, s, RecoverConfirm(mark));
            t.Some? && t.value.row.Some? && Confirmed(cfg, mark, s.now) in t.value.marks
  {
  }

  /** A recovery can always end where it is, and a mark can be written once it is confirmed and in time - not otherwise. */
  lemma RecoveryCanEnd(cfg: Config, s: Sys, reading: nat, mark: Mark, written: bool)
    requires s.row.Some?
    ensures reading in s.readings ==>
              var t := Step(cfg, s, RecoverSkip(reading)); t.Some? && t.value.row.Some?
    ensures mark in s.marks ==> var t := Step(cfg, s, RecoverForget(mark)); t.Some? && t.value.row.Some?
    ensures var t := Step(cfg, s, RecoverMark(mark, written));
            && (t.Some? <==> mark in s.marks && mark.confirmed && s.now <= mark.deadline)
            && (t.Some? ==> t.value.row.Some?)
  {
  }

  lemma RowIsGivenUp(cfg: Config, s: Sys, reading: nat)
    requires s.row.Some? && reading in s.readings && reading + 1 >= cfg.maxAttempts
    ensures var t := Step(cfg, s, RecoverDead(reading)); t.Some? && t.value.row.Some?
    ensures var t := Step(cfg, s, RecoverFailed(reading)); t.Some? && t.value.row.Some?
  {
  }

  /** Without work for it, a message is acknowledged; with work, it leads to a claim. */
  lemma DropsOrStarts(cfg: Config, s: Sys, m: Msg)
    requires Delivered(s, m) && !Early(s.row.value, s.now)
    ensures var row, t := s.row.value, Step(cfg, s, Drop(m));
            Terminal(row) || Stale(row, m) || !Claimable(row, m.attempt, s.now) ==>
              t.Some? && t.value.holder == s.holder && m in t.value.toAck
    ensures var row, t := s.row.value, Step(cfg, s, Start(m));
            !Terminal(row) && !Stale(row, m) && Claimable(row, m.attempt, s.now) && s.holder.None? ==>
              t.Some? && t.value.row.Some? && t.value.holder == Some(Holder(m, Max(row.attemptCount, m.attempt) + 1, Reviewing))
  {
  }

  lemma FinishActs(cfg: Config, s: Sys)
    requires s.row.Some? && s.holder.Some? && s.holder.value.stage == Reviewing
    ensures forall written :: var t := Step(cfg, s, FinishDone(written));
              t.Some? && t.value.holder.None? && s.holder.value.msg in t.value.toAck
    ensures var t := Step(cfg, s, FinishSuperseded);
            !UpdateStatus(s.row.value, Superseded, ERROR, s.now).Refused? ==>
              t.Some? && t.value.holder.None? && s.holder.value.msg in t.value.toAck
  {
  }

  lemma MarkActs(cfg: Config, s: Sys, written: bool)
    requires s.row.Some? && s.holder.Some? && s.holder.value.stage != Reviewing
    ensures var t := Step(cfg, s, FinishMarked(written));
            t.Some? && t.value.row.Some? && t.value.holder.None? && s.holder.value.msg in t.value.toAck
  {
  }

  lemma QueueActs(cfg: Config, s: Sys)
    requires s.row.Some?
    ensures var t := Step(cfg, s, PublishMain); t.Some? && t.value.row.Some?
    ensures var t := Step(cfg, s, TouchQueue); t.Some? && t.value.row.Some?
  {
  }

  /** The request has died before it published, or has failed to publish. */
  predicate Rejected(before: seq<Label>, after: seq<Label>) {
    && before < after && |after| <= |before| + 2
    && (|after| == |before| + 1 ==> after[|before|].HookCrash?)
    && (|after| == |before| + 2 ==>
          && after[|before|].HookPublish? && !after[|before|].confirmed
          && (after[|before| + 1].HookFail? || after[|before| + 1].HookCrash?))
  }

  lemma TaskIsCreated(cfg: Config, s: Sys, commitSHA: string)
    requires s.row.None?
    ensures var t := Step(cfg, s, HookCreate(commitSHA)); t.Some? && t.value.row.Some? && t.value.hook == HookCreated
  {
  }

  lemma TaskIsQueued(cfg: Config, s: Sys, written: bool)
    requires s.row.Some? && s.hook == HookCreated
    ensures var t := Step(cfg, s, HookQueue(written)); t.Some? && t.value.row.Some? && (t.value.hook == HookQueued ==> written)
  {
  }

  lemma TaskIsPublished(cfg: Config, s: Sys, sent: bool, confirmed: bool)
    requires s.row.Some? && s.hook == HookQueued && (confirmed ==> sent)
    ensures var t := Step(cfg, s, HookPublish(sent, confirmed));
            && t.Some? && t.value.row.Some? && (sent ==> Msg(0, t.value.now) in t.value.bag)
            && t.value.hook == if confirmed then NoHook else HookFailing
  {
  }

  /** What is a program's own while others move: its claim, its webhook request, its reading, its mark. */
  datatype Share = Share(claim: bool, hook: bool, reading: Option<nat>, mark: Option<Mark>)

  const NOTHING := Share(false, false, None, None)
  const CLAIM := NOTHING.(claim := true)
  const REQUEST := NOTHING.(hook := true)

  predicate Keeps(mine: Share, s: Sys, t: Sys) {
    && (mine.claim ==> t.holder == s.holder)
    && (mine.hook ==> t.hook == s.hook)
    && (mine.reading.Some? ==> mine.reading.value in t.readings)
    && (mine.mark.Some? ==> mine.mark.value in t.marks)
  }

  class System {
    const cfg: Config
    const backoff: Backoff
    var sys: Sys
    ghost var log: seq<Label>
    /** The steps of the program that is running, without those of others; and the row the last of them found. */
    ghost var own: seq<Label>
    ghost var found: Option<Row>
    /** What the verdict on the review found. */
    ghost var judged: Option<Finding>

    constructor (maxAttempts: int, base: int, max: int, jitter: int, staleAfter: nat, processes: nat)
      requires processes > 0
      ensures Valid() && sys == INIT && log == []
      ensures backoff == NewBackoff(base, max, jitter) && cfg == ServiceConfig(maxAttempts, backoff, staleAfter, processes)
    {
      backoff := NewBackoff(base, max, jitter);
      cfg := ServiceConfig(maxAttempts, NewBackoff(base, max, jitter), staleAfter, processes);
      sys, log, own, found, judged := INIT, [], [], None, None;
    }

    /** What has happened so far is a run of the machine. */
    ghost predicate Valid()
      reads this
    {
      ValidConfig(cfg) && cfg.minDelay == Min(backoff.base, backoff.max) && Run(cfg, log) == Some(sys)
    }

    /** One atomic effect. */
    method Do(l: Label)
      requires Valid() && Step(cfg, sys, l).Some?
      modifies this`sys, this`log
      ensures Valid() && sys == Step(cfg, old(sys), l).value
    {
      ScriptedRuns.Extend(cfg, log, l);
      log := log + [l];
      sys := Step(cfg, sys, l).value;
    }

    /** One atomic effect of the running program. */
    method Act(l: Label)
      requires Valid() && Step(cfg, sys, l).Some?
      modifies this
      ensures Valid() && sys == Step(cfg, old(sys), l).value && own == old(own) + [l]
      ensures found == old(sys).row && judged == old(judged) && Moves(cfg, l, old(sys), sys)
      ensures sys.now >= old(sys.now)
      ensures !l.FinishMarked? ==> RowMoved()
    {
      hide Step, Run, MovesRow, Stamped;
      StepMovesRow(cfg, sys, l);
      TimeGoesOn(cfg, sys, l);
      found := sys.row;
      Do(l);
      if found.Some? && !l.FinishMarked? {
        MovesAnyway(cfg, l, old(sys).holder, found.value, sys.row.value);
      }
      own := own + [l];
    }

    /** Anything others do. They leave to a program what is its own. */
    method Others(mine: Share)
      requires Valid() && sys.row.Some? && Keeps(mine, sys, sys)
      modifies this`sys, this`log
      ensures Valid() && sys.row.Some? && Keeps(mine, old(sys), sys) && sys.now >= old(sys.now)
    {
      var n: nat := *;
      while n > 0
        invariant Valid() && sys.row.Some? && Keeps(mine, old(sys), sys) && sys.now >= old(sys.now)
      {
        hide Step, Run, MovesRow;
        var l: Label := *;
        var next := Step(cfg, sys, l);
        if next.Some? && Keeps(mine, sys, next.value) {
          LiveAttempts.RowStays(cfg, sys, l);
          TimeGoesOn(cfg, sys, l);
          Do(l);
        }
        n := n - 1;
      }
    }

    /** What the machine guarantees, wherever a program stops. */
    lemma NotStranded()
      requires Valid() && NoTaskStranded.SafeConfig(cfg)
      ensures !NoTaskStranded.Stranded(sys)
    {
      NoTaskStranded.RetryingHasMessage(cfg, log);
    }

    /** This worker has claimed the task with message `m` and is in this stage. */
    predicate Holding(m: Msg, stage: Stage)
      reads this
    {
      sys.row.Some? && sys.holder.Some? && sys.holder.value.msg == m && sys.holder.value.stage == stage
    }

    /** A message is acknowledged only when it was decided on, and is in the queue otherwise. */
    predicate Answered(m: Msg, action: Action)
      reads this
    {
      && (action == Acked ==> m in sys.toAck)
      && (action == Requeued || action == Died ==> m in sys.bag)
    }

    /** The row has been moved by the last step as this should. */
    ghost predicate RowMoved()
      reads this
    {
      own != [] && found.Some? ==> sys.row.Some? && MovesRow(cfg, own[|own| - 1], None, found.value, sys.row.value)
    }

    /** Lets others move; the worker may die instead of going on. */
    method Interlude(m: Msg) returns (alive: bool)
      requires Valid() && sys.row.Some? && sys.holder.Some? && sys.holder.value.msg == m
      modifies this
      ensures Valid() && sys.row.Some?
      ensures judged == old(judged) && sys.now >= old(sys.now)
      ensures alive ==> sys.holder == old(sys.holder) && own == old(own)
      ensures !alive ==> sys.holder.None? && m in sys.bag && own == old(own) + [Crash] && sys.row == found
    {
      Others(CLAIM);
      alive := *;
      if !alive {
        Act(Crash);
      }
    }

    /** Hands the message on with a delay, since it is early or the PR is busy. */
    method DeferTask(m: Msg, readyAt: int, luck: Luck) returns (action: Action)
      requires Valid() && Delivered(sys, m) && !Terminal(sys.row.value) && !Stale(sys.row.value, m) && own == []
      modifies this
      ensures Valid() && sys.holder == old(sys.holder) && Answered(m, action)
      ensures sys.row == old(sys).row && judged == old(judged)
      ensures Deferral(m, readyAt, luck, own, action)
    {
      if luck.sent && luck.confirmed {
        Act(Defer(m, readyAt));
        return Acked;
      }
      if luck.sent {
        Act(DeferDuplicate(m, readyAt));
      }
      return Requeued;
    }

    /**
     * One delivery: read, lock and claim, then the review and what becomes of the task. The task read is always there.
     * Only a worker that has claimed the task changes its row, and then leaves it as `Leaves` says.
     */
    method Process(m: Msg, luck: Luck) returns (action: Action)
      requires Valid() && m in sys.bag && m.readyAt <= sys.now && own == []
      modifies this
      ensures Valid() && Answered(m, action)
      ensures old(sys).row.Some? && Processed(cfg, old(sys), m, luck, judged, backoff, own, action)
      ensures own == [] || !own[0].Start? ==> sys.row == old(sys).row
      ensures own != [] && own[0].Start? ==>
                && found.Some? && sys.row.Some?
                && true == Leaves(own, luck, Max(old(sys).row.value.attemptCount, m.attempt) + 1, cfg, found.value, sys.row.value)
      ensures judged.Some? ==> judged.value.at >= old(sys).now
      ensures old(sys.holder).None? ==> sys.holder.None?
    {
      hide Step, Run, Claimable, Terminal, Early, Stale, Attempted, Deferral, MovesRow, Stamped, Leaves;
      LiveAttempts.MessagesHaveTask(cfg, log);
      judged := None;
      if !luck.readable {
        return Requeued;
      }
      var row := sys.row.value;
      GuardsAre(row, m, sys.now);
      if Terminal(row) {
        action := Discard(m);
        return;
      }
      if Early(row, sys.now) {
        action := DeferTask(m, row.nextRetryAt.value, luck);
        return;
      }
      if Stale(row, m) {
        action := Discard(m);
        return;
      }
      action := Attempt(m, luck);
    }

    /** Locks the pull request and claims the task. */
    method Attempt(m: Msg, luck: Luck) returns (action: Action)
      requires Valid() && own == [] && judged.None? && Delivered(sys, m)
      requires !Terminal(sys.row.value) && !Early(sys.row.value, sys.now) && !Stale(sys.row.value, m)
      modifies this
      ensures Valid() && Answered(m, action)
      ensures true == Attempted(cfg, old(sys), m, luck, judged, backoff, own, action)
      ensures own == [] || !own[0].Start? ==> sys.row == old(sys).row
      ensures own != [] && own[0].Start? ==> true == Left(luck, Max(old(sys).row.value.attemptCount, m.attempt) + 1)
      ensures judged.Some? ==> judged.value.at >= old(sys).now
      ensures old(sys.holder).None? ==> sys.holder.None?
    {
      hide Step, Run, Claimable, Terminal, Early, Stale, Reviewed, Deferral, MovesRow, Stamped, Leaves;
      GuardsAre(sys.row.value, m, sys.now);
      if !luck.lockable {
        return Requeued;
      }
      if sys.holder.Some? || luck.otherTask {
        action := DeferTask(m, luck.at, luck);
        return;
      }
      if !luck.claimable {
        return Requeued;
      }
      if !Claimable(sys.row.value, m.attempt, sys.now) {
        action := Discard(m);
        return;
      }
      action := Work(m, luck);
    }

    /** Claims the task and reviews it. */
    method Work(m: Msg, luck: Luck) returns (action: Action)
      requires Valid() && own == [] && judged.None? && sys.row.Some? && sys.holder.None? && Delivered(sys, m)
      requires var row := sys.row.value;
               !Terminal(row) && !Early(row, sys.now) && !Stale(row, m) && Claimable(row, m.attempt, sys.now)
      modifies this
      ensures Valid() && Answered(m, action) && sys.holder.None?
      ensures var attempt := Max(old(sys).row.value.attemptCount, m.attempt) + 1;
              && |own| > 1 && own[0] == Start(m) && Reviewed(own[1..], luck, judged, attempt, cfg, backoff, action)
              && true == Left(luck, attempt)
      ensures judged.Some? ==> judged.value.at >= old(sys).now
    {
      hide Step, Run, Claimable, Terminal, Early, Stale, Reviewed, MovesRow, Stamped, Leaves;
      DropsOrStarts(cfg, sys, m);
      Act(Start(m));
      action := Review(m, luck);
    }

    /** Nothing to do for this message. */
    method Discard(m: Msg) returns (action: Action)
      requires Valid() && own == [] && Delivered(sys, m) && !Early(sys.row.value, sys.now)
      requires Terminal(sys.row.value) || Stale(sys.row.value, m) || !Claimable(sys.row.value, m.attempt, sys.now)
      modifies this
      ensures Valid() && sys.row == old(sys).row && sys.holder == old(sys).holder && m in sys.toAck
      ensures own == [Drop(m)] && action == Acked && judged == old(judged)
    {
      hide Run, Claimable, Terminal, Early, Stale;
      DropsOrStarts(cfg, sys, m);
      Act(Drop(m));
      return Acked;
    }

    /** The row is left as `Leaves` says. */
    ghost predicate Left(luck: Luck, attempt: nat)
      reads this
    {
      own != [] && found.Some? && sys.row.Some? && Leaves(own, luck, attempt, cfg, found.value, sys.row.value)
    }

    /** The review itself, and what becomes of the task. */
    method Review(m: Msg, luck: Luck) returns (action: Action)
      requires Valid() && Holding(m, Reviewing) && |own| == 1
      modifies this
      ensures Valid() && Answered(m, action) && sys.holder.None?
      ensures |own| > 1 && own[0] == old(own)[0]
      ensures Reviewed(own[1..], luck, judged, old(sys).holder.value.next, cfg, backoff, action)
      ensures true == Left(luck, old(sys).holder.value.next)
      ensures judged == old(judged) || (judged.Some? && judged.value.at >= old(sys).now)
    {
      hide Step, Run, MovesRow, Ending;
      ghost var attempt := sys.holder.value.next;
      var alive := Interlude(m);
      if !alive {
        return Died;
      }
      if luck.delivery.Some? {
        alive := PublishReview(m, luck.delivery.value);
        if !alive {
          DeadEnding(luck, judged, attempt);
          assert own[1..] == [Deliver(luck.delivery.value), Crash] && own[1..][1..] == [Crash];
          return Died;
        }
      }
      ghost var before := own;
      action := Settle(m, luck);
      assert own[1..] == before[1..] + own[|before|..];
    }

    lemma DeadEnding(luck: Luck, judged: Option<Finding>, attempt: nat)
      ensures Ending([Crash], luck, judged, attempt, cfg, backoff, Died)
    {
    }

    /** The review has been published, and the task completed with it. */
    method PublishReview(m: Msg, recorded: bool) returns (alive: bool)
      requires Valid() && Holding(m, Reviewing)
      modifies this
      ensures Valid() && judged == old(judged) && sys.now >= old(sys.now)
      ensures alive ==> Holding(m, Reviewing) && sys.holder == old(sys.holder) && own == old(own) + [Deliver(recorded)]
      ensures !alive ==>
                && sys.holder.None? && m in sys.bag && own == old(own) + [Deliver(recorded), Crash]
                && sys.row.Some? && sys.row == found
    {
      Act(Deliver(recorded));
      alive := Interlude(m);
    }

    /** Done, superseded - if that can be written - or failed. */
    method Settle(m: Msg, luck: Luck) returns (action: Action)
      requires Valid() && Holding(m, Reviewing)
      modifies this
      ensures Valid() && Answered(m, action) && sys.holder.None?
      ensures old(own) < own && Ending(own[|old(own)|..], luck, judged, old(sys).holder.value.next, cfg, backoff, action)
      ensures true == Left(luck, old(sys).holder.value.next)
      ensures judged.Some? && judged.value.at == old(sys).now
    {
      hide Step, Run, UpdateStatus, BecomesDone, BecomesSuperseded;
      judged := Some(Finding(sys.row.value, sys.now));
      FinishActs(cfg, sys);
      SupersedingMovesRow(sys.row.value, sys.now);
      if luck.verdict == Succeeded {
        Act(FinishDone(luck.written));
        return Acked;
      }
      if luck.verdict == Overtaken && luck.written && !UpdateStatus(sys.row.value, Superseded, ERROR, sys.now).Refused? {
        Act(FinishSuperseded);
        return Acked;
      }
      action := Fail(m, luck);
    }

    method Fail(m: Msg, luck: Luck) returns (action: Action)
      requires Valid() && Holding(m, Reviewing) && judged.Some? && Fails(luck, judged.value.row) && judged.value.at == sys.now
      modifies this
      ensures Valid() && Answered(m, action) && sys.holder.None? && judged == old(judged)
      ensures old(own) < own && Ending(own[|old(own)|..], luck, judged, old(sys).holder.value.next, cfg, backoff, action)
      ensures true == Left(luck, old(sys).holder.value.next)
    {
      var attempt := sys.holder.value.next;
      if attempt < cfg.maxAttempts {
        action := Retry(m, attempt, luck);
      } else {
        action := DeadLetterTask(m, luck);
      }
    }

    /** Publishes the next attempt, then marks the row: retrying, or failed if the publish was not confirmed. */
    method Retry(m: Msg, attempt: nat, luck: Luck) returns (action: Action)
      requires Valid() && Holding(m, Reviewing) && attempt == sys.holder.value.next < cfg.maxAttempts
      requires judged.Some? && Fails(luck, judged.value.row) && judged.value.at == sys.now
      modifies this
      ensures Valid() && Answered(m, action) && sys.holder.None? && judged == old(judged)
      ensures old(own) < own && Ending(own[|old(own)|..], luck, judged, attempt, cfg, backoff, action)
      ensures true == Left(luck, attempt)
    {
      hide Step, Run, MovesRow, Fails;
      var delay := RetryDelay(backoff, attempt);
      var nextRetryAt := sys.now + delay;
      var alive := Interlude(m);
      if !alive {
        return Died;
      }
      NextIsPublished(cfg, sys, luck.sent, luck.sent && luck.confirmed, delay, nextRetryAt);
      Act(PublishRetry(luck.sent, luck.sent && luck.confirmed, delay, nextRetryAt));
      action := MarkTask(m, luck, attempt);
    }

    /** The publish of a failure has been made, and was confirmed or not. */
    ghost predicate Announced(m: Msg, luck: Luck, attempt: nat)
      reads this
    {
      && own != [] && judged.Some? && Published(own[|own| - 1], luck, judged.value.at, attempt, cfg, backoff)
      && Holding(m, if !(luck.sent && luck.confirmed) then PublishFailed
                    else if attempt < cfg.maxAttempts then RetryPublished(own[|own| - 1].nextRetryAt) else DeadPublished)
      && sys.holder.value.next == attempt
    }

    /** The write that follows a publish: retrying or dead letter, or failed if the publish was not confirmed. */
    method MarkTask(m: Msg, luck: Luck, ghost attempt: nat) returns (action: Action)
      requires Valid() && Announced(m, luck, attempt)
      modifies this
      ensures Valid() && Answered(m, action) && sys.holder.None? && judged == old(judged)
      ensures true == Left(luck, attempt)
      ensures action == Died ==> own == old(own) + [Crash]
      ensures action != Died ==> action == Acked && own == old(own) + [FinishMarked(luck.written)]
    {
      hide Run, Step, MovesRow;
      ghost var h := sys.holder;
      var alive := Interlude(m);
      if !alive {
        return Died;
      }
      MarkActs(cfg, sys, luck.written);
      Act(FinishMarked(luck.written));
      MarkLeaves(own, luck, judged.value.at, attempt, h, found.value, sys.row.value);
      return Acked;
    }

    /** The mark after a publish that was confirmed or not. */
    lemma MarkLeaves(own: seq<Label>, luck: Luck, at: int, attempt: nat, h: Option<Holder>, found: Row, row: Row)
      requires |own| > 1 && h.Some? && h.value.next == attempt && Published(own[|own| - 2], luck, at, attempt, cfg, backoff)
      requires own[|own| - 1] == FinishMarked(luck.written)
      requires true == MovesRow(cfg, FinishMarked(luck.written), h, found, row)
      requires h.value.stage == if !(luck.sent && luck.confirmed) then PublishFailed
                                else if attempt < cfg.maxAttempts then RetryPublished(own[|own| - 2].nextRetryAt) else DeadPublished
      ensures Leaves(own, luck, attempt, cfg, found, row)
    {
    }

    method DeadLetterTask(m: Msg, luck: Luck) returns (action: Action)
      requires Valid() && Holding(m, Reviewing) && sys.holder.value.next >= cfg.maxAttempts
      requires judged.Some? && Fails(luck, judged.value.row) && judged.value.at == sys.now
      modifies this
      ensures Valid() && Answered(m, action) && sys.holder.None? && judged == old(judged)
      ensures old(own) < own && Ending(own[|old(own)|..], luck, judged, old(sys).holder.value.next, cfg, backoff, action)
      ensures true == Left(luck, old(sys).holder.value.next)
    {
      hide Run, Fails, MovesRow, Leaves;
      ghost var attempt := sys.holder.value.next;
      Act(PublishDead(luck.sent && luck.confirmed));
      action := MarkTask(m, luck, attempt);
    }

    // ----- recovery -----

    /** An idle process scans for stale running tasks, and recovers this one if it is listed. */
    method RecoverStaleRunning()
      requires Valid() && sys.row.Some? && own == [] && |sys.readings| + |sys.marks| < cfg.processes
      modifies this
      ensures Valid() && sys.row.Some? && true == RowMoved()
      ensures var row := old(sys).row.value;
              !(row.status == Running && row.updatedAt < old(sys).now - cfg.staleAfter) ==> own == []
      ensures var row := old(sys).row.value;
              row.status == Running && row.updatedAt < old(sys).now - cfg.staleAfter ==>
                |own| > 0 && own[0] == Scan && Recovered(cfg, backoff, old(sys).row.value.attemptCount, old(sys).now, sys.now, own[1..])
    {
      hide Step, Run, MovesRow;
      var row := sys.row.value;
      if Listed(cfg, row, sys.now) {
        RowIsListed(cfg, sys);
        Act(Scan);
        Recover(row.attemptCount);
      }
    }

    /** The next attempt if there is one. The row may have changed since it was read. */
    method Recover(reading: nat)
      requires Valid() && sys.row.Some? && reading in sys.readings
      modifies this
      ensures Valid() && sys.row.Some? && true == RowMoved()
      ensures old(own) <= own && Recovered(cfg, backoff, reading, old(sys).now, sys.now, own[|old(own)|..])
    {
      hide Step, Run, MovesRow;
      var alive := Remember(reading);
      if alive && reading + 1 < cfg.maxAttempts {
        RecoverWithRetry(reading);
      } else if alive {
        RecoverWithDeadLetter(reading);
      }
    }

    /** Others move; the process may die, or fail to publish. */
    method Remember(reading: nat) returns (alive: bool)
      requires Valid() && sys.row.Some? && reading in sys.readings
      modifies this
      ensures Valid() && sys.row.Some?
      ensures sys.now >= old(sys.now)
      ensures alive ==> own == old(own) && reading in sys.readings
      ensures !alive ==> own == old(own) + [RecoverSkip(reading)] && true == RowMoved()
    {
      hide Step, Run, MovesRow;
      Others(NOTHING.(reading := Some(reading)));
      alive := *;
      if !alive {
        RecoveryCanEnd(cfg, sys, reading, Mark(0, 0, false, 0), false);
        Act(RecoverSkip(reading));
      }
    }

    /** Sends the retry, waits for its confirmation, then marks the row. */
    method RecoverWithRetry(reading: nat)
      requires Valid() && sys.row.Some? && reading in sys.readings && reading + 1 < cfg.maxAttempts
      modifies this
      ensures Valid() && sys.row.Some? && true == RowMoved()
      ensures old(own) <= own && Recovered(cfg, backoff, reading, old(sys).now, sys.now, own[|old(own)|..])
    {
      hide Step, Run, MovesRow, IsDelay;
      var delay := RetryDelay(backoff, reading + 1);
      var nextRetryAt := sys.now + delay;
      var alive := Remember(reading);
      if alive {
        RetryIsSent(cfg, sys, reading, delay, nextRetryAt);
        var mark := Mark(reading + 1, nextRetryAt, false, sys.now + cfg.publishTimeout);
        Act(RecoverRetry(reading, delay, nextRetryAt));
        var confirmed := AwaitConfirmation(mark);
        if confirmed.Some? {
          FinishRecovery(confirmed.value);
          assert own[|old(own)|..] == [RecoverRetry(reading, delay, nextRetryAt), RecoverConfirm(mark), own[|own| - 1]];
        } else {
          assert own[|old(own)|..] == [RecoverRetry(reading, delay, nextRetryAt), RecoverForget(mark)];
        }
      }
    }

    /** The confirmation arrives in time, or the recovery ends here. */
    method AwaitConfirmation(mark: Mark) returns (confirmed: Option<Mark>)
      requires Valid() && sys.row.Some? && mark in sys.marks && !mark.confirmed
      modifies this
      ensures Valid() && sys.row.Some? && true == RowMoved()
      ensures sys.now >= old(sys.now)
      ensures confirmed.None? ==> own == old(own) + [RecoverForget(mark)]
      ensures confirmed.Some? ==>
                && own == old(own) + [RecoverConfirm(mark)]
                && confirmed.value in sys.marks && Marks(confirmed.value, mark.attempt, mark.nextRetryAt, true)
    {
      hide Step, Run, MovesRow;
      Others(NOTHING.(mark := Some(mark)));
      var arrives: bool := *;
      if sys.now > mark.deadline || !arrives {
        RecoveryCanEnd(cfg, sys, 0, mark, false);
        Act(RecoverForget(mark));
        return None;
      }
      RetryIsConfirmed(cfg, sys, mark);
      confirmed := Some(Confirmed(cfg, mark, sys.now));
      Act(RecoverConfirm(mark));
    }

    /** The row is marked in time, or not at all. */
    method FinishRecovery(mark: Mark)
      requires Valid() && sys.row.Some? && mark in sys.marks && mark.confirmed
      modifies this
      ensures Valid() && sys.row.Some? && true == RowMoved()
      ensures sys.now >= old(sys.now)
      ensures own == old(own) + [RecoverForget(mark)] || exists written :: own == old(own) + [RecoverMark(mark, written)]
    {
      hide Step, Run, MovesRow;
      Others(NOTHING.(mark := Some(mark)));
      var written: bool, alive: bool := *, *;
      RecoveryCanEnd(cfg, sys, 0, mark, written);
      if sys.now > mark.deadline || !alive {
        Act(RecoverForget(mark));
      } else {
        Act(RecoverMark(mark, written));
      }
    }

    /** Publishes the dead letter, then gives the row up: dead letter, or failed if the publish was not confirmed. */
    method RecoverWithDeadLetter(reading: nat)
      requires Valid() && sys.row.Some? && reading in sys.readings && reading + 1 >= cfg.maxAttempts
      modifies this
      ensures Valid() && sys.row.Some? && true == RowMoved()
      ensures old(own) <= own && Recovered(cfg, backoff, reading, old(sys).now, sys.now, own[|old(own)|..])
    {
      hide Step, Run, MovesRow;
      var confirmed: bool := *;
      var alive := Remember(reading);
      if alive {
        RowIsGivenUp(cfg, sys, reading);
        Act(if confirmed then RecoverDead(reading) else RecoverFailed(reading));
      }
    }

    /** The scan of stale queued tasks has listed the task: a fresh message, then a new time on the row. */
    method RecoverStaleQueued(sent: bool, confirmed: bool, written: bool)
      requires Valid() && sys.row.Some? && own == []
      modifies this
      ensures Valid() && sys.row.Some? && (sent && confirmed && written ==> true == RowMoved())
      ensures own == (if sent then [PublishMain] else []) + (if sent && confirmed && written then [TouchQueue] else [])
    {
      hide Step, Run, MovesRow;
      Others(NOTHING);
      QueueActs(cfg, sys);
      if sent {
        Act(PublishMain);
      }
      if !sent || !confirmed {
        return;
      }
      Others(NOTHING);
      QueueActs(cfg, sys);
      if written {
        Act(TouchQueue);
      }
    }

    // ----- the webhook request -----

    /**
     * Checks the request, creates the task, marks it queued, publishes it; accepted only once the broker has confirmed its
     * message. The task is there already if the delivery is a duplicate.
     */
    method Handle(r: Request) returns (response: Response)
      requires Valid() && own == []
      modifies this
      ensures Valid() && Handled(own, if r.payload.Some? then r.payload.value.commitSHA else "", response == Accepted)
      ensures true == RowMoved()
      ensures Refusal(r).Some? ==> response == Refusal(r).value && sys == old(sys) && own == []
      ensures Refusal(r).None? && old(sys).row.Some? ==>
                (response == Duplicate || response == ServerError) && sys == old(sys) && own == []
      ensures Refusal(r).None? && old(sys).row.None? ==> response == Accepted || response == ServerError || response == NoReply
      ensures response == Accepted ==> sys.row.Some? && sys.hook == NoHook && Msg(0, sys.now) in sys.bag
    {
      if !r.readable {
        return BadRequest;
      }
      if r.tooLarge {
        return TooLarge;
      }
      if !r.signed {
        return Unauthorized;
      }
      if r.event != "pull_request" {
        return BadRequest;
      }
      if r.payload.None? {
        return BadRequest;
      }
      if !Reviewable(r.payload.value.action) {
        return Ignored;
      }
      if '/' !in r.payload.value.fullName || r.payload.value.number == 0 {
        return BadRequest;
      }
      var reachable: bool := *;
      if !reachable {
        return ServerError;
      }
      if sys.row.Some? {
        return Duplicate;
      }
      response := Accept(r.payload.value.commitSHA);
    }

    /** The task of a new delivery. */
    method Accept(commitSHA: string) returns (response: Response)
      requires Valid() && sys.row.None? && own == []
      modifies this
      ensures Valid() && Handled(own, commitSHA, response == Accepted) && true == RowMoved()
      ensures response == Accepted || response == ServerError || response == NoReply
      ensures response == Accepted ==> sys.row.Some? && sys.hook == NoHook && Msg(0, sys.now) in sys.bag
    {
      hide Step, Run, MovesRow;
      TaskIsCreated(cfg, sys, commitSHA);
      Act(HookCreate(commitSHA));
      var alive := Survive();
      if !alive {
        return NoReply;
      }
      var written: bool := *;
      TaskIsQueued(cfg, sys, written);
      Act(HookQueue(written));
      if sys.hook != HookQueued {
        return ServerError;
      }
      response := PublishTask();
    }

    /** Lets others move; the request may die instead of going on. */
    method Survive() returns (alive: bool)
      requires Valid() && sys.row.Some?
      modifies this
      ensures Valid() && sys.row.Some?
      ensures alive ==> sys.hook == old(sys.hook) && own == old(own)
      ensures !alive ==> own == old(own) + [HookCrash] && true == RowMoved()
    {
      Others(REQUEST);
      alive := *;
      if !alive {
        Act(HookCrash);
      }
    }

    method PublishTask() returns (response: Response)
      requires Valid() && sys.row.Some? && sys.hook == HookQueued
      modifies this
      ensures Valid() && sys.row.Some? && true == RowMoved()
      ensures response == Accepted || response == ServerError || response == NoReply
      ensures response == Accepted ==>
                sys.hook == NoHook && Msg(0, sys.now) in sys.bag && own == old(own) + [HookPublish(true, true)]
      ensures response != Accepted ==> Rejected(old(own), own)
    {
      var alive := Survive();
      if !alive {
        return NoReply;
      }
      hide Step;
      var sent: bool, confirmed: bool := *, *;
      TaskIsPublished(cfg, sys, sent, sent && confirmed);
      Act(HookPublish(sent, sent && confirmed));
      if sent && confirmed {
        return Accepted;
      }
      alive := FailTask();
      return if alive then ServerError else NoReply;
    }

    /** The task is marked failed, if the request lives to do it. */
    method FailTask() returns (alive: bool)
      requires Valid() && sys.row.Some? && sys.hook == HookFailing
      modifies this
      ensures Valid() && sys.row.Some? && true == RowMoved()
      ensures !alive ==> own == old(own) + [HookCrash]
      ensures alive ==> exists failed :: own == old(own) + [HookFail(failed)]
    {
      alive := Survive();
      if alive {
        var failed: bool := *;
        Act(HookFail(failed));
      }
    }
  }
}
