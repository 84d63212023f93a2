/**
 * No retrying task is left without a message - exactly when the configured delay outlasts the recovery: its wait for the
 * confirmation and the write that marks the row.
 */
module NoTaskStranded {
  import opened Collections
  import opened TaskRows
  import opened TaskProtocol

  /** The configurations for which the protocol is safe. */
  predicate SafeConfig(cfg: Config) {
    cfg.maxAttempts <= 1 || Outlasts(cfg)
  }

  /** A retry is delivered only after the recovery that sent it has marked the row, or has given up. */
  predicate Outlasts(cfg: Config) {
    cfg.minDelay > cfg.publishTimeout + cfg.markTimeout
  }

  /** A retrying task for which nothing is under way: no scan lists it, and no message will ever touch it. */
  predicate Stranded(s: Sys) {
    && s.row.Some? && s.row.value.status == Retrying
    && s.bag == multiset{} && s.toAck == multiset{} && s.holder.None?
  }

  // ----- delays that outlast the mark: the invariant is inductive -----

  /** A message above the row's attempt count is on its way. */
  predicate NewerMessage(s: Sys, attempt: nat) {
    exists m :: m in s.bag && m.attempt == attempt
  }

  /** When the row is marked at the latest. */
  function Latest(cfg: Config, mark: Mark): int {
    if mark.confirmed then mark.deadline else mark.deadline + cfg.markTimeout
  }

  /** As long as the row can still be marked, a message is held back until after that. */
  predicate PendingMark(cfg: Config, s: Sys, mark: Mark) {
    s.now <= mark.deadline ==> exists m :: m in s.bag && m.readyAt > Latest(cfg, mark)
  }

  predicate MarksPending(cfg: Config, s: Sys) {
    forall mark <- s.marks :: PendingMark(cfg, s, mark)
  }

  /**
   * A retrying task has a message; a live worker's row, while running, counts its claim; between a retry's publish and
   * its mark the retry is on its way.
   */
  predicate Inv(cfg: Config, s: Sys) {
    && (s.row.None? ==> s.holder.None? && s.marks == multiset{} && s.bag == multiset{} && s.toAck == multiset{})
    && (s.row.Some? && s.row.value.status == Retrying ==> s.bag != multiset{})
    && (s.row.Some? && s.row.value.status == Running && s.holder.Some? ==>
          && s.row.value.attemptCount + 1 == s.holder.value.next
          && (s.holder.value.stage.RetryPublished? ==> NewerMessage(s, s.holder.value.next)))
    && MarksPending(cfg, s)
  }

  lemma KeepMarks(cfg: Config, s: Sys, t: Sys)
    requires MarksPending(cfg, s) && t.marks <= s.marks && s.now <= t.now
    requires forall m <- s.bag :: m in t.bag || m.readyAt <= s.now
    ensures MarksPending(cfg, t)
  {
    forall mark | mark in t.marks ensures PendingMark(cfg, t, mark) {
      assert mark in s.marks && PendingMark(cfg, s, mark);
    }
  }

  /** A row that is not newly running or retrying. */
  predicate Calm(before: Option<Row>, after: Option<Row>) {
    && (before.Some? ==> after.Some?)
    && (after.Some? ==>
          || (after.value.status != Retrying && after.value.status != Running)
          || (before.Some? && after.value.status == before.value.status
              && after.value.attemptCount == before.value.attemptCount))
  }

  /** Adding messages, dropping marks, ending the worker and calm row updates keep the invariant. */
  lemma GrowKeeps(cfg: Config, s: Sys, t: Sys)
    requires Inv(cfg, s) && s.bag <= t.bag && t.marks <= s.marks && s.now <= t.now
    requires (t.holder == s.holder || t.holder.None?) && Calm(s.row, t.row)
    requires t.row.None? ==> t.bag == s.bag && t.toAck == s.toAck
    ensures Inv(cfg, t)
  {
    KeepMarks(cfg, s, t);
    if s.holder.Some? && NewerMessage(s, s.holder.value.next) {
      var w :| w in s.bag && w.attempt == s.holder.value.next;
      assert w in t.bag;
    }
  }

  lemma HookKeeps(cfg: Config, s: Sys, l: Label)
    requires Inv(cfg, s) && HookLabel(l)
    requires HookStep(s, l).Some?
    ensures Inv(cfg, HookStep(s, l).value)
  {
    hide HookStep, Inv, Calm;
    HookGrows(s, l);
    GrowKeeps(cfg, s, HookStep(s, l).value);
  }

  lemma HookGrows(s: Sys, l: Label)
    requires HookLabel(l) && HookStep(s, l).Some?
    ensures var t := HookStep(s, l).value;
            && s.bag <= t.bag && t.toAck == s.toAck && t.marks == s.marks && t.now == s.now && t.holder == s.holder
            && Calm(s.row, t.row) && (t.row.None? ==> t.bag == s.bag)
  {
  }

  lemma StartKeeps(cfg: Config, s: Sys, m: Msg)
    requires Inv(cfg, s) && DeliveryStep(s, Start(m)).Some?
    ensures Inv(cfg, DeliveryStep(s, Start(m)).value)
  {
    KeepMarks(cfg, s, DeliveryStep(s, Start(m)).value);
  }

  lemma DropKeeps(cfg: Config, s: Sys, m: Msg)
    requires Inv(cfg, s) && DeliveryStep(s, Drop(m)).Some?
    ensures Inv(cfg, DeliveryStep(s, Drop(m)).value)
  {
    var t := DeliveryStep(s, Drop(m)).value;
    KeepMarks(cfg, s, t);
    forall a | NewerMessage(s, a) && a != m.attempt ensures NewerMessage(t, a) {
      var w :| w in s.bag && w.attempt == a;
      assert w in t.bag;
    }
  }

  lemma DeferKeeps(cfg: Config, s: Sys, m: Msg, readyAt: int)
    requires Inv(cfg, s) && DeliveryStep(s, Defer(m, readyAt)).Some?
    ensures Inv(cfg, DeliveryStep(s, Defer(m, readyAt)).value)
  {
    var t := DeliveryStep(s, Defer(m, readyAt)).value;
    KeepMarks(cfg, s, t);
    assert Msg(m.attempt, readyAt) in t.bag;
    forall a | NewerMessage(s, a) ensures NewerMessage(t, a) {
      var w :| w in s.bag && w.attempt == a;
      assert (if w == m then Msg(m.attempt, readyAt) else w) in t.bag;
    }
  }

  lemma OtherDeliveryKeeps(cfg: Config, s: Sys, l: Label)
    requires Inv(cfg, s) && (l.DeferDuplicate? || l.Ack? || l.Redeliver?) && DeliveryStep(s, l).Some?
    ensures Inv(cfg, DeliveryStep(s, l).value)
  {
    GrowKeeps(cfg, s, DeliveryStep(s, l).value);
  }

  lemma WorkerKeeps(cfg: Config, s: Sys, l: Label)
    requires Inv(cfg, s) && (l.Crash? || l.Deliver? || l.FinishDone? || l.FinishSuperseded?) && WorkerStep(cfg, s, l).Some?
    ensures Inv(cfg, WorkerStep(cfg, s, l).value)
  {
    GrowKeeps(cfg, s, WorkerStep(cfg, s, l).value);
  }

  lemma FinishMarkedKeeps(cfg: Config, s: Sys, written: bool)
    requires Inv(cfg, s) && WorkerStep(cfg, s, FinishMarked(written)).Some?
    ensures Inv(cfg, WorkerStep(cfg, s, FinishMarked(written)).value)
  {
    if written && s.holder.value.stage.RetryPublished? && s.row.value.status == Running {
      MarkedKeeps(cfg, s);
    } else {
      GrowKeeps(cfg, s, WorkerStep(cfg, s, FinishMarked(written)).value);
    }
  }

  /** The worker's own mark: its retry is still on its way. */
  lemma MarkedKeeps(cfg: Config, s: Sys)
    requires Inv(cfg, s) && s.row.Some? && s.row.value.status == Running
    requires s.holder.Some? && s.holder.value.stage.RetryPublished?
    ensures Inv(cfg, WorkerStep(cfg, s, FinishMarked(true)).value)
  {
    var t := WorkerStep(cfg, s, FinishMarked(true)).value;
    var w :| w in s.bag && w.attempt == s.holder.value.next;
    assert w in t.bag;
    KeepMarks(cfg, s, t);
  }

  lemma WorkerPublishKeeps(cfg: Config, s: Sys, l: Label)
    requires Inv(cfg, s) && (l.PublishRetry? || l.PublishDead?) && WorkerStep(cfg, s, l).Some?
    ensures Inv(cfg, WorkerStep(cfg, s, l).value)
  {
    var t := WorkerStep(cfg, s, l).value;
    KeepMarks(cfg, s, t);
    if l.PublishRetry? && l.sent {
      assert Msg(s.holder.value.next, s.now + l.delay) in t.bag;
    }
  }

  lemma RecoverRetryKeeps(cfg: Config, s: Sys, l: Label)
    requires Outlasts(cfg)
    requires Inv(cfg, s) && l.RecoverRetry? && RecoveryStep(cfg, s, l).Some?
    ensures Inv(cfg, RecoveryStep(cfg, s, l).value)
  {
    var t := RecoveryStep(cfg, s, l).value;
    assert s.bag <= t.bag;
    assert forall a :: NewerMessage(s, a) ==> NewerMessage(t, a);
    KeepMarks(cfg, s, t.(marks := s.marks));
    assert Msg(l.reading + 1, s.now + l.delay) in t.bag;
  }

  lemma RecoverConfirmKeeps(cfg: Config, s: Sys, l: Label)
    requires Inv(cfg, s) && l.RecoverConfirm? && RecoveryStep(cfg, s, l).Some?
    ensures Inv(cfg, RecoveryStep(cfg, s, l).value)
  {
    var t := RecoveryStep(cfg, s, l).value;
    assert PendingMark(cfg, s, l.mark);
    var m :| m in s.bag && m.readyAt > Latest(cfg, l.mark);
    assert PendingMark(cfg, t, Confirmed(cfg, l.mark, s.now));
    KeepMarks(cfg, s, t.(marks := s.marks));
  }

  lemma RecoverMarkKeeps(cfg: Config, s: Sys, l: Label)
    requires Inv(cfg, s) && l.RecoverMark? && RecoveryStep(cfg, s, l).Some?
    ensures Inv(cfg, RecoveryStep(cfg, s, l).value)
  {
    var t := RecoveryStep(cfg, s, l).value;
    assert PendingMark(cfg, s, l.mark);
    assert s.bag != multiset{};
    KeepMarks(cfg, s, t);
    assert forall a :: NewerMessage(s, a) ==> NewerMessage(t, a);
  }

  /** The other steps of recovery and requeue add messages and drop marks. */
  lemma OtherRecoveryGrows(cfg: Config, s: Sys, l: Label)
    requires RecoveryLabel(l) && !l.RecoverRetry? && !l.RecoverConfirm? && !l.RecoverMark?
    requires RecoveryStep(cfg, s, l).Some?
    ensures var t := RecoveryStep(cfg, s, l).value;
            s.bag <= t.bag && t.marks <= s.marks && t.now == s.now && t.holder == s.holder && t.row.Some?
  {
    hide MarkDeadLetter, UpdateStatus, TouchQueued, Requeue;
  }

  /** They neither make the row running nor retrying. */
  lemma OtherRecoveryCalms(cfg: Config, s: Sys, l: Label)
    requires RecoveryLabel(l) && !l.RecoverRetry? && !l.RecoverConfirm? && !l.RecoverMark?
    requires RecoveryStep(cfg, s, l).Some?
    ensures Calm(s.row, RecoveryStep(cfg, s, l).value.row)
  {
  }

  lemma OtherRecoveryKeeps(cfg: Config, s: Sys, l: Label)
    requires RecoveryLabel(l) && !l.RecoverRetry? && !l.RecoverConfirm? && !l.RecoverMark?
    requires Inv(cfg, s) && RecoveryStep(cfg, s, l).Some?
    ensures true == Inv(cfg, RecoveryStep(cfg, s, l).value)
  {
    hide Inv, Calm;
    OtherRecoveryGrows(cfg, s, l);
    OtherRecoveryCalms(cfg, s, l);
    GrowKeeps(cfg, s, RecoveryStep(cfg, s, l).value);
  }

  lemma StepKeeps(cfg: Config, s: Sys, l: Label)
    requires Outlasts(cfg)
    requires Inv(cfg, s) && Step(cfg, s, l).Some?
    ensures Inv(cfg, Step(cfg, s, l).value)
  {
    if l.Tick? {
      GrowKeeps(cfg, s, s.(now := s.now + l.d));
    } else if HookLabel(l) {
      HookKeeps(cfg, s, l);
    } else if l.Start? {
      StartKeeps(cfg, s, l.m);
    } else if l.Drop? {
      DropKeeps(cfg, s, l.m);
    } else if l.Defer? {
      DeferKeeps(cfg, s, l.m, l.readyAt);
    } else if l.DeferDuplicate? || l.Ack? || l.Redeliver? {
      OtherDeliveryKeeps(cfg, s, l);
    } else if l.PublishRetry? || l.PublishDead? {
      WorkerPublishKeeps(cfg, s, l);
    } else if l.FinishMarked? {
      FinishMarkedKeeps(cfg, s, l.written);
    } else if WorkerLabel(l) {
      WorkerKeeps(cfg, s, l);
    } else if l.RecoverRetry? {
      RecoverRetryKeeps(cfg, s, l);
    } else if l.RecoverConfirm? {
      RecoverConfirmKeeps(cfg, s, l);
    } else if l.RecoverMark? {
      RecoverMarkKeeps(cfg, s, l);
    } else {
      OtherRecoveryKeeps(cfg, s, l);
    }
  }

  lemma {:induction false} RunKeeps(cfg: Config, labels: seq<Label>)
    requires Outlasts(cfg) && Run(cfg, labels).Some?
    ensures Inv(cfg, Run(cfg, labels).value)
  {
    if |labels| > 0 {
      RunKeeps(cfg, labels[..|labels| - 1]);
      StepKeeps(cfg, Run(cfg, labels[..|labels| - 1]).value, labels[|labels| - 1]);
    }
  }

  // ----- a single attempt: nothing is ever retried -----

  predicate NoRetries(s: Sys) {
    && (s.row.Some? ==> s.row.value.status != Retrying)
    && s.marks == multiset{}
    && (s.holder.Some? ==> s.holder.value.next > 0 && !s.holder.value.stage.RetryPublished?)
  }

  lemma NoRetriesWorker(cfg: Config, s: Sys, l: Label)
    requires cfg.maxAttempts <= 1 && NoRetries(s) && WorkerLabel(l) && WorkerStep(cfg, s, l).Some?
    ensures NoRetries(WorkerStep(cfg, s, l).value)
  {
    if !l.FinishMarked? {
      Unmarked(cfg, s, l);
    }
  }

  /** Up to the mark at its end, a worker's row is calm. */
  lemma Unmarked(cfg: Config, s: Sys, l: Label)
    requires WorkerLabel(l) && !l.FinishMarked? && WorkerStep(cfg, s, l).Some?
    ensures var t := WorkerStep(cfg, s, l).value;
            && Calm(s.row, t.row) && t.marks == s.marks
            && (t.holder.Some? ==> t.holder.value.next == s.holder.value.next)
            && (t.holder.Some? && t.holder.value.stage.RetryPublished? ==>
                  t.holder == s.holder || s.holder.value.next < cfg.maxAttempts)
  {
  }

  lemma NoRetriesRecovery(cfg: Config, s: Sys, l: Label)
    requires cfg.maxAttempts <= 1 && NoRetries(s) && RecoveryLabel(l) && RecoveryStep(cfg, s, l).Some?
    ensures NoRetries(RecoveryStep(cfg, s, l).value)
  {
  }

  lemma NoRetriesOther(cfg: Config, s: Sys, l: Label)
    requires NoRetries(s) && Step(cfg, s, l).Some? && (l.Tick? || HookLabel(l) || DeliveryLabel(l))
    ensures NoRetries(Step(cfg, s, l).value)
  {
    if HookLabel(l) {
      hide HookStep, Calm;
      HookGrows(s, l);
      NoRetriesCalm(s, HookStep(s, l).value);
    }
  }

  lemma NoRetriesCalm(s: Sys, t: Sys)
    requires NoRetries(s) && Calm(s.row, t.row) && t.marks == s.marks && t.holder == s.holder
    ensures NoRetries(t)
  {
  }

  lemma NoRetriesStep(cfg: Config, s: Sys, l: Label)
    requires cfg.maxAttempts <= 1 && NoRetries(s) && Step(cfg, s, l).Some?
    ensures true == NoRetries(Step(cfg, s, l).value)
  {
    if WorkerLabel(l) {
      NoRetriesWorker(cfg, s, l);
    } else if RecoveryLabel(l) {
      NoRetriesRecovery(cfg, s, l);
    } else {
      NoRetriesOther(cfg, s, l);
    }
  }

  lemma {:induction false} NoRetriesRun(cfg: Config, labels: seq<Label>)
    requires cfg.maxAttempts <= 1 && Run(cfg, labels).Some?
    ensures NoRetries(Run(cfg, labels).value)
  {
    if |labels| > 0 {
      NoRetriesRun(cfg, labels[..|labels| - 1]);
      NoRetriesStep(cfg, Run(cfg, labels[..|labels| - 1]).value, labels[|labels| - 1]);
    }
  }

  /** In a safe configuration a retrying task always has a message in the main or the retry queue. */
  lemma {:induction false} RetryingHasMessage(cfg: Config, labels: seq<Label>)
    requires SafeConfig(cfg) && Run(cfg, labels).Some?
    ensures var s := Run(cfg, labels).value; s.row.Some? && s.row.value.status == Retrying ==> s.bag != multiset{}
  {
    if cfg.maxAttempts <= 1 {
      NoRetriesRun(cfg, labels);
    } else {
      RunKeeps(cfg, labels);
    }
  }

  /** That message leads on: once it and the row are due, a worker that finds the PR free claims the task with it. */
  lemma {:induction false} RetryingMovesOn(cfg: Config, labels: seq<Label>) returns (d: nat, m: Msg)
    requires SafeConfig(cfg) && Run(cfg, labels).Some?
    requires var s := Run(cfg, labels).value; s.row.Some? && s.row.value.status == Retrying && s.holder.None?
    ensures var t := Run(cfg, labels + [Tick(d), Start(m)]); t.Some? && t.value.row.value.status == Running
  {
    RetryingHasMessage(cfg, labels);
    var s := Run(cfg, labels).value;
    m :| m in s.bag;
    d := MovesOn(cfg, s, m);
    TwoMore(cfg, labels, Tick(d), Start(m));
  }

  /** Waiting until message and row are due makes the claim possible. */
  lemma MovesOn(cfg: Config, s: Sys, m: Msg) returns (d: nat)
    requires s.row.Some? && s.row.value.status == Retrying && s.holder.None? && m in s.bag
    ensures Step(cfg, s, Tick(d)).Some?
    ensures var t := Step(cfg, Step(cfg, s, Tick(d)).value, Start(m));
            t.Some? && t.value.row.Some? && t.value.row.value.status == Running
  {
    var due := if s.row.value.nextRetryAt.None? then 0 else s.row.value.nextRetryAt.value;
    d := Later(m.readyAt - s.now, due - s.now);
  }

  lemma TwoMore(cfg: Config, labels: seq<Label>, a: Label, b: Label)
    requires Run(cfg, labels).Some? && Step(cfg, Run(cfg, labels).value, a).Some?
    ensures Run(cfg, labels + [a, b]) == Step(cfg, Step(cfg, Run(cfg, labels).value, a).value, b)
  {
    hide Step;
    assert (labels + [a, b])[..|labels| + 1] == labels + [a];
    assert (labels + [a])[..|labels|] == labels;
  }

  function Later(a: int, b: int): nat {
    if a <= 0 && b <= 0 then 0 else if a < b then b else a
  }

  /**
   * A crash between publishing a retry and marking the row leaves the row running and a message that ClaimTask takes
   * through its running clause, now and whenever it is delivered.
   */
  lemma {:induction false} CrashLeavesClaimable(cfg: Config, labels: seq<Label>) returns (m: Msg)
    requires SafeConfig(cfg) && Run(cfg, labels + [Crash]).Some?
    requires var s := Run(cfg, labels);
             s.Some? && s.value.row.Some? && s.value.row.value.status == Running && s.value.holder.Some? &&
             s.value.holder.value.stage.RetryPublished?
    ensures var t := Run(cfg, labels + [Crash]).value;
            && m in t.bag && t.row.value.status == Running
            && !Stale(t.row.value, m) && forall at :: Claimable(t.row.value, m.attempt, at)
  {
    assert (labels + [Crash])[..|labels|] == labels;
    if cfg.maxAttempts <= 1 {
      NoRetriesRun(cfg, labels);
    } else {
      RunKeeps(cfg, labels);
      var s := Run(cfg, labels).value;
      m :| m in s.bag && m.attempt == s.holder.value.next;
    }
  }
}
