/**
 * What every run keeps, however outdated its recoveries are: no live row and no message ever counts `maxAttempts`
 * attempts, and the worker at work counts one more than its row.
 */
module LiveAttempts {
  import opened Collections
  import opened TaskRows
  import opened TaskProtocol

  predicate Live(status: Status) {
    status == Received || status == Queued || status == Running || status == Retrying
  }

  predicate Small(bag: multiset<Msg>, bound: nat) {
    forall m <- bag :: m.attempt < bound
  }

  /** A live worker's task, while running, counts the worker's claim. */
  predicate HolderFits(row: Row, h: Holder, bound: nat) {
    && h.msg.attempt < bound && (h.stage.RetryPublished? ==> h.next < bound)
    && (row.status == Running ==> row.attemptCount + 1 == h.next)
  }

  predicate RowFits(cfg: Config, s: Sys) {
    && (s.row.None? ==> s.claims == [] && s.holder.None? && s.hook == NoHook)
    && (s.row.Some? ==>
          && (Live(s.row.value.status) ==> s.row.value.attemptCount < cfg.maxAttempts)
          && (s.hook == HookCreated ==>
                && (s.row.value.status == Received || s.row.value.status == Failed)
                && s.row.value.attemptCount == 0 && s.claims == [] && s.holder.None?)
          && (s.holder.Some? ==> HolderFits(s.row.value, s.holder.value, cfg.maxAttempts)))
  }

  /** Each process holds at most one reading or mark of the task. */
  predicate TokensFit(cfg: Config, s: Sys) {
    && (forall mark <- s.marks :: 0 < mark.attempt < cfg.maxAttempts)
    && |s.readings| + |s.marks| <= cfg.processes
    && (s.row.None? ==> s.readings == multiset{} && s.marks == multiset{})
  }

  predicate Fits(cfg: Config, s: Sys) {
    RowFits(cfg, s) && TokensFit(cfg, s) && Small(s.bag, cfg.maxAttempts) && Small(s.toAck, cfg.maxAttempts)
  }

  lemma OneMore(bag: multiset<Msg>, m: Msg, bound: nat)
    requires Small(bag, bound) && m.attempt < bound
    ensures Small(bag + multiset{m}, bound)
  {
  }

  lemma OneLess(bag: multiset<Msg>, m: Msg, bound: nat)
    requires Small(bag, bound)
    ensures Small(bag - multiset{m}, bound) && (m in bag ==> m.attempt < bound)
  {
  }

  // ----- webhook and deliveries -----

  lemma HookFits(cfg: Config, s: Sys, l: Label)
    requires ValidConfig(cfg) && Fits(cfg, s) && HookLabel(l) && HookStep(s, l).Some?
    ensures Fits(cfg, HookStep(s, l).value)
  {
    hide HookStep, RowFits;
    HookRow(cfg, s, l);
    OneMore(s.bag, Msg(0, s.now), cfg.maxAttempts);
  }

  lemma HookRow(cfg: Config, s: Sys, l: Label)
    requires ValidConfig(cfg) && RowFits(cfg, s) && HookLabel(l) && HookStep(s, l).Some?
    ensures var t := HookStep(s, l).value;
            && RowFits(cfg, t) && t.claims == s.claims && t.toAck == s.toAck && t.marks == s.marks && t.readings == s.readings
            && (t.row.None? ==> s.row.None?)
            && (t.bag == s.bag || t.bag == s.bag + multiset{Msg(0, s.now)})
  {
  }

  lemma StartFits(cfg: Config, s: Sys, m: Msg)
    requires Fits(cfg, s) && DeliveryStep(s, Start(m)).Some?
    ensures Fits(cfg, DeliveryStep(s, Start(m)).value)
  {
  }

  lemma DeliveryFits(cfg: Config, s: Sys, l: Label)
    requires Fits(cfg, s) && DeliveryLabel(l) && !l.Start? && DeliveryStep(s, l).Some?
    ensures Fits(cfg, DeliveryStep(s, l).value)
  {
    assert s.holder.Some? ==> s.row.Some? && s.holder.value.msg.attempt < cfg.maxAttempts;
    hide RowFits, DeliveryStep, Small;
    DeliveryMessages(cfg, s, l);
    SameRow(cfg, s, DeliveryStep(s, l).value);
  }

  /** A delivery moves messages about, and may duplicate them. */
  lemma DeliveryMessages(cfg: Config, s: Sys, l: Label)
    requires Small(s.bag, cfg.maxAttempts) && Small(s.toAck, cfg.maxAttempts)
    requires s.holder.Some? ==> s.holder.value.msg.attempt < cfg.maxAttempts
    requires DeliveryLabel(l) && !l.Start? && DeliveryStep(s, l).Some?
    ensures var t := DeliveryStep(s, l).value;
            && Small(t.bag, cfg.maxAttempts) && Small(t.toAck, cfg.maxAttempts)
            && t.row == s.row && t.claims == s.claims && t.hook == s.hook && t.holder == s.holder
            && t.marks == s.marks && t.readings == s.readings
  {
    hide Terminal, Early, Stale, Claimable, Small;
    OneLess(s.bag, l.m, cfg.maxAttempts);
    OneLess(s.toAck, l.m, cfg.maxAttempts);
    if l.m.attempt < cfg.maxAttempts {
      OneMore(s.toAck, l.m, cfg.maxAttempts);
      OneMore(s.bag, l.m, cfg.maxAttempts);
    }
    if (l.Defer? || l.DeferDuplicate?) && l.m.attempt < cfg.maxAttempts {
      OneMore(s.bag - multiset{l.m}, Msg(l.m.attempt, l.readyAt), cfg.maxAttempts);
      OneMore(s.bag, Msg(l.m.attempt, l.readyAt), cfg.maxAttempts);
    }
  }

  // ----- the worker -----

  lemma WorkerFits(cfg: Config, s: Sys, l: Label)
    requires Fits(cfg, s) && WorkerLabel(l) && WorkerStep(cfg, s, l).Some?
    ensures Fits(cfg, WorkerStep(cfg, s, l).value)
  {
    hide WorkerStep;
    WorkerMessages(cfg, s, l);
    if l.FinishMarked? {
      MarkedRow(cfg, s, l);
    } else {
      UnmarkedRow(cfg, s, l);
    }
  }

  lemma MarkedRow(cfg: Config, s: Sys, l: Label)
    requires RowFits(cfg, s) && l.FinishMarked? && WorkerStep(cfg, s, l).Some?
    ensures RowFits(cfg, WorkerStep(cfg, s, l).value)
  {
  }

  lemma UnmarkedRow(cfg: Config, s: Sys, l: Label)
    requires RowFits(cfg, s) && WorkerLabel(l) && !l.FinishMarked? && WorkerStep(cfg, s, l).Some?
    ensures RowFits(cfg, WorkerStep(cfg, s, l).value)
  {
  }

  /** The worker adds at most one message to each queue: its own, or the next attempt. */
  lemma WorkerMessages(cfg: Config, s: Sys, l: Label)
    requires Fits(cfg, s) && WorkerLabel(l) && WorkerStep(cfg, s, l).Some?
    ensures var t := WorkerStep(cfg, s, l).value;
            && Small(t.bag, cfg.maxAttempts) && Small(t.toAck, cfg.maxAttempts)
            && t.claims == s.claims && t.marks == s.marks && t.readings == s.readings && t.row.Some?
  {
    hide WorkerStep, Small;
    WorkerAdds(cfg, s, l);
    var h := s.holder.value;
    OneMore(s.toAck, h.msg, cfg.maxAttempts);
    OneMore(s.bag, h.msg, cfg.maxAttempts);
    if l.PublishRetry? && h.next < cfg.maxAttempts {
      OneMore(s.bag, Msg(h.next, s.now + l.delay), cfg.maxAttempts);
    }
  }

  predicate AddsLittle(cfg: Config, s: Sys, l: Label, t: Sys)
    requires s.holder.Some?
  {
    var h := s.holder.value;
    && s.row.Some? && t.row.Some? && t.claims == s.claims && t.marks == s.marks && t.readings == s.readings
    && (t.toAck == s.toAck || t.toAck == s.toAck + multiset{h.msg})
    && (|| t.bag == s.bag || t.bag == s.bag + multiset{h.msg}
        || (l.PublishRetry? && h.next < cfg.maxAttempts && t.bag == s.bag + multiset{Msg(h.next, s.now + l.delay)}))
  }

  lemma WorkerAdds(cfg: Config, s: Sys, l: Label)
    requires WorkerLabel(l) && WorkerStep(cfg, s, l).Some?
    ensures s.holder.Some? && AddsLittle(cfg, s, l, WorkerStep(cfg, s, l).value)
  {
    if !l.FinishMarked? {
      UnmarkedAdds(cfg, s, l);
    }
  }

  lemma UnmarkedAdds(cfg: Config, s: Sys, l: Label)
    requires WorkerLabel(l) && !l.FinishMarked? && WorkerStep(cfg, s, l).Some?
    ensures s.holder.Some? && AddsLittle(cfg, s, l, WorkerStep(cfg, s, l).value)
  {
  }

  // ----- recovery -----

  /** The steps of a recovery that leave the row alone. */
  predicate RowlessLabel(l: Label) {
    || l.Scan? || l.RecoverSkip? || l.RecoverRetry? || l.RecoverConfirm? || l.RecoverForget?
    || (l.RecoverMark? && !l.written) || l.PublishMain?
  }

  lemma RecoveryFits(cfg: Config, s: Sys, l: Label)
    requires ValidConfig(cfg) && Fits(cfg, s) && RecoveryLabel(l) && RecoveryStep(cfg, s, l).Some?
    ensures Fits(cfg, RecoveryStep(cfg, s, l).value)
  {
    hide RecoveryStep, RowFits, TokensFit;
    RecoveryMessages(cfg, s, l);
    if l.RecoverConfirm? || l.RecoverMark? || l.RecoverForget? {
      MarkTokens(cfg, s, l);
    } else {
      ReadingTokens(cfg, s, l);
    }
    if RowlessLabel(l) {
      RowlessRow(cfg, s, l);
    } else {
      WrittenRow(cfg, s, l);
    }
  }

  lemma RecoveryMessages(cfg: Config, s: Sys, l: Label)
    requires ValidConfig(cfg) && Small(s.bag, cfg.maxAttempts) && RecoveryLabel(l) && RecoveryStep(cfg, s, l).Some?
    ensures Small(RecoveryStep(cfg, s, l).value.bag, cfg.maxAttempts) && RecoveryStep(cfg, s, l).value.toAck == s.toAck
  {
    hide Small, MarkRetry, MarkDeadLetter, UpdateStatus, Requeue, TouchQueued;
    if l.RecoverRetry? {
      OneMore(s.bag, Msg(l.reading + 1, s.now + l.delay), cfg.maxAttempts);
    }
    OneMore(s.bag, Msg(0, s.now), cfg.maxAttempts);
  }

  lemma MarkTokens(cfg: Config, s: Sys, l: Label)
    requires TokensFit(cfg, s) && (l.RecoverConfirm? || l.RecoverMark? || l.RecoverForget?) && RecoveryStep(cfg, s, l).Some?
    ensures TokensFit(cfg, RecoveryStep(cfg, s, l).value)
  {
    hide MarkRetry;
  }

  lemma ReadingTokens(cfg: Config, s: Sys, l: Label)
    requires TokensFit(cfg, s) && RecoveryLabel(l) && !l.RecoverConfirm? && !l.RecoverMark? && !l.RecoverForget?
    requires RecoveryStep(cfg, s, l).Some?
    ensures TokensFit(cfg, RecoveryStep(cfg, s, l).value)
  {
    hide MarkDeadLetter, UpdateStatus, Requeue, TouchQueued;
  }

  lemma RowlessRow(cfg: Config, s: Sys, l: Label)
    requires RowFits(cfg, s) && RecoveryLabel(l) && RowlessLabel(l) && RecoveryStep(cfg, s, l).Some?
    ensures RowFits(cfg, RecoveryStep(cfg, s, l).value)
  {
    hide RowFits;
    SameRow(cfg, s, RecoveryStep(cfg, s, l).value);
  }

  lemma SameRow(cfg: Config, s: Sys, t: Sys)
    requires RowFits(cfg, s) && t.row == s.row && t.claims == s.claims && t.hook == s.hook && t.holder == s.holder
    ensures RowFits(cfg, t)
  {
  }

  lemma WrittenRow(cfg: Config, s: Sys, l: Label)
    requires ValidConfig(cfg) && RowFits(cfg, s) && TokensFit(cfg, s) && RecoveryLabel(l) && !RowlessLabel(l)
    requires RecoveryStep(cfg, s, l).Some?
    ensures RowFits(cfg, RecoveryStep(cfg, s, l).value)
  {
    if l.RecoverMark? {
      MarkWritten(cfg, s, l);
    } else if l.RecoverDead? || l.RecoverFailed? {
      GivenUp(cfg, s, l);
    }
  }

  lemma MarkWritten(cfg: Config, s: Sys, l: Label)
    requires RowFits(cfg, s) && TokensFit(cfg, s) && l.RecoverMark? && l.written && RecoveryStep(cfg, s, l).Some?
    ensures RowFits(cfg, RecoveryStep(cfg, s, l).value)
  {
  }

  lemma GivenUp(cfg: Config, s: Sys, l: Label)
    requires RowFits(cfg, s) && (l.RecoverDead? || l.RecoverFailed?) && RecoveryStep(cfg, s, l).Some?
    ensures RowFits(cfg, RecoveryStep(cfg, s, l).value)
  {
  }

  lemma StepFits(cfg: Config, s: Sys, l: Label)
    requires ValidConfig(cfg) && Fits(cfg, s) && Step(cfg, s, l).Some?
    ensures true == Fits(cfg, Step(cfg, s, l).value)
  {
    hide HookStep, DeliveryStep, WorkerStep, RecoveryStep;
    if l.Tick? {
    } else if HookLabel(l) {
      HookFits(cfg, s, l);
    } else if l.Start? {
      StartFits(cfg, s, l.m);
    } else if DeliveryLabel(l) {
      DeliveryFits(cfg, s, l);
    } else if WorkerLabel(l) {
      WorkerFits(cfg, s, l);
    } else {
      RecoveryFits(cfg, s, l);
    }
  }

  lemma {:induction false} RunFits(cfg: Config, labels: seq<Label>)
    requires ValidConfig(cfg) && Run(cfg, labels).Some?
    ensures Fits(cfg, Run(cfg, labels).value)
  {
    if |labels| > 0 {
      RunFits(cfg, labels[..|labels| - 1]);
      StepFits(cfg, Run(cfg, labels[..|labels| - 1]).value, labels[|labels| - 1]);
    }
  }

  predicate StaysBelow(s: Sys, bound: nat) {
    (s.row.Some? && Live(s.row.value.status) ==> s.row.value.attemptCount < bound) && Small(s.bag, bound)
  }

  /** In every run, every live row and every message counts fewer than `maxAttempts` attempts. */
  lemma {:induction false} BelowMaximum(cfg: Config, labels: seq<Label>)
    requires ValidConfig(cfg) && Run(cfg, labels).Some?
    ensures true == StaysBelow(Run(cfg, labels).value, cfg.maxAttempts)
  {
    RunFits(cfg, labels);
  }

  // ----- no message without its task -----

  predicate OnlyWithTask(s: Sys) {
    s.row.None? ==> s.bag == multiset{} && s.toAck == multiset{} && s.holder.None? && s.hook == NoHook
  }

  /** A row once created stays. */
  lemma RowStays(cfg: Config, s: Sys, l: Label)
    requires s.row.Some? && Step(cfg, s, l).Some?
    ensures Step(cfg, s, l).value.row.Some?
  {
    hide UpdateStatus, MarkRetry, MarkDeadLetter, MarkDelivered, Requeue, TouchQueued, Claim, Claimable;
  }

  lemma NothingYet(cfg: Config, s: Sys, l: Label)
    requires s.row.None? && OnlyWithTask(s) && Step(cfg, s, l).Some?
    ensures l.Tick? || l.HookCreate? || l.HookCrash?
  {
    hide UpdateStatus, MarkRetry, MarkDeadLetter, MarkDelivered, Requeue, TouchQueued, Claim, Claimable;
  }

  lemma StepOnlyWithTask(cfg: Config, s: Sys, l: Label)
    requires OnlyWithTask(s) && Step(cfg, s, l).Some?
    ensures OnlyWithTask(Step(cfg, s, l).value)
  {
    hide DeliveryStep, WorkerStep, RecoveryStep;
    if s.row.Some? {
      hide Step;
      RowStays(cfg, s, l);
    } else {
      NothingYet(cfg, s, l);
    }
  }

  /** In every run a message's task exists: no worker ever has to discard the message of an unknown one. */
  lemma {:induction false} MessagesHaveTask(cfg: Config, labels: seq<Label>)
    requires Run(cfg, labels).Some?
    ensures OnlyWithTask(Run(cfg, labels).value)
  {
    if |labels| > 0 {
      MessagesHaveTask(cfg, labels[..|labels| - 1]);
      StepOnlyWithTask(cfg, Run(cfg, labels[..|labels| - 1]).value, labels[|labels| - 1]);
    }
  }
}
