/**
 * However outdated its recoveries are, a run claims a task only so often between two requeues. A recovery that resets the
 * row's count uses up what it has read; the processes can read anew, but only higher counts, until someone with an even
 * older reading resets the row again. RecoveryLoads measures what is left to be done; every reset lowers it.
 */
module AttemptBudget {
  import opened Collections
  import opened TaskRows
  import opened TaskProtocol
  import opened LiveAttempts
  import opened RecoveryLoads

  // ----- claims against load -----

  /** How many claims the row's count accounts for since the last reset. */
  function Segment(cfg: Config, row: Row): nat {
    match row.status
    case Received => 0
    case Queued => 0
    case Running => row.attemptCount + 1
    case Retrying => row.attemptCount
    case _ => cfg.maxAttempts
  }

  /** Every reset so far, worth `maxAttempts` claims, is paid for by a fall of the load. */
  ghost predicate WithinBudget(cfg: Config, s: Sys) {
    s.row.Some? ==>
      |s.claims| + cfg.maxAttempts * Load(cfg, s, s.row.value.attemptCount)
        <= cfg.maxAttempts * Most(cfg) + Segment(cfg, s.row.value)
  }

  /** A step that keeps or raises the count. */
  predicate Onward(cfg: Config, s: Sys, t: Sys) {
    && s.row.Some? && t.row.Some? && s.row.value.attemptCount <= t.row.value.attemptCount
    && |t.claims| + Segment(cfg, s.row.value) <= |s.claims| + Segment(cfg, t.row.value)
  }

  lemma OnwardKeeps(cfg: Config, s: Sys, t: Sys)
    requires WithinBudget(cfg, s) && Onward(cfg, s, t)
    requires var count := s.row.value.attemptCount; Load(cfg, t, count) <= Load(cfg, s, count)
    ensures WithinBudget(cfg, t)
  {
    hide Load, Segment;
    var count, later := s.row.value.attemptCount, t.row.value.attemptCount;
    LoadFalls(cfg, t, count, later);
    Scaled(cfg.maxAttempts, Load(cfg, t, later), Load(cfg, s, count));
  }

  lemma SameLoad(cfg: Config, s: Sys, t: Sys, count: nat)
    requires t.readings == s.readings && t.marks == s.marks
    ensures Load(cfg, t, count) == Load(cfg, s, count)
  {
  }

  /** With no claims counted, any load is fine. */
  lemma RestartKeeps(cfg: Config, t: Sys)
    requires TokensFit(cfg, t) && t.claims == []
    ensures WithinBudget(cfg, t)
  {
    if t.row.Some? {
      LoadAtMost(cfg, t, t.row.value.attemptCount);
      Scaled(cfg.maxAttempts, Load(cfg, t, t.row.value.attemptCount), Most(cfg));
    }
  }

  lemma Product(k: nat, a: nat)
    ensures k * (a + 1) == k * a + k
  {
  }

  /** A mark that resets the count. */
  lemma ResetKeeps(cfg: Config, s: Sys, t: Sys, mark: Mark)
    requires WithinBudget(cfg, s) && TokensFit(cfg, s) && mark in s.marks && s.row.Some? && t.row.Some?
    requires s.row.value.status == Running && mark.attempt <= s.row.value.attemptCount < cfg.maxAttempts
    requires t.row.value.status == Retrying && t.row.value.attemptCount == mark.attempt
    requires t.readings == s.readings && t.marks == s.marks - multiset{mark} && t.claims == s.claims
    ensures WithinBudget(cfg, t)
  {
    hide Load, Most;
    var count := s.row.value.attemptCount;
    ResetPays(cfg, s, t, mark, count);
    Scaled(cfg.maxAttempts, Load(cfg, t, mark.attempt) + 1, Load(cfg, s, count));
    Product(cfg.maxAttempts, Load(cfg, t, mark.attempt));
  }

  // ----- every step -----

  lemma HookOnward(cfg: Config, s: Sys, l: Label)
    requires RowFits(cfg, s) && HookLabel(l) && HookStep(s, l).Some?
    ensures var t := HookStep(s, l).value;
            && t.readings == s.readings && t.marks == s.marks && (t.claims == [] || Onward(cfg, s, t))
  {
  }

  lemma HookBudget(cfg: Config, s: Sys, l: Label)
    requires ValidConfig(cfg) && Fits(cfg, s) && WithinBudget(cfg, s) && HookLabel(l) && HookStep(s, l).Some?
    ensures WithinBudget(cfg, HookStep(s, l).value)
  {
    hide HookStep, Onward, Load;
    var t := HookStep(s, l).value;
    HookOnward(cfg, s, l);
    HookFits(cfg, s, l);
    if t.claims == [] {
      RestartKeeps(cfg, t);
    } else {
      SameTokens(cfg, s, t);
    }
  }

  lemma SameTokens(cfg: Config, s: Sys, t: Sys)
    requires WithinBudget(cfg, s) && Onward(cfg, s, t) && t.readings == s.readings && t.marks == s.marks
    ensures WithinBudget(cfg, t)
  {
    SameLoad(cfg, s, t, s.row.value.attemptCount);
    OnwardKeeps(cfg, s, t);
  }

  lemma DeliveryOnward(cfg: Config, s: Sys, l: Label)
    requires DeliveryLabel(l) && DeliveryStep(s, l).Some? && s.row.Some?
    ensures var t := DeliveryStep(s, l).value;
            t.readings == s.readings && t.marks == s.marks && Onward(cfg, s, t)
  {
  }

  lemma DeliveryBudget(cfg: Config, s: Sys, l: Label)
    requires WithinBudget(cfg, s) && DeliveryLabel(l) && DeliveryStep(s, l).Some?
    ensures WithinBudget(cfg, DeliveryStep(s, l).value)
  {
    hide DeliveryStep, Onward, Load;
    if s.row.Some? {
      DeliveryOnward(cfg, s, l);
      SameTokens(cfg, s, DeliveryStep(s, l).value);
    } else {
      NoRow(s, l);
    }
  }

  lemma NoRow(s: Sys, l: Label)
    requires DeliveryLabel(l) && DeliveryStep(s, l).Some?
    ensures DeliveryStep(s, l).value.row.Some? ==> s.row.Some?
  {
  }

  lemma WorkerOnward(cfg: Config, s: Sys, l: Label)
    requires RowFits(cfg, s) && WorkerLabel(l) && WorkerStep(cfg, s, l).Some?
    ensures Onward(cfg, s, WorkerStep(cfg, s, l).value)
  {
    if l.FinishMarked? {
      MarkOnward(cfg, s, l);
    } else {
      ReviewOnward(cfg, s, l);
    }
  }

  lemma MarkOnward(cfg: Config, s: Sys, l: Label)
    requires RowFits(cfg, s) && l.FinishMarked? && WorkerStep(cfg, s, l).Some?
    ensures Onward(cfg, s, WorkerStep(cfg, s, l).value)
  {
  }

  lemma ReviewOnward(cfg: Config, s: Sys, l: Label)
    requires RowFits(cfg, s) && WorkerLabel(l) && !l.FinishMarked? && WorkerStep(cfg, s, l).Some?
    ensures Onward(cfg, s, WorkerStep(cfg, s, l).value)
  {
  }

  lemma WorkerBudget(cfg: Config, s: Sys, l: Label)
    requires RowFits(cfg, s) && WithinBudget(cfg, s) && WorkerLabel(l) && WorkerStep(cfg, s, l).Some?
    ensures WithinBudget(cfg, WorkerStep(cfg, s, l).value)
  {
    hide WorkerStep, Onward, Load, RowFits;
    WorkerOnward(cfg, s, l);
    WorkerAdds(cfg, s, l);
    SameTokens(cfg, s, WorkerStep(cfg, s, l).value);
  }

  /** A recovery only ever lowers the load, as long as the count stays. */
  lemma RecoveryLoad(cfg: Config, s: Sys, l: Label, count: nat)
    requires TokensFit(cfg, s) && RecoveryLabel(l) && RecoveryStep(cfg, s, l).Some?
    requires s.row.Some? && count == s.row.value.attemptCount
    ensures Load(cfg, RecoveryStep(cfg, s, l).value, count) <= Load(cfg, s, count)
  {
    hide RecoveryStep, Load, TokensFit;
    if l.RecoverConfirm? || l.RecoverMark? || l.RecoverForget? {
      MarkLoad(cfg, s, l, count);
    } else {
      ReadingLoad(cfg, s, l, count);
    }
  }

  lemma MarkLoad(cfg: Config, s: Sys, l: Label, count: nat)
    requires TokensFit(cfg, s) && (l.RecoverConfirm? || l.RecoverMark? || l.RecoverForget?) && RecoveryStep(cfg, s, l).Some?
    ensures Load(cfg, RecoveryStep(cfg, s, l).value, count) <= Load(cfg, s, count)
  {
    hide Load, TokensFit, MarkRetry;
    var t := RecoveryStep(cfg, s, l).value;
    match l
    case RecoverConfirm(mark) => ConfirmedLoad(cfg, s, t, mark, s.now, count);
    case RecoverMark(mark, written) => MarkDone(cfg, s, t, mark, count);
    case RecoverForget(mark) => MarkDone(cfg, s, t, mark, count);
  }

  lemma ReadingLoad(cfg: Config, s: Sys, l: Label, count: nat)
    requires TokensFit(cfg, s) && RecoveryLabel(l) && !l.RecoverConfirm? && !l.RecoverMark? && !l.RecoverForget?
    requires RecoveryStep(cfg, s, l).Some? && s.row.Some? && count == s.row.value.attemptCount
    ensures Load(cfg, RecoveryStep(cfg, s, l).value, count) <= Load(cfg, s, count)
  {
    hide Load, TokensFit, MarkDeadLetter, UpdateStatus, Requeue, TouchQueued, Listed;
    var t := RecoveryStep(cfg, s, l).value;
    match l
    case Scan => ScanLoad(cfg, s, t, count);
    case RecoverSkip(reading) => ReadingDone(cfg, s, t, reading, count);
    case RecoverRetry(reading, delay, at) =>
      SentLoad(cfg, s, t, reading, Mark(reading + 1, at, false, s.now + cfg.publishTimeout), count);
    case RecoverDead(reading) => ReadingDone(cfg, s, t, reading, count);
    case RecoverFailed(reading) => ReadingDone(cfg, s, t, reading, count);
    case _ => SameLoad(cfg, s, t, count);
  }

  /** Unless it resets the count, or a requeue begins anew, a recovery is a step onward. */
  predicate Resets(s: Sys, l: Label) {
    && l.RecoverMark? && l.written && s.row.Some? && s.row.value.status == Running
    && l.mark.attempt <= s.row.value.attemptCount
  }

  lemma RecoveryOnward(cfg: Config, s: Sys, l: Label)
    requires RowFits(cfg, s) && RecoveryLabel(l) && !Resets(s, l) && RecoveryStep(cfg, s, l).Some?
    ensures var t := RecoveryStep(cfg, s, l).value; t.claims == [] || Onward(cfg, s, t)
  {
    if l.RecoverMark? {
      FreshOnward(cfg, s, l);
    } else if l.RecoverDead? || l.RecoverFailed? {
      GivenUpOnward(cfg, s, l);
    }
  }

  lemma FreshOnward(cfg: Config, s: Sys, l: Label)
    requires l.RecoverMark? && !Resets(s, l) && RecoveryStep(cfg, s, l).Some?
    ensures Onward(cfg, s, RecoveryStep(cfg, s, l).value)
  {
  }

  lemma GivenUpOnward(cfg: Config, s: Sys, l: Label)
    requires RowFits(cfg, s) && (l.RecoverDead? || l.RecoverFailed?) && RecoveryStep(cfg, s, l).Some?
    ensures Onward(cfg, s, RecoveryStep(cfg, s, l).value)
  {
  }

  lemma ResetIsReset(cfg: Config, s: Sys, l: Label)
    requires Resets(s, l) && RecoveryStep(cfg, s, l).Some?
    ensures var t := RecoveryStep(cfg, s, l).value;
            && l.mark in s.marks && t.marks == s.marks - multiset{l.mark} && t.readings == s.readings && t.claims == s.claims
            && t.row.Some? && t.row.value.status == Retrying && t.row.value.attemptCount == l.mark.attempt
  {
  }

  lemma RecoveryBudget(cfg: Config, s: Sys, l: Label)
    requires ValidConfig(cfg) && Fits(cfg, s) && WithinBudget(cfg, s) && RecoveryLabel(l) && RecoveryStep(cfg, s, l).Some?
    ensures WithinBudget(cfg, RecoveryStep(cfg, s, l).value)
  {
    var t := RecoveryStep(cfg, s, l).value;
    assert s.row.Some?;
    hide RecoveryStep, Onward, Load, Segment, TokensFit;
    if Resets(s, l) {
      ResetIsReset(cfg, s, l);
      ResetKeeps(cfg, s, t, l.mark);
    } else {
      RecoveryOnward(cfg, s, l);
      RecoveryFits(cfg, s, l);
      if t.claims == [] {
        RestartKeeps(cfg, t);
      } else {
        RecoveryLoad(cfg, s, l, s.row.value.attemptCount);
        OnwardKeeps(cfg, s, t);
      }
    }
  }

  lemma StepBudget(cfg: Config, s: Sys, l: Label)
    requires ValidConfig(cfg) && Fits(cfg, s) && WithinBudget(cfg, s) && Step(cfg, s, l).Some?
    ensures true == WithinBudget(cfg, Step(cfg, s, l).value)
  {
    hide HookStep, DeliveryStep, WorkerStep, RecoveryStep, WithinBudget;
    if l.Tick? {
      TickBudget(cfg, s, s.now + l.d);
    } else if HookLabel(l) {
      HookBudget(cfg, s, l);
    } else if DeliveryLabel(l) {
      DeliveryBudget(cfg, s, l);
    } else if WorkerLabel(l) {
      WorkerBudget(cfg, s, l);
    } else {
      RecoveryBudget(cfg, s, l);
    }
  }

  lemma TickBudget(cfg: Config, s: Sys, now: int)
    requires WithinBudget(cfg, s)
    ensures WithinBudget(cfg, s.(now := now))
  {
    if s.row.Some? {
      SameLoad(cfg, s, s.(now := now), s.row.value.attemptCount);
    }
  }

  lemma {:induction false} RunBudget(cfg: Config, labels: seq<Label>)
    requires ValidConfig(cfg) && Run(cfg, labels).Some?
    ensures true == WithinBudget(cfg, Run(cfg, labels).value)
  {
    if |labels| > 0 {
      var before := labels[..|labels| - 1];
      RunBudget(cfg, before);
      RunFits(cfg, before);
      StepBudget(cfg, Run(cfg, before).value, labels[|labels| - 1]);
    }
  }

  lemma BudgetBounds(cfg: Config, s: Sys)
    requires Fits(cfg, s) && WithinBudget(cfg, s)
    ensures |s.claims| <= cfg.maxAttempts * (1 + Most(cfg))
  {
    hide Most, Load;
    Product(cfg.maxAttempts, Most(cfg));
  }

  /**
   * In every run, stale recoveries included, a task is claimed at most `maxAttempts` times between two requeues, and as
   * often again for each of at most `processes * (processes + 1) ^ (maxAttempts - 2)` resets - for none, if `maxAttempts`
   * is one.
   */
  lemma {:induction false} ClaimsAreBounded(cfg: Config, labels: seq<Label>)
    requires ValidConfig(cfg) && Run(cfg, labels).Some?
    ensures |Run(cfg, labels).value.claims| <= cfg.maxAttempts * (1 + Most(cfg))
    ensures Most(cfg) == if cfg.maxAttempts == 1 then 0 else cfg.processes * Power(cfg.processes + 1, cfg.maxAttempts - 2)
  {
    hide Run, WithinBudget, Fits;
    RunBudget(cfg, labels);
    RunFits(cfg, labels);
    BudgetBounds(cfg, Run(cfg, labels).value);
  }
}
