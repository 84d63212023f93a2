/**
 * Between two requeues a task is claimed at most `maxAttempts` times, whatever messages are duplicated or late - as long
 * as no recovery marks the row with an attempt that the row already counts. The store does not check that; StaleRecoveries
 * shows what happens without, and AttemptBudget how far it can go.
 */
module AttemptsBounded {
  import opened Collections
  import opened TaskRows
  import opened TaskProtocol
  import opened LiveAttempts

  /**
   * What a recovery's scan has read is not outdated when the recovery marks the row: the running row has not counted the
   * attempt after the reading yet.
   */
  predicate Fresh(s: Sys, l: Label) {
    l.RecoverMark? && l.written && s.row.Some? && s.row.value.status == Running ==>
      s.row.value.attemptCount < l.mark.attempt
  }

  predicate FreshRun(cfg: Config, labels: seq<Label>) {
    |labels| == 0 ||
    var before := labels[..|labels| - 1];
    && FreshRun(cfg, before) && Run(cfg, before).Some?
    && Fresh(Run(cfg, before).value, labels[|labels| - 1]) && Run(cfg, labels).Some?
  }

  // ----- claims -----

  predicate Increasing(claims: seq<nat>) {
    forall i, j | 0 <= i < j < |claims| :: claims[i] < claims[j]
  }

  predicate Below(claims: seq<nat>, bound: nat) {
    forall i | 0 <= i < |claims| :: claims[i] < bound
  }

  /** Increasing counts are at least their position. */
  lemma {:induction false} AtLeastPosition(claims: seq<nat>, i: nat)
    requires Increasing(claims) && i < |claims|
    ensures claims[i] >= i
  {
    if i > 0 {
      AtLeastPosition(claims, i - 1);
    }
  }

  lemma FewClaims(claims: seq<nat>, bound: nat)
    requires Increasing(claims) && Below(claims, bound)
    ensures |claims| <= bound
  {
    if |claims| > 0 {
      AtLeastPosition(claims, |claims| - 1);
    }
  }

  // ----- the invariant -----

  /** How the last claim compares with the row's attempt count. */
  predicate ClaimsFit(row: Row, claims: seq<nat>) {
    match row.status
    case Received => claims == []
    case Queued => claims == []
    case Running => |claims| > 0 && claims[|claims| - 1] == row.attemptCount
    case Retrying => |claims| > 0 ==> claims[|claims| - 1] < row.attemptCount
    case _ => true
  }

  predicate Counted(cfg: Config, s: Sys) {
    && (if s.row.Some? then ClaimsFit(s.row.value, s.claims) else s.claims == [])
    && Increasing(s.claims) && Below(s.claims, cfg.maxAttempts)
  }

  lemma HookCounted(cfg: Config, s: Sys, l: Label)
    requires Fits(cfg, s) && Counted(cfg, s) && HookLabel(l) && HookStep(s, l).Some?
    ensures Counted(cfg, HookStep(s, l).value)
  {
    hide Increasing, Below, TokensFit, Small;
  }

  lemma StartCounted(cfg: Config, s: Sys, m: Msg)
    requires Fits(cfg, s) && Counted(cfg, s) && DeliveryStep(s, Start(m)).Some?
    ensures Counted(cfg, DeliveryStep(s, Start(m)).value)
  {
    var t := DeliveryStep(s, Start(m)).value;
    assert t.claims == s.claims + [Max(s.row.value.attemptCount, m.attempt)];
  }

  lemma DeliveryCounted(cfg: Config, s: Sys, l: Label)
    requires Counted(cfg, s) && DeliveryLabel(l) && !l.Start? && DeliveryStep(s, l).Some?
    ensures Counted(cfg, DeliveryStep(s, l).value)
  {
    hide Increasing, Below, ClaimsFit;
  }

  lemma WorkerCounted(cfg: Config, s: Sys, l: Label)
    requires RowFits(cfg, s) && Counted(cfg, s) && WorkerLabel(l) && WorkerStep(cfg, s, l).Some?
    ensures Counted(cfg, WorkerStep(cfg, s, l).value)
  {
    hide Increasing, Below;
    if !l.FinishMarked? {
      ReviewCounted(cfg, s, l);
    }
  }

  lemma ReviewCounted(cfg: Config, s: Sys, l: Label)
    requires RowFits(cfg, s) && Counted(cfg, s) && WorkerLabel(l) && !l.FinishMarked? && WorkerStep(cfg, s, l).Some?
    ensures Counted(cfg, WorkerStep(cfg, s, l).value)
  {
    hide Increasing, Below;
  }

  lemma RecoveryCounted(cfg: Config, s: Sys, l: Label)
    requires Counted(cfg, s) && Fresh(s, l) && RecoveryLabel(l) && RecoveryStep(cfg, s, l).Some?
    ensures Counted(cfg, RecoveryStep(cfg, s, l).value)
  {
    if RowlessLabel(l) {
      RowlessCounted(cfg, s, l);
    } else if l.RequeueDead? {
      assert RecoveryStep(cfg, s, l).value.claims == [];
    } else {
      WrittenCounted(cfg, s, l);
    }
  }

  lemma RowlessCounted(cfg: Config, s: Sys, l: Label)
    requires Counted(cfg, s) && RecoveryLabel(l) && RowlessLabel(l) && RecoveryStep(cfg, s, l).Some?
    ensures Counted(cfg, RecoveryStep(cfg, s, l).value)
  {
    hide Increasing, Below, ClaimsFit;
  }

  lemma WrittenCounted(cfg: Config, s: Sys, l: Label)
    requires Counted(cfg, s) && Fresh(s, l) && RecoveryLabel(l) && !RowlessLabel(l) && !l.RequeueDead?
    requires RecoveryStep(cfg, s, l).Some?
    ensures Counted(cfg, RecoveryStep(cfg, s, l).value)
  {
    hide Increasing, Below;
  }

  lemma StepCounted(cfg: Config, s: Sys, l: Label)
    requires Fits(cfg, s) && Counted(cfg, s) && Fresh(s, l) && Step(cfg, s, l).Some?
    ensures true == Counted(cfg, Step(cfg, s, l).value)
  {
    hide HookStep, DeliveryStep, WorkerStep, RecoveryStep;
    if l.Tick? {
    } else if HookLabel(l) {
      HookCounted(cfg, s, l);
    } else if l.Start? {
      StartCounted(cfg, s, l.m);
    } else if DeliveryLabel(l) {
      DeliveryCounted(cfg, s, l);
    } else if WorkerLabel(l) {
      WorkerCounted(cfg, s, l);
    } else {
      RecoveryCounted(cfg, s, l);
    }
  }

  lemma {:induction false} RunCounted(cfg: Config, labels: seq<Label>)
    requires ValidConfig(cfg) && FreshRun(cfg, labels)
    ensures Run(cfg, labels).Some? && Counted(cfg, Run(cfg, labels).value)
  {
    if |labels| > 0 {
      var before := labels[..|labels| - 1];
      RunCounted(cfg, before);
      RunFits(cfg, before);
      StepCounted(cfg, Run(cfg, before).value, labels[|labels| - 1]);
    }
  }

  /**
   * In every run whose marks are fresh: each claim since the last requeue counts a higher attempt than the one before,
   * there are at most `maxAttempts` of them, and every live row and every message is below `maxAttempts`.
   */
  lemma {:induction false} AttemptsAreBounded(cfg: Config, labels: seq<Label>)
    requires ValidConfig(cfg) && FreshRun(cfg, labels)
    ensures Run(cfg, labels).Some?
    ensures var s := Run(cfg, labels).value;
            Increasing(s.claims) && |s.claims| <= cfg.maxAttempts && StaysBelow(s, cfg.maxAttempts)
  {
    RunCounted(cfg, labels);
    BelowMaximum(cfg, labels);
    FewClaims(Run(cfg, labels).value.claims, cfg.maxAttempts);
  }
}
