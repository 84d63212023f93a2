/**
 * What the steps of TaskProtocol do to the messages: nothing is lost, and nothing appears that was not published
 * (internal/queue/rabbitmq.go, internal/worker/worker.go).
 */
module TaskMessages {
  import opened Collections
  import opened TaskRows
  import opened TaskProtocol

  /** The copies of a message there are: in the queue, decided on but not acknowledged, or with the worker. */
  function Copies(s: Sys, m: Msg): nat {
    s.bag[m] + s.toAck[m] + if s.holder.Some? && s.holder.value.msg == m then 1 else 0
  }

  /** The message a step publishes, or the broker delivers again. */
  function Added(s: Sys, l: Label): Option<Msg> {
    match l
    case HookPublish(sent, _) => if sent then Some(Msg(0, s.now)) else None
    case Defer(m, readyAt) => Some(Msg(m.attempt, readyAt))
    case DeferDuplicate(m, readyAt) => Some(Msg(m.attempt, readyAt))
    case Redeliver(m) => Some(m)
    case PublishRetry(sent, _, delay, _) =>
      if sent && s.holder.Some? then Some(Msg(s.holder.value.next, s.now + delay)) else None
    case RecoverRetry(reading, delay, _) => Some(Msg(reading + 1, s.now + delay))
    case PublishMain => Some(Msg(0, s.now))
    case _ => None
  }

  /** Otherwise no message is made or lost: only an acknowledgement takes a copy away. */
  predicate Conserves(s: Sys, l: Label, t: Sys, m: Msg) {
    && Copies(t, m) == Copies(s, m) + (if Added(s, l) == Some(m) then 1 else 0) - (if l == Ack(m) then 1 else 0)
    && (Added(s, l) == Some(m) ==> m in t.bag)
  }

  lemma StepConserves(cfg: Config, s: Sys, l: Label, m: Msg)
    requires Step(cfg, s, l).Some?
    ensures Conserves(s, l, Step(cfg, s, l).value, m)
  {
    hide HookStep, DeliveryStep, WorkerStep, RecoveryStep, Conserves;
    if l.Tick? {
      TickConserves(cfg, s, l, m);
    } else if HookLabel(l) {
      HookConserves(s, l, m);
    } else if DeliveryLabel(l) {
      DeliveryConserves(s, l, m);
    } else if WorkerLabel(l) {
      WorkerConserves(cfg, s, l, m);
    } else {
      RecoveryConserves(cfg, s, l, m);
    }
  }

  /** A step that moves no message. */
  lemma QuietConserves(s: Sys, l: Label, t: Sys, m: Msg)
    requires t.bag == s.bag && t.toAck == s.toAck && (t.holder == s.holder || SameMessage(s.holder, t.holder))
    requires Added(s, l) == None && !l.Ack?
    ensures true == Conserves(s, l, t, m)
  {
  }

  /** A step that only puts one message more into the queue. */
  lemma PublishConserves(s: Sys, l: Label, t: Sys, m: Msg, published: Msg)
    requires t.bag == s.bag + multiset{published} && t.toAck == s.toAck
    requires t.holder == s.holder || SameMessage(s.holder, t.holder)
    requires Added(s, l) == Some(published) && !l.Ack?
    ensures true == Conserves(s, l, t, m)
  {
  }

  predicate SameMessage(h: Option<Holder>, k: Option<Holder>) {
    h.Some? && k.Some? && h.value.msg == k.value.msg
  }

  lemma TickConserves(cfg: Config, s: Sys, l: Label, m: Msg)
    requires l.Tick?
    ensures true == Conserves(s, l, s.(now := s.now + l.d), m)
  {
  }

  lemma HookConserves(s: Sys, l: Label, m: Msg)
    requires HookLabel(l) && HookStep(s, l).Some?
    ensures true == Conserves(s, l, HookStep(s, l).value, m)
  {
    hide Conserves, UpdateStatus;
    if l.HookPublish? && l.sent {
      PublishConserves(s, l, HookStep(s, l).value, m, Msg(0, s.now));
    } else {
      QuietConserves(s, l, HookStep(s, l).value, m);
    }
  }

  lemma DeliveryConserves(s: Sys, l: Label, m: Msg)
    requires DeliveryLabel(l) && DeliveryStep(s, l).Some?
    ensures true == Conserves(s, l, DeliveryStep(s, l).value, m)
  {
    hide Conserves, DeliveryStep;
    if l.Start? || l.Drop? {
      WorkConserves(s, l, m);
    } else if l.Defer? {
      DeferConserves(s, l, m);
    } else if l.Ack? {
      AckConserves(s, l, m);
    } else {
      BrokerConserves(s, l, m);
    }
  }

  lemma WorkConserves(s: Sys, l: Label, m: Msg)
    requires (l.Start? || l.Drop?) && DeliveryStep(s, l).Some?
    ensures true == Conserves(s, l, DeliveryStep(s, l).value, m)
  {
    hide Claim, Claimable, Terminal, Early, Stale;
  }

  lemma DeferConserves(s: Sys, l: Label, m: Msg)
    requires l.Defer? && DeliveryStep(s, l).Some?
    ensures true == Conserves(s, l, DeliveryStep(s, l).value, m)
  {
    hide Conserves, Claimable, Terminal, Early, Stale;
    var dropped := s.(bag := s.bag - multiset{l.m}, toAck := s.toAck + multiset{l.m});
    var t := DeliveryStep(s, l).value;
    assert t == dropped.(bag := dropped.bag + multiset{Msg(l.m.attempt, l.readyAt)});
    DropKeepsCopies(s, l.m, dropped, m);
    PublishConserves(dropped, l, t, m, Msg(l.m.attempt, l.readyAt));
    SameConserves(s, dropped, l, t, m);
  }

  lemma DropKeepsCopies(s: Sys, dropped: Msg, t: Sys, m: Msg)
    requires dropped in s.bag && t == s.(bag := s.bag - multiset{dropped}, toAck := s.toAck + multiset{dropped})
    ensures Copies(t, m) == Copies(s, m)
  {
  }

  lemma SameConserves(s: Sys, same: Sys, l: Label, t: Sys, m: Msg)
    requires Copies(same, m) == Copies(s, m) && Added(same, l) == Added(s, l) && Conserves(same, l, t, m)
    ensures true == Conserves(s, l, t, m)
  {
    hide Copies, Added;
  }

  lemma AckConserves(s: Sys, l: Label, m: Msg)
    requires l.Ack? && DeliveryStep(s, l).Some?
    ensures true == Conserves(s, l, DeliveryStep(s, l).value, m)
  {
  }

  lemma BrokerConserves(s: Sys, l: Label, m: Msg)
    requires (l.Redeliver? || l.DeferDuplicate?) && DeliveryStep(s, l).Some?
    ensures true == Conserves(s, l, DeliveryStep(s, l).value, m)
  {
    hide Conserves, Claimable, Terminal, Early, Stale;
    PublishConserves(s, l, DeliveryStep(s, l).value, m, if l.Redeliver? then l.m else Msg(l.m.attempt, l.readyAt));
  }

  lemma WorkerConserves(cfg: Config, s: Sys, l: Label, m: Msg)
    requires WorkerLabel(l) && WorkerStep(cfg, s, l).Some?
    ensures true == Conserves(s, l, WorkerStep(cfg, s, l).value, m)
  {
    hide Conserves, WorkerStep;
    if l.FinishDone? || l.FinishSuperseded? || l.FinishMarked? {
      FinishConserves(cfg, s, l, m);
    } else {
      HoldConserves(cfg, s, l, m);
    }
  }

  lemma FinishConserves(cfg: Config, s: Sys, l: Label, m: Msg)
    requires (l.FinishDone? || l.FinishSuperseded? || l.FinishMarked?) && WorkerStep(cfg, s, l).Some?
    ensures true == Conserves(s, l, WorkerStep(cfg, s, l).value, m)
  {
    hide WorkerStep;
    FinishLeaves(cfg, s, l);
  }

  lemma FinishLeaves(cfg: Config, s: Sys, l: Label)
    requires (l.FinishDone? || l.FinishSuperseded? || l.FinishMarked?) && WorkerStep(cfg, s, l).Some?
    ensures var t := WorkerStep(cfg, s, l).value;
            s.holder.Some? && t.holder.None? && t.bag == s.bag && t.toAck == s.toAck + multiset{s.holder.value.msg}
  {
    hide UpdateStatus, MarkRetry, MarkDeadLetter;
  }

  lemma HoldConserves(cfg: Config, s: Sys, l: Label, m: Msg)
    requires (l.Crash? || l.Deliver? || l.PublishRetry? || l.PublishDead?) && WorkerStep(cfg, s, l).Some?
    ensures true == Conserves(s, l, WorkerStep(cfg, s, l).value, m)
  {
    hide MarkDelivered;
    if l.PublishRetry? && l.sent {
      PublishConserves(s, l, WorkerStep(cfg, s, l).value, m, Msg(s.holder.value.next, s.now + l.delay));
    } else if !l.Crash? {
      QuietConserves(s, l, WorkerStep(cfg, s, l).value, m);
    }
  }

  lemma RecoveryConserves(cfg: Config, s: Sys, l: Label, m: Msg)
    requires RecoveryLabel(l) && RecoveryStep(cfg, s, l).Some?
    ensures true == Conserves(s, l, RecoveryStep(cfg, s, l).value, m)
  {
    hide Conserves, RecoveryStep;
    if l.RecoverRetry? {
      RetryConserves(cfg, s, l, m);
    } else if l.PublishMain? {
      MainConserves(cfg, s, l, m);
    } else if l.Scan? || l.RecoverSkip? || l.RecoverConfirm? || l.RecoverForget? {
      ReadingConserves(cfg, s, l, m);
    } else {
      WritingConserves(cfg, s, l, m);
    }
  }

  lemma RetryConserves(cfg: Config, s: Sys, l: Label, m: Msg)
    requires l.RecoverRetry? && RecoveryStep(cfg, s, l).Some?
    ensures true == Conserves(s, l, RecoveryStep(cfg, s, l).value, m)
  {
    hide Conserves;
    PublishConserves(s, l, RecoveryStep(cfg, s, l).value, m, Msg(l.reading + 1, s.now + l.delay));
  }

  lemma MainConserves(cfg: Config, s: Sys, l: Label, m: Msg)
    requires l.PublishMain? && RecoveryStep(cfg, s, l).Some?
    ensures true == Conserves(s, l, RecoveryStep(cfg, s, l).value, m)
  {
    hide Conserves;
    PublishConserves(s, l, RecoveryStep(cfg, s, l).value, m, Msg(0, s.now));
  }

  lemma ReadingConserves(cfg: Config, s: Sys, l: Label, m: Msg)
    requires (l.Scan? || l.RecoverSkip? || l.RecoverConfirm? || l.RecoverForget?) && RecoveryStep(cfg, s, l).Some?
    ensures true == Conserves(s, l, RecoveryStep(cfg, s, l).value, m)
  {
    hide Conserves, Listed;
    QuietConserves(s, l, RecoveryStep(cfg, s, l).value, m);
  }

  lemma WritingConserves(cfg: Config, s: Sys, l: Label, m: Msg)
    requires (l.RecoverMark? || l.RecoverDead? || l.RecoverFailed? || l.TouchQueue? || l.RequeueDead?) && RecoveryStep(cfg, s, l).Some?
    ensures true == Conserves(s, l, RecoveryStep(cfg, s, l).value, m)
  {
    hide Conserves, RecoveryStep;
    WritingMovesNone(cfg, s, l);
    QuietConserves(s, l, RecoveryStep(cfg, s, l).value, m);
  }

  lemma WritingMovesNone(cfg: Config, s: Sys, l: Label)
    requires (l.RecoverMark? || l.RecoverDead? || l.RecoverFailed? || l.TouchQueue? || l.RequeueDead?) && RecoveryStep(cfg, s, l).Some?
    ensures var t := RecoveryStep(cfg, s, l).value; t.bag == s.bag && t.toAck == s.toAck && t.holder == s.holder
  {
    hide UpdateStatus, MarkRetry, MarkDeadLetter, Requeue, TouchQueued, After;
  }
}
