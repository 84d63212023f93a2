/**
 * The configurations outside SafeConfig do strand a task. When a retry can be delivered before the recovery that sent it
 * has waited for the confirmation and marked the row, a worker takes the running row over, the mark then turns it into a
 * retrying row, and the worker's last failure finds nothing running to dead-letter: the message is gone and the row waits
 * for ever.
 */
module StrandingRun {
  import opened Collections
  import opened TaskRows
  import opened TaskProtocol
  import opened NoTaskStranded
  import opened ScriptedRuns

  /** The confirmation arrives as late as allowed, or when the retry is due. */
  function ConfirmedAfter(cfg: Config): nat {
    Min(cfg.minDelay, cfg.publishTimeout)
  }

  /** The recovery has sent its retry and has just got the confirmation. */
  lemma ConfirmedLate(cfg: Config, labels: seq<Label>, count: nat, n: nat) returns (more: seq<Label>, m: Msg, mark: Mark)
    requires ValidConfig(cfg) && count + 1 < cfg.maxAttempts
    requires Run(cfg, labels).Some? && Abandoned(Run(cfg, labels).value, count, multiset{}, n)
    ensures Run(cfg, more).Some? && m.attempt == mark.attempt == count + 1 && mark.confirmed
    ensures true == At(Run(cfg, more).value, Running, count, multiset{m}, multiset{}, multiset{mark}, n)
    ensures m.readyAt == Run(cfg, more).value.now + cfg.minDelay - ConfirmedAfter(cfg)
    ensures mark.deadline == Run(cfg, more).value.now + cfg.markTimeout
  {
    hide Step, At, Abandoned, Run;
    var l2, msg, sent := SentLater(cfg, labels, count, n);
    var s, none: multiset<nat> := Run(cfg, l2).value, multiset{};
    var a := ConfirmedAfter(cfg);
    TickAt(cfg, s, a, Running, count, multiset{msg}, none, multiset{sent}, n);
    Extend(cfg, l2, Tick(a));
    var l3 := l2 + [Tick(a)];
    ConfirmAt(cfg, Run(cfg, l3).value, count, msg, none, sent, n);
    Extend(cfg, l3, RecoverConfirm(sent));
    more := l3 + [RecoverConfirm(sent)];
    m, mark := msg, Confirmed(cfg, sent, s.now + a);
  }

  /** The recovery has listed the task and sent its retry. */
  lemma SentLater(cfg: Config, labels: seq<Label>, count: nat, n: nat) returns (more: seq<Label>, m: Msg, mark: Mark)
    requires ValidConfig(cfg) && count + 1 < cfg.maxAttempts
    requires Run(cfg, labels).Some? && Abandoned(Run(cfg, labels).value, count, multiset{}, n)
    ensures Run(cfg, more).Some? && true == At(Run(cfg, more).value, Running, count, multiset{m}, multiset{}, multiset{mark}, n)
    ensures m == Msg(count + 1, Run(cfg, more).value.now + cfg.minDelay)
    ensures mark == Mark(count + 1, m.readyAt, false, Run(cfg, more).value.now + cfg.publishTimeout)
  {
    hide Step, At, Run;
    var none: multiset<nat> := multiset{};
    assert none + multiset{count} - multiset{count} == none && count in none + multiset{count};
    var l1 := ScanLater(cfg, labels, count, multiset{}, none, n);
    more, m, mark := Send(cfg, l1, count, count, none + multiset{count}, n);
  }

  /** The retry is due and the recovery can still mark the row. */
  lemma DueTooSoon(cfg: Config, labels: seq<Label>, count: nat, n: nat) returns (more: seq<Label>, m: Msg, mark: Mark)
    requires ValidConfig(cfg) && count + 1 < cfg.maxAttempts && !Outlasts(cfg)
    requires Run(cfg, labels).Some? && Abandoned(Run(cfg, labels).value, count, multiset{}, n)
    ensures Run(cfg, more).Some? && m.attempt == mark.attempt == count + 1
    ensures true == At(Run(cfg, more).value, Running, count, multiset{m}, multiset{}, multiset{mark}, n)
    ensures mark.confirmed && m.readyAt <= Run(cfg, more).value.now <= mark.deadline
  {
    hide Step, At, Abandoned;
    var l1;
    l1, m, mark := ConfirmedLate(cfg, labels, count, n);
    var rest := cfg.minDelay - ConfirmedAfter(cfg);
    TickAt(cfg, Run(cfg, l1).value, rest, Running, count, multiset{m}, multiset{}, multiset{mark}, n);
    Extend(cfg, l1, Tick(rest));
    more := l1 + [Tick(rest)];
  }

  /** A worker has taken the task over, and the recovery's mark has made the row a retrying one. */
  predicate Overtaken(s: Sys, next: nat, m: Msg) {
    && s.row.Some? && s.row.value.status == Retrying && s.bag == multiset{} && s.toAck == multiset{}
    && s.holder == Some(Holder(m, next, Reviewing))
  }

  lemma TakeOverThenMark(cfg: Config, s: Sys, count: nat, m: Msg, mark: Mark, n: nat)
    requires At(s, Running, count, multiset{m}, multiset{}, multiset{mark}, n) && m.attempt == mark.attempt == count + 1
    requires mark.confirmed && m.readyAt <= s.now <= mark.deadline
    ensures var t := Step(cfg, s, Start(m));
            && t.Some? && Step(cfg, t.value, RecoverMark(mark, true)).Some?
            && Overtaken(Step(cfg, t.value, RecoverMark(mark, true)).value, count + 2, m)
  {
  }

  lemma MarkedTooLate(cfg: Config, labels: seq<Label>, count: nat, n: nat) returns (more: seq<Label>, m: Msg)
    requires ValidConfig(cfg) && count + 1 < cfg.maxAttempts && !Outlasts(cfg)
    requires Run(cfg, labels).Some? && Abandoned(Run(cfg, labels).value, count, multiset{}, n)
    ensures Run(cfg, more).Some? && true == Overtaken(Run(cfg, more).value, count + 2, m)
  {
    hide Step, At, Abandoned, Overtaken;
    var l1, msg, mark := DueTooSoon(cfg, labels, count, n);
    m := msg;
    TakeOverThenMark(cfg, Run(cfg, l1).value, count, m, mark, n);
    Extend(cfg, l1, Start(m));
    var l2 := l1 + [Start(m)];
    Extend(cfg, l2, RecoverMark(mark, true));
    more := l2 + [RecoverMark(mark, true)];
  }

  /** The worker's failure is its last: the dead-letter mark is refused and the message acknowledged. */
  lemma LastFailure(cfg: Config, labels: seq<Label>, next: nat, m: Msg) returns (more: seq<Label>)
    requires Run(cfg, labels).Some? && next >= cfg.maxAttempts && Overtaken(Run(cfg, labels).value, next, m)
    ensures Run(cfg, more).Some? && Stranded(Run(cfg, more).value)
  {
    Extend(cfg, labels, PublishDead(true));
    var l1 := labels + [PublishDead(true)];
    Extend(cfg, l1, FinishMarked(true));
    var l2 := l1 + [FinishMarked(true)];
    Extend(cfg, l2, Ack(m));
    more := l2 + [Ack(m)];
  }

  lemma StrandsOne(cfg: Config) returns (labels: seq<Label>)
    requires ValidConfig(cfg) && !SafeConfig(cfg)
    ensures Run(cfg, labels).Some? && Stranded(Run(cfg, labels).value)
  {
    var l1 := Claims(cfg, cfg.maxAttempts - 2);
    var l2, m := MarkedTooLate(cfg, l1, cfg.maxAttempts - 2, cfg.maxAttempts - 1);
    labels := LastFailure(cfg, l2, cfg.maxAttempts, m);
  }

  /**
   * No run strands a task, iff retries are impossible or every retry delay outlasts the recovery's wait for the
   * confirmation and its mark.
   */
  lemma NeverStrandedIff(cfg: Config)
    requires ValidConfig(cfg)
    ensures (forall labels | Run(cfg, labels).Some? :: !Stranded(Run(cfg, labels).value)) <==> SafeConfig(cfg)
  {
    if SafeConfig(cfg) {
      forall labels | Run(cfg, labels).Some? ensures !Stranded(Run(cfg, labels).value) {
        RetryingHasMessage(cfg, labels);
      }
    } else {
      var labels := StrandsOne(cfg);
      assert Run(cfg, labels).Some?;
    }
  }

  /** A base delay of ten seconds against the ten and five seconds the code waits: the task is stranded. */
  lemma TenSecondsIsTooShort(second: nat) returns (labels: seq<Label>)
    requires second > 0
    ensures var cfg := Config(2, 10 * second, 10 * second, 5 * second, 360 * second, 1);
            Run(cfg, labels).Some? && Stranded(Run(cfg, labels).value)
  {
    labels := StrandsOne(Config(2, 10 * second, 10 * second, 5 * second, 360 * second, 1));
  }
}
