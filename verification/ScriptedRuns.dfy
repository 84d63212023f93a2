/** Building blocks for runs of the task machine that show what it can do: each lemma appends a few steps to a run. */
module ScriptedRuns {
  import opened Collections
  import opened TaskRows
  import opened TaskProtocol

  lemma Extend(cfg: Config, labels: seq<Label>, l: Label)
    requires Run(cfg, labels).Some?
    ensures Run(cfg, labels + [l]) == Step(cfg, Run(cfg, labels).value, l)
  {
    assert (labels + [l])[..|labels|] == labels;
  }

  /** Nobody is at work on the task; this is what lies around. `n` counts the claims since the last requeue. */
  predicate At(s: Sys, status: Status, count: nat, bag: multiset<Msg>, readings: multiset<nat>, marks: multiset<Mark>, n: nat) {
    && s.row.Some? && s.row.value.status == status && s.row.value.attemptCount == count && s.row.value.updatedAt <= s.now
    && s.hook == NoHook && s.bag == bag && s.toAck == multiset{} && s.holder.None?
    && s.readings == readings && s.marks == marks && |s.claims| == n
  }

  /** A running task whose worker is gone and whose messages are used up. */
  predicate Abandoned(s: Sys, count: nat, readings: multiset<nat>, n: nat) {
    At(s, Running, count, multiset{}, readings, multiset{}, n)
  }

  /** A worker has just claimed the task with the only message there was. */
  predicate JustClaimed(s: Sys, count: nat, m: Msg, readings: multiset<nat>, n: nat) {
    && s.row.Some? && s.row.value.status == Running && s.row.value.attemptCount == count && s.row.value.updatedAt <= s.now
    && s.hook == NoHook && s.bag == multiset{} && s.toAck == multiset{}
    && s.holder == Some(Holder(m, count + 1, Reviewing)) && m.attempt == count && m.readyAt <= s.now
    && s.readings == readings && s.marks == multiset{} && |s.claims| == n
  }

  // ----- single steps -----

  lemma TickAt(cfg: Config, s: Sys, d: nat, status: Status, count: nat, bag: multiset<Msg>, readings: multiset<nat>,
               marks: multiset<Mark>, n: nat)
    requires At(s, status, count, bag, readings, marks, n)
    ensures Step(cfg, s, Tick(d)).Some? && At(Step(cfg, s, Tick(d)).value, status, count, bag, readings, marks, n)
    ensures Step(cfg, s, Tick(d)).value == s.(now := s.now + d)
  {
  }

  lemma ScanAt(cfg: Config, s: Sys, count: nat, bag: multiset<Msg>, readings: multiset<nat>, n: nat)
    requires At(s, Running, count, bag, readings, multiset{}, n)
    requires |readings| < cfg.processes && s.row.value.updatedAt < s.now - cfg.staleAfter
    ensures Step(cfg, s, Scan).Some?
    ensures At(Step(cfg, s, Scan).value, Running, count, bag, readings + multiset{count}, multiset{}, n)
  {
  }

  /** A recovery sends attempt `reading + 1`. */
  lemma SendAt(cfg: Config, s: Sys, count: nat, reading: nat, readings: multiset<nat>, n: nat)
    requires Abandoned(s, count, readings, n) && reading in readings && reading + 1 < cfg.maxAttempts
    ensures var m := Msg(reading + 1, s.now + cfg.minDelay);
            var mark := Mark(reading + 1, m.readyAt, false, s.now + cfg.publishTimeout);
            var t := Step(cfg, s, RecoverRetry(reading, cfg.minDelay, m.readyAt));
            && t.Some? && t.value.now == s.now
            && At(t.value, Running, count, multiset{m}, readings - multiset{reading}, multiset{mark}, n)
  {
  }

  lemma ConfirmAt(cfg: Config, s: Sys, count: nat, m: Msg, readings: multiset<nat>, mark: Mark, n: nat)
    requires At(s, Running, count, multiset{m}, readings, multiset{mark}, n) && !mark.confirmed && s.now <= mark.deadline
    ensures var t := Step(cfg, s, RecoverConfirm(mark));
            && t.Some? && t.value.now == s.now
            && At(t.value, Running, count, multiset{m}, readings, multiset{Confirmed(cfg, mark, s.now)}, n)
  {
  }

  /** The process dies before it marks the row. */
  lemma ForgetAt(cfg: Config, s: Sys, count: nat, m: Msg, readings: multiset<nat>, mark: Mark, n: nat)
    requires At(s, Running, count, multiset{m}, readings, multiset{mark}, n)
    ensures var t := Step(cfg, s, RecoverForget(mark));
            t.Some? && t.value.now == s.now && At(t.value, Running, count, multiset{m}, readings, multiset{}, n)
  {
  }

  lemma MarkAt(cfg: Config, s: Sys, count: nat, m: Msg, readings: multiset<nat>, mark: Mark, n: nat)
    requires At(s, Running, count, multiset{m}, readings, multiset{mark}, n) && mark.confirmed && s.now <= mark.deadline
    ensures var t := Step(cfg, s, RecoverMark(mark, true));
            && t.Some? && t.value.now == s.now && t.value.row.Some? && t.value.row.value.nextRetryAt == Some(mark.nextRetryAt)
            && At(t.value, Retrying, mark.attempt, multiset{m}, readings, multiset{}, n)
  {
  }

  /** The message is claimed: by a takeover of the running row, or since the retrying row is due. */
  lemma StartAt(cfg: Config, s: Sys, status: Status, count: nat, m: Msg, readings: multiset<nat>, n: nat)
    requires At(s, status, count, multiset{m}, readings, multiset{}, n) && m.readyAt <= s.now && m.attempt >= count
    requires (status == Running && m.attempt > count) || (status == Retrying && Due(s.row.value, s.now))
    ensures Step(cfg, s, Start(m)).Some? && JustClaimed(Step(cfg, s, Start(m)).value, m.attempt, m, readings, n + 1)
  {
  }

  lemma DieAt(cfg: Config, s: Sys, count: nat, m: Msg, readings: multiset<nat>, n: nat)
    requires JustClaimed(s, count, m, readings, n)
    ensures Step(cfg, s, Crash).Some? && At(Step(cfg, s, Crash).value, Running, count, multiset{m}, readings, multiset{}, n)
    ensures Step(cfg, s, Crash).value.now == s.now
  {
  }

  lemma DropAt(cfg: Config, s: Sys, count: nat, m: Msg, readings: multiset<nat>, n: nat)
    requires At(s, Running, count, multiset{m}, readings, multiset{}, n) && m.attempt == count && m.readyAt <= s.now
    ensures var t := Step(cfg, s, Drop(m));
            && t.Some? && m in t.value.toAck && Step(cfg, t.value, Ack(m)).Some?
            && Abandoned(Step(cfg, t.value, Ack(m)).value, count, readings, n)
  {
  }

  // ----- longer passages -----

  /** The worker dies; the redelivered message finds its attempt already counted. */
  lemma DieAndDrop(cfg: Config, labels: seq<Label>, count: nat, m: Msg, readings: multiset<nat>, n: nat)
    returns (more: seq<Label>)
    requires Run(cfg, labels).Some? && JustClaimed(Run(cfg, labels).value, count, m, readings, n)
    ensures Run(cfg, more).Some? && true == Abandoned(Run(cfg, more).value, count, readings, n)
  {
    var ready := m.attempt == count && m.readyAt <= Run(cfg, labels).value.now;
    assert ready;
    hide Step, JustClaimed, At, Abandoned;
    DieAt(cfg, Run(cfg, labels).value, count, m, readings, n);
    Extend(cfg, labels, Crash);
    var l1 := labels + [Crash];
    DropAt(cfg, Run(cfg, l1).value, count, m, readings, n);
    Extend(cfg, l1, Drop(m));
    var l2 := l1 + [Drop(m)];
    Extend(cfg, l2, Ack(m));
    more := l2 + [Ack(m)];
  }

  /** Long after, a scan lists the running task. */
  lemma ScanLater(cfg: Config, labels: seq<Label>, count: nat, bag: multiset<Msg>, readings: multiset<nat>, n: nat)
    returns (more: seq<Label>)
    requires Run(cfg, labels).Some? && At(Run(cfg, labels).value, Running, count, bag, readings, multiset{}, n)
    requires |readings| < cfg.processes
    ensures Run(cfg, more).Some?
    ensures true == At(Run(cfg, more).value, Running, count, bag, readings + multiset{count}, multiset{}, n)
  {
    var s := Run(cfg, labels).value;
    var later := s.(now := s.now + cfg.staleAfter + 1);
    assert later.row.value.updatedAt < later.now - cfg.staleAfter;
    hide Step, At;
    TickAt(cfg, s, cfg.staleAfter + 1, Running, count, bag, readings, multiset{}, n);
    Extend(cfg, labels, Tick(cfg.staleAfter + 1));
    var l1 := labels + [Tick(cfg.staleAfter + 1)];
    ScanAt(cfg, later, count, bag, readings, n);
    Extend(cfg, l1, Scan);
    more := l1 + [Scan];
  }

  /** A recovery sends the attempt after its reading. */
  lemma Send(cfg: Config, labels: seq<Label>, count: nat, reading: nat, readings: multiset<nat>, n: nat)
    returns (more: seq<Label>, m: Msg, mark: Mark)
    requires Run(cfg, labels).Some? && Abandoned(Run(cfg, labels).value, count, readings, n)
    requires reading in readings && reading + 1 < cfg.maxAttempts
    ensures Run(cfg, more).Some?
    ensures true == At(Run(cfg, more).value, Running, count, multiset{m}, readings - multiset{reading}, multiset{mark}, n)
    ensures m == Msg(reading + 1, Run(cfg, more).value.now + cfg.minDelay)
    ensures mark == Mark(reading + 1, m.readyAt, false, Run(cfg, more).value.now + cfg.publishTimeout)
  {
    hide Step, At, Abandoned;
    var now := Run(cfg, labels).value.now;
    m := Msg(reading + 1, now + cfg.minDelay);
    mark := Mark(reading + 1, m.readyAt, false, now + cfg.publishTimeout);
    SendAt(cfg, Run(cfg, labels).value, count, reading, readings, n);
    Extend(cfg, labels, RecoverRetry(reading, cfg.minDelay, m.readyAt));
    more := labels + [RecoverRetry(reading, cfg.minDelay, m.readyAt)];
  }

  /** ... and dies: the message is left, and nothing else. */
  lemma SendOnly(cfg: Config, labels: seq<Label>, count: nat, reading: nat, readings: multiset<nat>, n: nat)
    returns (more: seq<Label>, m: Msg)
    requires Run(cfg, labels).Some? && Abandoned(Run(cfg, labels).value, count, readings, n)
    requires reading in readings && reading + 1 < cfg.maxAttempts
    ensures Run(cfg, more).Some? && m.attempt == reading + 1
    ensures true == At(Run(cfg, more).value, Running, count, multiset{m}, readings - multiset{reading}, multiset{}, n)
  {
    hide Step, At, Abandoned;
    var l1, msg, mark := Send(cfg, labels, count, reading, readings, n);
    m := msg;
    ForgetAt(cfg, Run(cfg, l1).value, count, m, readings - multiset{reading}, mark, n);
    Extend(cfg, l1, RecoverForget(mark));
    more := l1 + [RecoverForget(mark)];
  }

  function Wait(m: Msg, now: int): nat {
    if m.readyAt <= now then 0 else m.readyAt - now
  }

  /** A higher attempt is claimed once it is delivered, and its worker dies. */
  lemma TakeOver(cfg: Config, labels: seq<Label>, count: nat, m: Msg, readings: multiset<nat>, n: nat)
    returns (more: seq<Label>)
    requires Run(cfg, labels).Some? && At(Run(cfg, labels).value, Running, count, multiset{m}, readings, multiset{}, n)
    requires m.attempt > count
    ensures Run(cfg, more).Some? && true == Abandoned(Run(cfg, more).value, m.attempt, readings, n + 1)
  {
    hide Step, At, Abandoned, JustClaimed;
    var s := Run(cfg, labels).value;
    var d := Wait(m, s.now);
    TickAt(cfg, s, d, Running, count, multiset{m}, readings, multiset{}, n);
    Extend(cfg, labels, Tick(d));
    var l1 := labels + [Tick(d)];
    StartAt(cfg, s.(now := s.now + d), Running, count, m, readings, n);
    Extend(cfg, l1, Start(m));
    more := DieAndDrop(cfg, l1 + [Start(m)], m.attempt, m, readings, n + 1);
  }

  // ----- the first claims -----

  lemma Webhook(cfg: Config) returns (labels: seq<Label>)
    ensures var s := Run(cfg, labels);
            && s.Some? && s.value.now == 0 && s.value.row.Some? && s.value.row.value.nextRetryAt.None?
            && At(s.value, Queued, 0, multiset{Msg(0, 0)}, multiset{}, multiset{}, 0)
  {
    assert Run(cfg, []) == Some(INIT);
    Extend(cfg, [], HookCreate("c0ffee"));
    var l1 := [] + [HookCreate("c0ffee")];
    Extend(cfg, l1, HookQueue(true));
    var l2 := l1 + [HookQueue(true)];
    Extend(cfg, l2, HookPublish(true, true));
    labels := l2 + [HookPublish(true, true)];
  }

  lemma FirstStart(cfg: Config, s: Sys)
    requires At(s, Queued, 0, multiset{Msg(0, 0)}, multiset{}, multiset{}, 0) && s.row.value.nextRetryAt.None? && s.now == 0
    ensures Step(cfg, s, Start(Msg(0, 0))).Some?
    ensures JustClaimed(Step(cfg, s, Start(Msg(0, 0))).value, 0, Msg(0, 0), multiset{}, 1)
  {
  }

  lemma FirstClaim(cfg: Config) returns (labels: seq<Label>)
    ensures Run(cfg, labels).Some? && true == Abandoned(Run(cfg, labels).value, 0, multiset{}, 1)
  {
    hide Step, Abandoned, JustClaimed;
    var l := Webhook(cfg);
    FirstStart(cfg, Run(cfg, l).value);
    Extend(cfg, l, Start(Msg(0, 0)));
    labels := DieAndDrop(cfg, l + [Start(Msg(0, 0))], 0, Msg(0, 0), multiset{}, 1);
  }

  /** A scan, a recovery that dies after sending, and the takeover by what it sent. */
  lemma NextClaim(cfg: Config, labels: seq<Label>, count: nat, n: nat) returns (more: seq<Label>)
    requires ValidConfig(cfg) && count + 1 < cfg.maxAttempts
    requires Run(cfg, labels).Some? && Abandoned(Run(cfg, labels).value, count, multiset{}, n)
    ensures Run(cfg, more).Some? && true == Abandoned(Run(cfg, more).value, count + 1, multiset{}, n + 1)
  {
    var none: multiset<nat> := multiset{};
    assert none + multiset{count} - multiset{count} == none;
    assert count in none + multiset{count};
    hide Step, At;
    var l1 := ScanLater(cfg, labels, count, multiset{}, none, n);
    var l2, m := SendOnly(cfg, l1, count, count, none + multiset{count}, n);
    more := TakeOver(cfg, l2, count, m, none, n);
  }

  lemma {:induction false} Claims(cfg: Config, count: nat) returns (labels: seq<Label>)
    requires ValidConfig(cfg) && count < cfg.maxAttempts
    ensures Run(cfg, labels).Some? && true == Abandoned(Run(cfg, labels).value, count, multiset{}, count + 1)
  {
    if count == 0 {
      labels := FirstClaim(cfg);
    } else {
      var before := Claims(cfg, count - 1);
      labels := NextClaim(cfg, before, count - 1, count);
    }
  }
}
