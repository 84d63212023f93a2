/**
 * The store writes a recovery's attempt count without comparing it with the row's. A recovery that still believes in an
 * older count writes it back, and its message is claimed once more: for every configuration that retries at all the
 * attempt bound then fails, even with one worker process, and with more processes it fails by more - though never without
 * limit, see AttemptBudget.
 */
module StaleRecoveries {
  import opened Collections
  import opened TaskRows
  import opened TaskProtocol
  import opened AttemptBudget
  import opened ScriptedRuns

  /**
   * A recovery whose reading is below the row's count sends the attempt after its reading, marks the row with it, and the
   * message is claimed: the count has not grown, but the claims have.
   */
  lemma Reset(cfg: Config, labels: seq<Label>, count: nat, reading: nat, readings: multiset<nat>, n: nat)
    returns (more: seq<Label>, m: Msg)
    requires ValidConfig(cfg) && Run(cfg, labels).Some? && Abandoned(Run(cfg, labels).value, count, readings, n)
    requires reading in readings && reading + 1 < cfg.maxAttempts
    ensures Run(cfg, more).Some? && m.attempt == reading + 1
    ensures true == At(Run(cfg, more).value, Retrying, reading + 1, multiset{m}, readings - multiset{reading}, multiset{}, n)
    ensures Run(cfg, more).value.row.Some? && Run(cfg, more).value.row.value.nextRetryAt == Some(m.readyAt)
  {
    hide Step, At, Abandoned;
    var rest := readings - multiset{reading};
    var l1, msg, mark := Send(cfg, labels, count, reading, readings, n);
    m := msg;
    ConfirmAt(cfg, Run(cfg, l1).value, count, m, rest, mark, n);
    Extend(cfg, l1, RecoverConfirm(mark));
    var l2 := l1 + [RecoverConfirm(mark)];
    var confirmed := Confirmed(cfg, mark, Run(cfg, l1).value.now);
    MarkAt(cfg, Run(cfg, l2).value, count, m, rest, confirmed, n);
    Extend(cfg, l2, RecoverMark(confirmed, true));
    more := l2 + [RecoverMark(confirmed, true)];
  }

  lemma ResetAndClaim(cfg: Config, labels: seq<Label>, count: nat, reading: nat, readings: multiset<nat>, n: nat)
    returns (more: seq<Label>)
    requires ValidConfig(cfg) && Run(cfg, labels).Some? && Abandoned(Run(cfg, labels).value, count, readings, n)
    requires reading in readings && reading + 1 < cfg.maxAttempts
    ensures Run(cfg, more).Some?
    ensures true == Abandoned(Run(cfg, more).value, reading + 1, readings - multiset{reading}, n + 1)
  {
    hide Step, At, Abandoned, JustClaimed;
    var rest := readings - multiset{reading};
    var l1, m := Reset(cfg, labels, count, reading, readings, n);
    var s := Run(cfg, l1).value;
    var d := Wait(m, s.now);
    TickAt(cfg, s, d, Retrying, m.attempt, multiset{m}, rest, multiset{}, n);
    Extend(cfg, l1, Tick(d));
    var l2 := l1 + [Tick(d)];
    StartAt(cfg, s.(now := s.now + d), Retrying, m.attempt, m, rest, n);
    Extend(cfg, l2, Start(m));
    more := DieAndDrop(cfg, l2 + [Start(m)], m.attempt, m, rest, n + 1);
  }

  // ----- one worker process suffices to break the bound -----

  /**
   * The process lists the task twice at the same count: its first recovery dies after sending, and while the second has
   * the reading, that message is claimed as the last attempt. Then the second recovery writes the same attempt again.
   */
  lemma OneTooMany(cfg: Config) returns (labels: seq<Label>)
    requires ValidConfig(cfg) && cfg.maxAttempts >= 2
    ensures Run(cfg, labels).Some? && |Run(cfg, labels).value.claims| == cfg.maxAttempts + 1
  {
    var count := cfg.maxAttempts - 2;
    var none: multiset<nat> := multiset{};
    var one := none + multiset{count};
    assert one - multiset{count} == none && count in one;
    hide Step, At;
    var l0 := Claims(cfg, count);
    var l1 := ScanLater(cfg, l0, count, multiset{}, none, count + 1);
    var l2, m := SendOnly(cfg, l1, count, count, one, count + 1);
    var l3 := ScanLater(cfg, l2, count, multiset{m}, none, count + 1);
    var l4 := TakeOver(cfg, l3, count, m, one, count + 1);
    labels := ResetAndClaim(cfg, l4, count + 1, count, one, count + 2);
    AtClaims(Run(cfg, labels).value, count + 1, none, count + 3);
  }

  lemma AtClaims(s: Sys, count: nat, readings: multiset<nat>, n: nat)
    requires Abandoned(s, count, readings, n)
    ensures |s.claims| == n
  {
  }

  // ----- many processes break it by as much as there are -----

  function Zeros(n: nat): (readings: multiset<nat>)
    ensures |readings| == n && (n > 0 ==> 0 in readings)
  {
    if n == 0 then multiset{} else Zeros(n - 1) + multiset{0}
  }

  /** `n` processes list the task before its first retry. */
  lemma {:induction false} ScanAll(cfg: Config, n: nat) returns (labels: seq<Label>)
    requires ValidConfig(cfg) && n <= cfg.processes
    ensures Run(cfg, labels).Some? && true == Abandoned(Run(cfg, labels).value, 0, Zeros(n), 1)
  {
    hide Step, At;
    if n == 0 {
      labels := FirstClaim(cfg);
    } else {
      var before := ScanAll(cfg, n - 1);
      labels := ScanLater(cfg, before, 0, multiset{}, Zeros(n - 1), 1);
    }
  }

  /** Each of them in turn resets the row to the first retry. */
  lemma {:induction false} ResetAll(cfg: Config, labels: seq<Label>, k: nat, n: nat) returns (more: seq<Label>)
    requires ValidConfig(cfg) && cfg.maxAttempts >= 2
    requires Run(cfg, labels).Some? && Abandoned(Run(cfg, labels).value, 1, Zeros(k), n)
    ensures Run(cfg, more).Some? && true == Abandoned(Run(cfg, more).value, 1, Zeros(0), n + k)
    decreases k
  {
    hide Step, At, Abandoned;
    more := labels;
    if k > 0 {
      assert Zeros(k) - multiset{0} == Zeros(k - 1);
      var l1 := ResetAndClaim(cfg, labels, 1, 0, Zeros(k), n);
      more := ResetAll(cfg, l1, k - 1, n + 1);
    }
  }

  /** With `n + 1` worker processes a task can be claimed `n + 2` times, whatever number of attempts above one is configured. */
  lemma AsManyClaimsAsProcesses(cfg: Config, n: nat) returns (labels: seq<Label>)
    requires ValidConfig(cfg) && cfg.maxAttempts >= 2 && cfg.processes >= n + 1
    ensures Run(cfg, labels).Some? && |Run(cfg, labels).value.claims| == n + 2
  {
    hide Step, At;
    assert Zeros(n + 1) - multiset{0} == Zeros(n);
    var l1 := ScanAll(cfg, n + 1);
    var l2, m := SendOnly(cfg, l1, 0, 0, Zeros(n + 1), 1);
    var l3 := TakeOver(cfg, l2, 0, m, Zeros(n), 1);
    labels := ResetAll(cfg, l3, n, 2);
    AtClaims(Run(cfg, labels).value, 1, Zeros(0), n + 2);
  }

  // ----- the condition -----

  /**
   * `maxAttempts` bounds the claims of every run, outdated recoveries included, iff it is one - however many worker
   * processes there are, and even for a single one.
   */
  lemma BoundedForAnyRecoveryIff(cfg: Config)
    requires ValidConfig(cfg)
    ensures (forall labels | Run(cfg, labels).Some? :: |Run(cfg, labels).value.claims| <= cfg.maxAttempts)
            <==> cfg.maxAttempts == 1
  {
    if cfg.maxAttempts == 1 {
      forall labels | Run(cfg, labels).Some? ensures |Run(cfg, labels).value.claims| <= cfg.maxAttempts {
        ClaimsAreBounded(cfg, labels);
      }
    } else {
      var labels := OneTooMany(cfg);
      assert Run(cfg, labels).Some?;
    }
  }
}
