/**
 * The per-PR lock in Redis (internal/lock/lock.go) and the worker's section under it (internal/worker/worker.go), timed
 * in milliseconds on one clock. Every operation of the section ends by its timeout; a worker may die anywhere; the lock
 * expires on its own. Workers of all processes are identified by their lock tokens, which are random and never repeat.
 */
module PrLock {
  import opened Collections

  // ----- one key in Redis -----

  datatype Held = Held(token: nat, expiresAt: int)

  /** What a key holds at time `now`: an expired value is gone. */
  function Current(lock: Option<Held>, now: int): Option<Held> {
    if lock.Some? && now < lock.value.expiresAt then lock else None
  }

  function SetNX(lock: Option<Held>, token: nat, ttl: nat, now: int): Option<Held> {
    if Current(lock, now).None? then Some(Held(token, now + ttl)) else lock
  }

  function Delete(lock: Option<Held>, token: nat, now: int): Option<Held> {
    if Current(lock, now).Some? && lock.value.token == token then None else lock
  }

  datatype Acquired = Taken(token: nat) | Busy | InvalidKey | InvalidTTL

  class RedisLocker {
    var locks: map<string, Held>

    constructor ()
      ensures locks == map[]
    {
      locks := map[];
    }

    function At(key: string): Option<Held>
      reads this
    {
      if "lock:" + key in locks then Some(locks["lock:" + key]) else None
    }

    /** Takes the key for `ttl`, if nobody has it. */
    method Acquire(key: string, token: nat, ttl: int, now: int) returns (r: Acquired)
      modifies this
      ensures r == if key == "" then InvalidKey else if ttl <= 0 then InvalidTTL
                   else if Current(old(At(key)), now).Some? then Busy else Taken(token)
      ensures r.Taken? ==> At(key) == SetNX(old(At(key)), token, ttl, now) == Some(Held(token, now + ttl))
      ensures !r.Taken? ==> unchanged(this)
      ensures forall other | other != key :: At(other) == old(At(other))
    {
      if key == "" {
        return InvalidKey;
      }
      if ttl <= 0 {
        return InvalidTTL;
      }
      var name := "lock:" + key;
      if name in locks && now < locks[name].expiresAt {
        return Busy;
      }
      locks := locks[name := Held(token, now + ttl)];
      KeysDiffer(key);
      return Taken(token);
    }

    /** Deletes the key only while it still holds this token; `held` is false iff somebody else holds it. */
    method Release(key: string, token: nat, now: int) returns (held: bool)
      modifies this
      ensures Current(At(key), now) == Current(Delete(old(At(key)), token, now), now)
      ensures held <==> Current(old(At(key)), now).None? || old(At(key)).value.token == token
      ensures forall other | other != key :: At(other) == old(At(other))
    {
      var name := "lock:" + key;
      KeysDiffer(key);
      if name !in locks || locks[name].expiresAt <= now {
        return true;
      }
      if locks[name].token != token {
        return false;
      }
      locks := locks - {name};
      return true;
    }

    lemma KeysDiffer(key: string)
      ensures forall other | other != key :: "lock:" + other != "lock:" + key
    {
      forall other | other != key ensures "lock:" + other != "lock:" + key {
        assert ("lock:" + other)[5..] == other && ("lock:" + key)[5..] == key;
      }
    }
  }

  // ----- the section under the lock -----

  /** The operation a worker is in: `Settling` writes done or superseded, `Marking` retrying, dead letter or failed. */
  datatype Stage = Acquiring | Claiming | Reviewing | Settling | Publishing | Marking | Releasing

  const SECOND: nat := 1000
  const REVIEW_TIMEOUT: nat := 300 * SECOND
  const CLEANUP_MARGIN: nat := 60 * SECOND
  const RUNNING_STALE_AFTER: nat := REVIEW_TIMEOUT + 60 * SECOND

  function Timeout(stage: Stage): nat {
    match stage
    case Reviewing => REVIEW_TIMEOUT
    case Publishing => 10 * SECOND
    case _ => 5 * SECOND
  }

  predicate CanFollow(stage: Stage, next: Stage) {
    match stage
    case Acquiring => next == Claiming
    case Claiming => next == Reviewing || next == Releasing
    case Reviewing => next == Settling || next == Publishing
    case Settling => next == Releasing || next == Publishing
    case Publishing => next == Marking
    case Marking => next == Releasing
    case Releasing => false
  }

  /** How many operations can still follow. */
  function Left(stage: Stage): nat {
    match stage
    case Acquiring => 6
    case Claiming => 5
    case Reviewing => 4
    case Settling => 3
    case Publishing => 2
    case Marking => 1
    case Releasing => 0
  }

  /** The longest time a section can take after the end of a stage: every operation to its timeout. */
  function Rest(stage: Stage): nat
    decreases Left(stage)
  {
    match stage
    case Acquiring => Timeout(Claiming) + Rest(Claiming)
    case Claiming => Timeout(Reviewing) + Rest(Reviewing)
    case Reviewing => Timeout(Settling) + Rest(Settling)
    case Settling => Timeout(Publishing) + Rest(Publishing)
    case Publishing => Timeout(Marking) + Rest(Marking)
    case Marking => Timeout(Releasing)
    case Releasing => 0
  }

  const WORST_SECTION: nat := Timeout(Acquiring) + Rest(Acquiring)

  /** The TTL New starts the worker with: never less than the review timeout and a cleanup margin. */
  function LockTTL(option: int): (ttl: nat)
    ensures ttl > WORST_SECTION
    ensures option <= 0 ==> ttl == 420 * SECOND
    ensures 0 < option < 360 * SECOND ==> ttl == 360 * SECOND
    ensures option >= 360 * SECOND ==> ttl == option
  {
    var chosen := if option <= 0 then 7 * 60 * SECOND else option;
    if chosen < REVIEW_TIMEOUT + CLEANUP_MARGIN then REVIEW_TIMEOUT + CLEANUP_MARGIN else chosen
  }

  /** `claimedAt` is when the claim wrote the row, and with it the row's `updated_at`. */
  datatype Section = Section(stage: Stage, began: int, claimedAt: Option<int>)

  function Deadline(section: Section): int {
    section.began + Timeout(section.stage)
  }

  datatype Sys = Sys(now: int, lock: Option<Held>, sections: map<nat, Section>, used: set<nat>)

  const INIT := Sys(0, None, map[], {})

  datatype Label =
    | Tick(d: nat)
    | Acquire(token: nat, replied: bool)
    | Move(token: nat, next: Stage, claimedAt: int)
    | Release(token: nat)
    | LateRelease(token: nat)
    | Die(token: nat)

  predicate InTime(s: Sys, t: int) {
    forall token <- s.sections :: t <= Deadline(s.sections[token])
  }

  function Step(ttl: nat, s: Sys, l: Label): Option<Sys> {
    match l
    case Tick(d) =>
      if InTime(s, s.now + d) then Some(s.(now := s.now + d)) else None
    case Acquire(token, replied) =>
      // the reply may be lost; then the worker gives up but the lock stays
      if token in s.used then None
      else if Current(s.lock, s.now).Some? then Some(s.(used := s.used + {token}))
      else Some(s.(lock := SetNX(s.lock, token, ttl, s.now), used := s.used + {token},
                   sections := if replied then s.sections[token := Section(Acquiring, s.now, None)] else s.sections))
    case Move(token, next, claimedAt) =>
      if token !in s.sections || !CanFollow(s.sections[token].stage, next) then None else
      var section := s.sections[token];
      var claimed := if next == Reviewing then Some(claimedAt) else section.claimedAt;
      if next == Reviewing && !(section.began <= claimedAt <= s.now) then None
      else Some(s.(sections := s.sections[token := Section(next, s.now, claimed)]))
    case Release(token) =>
      if token !in s.sections || s.sections[token].stage != Releasing then None
      else Some(s.(lock := Delete(s.lock, token, s.now), sections := s.sections - {token}))
    case LateRelease(token) =>
      // a release that timed out at the worker but reaches Redis afterwards
      if token in s.sections || token !in s.used then None
      else Some(s.(lock := Delete(s.lock, token, s.now)))
    case Die(token) =>
      // a crash, or a release that never arrives
      Some(s.(sections := s.sections - {token}))
  }

  function Run(ttl: nat, labels: seq<Label>): Option<Sys> {
    if |labels| == 0 then Some(INIT)
    else
      var s := Run(ttl, labels[..|labels| - 1]);
      if s.None? then None else Step(ttl, s.value, labels[|labels| - 1])
  }

  // ----- mutual exclusion -----

  /** The section owns the lock and will be over before the lock expires, and before its row looks stale. */
  predicate Safe(s: Sys, token: nat) {
    && token in s.sections && token in s.used
    && s.lock.Some? && s.lock.value.token == token
    && s.now <= Deadline(s.sections[token])
    && Deadline(s.sections[token]) + Rest(s.sections[token].stage) < s.lock.value.expiresAt
    && (s.sections[token].claimedAt.Some? ==>
          Deadline(s.sections[token]) + Rest(s.sections[token].stage)
          <= s.sections[token].claimedAt.value + Timeout(Claiming) + Rest(Claiming))
  }

  predicate AllSafe(s: Sys) {
    forall token <- s.sections :: Safe(s, token)
  }

  lemma MoveFits(section: Section, next: Stage, now: int, claimed: Option<int>)
    requires CanFollow(section.stage, next) && now <= Deadline(section)
    ensures Deadline(Section(next, now, claimed)) + Rest(next) <= Deadline(section) + Rest(section.stage)
  {
  }

  lemma MoveKeepsSafe(ttl: nat, s: Sys, l: Label)
    requires AllSafe(s) && l.Move? && Step(ttl, s, l).Some?
    ensures AllSafe(Step(ttl, s, l).value)
  {
    var t := Step(ttl, s, l).value;
    assert Safe(s, l.token);
    MoveFits(s.sections[l.token], l.next, s.now, t.sections[l.token].claimedAt);
    forall token | token in t.sections ensures Safe(t, token) {
      assert Safe(s, token);
    }
  }

  lemma AcquireKeepsSafe(ttl: nat, s: Sys, l: Label)
    requires ttl > WORST_SECTION && AllSafe(s) && l.Acquire? && Step(ttl, s, l).Some?
    ensures AllSafe(Step(ttl, s, l).value)
  {
    var t := Step(ttl, s, l).value;
    forall token | token in t.sections ensures Safe(t, token) {
      assert token in s.sections ==> Safe(s, token);
    }
  }

  lemma ReleaseKeepsSafe(ttl: nat, s: Sys, l: Label)
    requires AllSafe(s) && (l.Release? || l.LateRelease? || l.Die?) && Step(ttl, s, l).Some?
    ensures AllSafe(Step(ttl, s, l).value)
  {
    var t := Step(ttl, s, l).value;
    forall token | token in t.sections ensures Safe(t, token) {
      assert Safe(s, token);
      assert token != l.token || l.Die?;
    }
  }

  lemma StepKeepsSafe(ttl: nat, s: Sys, l: Label)
    requires ttl > WORST_SECTION && AllSafe(s) && Step(ttl, s, l).Some?
    ensures true == AllSafe(Step(ttl, s, l).value)
  {
    if l.Tick? {
      forall token | token in s.sections ensures Safe(s.(now := s.now + l.d), token) {
        assert Safe(s, token);
      }
    } else if l.Move? {
      MoveKeepsSafe(ttl, s, l);
    } else if l.Acquire? {
      AcquireKeepsSafe(ttl, s, l);
    } else {
      ReleaseKeepsSafe(ttl, s, l);
    }
  }

  lemma {:induction false} RunKeepsSafe(ttl: nat, labels: seq<Label>)
    requires ttl > WORST_SECTION && Run(ttl, labels).Some?
    ensures AllSafe(Run(ttl, labels).value)
  {
    if |labels| > 0 {
      RunKeepsSafe(ttl, labels[..|labels| - 1]);
      StepKeepsSafe(ttl, Run(ttl, labels[..|labels| - 1]).value, labels[|labels| - 1]);
    }
  }

  /** No two workers are between acquiring and releasing the lock. */
  predicate Exclusive(s: Sys) {
    forall a <- s.sections, b <- s.sections :: a == b
  }

  /**
   * With the TTL the worker starts with, in every run: one section at a time, it still holds the lock, and its row is
   * not one the recovery scan lists as stale.
   */
  lemma ExclusiveUnderNew(option: int, labels: seq<Label>)
    requires Run(LockTTL(option), labels).Some?
    ensures var s := Run(LockTTL(option), labels).value;
            && Exclusive(s)
            && (forall token <- s.sections ::
                  && Current(s.lock, s.now).Some? && s.lock.value.token == token
                  && (s.sections[token].claimedAt.Some? ==>
                        s.sections[token].claimedAt.value >= s.now - RUNNING_STALE_AFTER))
  {
    RunKeepsSafe(LockTTL(option), labels);
    var s := Run(LockTTL(option), labels).value;
    forall token | token in s.sections
      ensures && Current(s.lock, s.now).Some? && s.lock.value.token == token
              && (s.sections[token].claimedAt.Some? ==>
                    s.sections[token].claimedAt.value >= s.now - RUNNING_STALE_AFTER) {
      assert Safe(s, token);
    }
  }

  // ----- a shorter TTL lets a second worker in -----

  function Before(stage: Stage): Stage {
    match stage
    case Acquiring => Acquiring
    case Claiming => Acquiring
    case Reviewing => Claiming
    case Settling => Reviewing
    case Publishing => Settling
    case Marking => Publishing
    case Releasing => Marking
  }

  /** Worker 0 is alone and in its section's stage since just now, every earlier operation having timed out. */
  predicate Slow(ttl: nat, s: Sys, stage: Stage) {
    && s.lock == Some(Held(0, ttl)) && s.used == {0} && s.sections.Keys == {0}
    && s.sections[0].stage == stage && s.sections[0].began == s.now
    && s.now == WORST_SECTION - Timeout(stage) - Rest(stage)
  }

  lemma Extend(ttl: nat, labels: seq<Label>, l: Label)
    requires Run(ttl, labels).Some?
    ensures Run(ttl, labels + [l]) == Step(ttl, Run(ttl, labels).value, l)
  {
    assert (labels + [l])[..|labels|] == labels;
  }

  lemma SlowStep(ttl: nat, s: Sys, stage: Stage)
    requires stage != Acquiring && Slow(ttl, s, Before(stage))
    ensures var t := Step(ttl, s, Tick(Timeout(Before(stage))));
            && t.Some?
            && var u := Step(ttl, t.value, Move(0, stage, t.value.now)); u.Some? && Slow(ttl, u.value, stage)
  {
  }

  lemma {:induction false} SlowWorker(ttl: nat, stage: Stage) returns (labels: seq<Label>)
    ensures Run(ttl, labels).Some? && Slow(ttl, Run(ttl, labels).value, stage)
    decreases WORST_SECTION - Rest(stage)
  {
    if stage == Acquiring {
      assert Run(ttl, []) == Some(INIT);
      Extend(ttl, [], Acquire(0, true));
      labels := [] + [Acquire(0, true)];
    } else {
      hide Run, Step, Slow;
      var l0 := SlowWorker(ttl, Before(stage));
      var d := Timeout(Before(stage));
      SlowStep(ttl, Run(ttl, l0).value, stage);
      Extend(ttl, l0, Tick(d));
      var l1 := l0 + [Tick(d)];
      var now := Run(ttl, l1).value.now;
      Extend(ttl, l1, Move(0, stage, now));
      labels := l1 + [Move(0, stage, now)];
    }
  }

  /** The stage a worker is in, `t` after taking the lock, if everything takes as long as it may. */
  function StageAt(t: nat): (stage: Stage)
    requires 0 < t <= WORST_SECTION
    ensures var start := WORST_SECTION - Timeout(stage) - Rest(stage); start < t <= start + Timeout(stage)
  {
    if t <= 5 * SECOND then Acquiring
    else if t <= 10 * SECOND then Claiming
    else if t <= 310 * SECOND then Reviewing
    else if t <= 315 * SECOND then Settling
    else if t <= 325 * SECOND then Publishing
    else if t <= 330 * SECOND then Marking
    else Releasing
  }

  lemma TwoWorkers(ttl: nat) returns (labels: seq<Label>)
    requires 0 < ttl <= WORST_SECTION
    ensures Run(ttl, labels).Some? && !Exclusive(Run(ttl, labels).value)
  {
    var stage := StageAt(ttl);
    var l0 := SlowWorker(ttl, stage);
    var d := ttl - Run(ttl, l0).value.now;
    Extend(ttl, l0, Tick(d));
    var l1 := l0 + [Tick(d)];
    Extend(ttl, l1, Acquire(1, true));
    labels := l1 + [Acquire(1, true)];
    var s := Run(ttl, labels).value;
    assert 0 in s.sections && 1 in s.sections;
  }

  /** The lock excludes a second worker in every run, iff its TTL is longer than the longest section. */
  lemma ExclusiveIff(ttl: nat)
    requires ttl > 0
    ensures (forall labels | Run(ttl, labels).Some? :: Exclusive(Run(ttl, labels).value)) <==> ttl > WORST_SECTION
  {
    if ttl > WORST_SECTION {
      forall labels | Run(ttl, labels).Some? ensures Exclusive(Run(ttl, labels).value) {
        RunKeepsSafe(ttl, labels);
        var s := Run(ttl, labels).value;
        forall a, b | a in s.sections && b in s.sections ensures a == b {
          assert Safe(s, a) && Safe(s, b);
        }
      }
    } else {
      var labels := TwoWorkers(ttl);
      assert Run(ttl, labels).Some?;
    }
  }
}
