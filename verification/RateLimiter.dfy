/**
 * The fixed-window rate limiter over Redis (internal/limiter/limiter.go). Time is in milliseconds. The script runs
 * atomically; a key is gone from its expiry on; PEXPIRE with a time of zero deletes the key at once.
 */
module RateLimiter {
  import opened Collections
  import opened Text

  const MILLISECOND: nat := 1_000_000

  datatype Counter = Counter(count: nat, expiresAt: int)

  datatype Grant = Grant(at: int, life: nat)

  /** One scope: its key in Redis, and a record of when the key was created and what was granted in which life of it. */
  datatype Scope = Scope(key: Option<Counter>, lives: seq<int>, grants: seq<Grant>)

  const NEW_SCOPE := Scope(None, [], [])

  /** The key as the script finds it. */
  function Live(scope: Scope, now: int): Option<Counter> {
    if scope.key.Some? && now < scope.key.value.expiresAt then scope.key else None
  }

  /** One run of the script at time `now`. */
  function Call(scope: Scope, limit: nat, window: nat, now: int): Scope {
    var live := Live(scope, now);
    var count := if live.Some? then live.value.count + 1 else 1;
    var expiresAt := if live.Some? then live.value.expiresAt else now + window;
    var lives := if live.Some? then scope.lives else scope.lives + [now];
    Scope(if now < expiresAt then Some(Counter(count, expiresAt)) else None, lives,
          if count <= limit && |lives| > 0 then scope.grants + [Grant(now, |lives| - 1)] else scope.grants)
  }

  // ----- what every scope keeps -----

  function OfLife(grants: seq<Grant>, life: nat): set<nat> {
    set i | 0 <= i < |grants| && grants[i].life == life
  }

  /** The grants from `t` up to but not including `t + length`. */
  function Within(grants: seq<Grant>, t: int, length: nat): set<nat> {
    set i | 0 <= i < |grants| && t <= grants[i].at < t + length
  }

  /** The key's lives are at least a window apart. */
  predicate Apart(lives: seq<int>, window: nat) {
    forall i, j | 0 <= i < j < |lives| :: lives[i] + window <= lives[j]
  }

  predicate Timed(lives: seq<int>, grants: seq<Grant>, window: nat) {
    forall i | 0 <= i < |grants| ::
      grants[i].life < |lives| && lives[grants[i].life] <= grants[i].at < lives[grants[i].life] + window
  }

  predicate Granted(grants: seq<Grant>, g: Grant) {
    exists i | 0 <= i < |grants| :: grants[i] == g
  }

  /** A life begins with a grant. */
  predicate Begun(lives: seq<int>, grants: seq<Grant>) {
    forall l | 0 <= l < |lives| :: Granted(grants, Grant(lives[l], l))
  }

  predicate Rationed(lives: seq<int>, grants: seq<Grant>, limit: nat) {
    forall l | 0 <= l < |lives| :: |OfLife(grants, l)| <= limit
  }

  /** The key's counter and expiry belong to its last life. */
  predicate Counts(scope: Scope, window: nat) {
    match scope.key
    case None => scope.lives == []
    case Some(counter) =>
      && |scope.lives| > 0 && counter.count >= 1 && counter.expiresAt == scope.lives[|scope.lives| - 1] + window
      && |OfLife(scope.grants, |scope.lives| - 1)| <= counter.count
  }

  predicate Valid(scope: Scope, limit: nat, window: nat, now: int) {
    && Apart(scope.lives, window) && Timed(scope.lives, scope.grants, window) && Begun(scope.lives, scope.grants)
    && Rationed(scope.lives, scope.grants, limit) && Counts(scope, window)
    && (|scope.lives| > 0 ==> scope.lives[|scope.lives| - 1] <= now)
  }

  lemma OfLifeAppend(grants: seq<Grant>, g: Grant, life: nat)
    ensures OfLife(grants + [g], life) == OfLife(grants, life) + if g.life == life then {|grants|} else {}
    ensures |OfLife(grants + [g], life)| == |OfLife(grants, life)| + if g.life == life then 1 else 0
  {
    assert OfLife(grants + [g], life) == OfLife(grants, life) + if g.life == life then {|grants|} else {};
  }

  lemma NoneOfNewLife(lives: seq<int>, grants: seq<Grant>, window: nat)
    requires Timed(lives, grants, window)
    ensures OfLife(grants, |lives|) == {}
  {
  }

  lemma GrantedAppend(grants: seq<Grant>, g: Grant, other: Grant)
    requires Granted(grants, other) || other == g
    ensures Granted(grants + [g], other)
  {
    if other == g {
      assert (grants + [g])[|grants|] == g;
    } else {
      var i :| 0 <= i < |grants| && grants[i] == other;
      assert (grants + [g])[i] == other;
    }
  }

  /** `more` is `lives`, or begins one more life. */
  lemma BegunAppend(lives: seq<int>, more: seq<int>, grants: seq<Grant>, g: Grant)
    requires Begun(lives, grants) && (more == lives || (more == lives + [g.at] && g.life == |lives|))
    ensures Begun(more, grants + [g])
  {
    forall l | 0 <= l < |more| ensures Granted(grants + [g], Grant(more[l], l)) {
      GrantedAppend(grants, g, Grant(more[l], l));
    }
  }

  lemma RationedAppend(lives: seq<int>, more: seq<int>, grants: seq<Grant>, g: Grant, limit: nat)
    requires Rationed(lives, grants, limit) && |lives| <= |more| <= |lives| + 1
    requires |OfLife(grants, |lives|)| <= limit && |OfLife(grants, g.life)| < limit
    ensures Rationed(more, grants + [g], limit)
  {
    forall l | 0 <= l < |more| ensures |OfLife(grants + [g], l)| <= limit {
      OfLifeAppend(grants, g, l);
    }
  }

  lemma TimedAppend(lives: seq<int>, more: seq<int>, grants: seq<Grant>, g: Grant, window: nat)
    requires Timed(lives, grants, window) && (more == lives || more == lives + [g.at])
    requires g.life < |more| && more[g.life] <= g.at < more[g.life] + window
    ensures Timed(more, grants + [g], window)
  {
  }

  lemma ApartAppend(lives: seq<int>, now: int, window: nat)
    requires Apart(lives, window) && (|lives| > 0 ==> lives[|lives| - 1] + window <= now)
    ensures Apart(lives + [now], window)
  {
  }

  /** A call in the key's current life. */
  lemma CallInLife(scope: Scope, limit: nat, window: nat, now: int)
    requires Valid(scope, limit, window, now) && Live(scope, now).Some?
    ensures true == Valid(Call(scope, limit, window, now), limit, window, now)
  {
    hide Apart, Timed, Begun, Rationed, OfLife;
    var last := |scope.lives| - 1;
    var g := Grant(now, last);
    var count := scope.key.value.count;
    if count < limit {
      assert Call(scope, limit, window, now) ==
             Scope(Some(Counter(count + 1, scope.key.value.expiresAt)), scope.lives, scope.grants + [g]);
      NoneOfNewLife(scope.lives, scope.grants, window);
      BegunAppend(scope.lives, scope.lives, scope.grants, g);
      RationedAppend(scope.lives, scope.lives, scope.grants, g, limit);
      OfLifeAppend(scope.grants, g, last);
      TimedAppend(scope.lives, scope.lives, scope.grants, g, window);
    } else {
      assert Call(scope, limit, window, now) ==
             Scope(Some(Counter(count + 1, scope.key.value.expiresAt)), scope.lives, scope.grants);
    }
  }

  /** A call that begins a life. */
  lemma CallBegins(scope: Scope, limit: nat, window: nat, now: int)
    requires limit > 0 && window > 0 && Valid(scope, limit, window, now) && Live(scope, now).None?
    ensures true == Valid(Call(scope, limit, window, now), limit, window, now)
  {
    hide Apart, Timed, Begun, Rationed, OfLife;
    var g := Grant(now, |scope.lives|);
    assert Call(scope, limit, window, now) ==
           Scope(Some(Counter(1, now + window)), scope.lives + [now], scope.grants + [g]);
    NoneOfNewLife(scope.lives, scope.grants, window);
    BegunAppend(scope.lives, scope.lives + [now], scope.grants, g);
    RationedAppend(scope.lives, scope.lives + [now], scope.grants, g, limit);
    OfLifeAppend(scope.grants, g, |scope.lives|);
    TimedAppend(scope.lives, scope.lives + [now], scope.grants, g, window);
    ApartAppend(scope.lives, now, window);
  }

  lemma CallKeepsValid(scope: Scope, limit: nat, window: nat, now: int)
    requires limit > 0 && window > 0 && Valid(scope, limit, window, now)
    ensures true == Valid(Call(scope, limit, window, now), limit, window, now)
  {
    if Live(scope, now).Some? {
      CallInLife(scope, limit, window, now);
    } else {
      CallBegins(scope, limit, window, now);
    }
  }

  // ----- how many grants an interval can hold -----

  /** Two lives that both have grants in the interval leave no room for a third. */
  lemma NoThirdLife(scope: Scope, window: nat, t: int, length: nat, i: nat, j: nat, k: nat)
    requires Apart(scope.lives, window) && Timed(scope.lives, scope.grants, window) && length <= window + 1
    requires i in Within(scope.grants, t, length) && j in Within(scope.grants, t, length) && k in Within(scope.grants, t, length)
    requires scope.grants[i].life < scope.grants[j].life
    ensures scope.grants[k].life == scope.grants[i].life || scope.grants[k].life == scope.grants[j].life
    ensures scope.grants[j].life < |scope.lives| && length > 1
    ensures length <= window ==> scope.lives[scope.grants[i].life] < t
  {
  }

  lemma UnionSize(a: set<nat>, b: set<nat>)
    ensures |a + b| <= |a| + |b|
  {
    assert |a + b| == |a| + |b| - |a * b|;
  }

  /** If the interval is no longer than the window, the grant that began the earlier life lies before it. */
  lemma TwoLivesBound(scope: Scope, limit: nat, window: nat, now: int, t: int, length: nat, i: nat, j: nat)
    requires Valid(scope, limit, window, now) && length <= window + 1
    requires i in Within(scope.grants, t, length) && j in Within(scope.grants, t, length)
    requires scope.grants[i].life < scope.grants[j].life
    ensures length > 1
    ensures |Within(scope.grants, t, length)| <= if length <= window then 2 * limit - 1 else 2 * limit
  {
    hide Apart, Timed, Counts;
    var a, b := scope.grants[i].life, scope.grants[j].life;
    NoThirdLife(scope, window, t, length, i, j, i);
    assert Granted(scope.grants, Grant(scope.lives[a], a));
    var f :| 0 <= f < |scope.grants| && scope.grants[f] == Grant(scope.lives[a], a);
    var early := OfLife(scope.grants, a) - if length <= window then {f} else {};
    forall k | k in Within(scope.grants, t, length) ensures k in early + OfLife(scope.grants, b) {
      NoThirdLife(scope, window, t, length, i, j, k);
    }
    SubsetSize(Within(scope.grants, t, length), early + OfLife(scope.grants, b));
    UnionSize(early, OfLife(scope.grants, b));
  }

  lemma OneLifeBound(scope: Scope, limit: nat, window: nat, t: int, length: nat, i: nat)
    requires Timed(scope.lives, scope.grants, window) && Rationed(scope.lives, scope.grants, limit)
    requires i in Within(scope.grants, t, length)
    requires forall k <- Within(scope.grants, t, length) :: scope.grants[k].life == scope.grants[i].life
    ensures |Within(scope.grants, t, length)| <= limit
  {
    SubsetSize(Within(scope.grants, t, length), OfLife(scope.grants, scope.grants[i].life));
  }

  /** The grants in an interval of `length` milliseconds: of one life, or of two. */
  lemma WithinBound(scope: Scope, limit: nat, window: nat, now: int, t: int, length: nat)
    requires limit > 0 && Valid(scope, limit, window, now) && length <= window + 1
    ensures |Within(scope.grants, t, length)| <=
            if length <= 1 then limit else if length <= window then 2 * limit - 1 else 2 * limit
  {
    var w := Within(scope.grants, t, length);
    if w != {} {
      var i := Pick(w);
      if forall k <- w :: scope.grants[k].life == scope.grants[i].life {
        OneLifeBound(scope, limit, window, t, length, i);
      } else {
        var k :| k in w && scope.grants[k].life != scope.grants[i].life;
        if scope.grants[i].life < scope.grants[k].life {
          TwoLivesBound(scope, limit, window, now, t, length, i, k);
        } else {
          TwoLivesBound(scope, limit, window, now, t, length, k, i);
        }
      }
    }
  }

  // ----- runs -----

  datatype Event = Tick(d: nat) | Request

  datatype State = State(now: int, scope: Scope)

  function Run(limit: nat, window: nat, events: seq<Event>): State {
    if |events| == 0 then State(0, NEW_SCOPE)
    else
      var s := Run(limit, window, events[..|events| - 1]);
      match events[|events| - 1]
      case Tick(d) => s.(now := s.now + d)
      case Request => s.(scope := Call(s.scope, limit, window, s.now))
  }

  lemma {:induction false} RunKeepsValid(limit: nat, window: nat, events: seq<Event>)
    requires limit > 0 && window > 0
    ensures true == Valid(Run(limit, window, events).scope, limit, window, Run(limit, window, events).now)
  {
    if |events| > 0 {
      var before := events[..|events| - 1];
      RunKeepsValid(limit, window, before);
      var s := Run(limit, window, before);
      CallKeepsValid(s.scope, limit, window, s.now);
    }
  }

  lemma RunAppend(limit: nat, window: nat, events: seq<Event>, e: Event)
    ensures var s := Run(limit, window, events);
            Run(limit, window, events + [e]) ==
            if e.Tick? then s.(now := s.now + e.d) else s.(scope := Call(s.scope, limit, window, s.now))
  {
    assert (events + [e])[..|events|] == events;
  }

  /** With a window of zero every call is granted: the key is gone at once. */
  lemma {:induction false} AllGranted(limit: nat, n: nat) returns (events: seq<Event>)
    requires limit > 0
    ensures var s := Run(limit, 0, events); s.now == 0 && |s.scope.grants| == n && s.scope.key.None?
    ensures forall g <- Run(limit, 0, events).scope.grants :: g.at == 0
  {
    if n == 0 {
      events := [];
    } else {
      var before := AllGranted(limit, n - 1);
      RunAppend(limit, 0, before, Request);
      events := before + [Request];
    }
  }

  lemma {:induction false} AtLeastTail(grants: seq<Grant>, t: int, length: nat, low: nat)
    requires low <= |grants| && forall i | low <= i < |grants| :: t <= grants[i].at < t + length
    ensures |Within(grants, t, length)| >= |grants| - low
  {
    if low < |grants| {
      var last := |grants| - 1;
      AtLeastTail(grants[..last], t, length, low);
      assert Within(grants, t, length) == Within(grants[..last], t, length) + {last};
    }
  }

  // ----- windows as configured, in nanoseconds -----

  /** The grants from `t` up to but not including `t + length`, both in nanoseconds. */
  function During(grants: seq<Grant>, t: int, length: nat): set<nat> {
    set i | 0 <= i < |grants| && t <= grants[i].at * MILLISECOND < t + length
  }

  /** The number of a configured window's milliseconds, rounded up: its clock readings. */
  function Readings(window: nat): nat {
    (window + MILLISECOND - 1) / MILLISECOND
  }

  lemma DuringIsWithin(grants: seq<Grant>, t: int, length: nat)
    ensures During(grants, t, length) <= Within(grants, (t + MILLISECOND - 1) / MILLISECOND, Readings(length))
  {
  }

  /** An interval that begins with a clock reading. */
  lemma WithinIsDuring(grants: seq<Grant>, t: int, length: nat)
    ensures During(grants, t * MILLISECOND, length) == Within(grants, t, Readings(length))
  {
  }

  /** The key lives for whole milliseconds only, so a window with a fraction reaches into a second life. */
  function MostGrants(limit: nat, window: nat): (most: nat)
    requires limit > 0
    ensures window % MILLISECOND == 0 ==> most <= 2 * limit - 1
  {
    if window % MILLISECOND != 0 then 2 * limit else if window == MILLISECOND then limit else 2 * limit - 1
  }

  ghost predicate AtMost(limit: nat, window: nat, most: nat) {
    LifeAtMost(limit, window / MILLISECOND, window, most)
  }

  /** The same for a key that lives for `life` milliseconds. */
  ghost predicate LifeAtMost(limit: nat, life: nat, window: nat, most: nat) {
    forall events, t :: |During(Run(limit, life, events).scope.grants, t, window)| <= most
  }

  lemma RunIsBounded(limit: nat, window: nat)
    requires limit > 0 && window >= MILLISECOND
    ensures AtMost(limit, window, MostGrants(limit, window))
  {
    forall events, t
      ensures |During(Run(limit, window / MILLISECOND, events).scope.grants, t, window)| <= MostGrants(limit, window)
    {
      var s := Run(limit, window / MILLISECOND, events);
      RunKeepsValid(limit, window / MILLISECOND, events);
      var first := (t + MILLISECOND - 1) / MILLISECOND;
      WithinBound(s.scope, limit, window / MILLISECOND, s.now, first, Readings(window));
      DuringIsWithin(s.scope.grants, t, window);
      SubsetSize(During(s.scope.grants, t, window), Within(s.scope.grants, first, Readings(window)));
    }
  }

  /** Below a millisecond the script is told zero, and nothing is limited. */
  lemma NothingIsLimited(limit: nat, window: nat, n: nat) returns (events: seq<Event>)
    requires limit > 0 && 0 < window < MILLISECOND
    ensures |During(Run(limit, window / MILLISECOND, events).scope.grants, 0, window)| >= n
  {
    events := AllGranted(limit, n);
    AtLeastTail(Run(limit, 0, events).scope.grants, 0, 1, 0);
    WithinIsDuring(Run(limit, 0, events).scope.grants, 0, window);
  }

  /**
   * In every run, any interval as long as the configured window has fewer than twice the limit of grants iff the window is
   * a whole number of milliseconds; and at most twice the limit iff it is at least one millisecond.
   */
  lemma BoundedIff(limit: nat, window: nat)
    requires limit > 0 && window > 0
    ensures AtMost(limit, window, 2 * limit - 1) <==> window % MILLISECOND == 0
    ensures AtMost(limit, window, 2 * limit) <==> window >= MILLISECOND
  {
    if window >= MILLISECOND {
      RunIsBounded(limit, window);
      if window % MILLISECOND != 0 {
        var events, t := BoundIsTight(limit, window);
      }
    } else {
      var events := NothingIsLimited(limit, window, 2 * limit + 1);
    }
  }

  /**
   * If Redis still finds the key in the millisecond in which it expires, the key's life is one millisecond longer than told;
   * then a fraction of a millisecond does no harm.
   */
  lemma LateExpiryBounds(limit: nat, window: nat)
    requires limit > 0 && window >= MILLISECOND
    ensures LifeAtMost(limit, window / MILLISECOND + 1, window, 2 * limit - 1)
  {
    var life := window / MILLISECOND + 1;
    forall events, t ensures |During(Run(limit, life, events).scope.grants, t, window)| <= 2 * limit - 1 {
      var s := Run(limit, life, events);
      RunKeepsValid(limit, life, events);
      var first := (t + MILLISECOND - 1) / MILLISECOND;
      WithinBound(s.scope, limit, life, s.now, first, Readings(window));
      DuringIsWithin(s.scope.grants, t, window);
      SubsetSize(During(s.scope.grants, t, window), Within(s.scope.grants, first, Readings(window)));
    }
  }

  /** In each life of the key at most `limit` calls are granted. */
  lemma EachLifeRationed(limit: nat, window: nat, events: seq<Event>, life: nat)
    requires limit > 0 && window > 0
    ensures |OfLife(Run(limit, window, events).scope.grants, life)| <= limit
  {
    RunKeepsValid(limit, window, events);
    var scope := Run(limit, window, events).scope;
    if life >= |scope.lives| {
      assert OfLife(scope.grants, life) == {};
    }
  }

  // ----- the bound is attained -----

  /** The key is alive with `count` calls counted, and everything counted so far was granted. */
  predicate Counting(s: State, count: nat, expiresAt: int) {
    s.scope.key == Some(Counter(count, expiresAt)) && s.now < expiresAt && |s.scope.lives| > 0
  }

  lemma {:induction false} Burst(limit: nat, window: nat, events: seq<Event>, count: nat, expiresAt: int, n: nat)
    returns (more: seq<Event>)
    requires Counting(Run(limit, window, events), count, expiresAt) && count + n <= limit
    ensures var s, t := Run(limit, window, events), Run(limit, window, more);
            && t.now == s.now && Counting(t, count + n, expiresAt)
            && |t.scope.grants| == |s.scope.grants| + n && s.scope.grants <= t.scope.grants
            && forall i | |s.scope.grants| <= i < |t.scope.grants| :: t.scope.grants[i].at == s.now
  {
    more := events;
    if n > 0 {
      var before := Burst(limit, window, events, count, expiresAt, n - 1);
      RunAppend(limit, window, before, Request);
      more := before + [Request];
    }
  }

  lemma FirstCall(limit: nat, window: nat)
    requires limit > 0 && window > 0
    ensures Call(NEW_SCOPE, limit, window, 0) == Scope(Some(Counter(1, window)), [0], [Grant(0, 0)])
  {
  }

  /** One call, and the rest of the limit `wait` milliseconds later. */
  lemma FirstLife(limit: nat, window: nat, wait: nat) returns (events: seq<Event>)
    requires limit > 0 && wait < window
    ensures var s := Run(limit, window, events);
            && s.now == wait && Counting(s, limit, window) && |s.scope.grants| == limit && s.scope.grants[0].at == 0
            && forall i | 1 <= i < limit :: s.scope.grants[i].at == wait
  {
    assert Run(limit, window, []) == State(0, NEW_SCOPE);
    FirstCall(limit, window);
    hide Run, Call;
    RunAppend(limit, window, [], Request);
    var first := [] + [Request];
    assert Run(limit, window, first) == State(0, Scope(Some(Counter(1, window)), [0], [Grant(0, 0)]));
    RunAppend(limit, window, first, Tick(wait));
    events := Burst(limit, window, first + [Tick(wait)], 1, window, limit - 1);
  }

  /** Then the whole limit of the next life at once. */
  lemma TwoBursts(limit: nat, window: nat, wait: nat) returns (events: seq<Event>)
    requires limit > 0 && wait < window
    ensures var s := Run(limit, window, events);
            && |s.scope.grants| == 2 * limit && s.scope.grants[0].at == 0
            && (forall i | 1 <= i < limit :: s.scope.grants[i].at == wait)
            && forall i | limit <= i < 2 * limit :: s.scope.grants[i].at == window
  {
    hide Run;
    var e1 := FirstLife(limit, window, wait);
    RunAppend(limit, window, e1, Tick(window - wait));
    var e2 := e1 + [Tick(window - wait)];
    RunAppend(limit, window, e2, Request);
    var e3 := e2 + [Request];
    events := Burst(limit, window, e3, 1, 2 * window, limit - 1);
  }

  /**
   * The bound is attained for every window of at least a millisecond: with a fraction, by two full bursts a life apart;
   * otherwise by a late burst in one life and a full one in the next.
   */
  lemma BoundIsTight(limit: nat, window: nat) returns (events: seq<Event>, t: int)
    requires limit > 0 && window >= MILLISECOND
    ensures |During(Run(limit, window / MILLISECOND, events).scope.grants, t, window)| == MostGrants(limit, window)
  {
    var life := window / MILLISECOND;
    var start, low := 0, 0;
    if window % MILLISECOND != 0 {
      events := TwoBursts(limit, life, 0);
    } else if life == 1 {
      events := FirstLife(limit, life, 0);
    } else {
      events := TwoBursts(limit, life, life - 1);
      start, low := life - 1, 1;
    }
    var grants := Run(limit, life, events).scope.grants;
    t := start * MILLISECOND;
    AtLeastTail(grants, start, Readings(window), low);
    WithinIsDuring(grants, start, window);
    RunIsBounded(limit, window);
  }

  // ----- the client -----

  datatype Error = ScopeRequired | Unavailable | Cancelled

  function Normalize(scope: string): string {
    ToLower(TrimSpace(scope))
  }

  /** Equal up to letter case. */
  predicate SameLetter(x: char, y: char) {
    || x == y
    || ('A' <= x <= 'Z' && y as int == x as int + 32)
    || ('A' <= y <= 'Z' && x as int == y as int + 32)
  }

  /** Scopes that differ in letter case and outer space only. */
  predicate SameScope(a: string, b: string) {
    var x, y := TrimSpace(a), TrimSpace(b);
    |x| == |y| && forall i | 0 <= i < |x| :: SameLetter(x[i], y[i])
  }

  /** These share a key, and all others have their own. */
  lemma ScopesShareKeyIff(a: string, b: string)
    ensures "ratelimit:" + Normalize(a) == "ratelimit:" + Normalize(b) <==> SameScope(a, b)
  {
    hide TrimSpace;
    var x, y := TrimSpace(a), TrimSpace(b);
    var key, other := "ratelimit:" + ToLower(x), "ratelimit:" + ToLower(y);
    assert ToLower(x) == key[|"ratelimit:"|..] && ToLower(y) == other[|"ratelimit:"|..];
    if ToLower(x) == ToLower(y) {
      forall i | 0 <= i < |x| ensures SameLetter(x[i], y[i]) {
        assert ToLower(x)[i] == ToLower(y)[i];
      }
    }
  }

  class RedisLimiter {
    const limit: nat
    /** In milliseconds, as the script is told: a shorter window becomes zero. */
    const window: nat
    var now: int
    var scopes: map<string, Scope>
    /** How often this client has asked Redis. */
    ghost var asked: nat

    constructor (limit: int, window: int)
      ensures this.limit > 0 && (limit > 0 ==> this.limit == limit)
      ensures this.window == if window <= 0 then 60_000 else window / MILLISECOND
      ensures now == 0 && scopes == map[] && Sound()
    {
      this.limit := if limit <= 0 then 1 else limit;
      this.window := if window <= 0 then 60_000 else window / MILLISECOND;
      now, scopes, asked := 0, map[], 0;
    }

    function At(key: string): Scope
      reads this
    {
      if key in scopes then scopes[key] else NEW_SCOPE
    }

    /** Every scope's record is one the script can have produced; so `WithinBound` applies to each. */
    ghost predicate Rationing()
      reads this
    {
      limit > 0 && window > 0 && AllValid(scopes, limit, window, now)
    }

    /** A key that exists has been incremented. */
    ghost predicate Sound()
      reads this
    {
      limit > 0 && forall key <- scopes :: Incremented(scopes[key])
    }

    /** The script: INCR, PEXPIRE for a new key, and the comparison with the limit. */
    method Script(scope: Scope) returns (after: Scope, allowed: bool)
      requires limit > 0 && Incremented(scope)
      ensures after == Call(scope, limit, window, now) && Incremented(after)
      ensures allowed <==> |after.grants| == |scope.grants| + 1
    {
      var counter, lives := scope.key, scope.lives;
      if counter.Some? && counter.value.expiresAt <= now {
        counter := None;
      }
      var count := if counter.Some? then counter.value.count + 1 else 1;
      var expiresAt;
      if count == 1 {
        expiresAt := now + window;
        lives := lives + [now];
      } else {
        expiresAt := counter.value.expiresAt;
      }
      allowed := count <= limit;
      after := Scope(if now < expiresAt then Some(Counter(count, expiresAt)) else None, lives,
                     if allowed then scope.grants + [Grant(now, |lives| - 1)] else scope.grants);
    }

    /** The script would grant a call for this key now. */
    predicate GrantedNow(key: string)
      reads this
    {
      |Call(At(key), limit, window, now).grants| > |At(key).grants|
    }

    method Allow(key: string) returns (allowed: bool)
      requires Sound()
      modifies this`scopes
      ensures Sound() && (old(Rationing()) ==> Rationing())
      ensures scopes == old(scopes)[key := Call(old(At(key)), limit, window, now)]
      ensures allowed <==> |At(key).grants| == |old(At(key)).grants| + 1
    {
      var after;
      after, allowed := Script(At(key));
      if window > 0 && AllValid(scopes, limit, window, now) {
        AllValidCall(scopes, key, limit, window, now);
      }
      scopes := scopes[key := after];
    }

    /** Everyone else: time passes, other clients call. */
    method Others(patience: nat)
      requires Sound()
      modifies this`scopes, this`now
      ensures Sound() && (old(Rationing()) ==> Rationing())
      ensures now >= old(now)
    {
      for i := 0 to patience
        invariant Sound() && (old(Rationing()) ==> Rationing()) && now >= old(now)
      {
        var d: int, key: string := *, *;
        if d > 0 {
          LaterValid(scopes, limit, window, now, now + d);
          now := now + d;
        }
        var _ := Allow(key);
      }
    }

    /**
     * Asks until a call is granted, Redis fails or the caller gives up. `rounds` is how often the caller's context lets it
     * ask, and Redis fails it in round `failAt`. A blank scope is refused without asking; success means a grant in this
     * scope just now; a call that the script would grant at once is granted; it gives up only after asking in every round.
     */
    method Wait(scope: string, rounds: nat, failAt: nat) returns (error: Option<Error>)
      requires Sound()
      modifies this`scopes, this`now, this`asked
      ensures Sound() && (old(Rationing()) ==> Rationing())
      ensures error == Some(ScopeRequired) <==> TrimSpace(scope) == ""
      ensures error == Some(ScopeRequired) ==> unchanged(this)
      ensures error == Some(Unavailable) ==> failAt < rounds && asked == old(asked) + failAt
      ensures error == Some(Cancelled) ==> rounds <= failAt && asked == old(asked) + rounds
      ensures error.None? ==>
                var grants := At("ratelimit:" + Normalize(scope)).grants; |grants| > 0 && grants[|grants| - 1].at == now
      ensures TrimSpace(scope) != "" && rounds > 0 && failAt > 0 && old(GrantedNow("ratelimit:" + Normalize(scope))) ==>
                error.None? && now == old(now)
    {
      var name := Normalize(scope);
      if name == "" {
        return Some(ScopeRequired);
      }
      for round := 0 to rounds
        invariant Sound() && (old(Rationing()) ==> Rationing()) && round <= failAt && asked == old(asked) + round
        invariant round == 0 ==> scopes == old(scopes) && now == old(now)
        invariant round > 0 ==> failAt == 0 || !old(GrantedNow("ratelimit:" + name))
      {
        if round == failAt {
          return Some(Unavailable);
        }
        var allowed := Allow("ratelimit:" + name);
        asked := asked + 1;
        if allowed {
          return None;
        }
        var patience: nat := *;
        Others(patience);
      }
      return Some(Cancelled);
    }
  }

  predicate Incremented(scope: Scope) {
    scope.key.Some? ==> scope.key.value.count >= 1 && |scope.lives| > 0
  }

  predicate AllValid(scopes: map<string, Scope>, limit: nat, window: nat, now: int) {
    forall key <- scopes :: Valid(scopes[key], limit, window, now)
  }

  lemma AllValidCall(scopes: map<string, Scope>, key: string, limit: nat, window: nat, now: int)
    requires limit > 0 && window > 0 && AllValid(scopes, limit, window, now)
    ensures var scope := if key in scopes then scopes[key] else NEW_SCOPE;
            AllValid(scopes[key := Call(scope, limit, window, now)], limit, window, now)
  {
    var scope := if key in scopes then scopes[key] else NEW_SCOPE;
    CallKeepsValid(scope, limit, window, now);
  }

  lemma LaterValid(scopes: map<string, Scope>, limit: nat, window: nat, now: int, later: int)
    requires now <= later
    ensures AllValid(scopes, limit, window, now) ==> AllValid(scopes, limit, window, later)
  {
    if AllValid(scopes, limit, window, now) {
      forall key | key in scopes ensures true == Valid(scopes[key], limit, window, later) {
        assert Valid(scopes[key], limit, window, now);
      }
    }
  }
}
