/**
 * What the recoveries under way, and the idle processes, can still do to a task's attempt count. Each outstanding reading
 * and each idle process has a weight; weights fall by a factor of more than the number of processes from one attempt to the
 * next, so that a reset pays for what it makes possible.
 */
module RecoveryLoads {
  import opened Collections
  import opened TaskRows
  import opened TaskProtocol
  import opened LiveAttempts
  import opened MultisetSums

  // ----- weights -----

  function Power(base: nat, n: nat): (p: nat)
    ensures base > 0 ==> p > 0
  {
    if n == 0 then 1 else base * Power(base, n - 1)
  }

  /** What a process can still do with the attempt `level`. */
  function Weight(cfg: Config, level: nat): nat {
    if level >= cfg.maxAttempts then 0 else Power(cfg.processes + 1, cfg.maxAttempts - 1 - level)
  }

  /** One reset to `level` pays for every process doing something with the next. */
  lemma WeightPays(cfg: Config, level: nat)
    requires level < cfg.maxAttempts
    ensures Weight(cfg, level) >= 1 + cfg.processes * Weight(cfg, level + 1)
  {
    if level + 1 < cfg.maxAttempts {
      var next := Weight(cfg, level + 1);
      assert Weight(cfg, level) == (cfg.processes + 1) * next == cfg.processes * next + next;
    }
  }

  lemma {:induction false} WeightFalls(cfg: Config, low: nat, high: nat)
    requires low <= high
    ensures Weight(cfg, high) <= Weight(cfg, low)
    decreases high - low
  {
    if low < high {
      WeightFalls(cfg, low + 1, high);
      if low < cfg.maxAttempts {
        WeightPays(cfg, low);
        Multiple(cfg.processes, Weight(cfg, low + 1));
      }
    }
  }

  lemma Multiple(k: nat, w: nat)
    ensures k > 0 ==> k * w >= w
  {
    if k > 0 {
      assert k * w == (k - 1) * w + w;
    }
  }

  // ----- the load of a state -----

  /** An attempt above the row's count is no better than reading that count anew. */
  function Level(attempt: nat, count: nat): nat {
    Min(attempt, count + 1)
  }

  lemma LevelBelow(attempt: nat, count: nat)
    requires attempt <= count
    ensures Level(attempt, count) == attempt
  {
  }

  function OfReading(cfg: Config, count: nat): nat -> nat {
    (reading: nat) => Weight(cfg, Level(reading + 1, count))
  }

  function OfMark(cfg: Config, count: nat): Mark -> nat {
    (mark: Mark) => Weight(cfg, Level(mark.attempt, count))
  }

  function Idle(cfg: Config, s: Sys): nat {
    if |s.readings| + |s.marks| <= cfg.processes then cfg.processes - |s.readings| - |s.marks| else 0
  }

  ghost function Load(cfg: Config, s: Sys, count: nat): nat {
    Sum(s.readings, OfReading(cfg, count)) + Sum(s.marks, OfMark(cfg, count)) + Idle(cfg, s) * Weight(cfg, count + 1)
  }

  /** What all processes together can do with first attempts. */
  function Most(cfg: Config): nat {
    cfg.processes * Weight(cfg, 1)
  }

  /** The load falls as the count grows. */
  lemma LoadFalls(cfg: Config, s: Sys, low: nat, high: nat)
    requires low <= high
    ensures Load(cfg, s, high) <= Load(cfg, s, low)
  {
    hide Weight, Sum;
    forall reading: nat ensures OfReading(cfg, high)(reading) <= OfReading(cfg, low)(reading) + 0 {
      WeightFalls(cfg, Level(reading + 1, low), Level(reading + 1, high));
    }
    SumBound(s.readings, OfReading(cfg, high), OfReading(cfg, low), 0);
    forall mark: Mark ensures OfMark(cfg, high)(mark) <= OfMark(cfg, low)(mark) + 0 {
      WeightFalls(cfg, Level(mark.attempt, low), Level(mark.attempt, high));
    }
    SumBound(s.marks, OfMark(cfg, high), OfMark(cfg, low), 0);
    WeightFalls(cfg, low + 1, high + 1);
    Scaled(Idle(cfg, s), Weight(cfg, high + 1), Weight(cfg, low + 1));
  }

  lemma Scaled(k: nat, a: nat, b: nat)
    requires a <= b
    ensures k * a <= k * b
  {
  }

  /** No state has a larger load than one in which everybody is idle and nothing has been attempted. */
  lemma LoadAtMost(cfg: Config, s: Sys, count: nat)
    requires TokensFit(cfg, s)
    ensures Load(cfg, s, count) <= Most(cfg)
  {
    var d := Weight(cfg, 1);
    forall reading | reading in s.readings ensures OfReading(cfg, count)(reading) <= d {
      WeightFalls(cfg, 1, Level(reading + 1, count));
    }
    SumAtMost(s.readings, OfReading(cfg, count), d);
    forall mark | mark in s.marks ensures OfMark(cfg, count)(mark) <= d {
      WeightFalls(cfg, 1, Level(mark.attempt, count));
    }
    SumAtMost(s.marks, OfMark(cfg, count), d);
    WeightFalls(cfg, 1, count + 1);
    Scaled(Idle(cfg, s), Weight(cfg, count + 1), d);
    Distribute(|s.readings|, |s.marks|, Idle(cfg, s), d);
  }

  /** After a reset to `low`, an attempt is worth no more than before, or as much as reading the count anew. */
  lemma WorthAfterReset(cfg: Config, attempt: nat, low: nat, count: nat)
    requires low <= count
    ensures Weight(cfg, Level(attempt, low)) <= Weight(cfg, Level(attempt, count)) + Weight(cfg, low + 1)
  {
    hide Weight;
  }

  lemma ReadingsAfterReset(cfg: Config, s: Sys, low: nat, count: nat)
    requires low <= count
    ensures Sum(s.readings, OfReading(cfg, low)) <= Sum(s.readings, OfReading(cfg, count)) + |s.readings| * Weight(cfg, low + 1)
  {
    forall reading: nat ensures OfReading(cfg, low)(reading) <= OfReading(cfg, count)(reading) + Weight(cfg, low + 1) {
      WorthAfterReset(cfg, reading + 1, low, count);
    }
    SumBound(s.readings, OfReading(cfg, low), OfReading(cfg, count), Weight(cfg, low + 1));
  }

  lemma MarksAfterReset(cfg: Config, s: Sys, low: nat, count: nat)
    requires low <= count
    ensures Sum(s.marks, OfMark(cfg, low)) <= Sum(s.marks, OfMark(cfg, count)) + |s.marks| * Weight(cfg, low + 1)
  {
    forall mark: Mark ensures OfMark(cfg, low)(mark) <= OfMark(cfg, count)(mark) + Weight(cfg, low + 1) {
      WorthAfterReset(cfg, mark.attempt, low, count);
    }
    SumBound(s.marks, OfMark(cfg, low), OfMark(cfg, count), Weight(cfg, low + 1));
  }

  /** A mark that resets the count to its attempt costs more than everybody gains by it. */
  lemma ResetPays(cfg: Config, s: Sys, t: Sys, mark: Mark, count: nat)
    requires TokensFit(cfg, s) && mark in s.marks && mark.attempt <= count
    requires t.readings == s.readings && t.marks == s.marks - multiset{mark}
    ensures Load(cfg, t, mark.attempt) + 1 <= Load(cfg, s, count)
  {
    hide Weight, OfReading, OfMark, Sum, Level;
    var low := mark.attempt;
    ReadingsAfterReset(cfg, t, low, count);
    MarksAfterReset(cfg, t, low, count);
    SumWithout(s.marks, OfMark(cfg, count), mark);
    MarkWorth(cfg, mark, count);
    assert Level(low, count) == low by { LevelBelow(low, count); }
    OneLessSize(s.marks, mark);
    Distribute(|t.readings|, |t.marks|, Idle(cfg, t), Weight(cfg, low + 1));
    WeightPays(cfg, low);
  }

  lemma MarkWorth(cfg: Config, mark: Mark, count: nat)
    ensures OfMark(cfg, count)(mark) == Weight(cfg, Level(mark.attempt, count))
  {
  }

  lemma ReadingWorth(cfg: Config, reading: nat, count: nat)
    ensures OfReading(cfg, count)(reading) == Weight(cfg, Level(reading + 1, count))
  {
  }

  // ----- what recoveries do to the load -----

  lemma OneIdleMore(cfg: Config, s: Sys, t: Sys, count: nat)
    requires Idle(cfg, t) == Idle(cfg, s) + 1
    ensures Idle(cfg, t) * Weight(cfg, count + 1) == Idle(cfg, s) * Weight(cfg, count + 1) + Weight(cfg, count + 1)
  {
  }

  lemma ScanLoad(cfg: Config, s: Sys, t: Sys, count: nat)
    requires |s.readings| + |s.marks| < cfg.processes && t.readings == s.readings + multiset{count} && t.marks == s.marks
    ensures Load(cfg, t, count) <= Load(cfg, s, count)
  {
    hide Weight, OfReading, Sum;
    SumWith(s.readings, OfReading(cfg, count), count);
    ReadingWorth(cfg, count, count);
    assert |t.readings| == |s.readings| + 1;
    OneIdleMore(cfg, t, s, count);
  }

  lemma ReadingDone(cfg: Config, s: Sys, t: Sys, reading: nat, count: nat)
    requires TokensFit(cfg, s) && reading in s.readings && t.readings == s.readings - multiset{reading} && t.marks == s.marks
    ensures Load(cfg, t, count) <= Load(cfg, s, count)
  {
    hide Weight, OfReading, Sum;
    SumWithout(s.readings, OfReading(cfg, count), reading);
    ReadingWorth(cfg, reading, count);
    WeightFalls(cfg, Level(reading + 1, count), count + 1);
    OneLessSize(s.readings, reading);
    OneIdleMore(cfg, s, t, count);
  }

  lemma MarkDone(cfg: Config, s: Sys, t: Sys, mark: Mark, count: nat)
    requires TokensFit(cfg, s) && mark in s.marks && t.marks == s.marks - multiset{mark} && t.readings == s.readings
    ensures Load(cfg, t, count) <= Load(cfg, s, count)
  {
    hide Weight, OfMark, Sum;
    SumWithout(s.marks, OfMark(cfg, count), mark);
    MarkWorth(cfg, mark, count);
    WeightFalls(cfg, Level(mark.attempt, count), count + 1);
    OneLessSize(s.marks, mark);
    OneIdleMore(cfg, s, t, count);
  }

  lemma SentLoad(cfg: Config, s: Sys, t: Sys, reading: nat, mark: Mark, count: nat)
    requires reading in s.readings && mark.attempt == reading + 1
    requires t.readings == s.readings - multiset{reading} && t.marks == s.marks + multiset{mark}
    ensures Load(cfg, t, count) <= Load(cfg, s, count)
  {
    hide Weight, OfReading, OfMark, Sum;
    SumWithout(s.readings, OfReading(cfg, count), reading);
    SumWith(s.marks, OfMark(cfg, count), mark);
    ReadingWorth(cfg, reading, count);
    MarkWorth(cfg, mark, count);
    OneLessSize(s.readings, reading);
    assert |t.marks| == |s.marks| + 1;
  }

  lemma ConfirmedLoad(cfg: Config, s: Sys, t: Sys, mark: Mark, now: int, count: nat)
    requires mark in s.marks && t.readings == s.readings
    requires t.marks == s.marks - multiset{mark} + multiset{Confirmed(cfg, mark, now)}
    ensures Load(cfg, t, count) <= Load(cfg, s, count)
  {
    hide Weight, OfMark, Sum;
    SumWithout(s.marks, OfMark(cfg, count), mark);
    SumWith(s.marks - multiset{mark}, OfMark(cfg, count), Confirmed(cfg, mark, now));
    MarkWorth(cfg, mark, count);
    MarkWorth(cfg, Confirmed(cfg, mark, now), count);
    OneLessSize(s.marks, mark);
    assert |t.marks| == |s.marks|;
  }
}
