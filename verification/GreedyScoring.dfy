/** The evaluator's greedy scorer and its counters (eval/eval.go, `Evaluate`). */
module GreedyScoring {
  import opened Collections
  import opened EvalFindings
  import LocationMatching

  datatype CaseInput = CaseInput(error: string, expected: seq<ExpectedFinding>, findings: seq<Finding>, skippedReason: string)

  datatype CaseResult = CaseResult(
    error: string, truePositives: nat,
    falsePositiveFindings: seq<Finding>, missedFindings: seq<ExpectedFinding>)

  /** The integer numerators and denominators of the report's ratios. */
  datatype Report = Report(
    cases: nat, failed: nat, scored: nat,
    truePositive: nat, predicted: nat, expected: nat,
    located: nat, locationMatch: nat, correctCategory: nat,
    confirmedPredicted: nat, confirmedTruePositive: nat, overconfirmed: nat,
    noIssueCases: nat, falsePositiveCases: nat)

  /** A prediction counts for an expectation: same place, same category. */
  predicate Counts(expected: seq<ExpectedFinding>, findings: seq<Finding>, e: int, p: int) {
    && 0 <= e < |expected| && 0 <= p < |findings|
    && FindingsMatch(expected[e], findings[p]) && expected[e].category == findings[p].category
  }

  /** A one-to-one assignment of predictions (values) to expectations (keys) they count for. */
  ghost predicate IsScoring(expected: seq<ExpectedFinding>, findings: seq<Finding>, m: map<int, int>) {
    Injective(m) && forall e <- m :: Counts(expected, findings, e, m[e])
  }

  /** No countable pair has both sides unused. */
  ghost predicate Maximal(expected: seq<ExpectedFinding>, findings: seq<Finding>, m: map<int, int>) {
    forall e, p | Counts(expected, findings, e, p) :: e in m || p in m.Values
  }

  // ----- specification of the greedy choice -----

  /** The first expectation at or after `from`, not in `taken`, that prediction `p` counts for; -1 if there is none. */
  function FirstFree(expected: seq<ExpectedFinding>, findings: seq<Finding>, taken: set<int>, p: int, from: nat): (e: int)
    requires from <= |expected|
    ensures e == -1 || (from <= e < |expected| && e !in taken && Counts(expected, findings, e, p))
    ensures forall f | from <= f < (if e == -1 then |expected| else e) :: f in taken || !Counts(expected, findings, f, p)
    decreases |expected| - from
  {
    if from == |expected| then -1
    else if from !in taken && Counts(expected, findings, from, p) then from
    else FirstFree(expected, findings, taken, p, from + 1)
  }

  /** The pairs scored by the first `n` predictions, each taking its first free expectation. */
  function Greedy(expected: seq<ExpectedFinding>, findings: seq<Finding>, n: nat): (m: map<int, int>)
    requires n <= |findings|
  {
    if n == 0 then map[] else
      var m := Greedy(expected, findings, n - 1);
      var e := FirstFree(expected, findings, m.Keys, n - 1, 0);
      if e == -1 then m else m[e := n - 1]
  }

  lemma {:induction false} GreedyIsScoring(expected: seq<ExpectedFinding>, findings: seq<Finding>, n: nat)
    requires n <= |findings|
    ensures IsScoring(expected, findings, Greedy(expected, findings, n))
    ensures forall p <- Greedy(expected, findings, n).Values :: 0 <= p < n
  {
    if n > 0 {
      GreedyIsScoring(expected, findings, n - 1);
      var before, after := Greedy(expected, findings, n - 1), Greedy(expected, findings, n);
      forall p | p in after.Values ensures 0 <= p < n {
        var e := KeyOf(after, p);
        assert e in before ==> before[e] in before.Values;
      }
      assert forall e <- before :: before[e] in before.Values;
    }
  }

  lemma {:induction false} GreedyIsMaximal(expected: seq<ExpectedFinding>, findings: seq<Finding>, n: nat, e: int, p: int)
    requires n <= |findings| && p < n && Counts(expected, findings, e, p)
    ensures e in Greedy(expected, findings, n) || p in Greedy(expected, findings, n).Values
  {
    var before, after := Greedy(expected, findings, n - 1), Greedy(expected, findings, n);
    if p < n - 1 {
      GreedyIsMaximal(expected, findings, n - 1, e, p);
      if p in before.Values {
        var f := KeyOf(before, p);
        assert f in after && after[f] == p;
      }
    } else {
      var f := FirstFree(expected, findings, before.Keys, p, 0);
      assert f != -1 ==> after[f] == p;
    }
  }

  /** A maximal scoring is at least half of any scoring: each rival pair uses up a side of one of its pairs. */
  lemma MaximalIsHalf(expected: seq<ExpectedFinding>, findings: seq<Finding>, m: map<int, int>, rival: map<int, int>)
    requires IsScoring(expected, findings, m) && Maximal(expected, findings, m)
    requires IsScoring(expected, findings, rival)
    ensures |rival| <= 2 * |m|
  {
    hide Counts;
    var others := rival - m.Keys;
    KeysSplit(rival, m.Keys);
    InjectiveValues(m);
    InjectiveValues(others);
    forall p | p in others.Values ensures p in m.Values {
      var e := KeyOf(others, p);
      assert Counts(expected, findings, e, p);
    }
    SubsetSize(others.Values, m.Values);
  }

  /** Greedy scoring is never worse than half of the best one-to-one scoring. */
  lemma GreedyIsHalf(expected: seq<ExpectedFinding>, findings: seq<Finding>, rival: map<int, int>)
    requires IsScoring(expected, findings, rival)
    ensures |rival| <= 2 * |Greedy(expected, findings, |findings|)|
  {
    var m := Greedy(expected, findings, |findings|);
    GreedyIsScoring(expected, findings, |findings|);
    forall e, p | Counts(expected, findings, e, p) ensures e in m || p in m.Values {
      GreedyIsMaximal(expected, findings, |findings|, e, p);
    }
    MaximalIsHalf(expected, findings, m, rival);
  }

  // ----- the factor two is met, for every size -----

  /** The `i`th file of an evaluation case. */
  function FileName(i: nat): (name: string)
    ensures |name| == i
  {
    seq(i, _ => 'a')
  }

  /** `n` files with expectations at lines 1 and 5 each. */
  function TwoApart(n: nat): (expected: seq<ExpectedFinding>)
    ensures |expected| == 2 * n
  {
    seq(2 * n, j requires 0 <= j < 2 * n =>
      ExpectedFinding("bug", FileName(j / 2), if j % 2 == 0 then 1 else 5, "confirmed", []))
  }

  /** In each file, a prediction at line 3 and then one at line 1. */
  function Between(n: nat): (findings: seq<Finding>)
    ensures |findings| == 2 * n
  {
    seq(2 * n, j requires 0 <= j < 2 * n => Finding("bug", FileName(j / 2), if j % 2 == 0 then 3 else 1, "confirmed"))
  }

  /** The first prediction of a file counts for both of its expectations, the second one only for the first. */
  predicate WithinFile(n: nat, e: int, p: int) {
    0 <= e < 2 * n && 0 <= p < 2 * n && e / 2 == p / 2 && (e % 2 == 0 || p % 2 == 0)
  }

  lemma CountsWithinFile(n: nat, e: int, p: int)
    ensures Counts(TwoApart(n), Between(n), e, p) == WithinFile(n, e, p)
  {
    if 0 <= e < 2 * n && 0 <= p < 2 * n && e / 2 != p / 2 {
      assert |FileName(e / 2)| != |FileName(p / 2)|;
    }
  }

  /** The first prediction of file `k` takes the first expectation of that file, and nothing is left for the second one. */
  lemma FirstBlocksSecond(expected: seq<ExpectedFinding>, findings: seq<Finding>, n: nat, k: nat, taken: set<int>)
    requires k < n && |expected| == |findings| == 2 * n
    requires forall e, p :: Counts(expected, findings, e, p) == WithinFile(n, e, p)
    requires forall e <- taken :: e < 2 * k
    ensures FirstFree(expected, findings, taken, 2 * k, 0) == 2 * k
    ensures FirstFree(expected, findings, taken + {2 * k}, 2 * k + 1, 0) == -1
  {
    hide Counts;
    assert Counts(expected, findings, 2 * k, 2 * k);
    var e := FirstFree(expected, findings, taken, 2 * k, 0);
    assert e != -1 ==> WithinFile(n, e, 2 * k);
    var f := FirstFree(expected, findings, taken + {2 * k}, 2 * k + 1, 0);
    assert f != -1 ==> WithinFile(n, f, 2 * k + 1);
  }

  lemma GreedyTwice(expected: seq<ExpectedFinding>, findings: seq<Finding>, n: nat, m: map<int, int>)
    requires n + 2 <= |findings| && m == Greedy(expected, findings, n)
    requires FirstFree(expected, findings, m.Keys, n, 0) == n
    requires FirstFree(expected, findings, m.Keys + {n}, n + 1, 0) == -1
    ensures Greedy(expected, findings, n + 2) == m[n := n]
  {
    hide Counts, FirstFree;
    assert Greedy(expected, findings, n + 1) == m[n := n];
    assert m[n := n].Keys == m.Keys + {n};
  }

  lemma GreedyInFile(n: nat, k: nat, m: map<int, int>)
    requires k < n && m == Greedy(TwoApart(n), Between(n), 2 * k) && forall e <- m :: e < 2 * k
    ensures Greedy(TwoApart(n), Between(n), 2 * k + 2) == m[2 * k := 2 * k]
  {
    hide TwoApart, Between, Counts, FirstFree, WithinFile, Greedy;
    var expected, findings := TwoApart(n), Between(n);
    forall e, p ensures Counts(expected, findings, e, p) == WithinFile(n, e, p) {
      CountsWithinFile(n, e, p);
    }
    FirstBlocksSecond(expected, findings, n, k, m.Keys);
    GreedyTwice(expected, findings, 2 * k, m);
  }

  lemma {:induction false} GreedyTakesOnePerFile(n: nat, k: nat)
    requires k <= n
    ensures var m := Greedy(TwoApart(n), Between(n), 2 * k); |m| == k && forall e <- m :: e < 2 * k
  {
    hide TwoApart, Between, FirstFree;
    if k > 0 {
      hide Greedy;
      GreedyTakesOnePerFile(n, k - 1);
      GreedyInFile(n, k - 1, Greedy(TwoApart(n), Between(n), 2 * (k - 1)));
    }
  }

  /** The other index of the same file. */
  function Partner(j: int): int {
    if j % 2 == 0 then j + 1 else j - 1
  }

  /** Swapping the predictions of every file instead serves the first `n` expectations. */
  function Swapped(n: nat): map<int, int> {
    if n == 0 then map[] else Swapped(n - 1)[n - 1 := Partner(n - 1)]
  }

  lemma {:induction false} SwappedServesAll(n: nat)
    ensures |Swapped(n)| == n && forall e <- Swapped(n) :: 0 <= e < n && Swapped(n)[e] == Partner(e)
  {
    hide Partner;
    if n > 0 { SwappedServesAll(n - 1); }
  }

  /** For every `n` there is an evaluation case on which an assignment is exactly twice as good as the greedy one. */
  lemma HalfIsTight(n: nat) returns (expected: seq<ExpectedFinding>, findings: seq<Finding>, rival: map<int, int>)
    ensures IsScoring(expected, findings, rival)
    ensures |rival| == 2 * n && |Greedy(expected, findings, |findings|)| == n
  {
    hide TwoApart, Between, Swapped, Counts, Greedy;
    expected, findings, rival := TwoApart(n), Between(n), Swapped(2 * n);
    SwappedServesAll(2 * n);
    forall e | e in rival ensures Counts(expected, findings, e, rival[e]) {
      CountsWithinFile(n, e, rival[e]);
    }
    GreedyTakesOnePerFile(n, n);
  }

  // ----- what is left over -----

  /** The elements of `xs` whose index is not in `picked`, in order. */
  function Unpicked<T>(xs: seq<T>, picked: set<int>): seq<T> {
    if |xs| == 0 then []
    else Unpicked(xs[..|xs| - 1], picked) + (if |xs| - 1 in picked then [] else [xs[|xs| - 1]])
  }

  lemma {:induction false} UnpickedPrefix<T>(xs: seq<T>, picked: set<int>, more: set<int>)
    requires forall i | 0 <= i < |xs| :: i in picked <==> i in more
    ensures Unpicked(xs, picked) == Unpicked(xs, more)
  {
    if |xs| > 0 { UnpickedPrefix(xs[..|xs| - 1], picked, more); }
  }

  lemma {:induction false} UnpickedSize<T>(xs: seq<T>, picked: set<int>)
    requires forall i <- picked :: 0 <= i < |xs|
    ensures |Unpicked(xs, picked)| + |picked| == |xs|
  {
    if |xs| == 0 {
      if picked != {} { var i := Pick(picked); }
    } else {
      var last := |xs| - 1;
      UnpickedSize(xs[..last], picked - {last});
      UnpickedPrefix(xs[..last], picked, picked - {last});
    }
  }

  // ----- the scorer -----

  /** Per-case counters that only feed the report. */
  datatype Tally = Tally(locationMatch: nat, confirmedPredicted: nat, confirmedTruePositive: nat, overconfirmed: nat)

  /** The counters cannot leave [0, 1] when divided: every numerator is at most its denominator. */
  predicate Bounded(t: Tally, truePositives: nat, predicted: nat) {
    && truePositives <= t.locationMatch <= predicted
    && t.confirmedTruePositive + t.overconfirmed <= t.confirmedPredicted <= predicted
    && t.confirmedTruePositive + t.overconfirmed <= truePositives
  }

  /** The tally after one prediction: `match` is the selected expectation, if any. */
  function AddPrediction(t: Tally, predicted: Finding, match': Option<ExpectedFinding>): Tally {
    var confirmed := predicted.confidence == "confirmed";
    var t := if confirmed then t.(confirmedPredicted := t.confirmedPredicted + 1) else t;
    if match'.None? then t else
      var t := t.(locationMatch := t.locationMatch + 1);
      if match'.value.category != predicted.category || !confirmed then t
      else if match'.value.confidence == "confirmed" then t.(confirmedTruePositive := t.confirmedTruePositive + 1)
      else if match'.value.confidence == "needs_verification" then t.(overconfirmed := t.overconfirmed + 1)
      else t
  }

  lemma AddPredictionBounded(t: Tally, truePositives: nat, n: nat, predicted: Finding, match': Option<ExpectedFinding>)
    requires Bounded(t, truePositives, n)
    ensures var hit := match'.Some? && match'.value.category == predicted.category;
            Bounded(AddPrediction(t, predicted, match'), truePositives + (if hit then 1 else 0), n + 1)
  {
  }

  /** Some expectation still free at prediction `p`'s turn is at its place. */
  ghost predicate Located(expected: seq<ExpectedFinding>, findings: seq<Finding>, p: nat)
    requires p < |findings|
  {
    exists e :: 0 <= e < |expected| && e !in Greedy(expected, findings, p) && FindingsMatch(expected[e], findings[p])
  }

  ghost function LocatedSet(expected: seq<ExpectedFinding>, findings: seq<Finding>, n: nat): set<int>
    requires n <= |findings|
  {
    set p | 0 <= p < n && Located(expected, findings, p)
  }

  ghost function ConfirmedSet(findings: seq<Finding>, n: nat): set<int>
    requires n <= |findings|
  {
    set p | 0 <= p < n && findings[p].confidence == "confirmed"
  }

  /** The scored pairs of a confirmed prediction and an expectation labelled `grade`. */
  ghost function ConfirmedPairs(expected: seq<ExpectedFinding>, findings: seq<Finding>, n: nat, grade: string): set<int>
    requires n <= |findings|
  {
    PairsOf(expected, findings, Greedy(expected, findings, n), n, grade)
  }

  ghost function PairsOf(expected: seq<ExpectedFinding>, findings: seq<Finding>, m: map<int, int>, n: nat, grade: string): set<int>
    requires n <= |findings|
  {
    set e | e in m && 0 <= e < |expected| && 0 <= m[e] < n && findings[m[e]].confidence == "confirmed" &&
            expected[e].confidence == grade
  }

  lemma PairsStay(expected: seq<ExpectedFinding>, findings: seq<Finding>, m: map<int, int>, n: nat, grade: string)
    requires n < |findings| && forall f <- m :: m[f] < n
    ensures PairsOf(expected, findings, m, n + 1, grade) == PairsOf(expected, findings, m, n, grade)
  {
  }

  lemma PairsGrow(expected: seq<ExpectedFinding>, findings: seq<Finding>, m: map<int, int>, n: nat, grade: string, e: int)
    requires n < |findings| && (forall f <- m :: m[f] < n) && 0 <= e < |expected| && e !in m
    ensures |PairsOf(expected, findings, m[e := n], n + 1, grade)| == |PairsOf(expected, findings, m, n, grade)|
              + if findings[n].confidence == "confirmed" && expected[e].confidence == grade then 1 else 0
  {
    var before, after := PairsOf(expected, findings, m, n, grade), PairsOf(expected, findings, m[e := n], n + 1, grade);
    if findings[n].confidence == "confirmed" && expected[e].confidence == grade {
      assert after == before + {e};
    } else {
      assert after == before;
    }
  }

  /** The tally counts exactly these sets. */
  ghost predicate TallyCounts(expected: seq<ExpectedFinding>, findings: seq<Finding>, n: nat, t: Tally)
    requires n <= |findings|
  {
    && t.locationMatch == |LocatedSet(expected, findings, n)|
    && t.confirmedPredicted == |ConfirmedSet(findings, n)|
    && t.confirmedTruePositive == |ConfirmedPairs(expected, findings, n, "confirmed")|
    && t.overconfirmed == |ConfirmedPairs(expected, findings, n, "needs_verification")|
  }

  /** The pairs with a confirmed prediction grow by the new pair, if it is one of them. */
  lemma ConfirmedPairsStep(expected: seq<ExpectedFinding>, findings: seq<Finding>, n: nat, grade: string)
    requires n < |findings|
    ensures var e := FirstFree(expected, findings, Greedy(expected, findings, n).Keys, n, 0);
            |ConfirmedPairs(expected, findings, n + 1, grade)| == |ConfirmedPairs(expected, findings, n, grade)|
              + (if e != -1 && findings[n].confidence == "confirmed" && expected[e].confidence == grade then 1 else 0)
  {
    var m := Greedy(expected, findings, n);
    var e := FirstFree(expected, findings, m.Keys, n, 0);
    GreedyIsScoring(expected, findings, n);
    assert forall f <- m :: m[f] in m.Values;
    hide PairsOf, FirstFree, Counts;
    if e == -1 {
      PairsStay(expected, findings, m, n, grade);
    } else {
      PairsGrow(expected, findings, m, n, grade, e);
    }
  }

  lemma LocatedSetStep(expected: seq<ExpectedFinding>, findings: seq<Finding>, n: nat)
    requires n < |findings|
    ensures |LocatedSet(expected, findings, n + 1)| == |LocatedSet(expected, findings, n)|
              + if Located(expected, findings, n) then 1 else 0
  {
    assert LocatedSet(expected, findings, n + 1)
        == LocatedSet(expected, findings, n) + if Located(expected, findings, n) then {n} else {};
  }

  lemma ConfirmedSetStep(findings: seq<Finding>, n: nat)
    requires n < |findings|
    ensures |ConfirmedSet(findings, n + 1)| == |ConfirmedSet(findings, n)|
              + if findings[n].confidence == "confirmed" then 1 else 0
  {
    assert ConfirmedSet(findings, n + 1)
        == ConfirmedSet(findings, n) + if findings[n].confidence == "confirmed" then {n} else {};
  }

  /** What the inner loop selects at prediction `p`'s turn. */
  ghost predicate Selected(expected: seq<ExpectedFinding>, findings: seq<Finding>, p: nat, matchIndex: int)
    requires p < |findings|
  {
    var e := FirstFree(expected, findings, Greedy(expected, findings, p).Keys, p, 0);
    && -1 <= matchIndex < |expected|
    && (matchIndex == -1 <==> !Located(expected, findings, p))
    && (if e == -1 then matchIndex >= 0 ==> expected[matchIndex].category != findings[p].category
        else matchIndex == e)
  }

  function MatchAt(expected: seq<ExpectedFinding>, matchIndex: int): Option<ExpectedFinding>
    requires matchIndex < |expected|
  {
    if matchIndex < 0 then None else Some(expected[matchIndex])
  }

  lemma TallyStep(expected: seq<ExpectedFinding>, findings: seq<Finding>, n: nat, t: Tally, matchIndex: int)
    requires n < |findings| && TallyCounts(expected, findings, n, t) && Selected(expected, findings, n, matchIndex)
    ensures TallyCounts(expected, findings, n + 1, AddPrediction(t, findings[n], MatchAt(expected, matchIndex)))
  {
    ConfirmedPairsStep(expected, findings, n, "confirmed");
    ConfirmedPairsStep(expected, findings, n, "needs_verification");
    LocatedSetStep(expected, findings, n);
    ConfirmedSetStep(findings, n);
  }

  /** The inner loop: the first free same-category match, else the last free match of another category, else -1. */
  method SelectMatch(expected: seq<ExpectedFinding>, findings: seq<Finding>, matchedExpected: array<bool>, p: nat)
    returns (matchIndex: int)
    requires matchedExpected.Length == |expected| && p < |findings|
    requires forall i | 0 <= i < |expected| :: matchedExpected[i] <==> i in Greedy(expected, findings, p)
    ensures Selected(expected, findings, p, matchIndex)
    ensures matchIndex >= 0 ==> !matchedExpected[matchIndex] && FindingsMatch(expected[matchIndex], findings[p])
  {
    ghost var taken := Greedy(expected, findings, p).Keys;
    matchIndex := -1;
    var i := 0;
    while i < |expected|
      invariant 0 <= i <= |expected| && -1 <= matchIndex < i
      invariant matchIndex == -1 ==> forall j | 0 <= j < i :: matchedExpected[j] || !FindingsMatch(expected[j], findings[p])
      invariant matchIndex >= 0 ==>
                  && !matchedExpected[matchIndex] && FindingsMatch(expected[matchIndex], findings[p])
                  && expected[matchIndex].category != findings[p].category
      invariant FirstFree(expected, findings, taken, p, 0) == FirstFree(expected, findings, taken, p, i)
    {
      if !matchedExpected[i] && FindingsMatch(expected[i], findings[p]) {
        matchIndex := i;
        if expected[i].category == findings[p].category {
          break;
        }
      }
      i := i + 1;
    }
  }

  method ScoreCase(input: CaseInput) returns (result: CaseResult, tally: Tally)
    ensures var pairs := Greedy(input.expected, input.findings, |input.findings|);
            && result.truePositives == |pairs|
            && result.falsePositiveFindings == Unpicked(input.findings, pairs.Values)
            && result.missedFindings == Unpicked(input.expected, pairs.Keys)
    ensures result.error == input.error
    ensures result.truePositives + |result.falsePositiveFindings| == |input.findings|
    ensures result.truePositives + |result.missedFindings| == |input.expected|
    ensures forall rival :: IsScoring(input.expected, input.findings, rival) ==> |rival| <= 2 * result.truePositives
    ensures Bounded(tally, result.truePositives, |input.findings|)
    ensures TallyCounts(input.expected, input.findings, |input.findings|, tally)
  {
    var matchedExpected, truePositives, falsePositives, t := ScorePredictions(input.expected, input.findings);
    assert input.findings[..|input.findings|] == input.findings;
    var missed := Missed(input.expected, matchedExpected,
                         Greedy(input.expected, input.findings, |input.findings|).Keys);
    result := CaseResult(input.error, truePositives, falsePositives, missed);
    tally := t;
    CaseFacts(input.expected, input.findings);
  }

  /** The scorer's variables. */
  datatype Play = Play(marks: seq<bool>, truePositives: nat, falsePositives: seq<Finding>, tally: Tally)

  /** What the scorer's variables hold after `p` predictions. */
  ghost predicate Played(expected: seq<ExpectedFinding>, findings: seq<Finding>, p: nat, play: Play) {
    && p <= |findings| && |play.marks| == |expected|
    && (forall i | 0 <= i < |expected| :: play.marks[i] <==> i in Greedy(expected, findings, p))
    && play.truePositives == |Greedy(expected, findings, p)|
    && play.falsePositives == Unpicked(findings[..p], Greedy(expected, findings, p).Values)
    && TallyCounts(expected, findings, p, play.tally)
    && Bounded(play.tally, play.truePositives, p)
  }

  /** How the loop updates them with prediction `p`. */
  ghost function Advance(expected: seq<ExpectedFinding>, predicted: Finding, play: Play, matchIndex: int): Play
    requires |play.marks| == |expected| && -1 <= matchIndex < |expected|
  {
    var tally := AddPrediction(play.tally, predicted, MatchAt(expected, matchIndex));
    if matchIndex < 0 || expected[matchIndex].category != predicted.category then
      play.(falsePositives := play.falsePositives + [predicted], tally := tally)
    else
      play.(marks := play.marks[matchIndex := true], truePositives := play.truePositives + 1, tally := tally)
  }

  lemma Turn(expected: seq<ExpectedFinding>, findings: seq<Finding>, p: nat, play: Play, matchIndex: int)
    requires p < |findings| && Played(expected, findings, p, play) && Selected(expected, findings, p, matchIndex)
    ensures Played(expected, findings, p + 1, Advance(expected, findings[p], play, matchIndex))
  {
    hide TallyCounts, Bounded, AddPrediction, Unpicked;
    LeftOverStep(expected, findings, p);
    TallyStep(expected, findings, p, play.tally, matchIndex);
    AddPredictionBounded(play.tally, play.truePositives, p, findings[p], MatchAt(expected, matchIndex));
  }

  /** The loop over the predictions of a case. */
  method ScorePredictions(expected: seq<ExpectedFinding>, findings: seq<Finding>)
    returns (matchedExpected: array<bool>, truePositives: nat, falsePositives: seq<Finding>, tally: Tally)
    ensures Played(expected, findings, |findings|, Play(matchedExpected[..], truePositives, falsePositives, tally))
  {
    hide Greedy, TallyCounts, Unpicked, Bounded;
    matchedExpected := new bool[|expected|](_ => false);
    truePositives := 0;
    falsePositives := [];
    tally := Tally(0, 0, 0, 0);
    ghost var play := Play(matchedExpected[..], 0, [], tally);
    NothingPlayed(expected, findings, play);
    var p := 0;
    while p < |findings|
      invariant fresh(matchedExpected) && 0 <= p <= |findings|
      invariant play == Play(matchedExpected[..], truePositives, falsePositives, tally)
      invariant true == Played(expected, findings, p, play)
    {
      var predicted := findings[p];
      var matchIndex := SelectMatch(expected, findings, matchedExpected, p);
      Turn(expected, findings, p, play, matchIndex);
      play := Advance(expected, predicted, play, matchIndex);
      tally := AddPrediction(tally, predicted, MatchAt(expected, matchIndex));
      if matchIndex < 0 || expected[matchIndex].category != predicted.category {
        falsePositives := falsePositives + [predicted];
      } else {
        matchedExpected[matchIndex] := true;
        truePositives := truePositives + 1;
      }
      p := p + 1;
    }
  }

  lemma NothingPlayed(expected: seq<ExpectedFinding>, findings: seq<Finding>, play: Play)
    requires |play.marks| == |expected| && forall i | 0 <= i < |expected| :: !play.marks[i]
    requires play.truePositives == 0 && play.falsePositives == [] && play.tally == Tally(0, 0, 0, 0)
    ensures Played(expected, findings, 0, play)
  {
    assert LocatedSet(expected, findings, 0) == {} && ConfirmedSet(findings, 0) == {};
    assert forall grade :: ConfirmedPairs(expected, findings, 0, grade) == {};
  }

  /** How the leftover predictions change when prediction `p` is scored. */
  lemma LeftOverStep(expected: seq<ExpectedFinding>, findings: seq<Finding>, p: nat)
    requires p < |findings|
    ensures var m := Greedy(expected, findings, p);
            var e := FirstFree(expected, findings, m.Keys, p, 0);
            && Unpicked(findings[..p + 1], Greedy(expected, findings, p + 1).Values)
               == Unpicked(findings[..p], m.Values) + (if e == -1 then [findings[p]] else [])
  {
    GreedyIsScoring(expected, findings, p);
    var m, after := Greedy(expected, findings, p), Greedy(expected, findings, p + 1);
    var e := FirstFree(expected, findings, m.Keys, p, 0);
    assert findings[..p + 1][..p] == findings[..p];
    forall i | 0 <= i < p ensures i in m.Values <==> i in after.Values {
      if i in m.Values { var f := KeyOf(m, i); assert f in after && after[f] == i; }
      if i in after.Values { var f := KeyOf(after, i); assert f in m && m[f] == i; }
    }
    assert e != -1 ==> after[e] == p;
    UnpickedPrefix(findings[..p], m.Values, after.Values);
  }

  lemma CaseFacts(expected: seq<ExpectedFinding>, findings: seq<Finding>)
    ensures var m := Greedy(expected, findings, |findings|);
            && |m| + |Unpicked(findings, m.Values)| == |findings|
            && |m| + |Unpicked(expected, m.Keys)| == |expected|
            && forall rival :: IsScoring(expected, findings, rival) ==> |rival| <= 2 * |m|
  {
    var m := Greedy(expected, findings, |findings|);
    GreedyIsScoring(expected, findings, |findings|);
    InjectiveValues(m);
    UnpickedSize(findings, m.Values);
    UnpickedSize(expected, m.Keys);
    forall rival | IsScoring(expected, findings, rival) ensures |rival| <= 2 * |m| {
      GreedyIsHalf(expected, findings, rival);
    }
  }

  method Missed(expected: seq<ExpectedFinding>, matchedExpected: array<bool>, ghost taken: set<int>)
    returns (missed: seq<ExpectedFinding>)
    requires matchedExpected.Length == |expected|
    requires forall i | 0 <= i < |expected| :: matchedExpected[i] <==> i in taken
    ensures missed == Unpicked(expected, taken)
  {
    missed := [];
    for i := 0 to |expected|
      invariant missed == Unpicked(expected[..i], taken)
    {
      assert expected[..i + 1][..i] == expected[..i];
      if !matchedExpected[i] {
        missed := missed + [expected[i]];
      }
    }
    assert expected[..|expected|] == expected;
  }

  // ----- the report -----

  predicate Scored(input: CaseInput) { input.error == "" }

  function SumScored(inputs: seq<CaseInput>, size: CaseInput -> nat): nat {
    if |inputs| == 0 then 0
    else SumScored(inputs[..|inputs| - 1], size) +
         (if Scored(inputs[|inputs| - 1]) then size(inputs[|inputs| - 1]) else 0)
  }

  function GreedySize(input: CaseInput): nat { |Greedy(input.expected, input.findings, |input.findings|)| }

  /** Every ratio the report prints lies between 0 and 1 (0/0 is printed as 0). */
  predicate RatiosInUnitInterval(r: Report) {
    && r.truePositive <= r.predicted && r.truePositive <= r.expected
    && r.located <= r.predicted && r.located <= r.expected
    && r.correctCategory <= r.locationMatch <= r.predicted
    && r.confirmedTruePositive + r.overconfirmed <= r.confirmedPredicted <= r.predicted
    && r.falsePositiveCases <= r.noIssueCases
  }

  function FindingCount(input: CaseInput): nat { |input.findings| }

  function ExpectedCount(input: CaseInput): nat { |input.expected| }

  /** Predictions at a place that was expected and free when it was their turn. */
  ghost function LocatedCount(input: CaseInput): nat { |LocatedSet(input.expected, input.findings, |input.findings|)| }

  ghost function ConfirmedCount(input: CaseInput): nat { |ConfirmedSet(input.findings, |input.findings|)| }

  /** Confirmed predictions paired with an expected finding of that grade. */
  ghost function PairedAs(input: CaseInput, grade: string): nat {
    |ConfirmedPairs(input.expected, input.findings, |input.findings|, grade)|
  }

  ghost function RightlyConfirmed(input: CaseInput): nat { PairedAs(input, "confirmed") }

  ghost function Overconfirmed(input: CaseInput): nat { PairedAs(input, "needs_verification") }

  predicate Failed(input: CaseInput) { input.error != "" }

  /** A case in which nothing is to be found, and in which something was. */
  predicate Negative(input: CaseInput) { Scored(input) && input.expected == [] && input.skippedReason == "" }

  predicate FalseAlarm(input: CaseInput) { Negative(input) && input.findings != [] }

  ghost function HowMany(inputs: seq<CaseInput>, p: CaseInput -> bool): nat { |Filter(inputs, p)| }

  lemma HowManyStep(inputs: seq<CaseInput>, n: nat, p: CaseInput -> bool)
    requires n < |inputs|
    ensures HowMany(inputs[..n + 1], p) == HowMany(inputs[..n], p) + if p(inputs[n]) then 1 else 0
  {
    FilterAppend(inputs[..n], inputs[n], p);
    assert inputs[..n + 1] == inputs[..n] + [inputs[n]];
  }

  /** What a scored case reports about its own predictions and expectations. */
  predicate CaseOk(input: CaseInput, result: CaseResult) {
    var pairs := Greedy(input.expected, input.findings, |input.findings|);
    && result.truePositives == |pairs|
    && result.falsePositiveFindings == Unpicked(input.findings, pairs.Values)
    && result.missedFindings == Unpicked(input.expected, pairs.Keys)
    && result.truePositives + |result.falsePositiveFindings| == |input.findings|
    && result.truePositives + |result.missedFindings| == |input.expected|
  }

  /** The report after one more scored case. */
  function AddCase(r: Report, input: CaseInput, located: nat, truePositives: nat, tally: Tally): Report {
    var negative := |input.expected| == 0 && input.skippedReason == "";
    r.(scored := r.scored + 1,
       truePositive := r.truePositive + truePositives,
       correctCategory := r.correctCategory + truePositives,
       predicted := r.predicted + |input.findings|,
       expected := r.expected + |input.expected|,
       located := r.located + located,
       locationMatch := r.locationMatch + tally.locationMatch,
       confirmedPredicted := r.confirmedPredicted + tally.confirmedPredicted,
       confirmedTruePositive := r.confirmedTruePositive + tally.confirmedTruePositive,
       overconfirmed := r.overconfirmed + tally.overconfirmed,
       noIssueCases := r.noIssueCases + if negative then 1 else 0,
       falsePositiveCases := r.falsePositiveCases + if negative && |input.findings| > 0 then 1 else 0)
  }

  /** The size of a largest location matching, looked for from `n` downwards. */
  ghost function Largest(expected: seq<ExpectedFinding>, findings: seq<Finding>, n: nat): nat {
    if n == 0 || exists m :: LocationMatching.IsMatching(expected, findings, m) && |m| == n then n
    else Largest(expected, findings, n - 1)
  }

  /** How many predictions of a case can be placed at once. */
  ghost function LocatedSize(input: CaseInput): nat {
    Largest(input.expected, input.findings, |input.expected|)
  }

  ghost predicate IsLargest(expected: seq<ExpectedFinding>, findings: seq<Finding>, size: nat) {
    && (exists m :: LocationMatching.IsMatching(expected, findings, m) && |m| == size)
    && (forall m :: LocationMatching.IsMatching(expected, findings, m) ==> |m| <= size)
  }

  lemma {:induction false} LargestFound(expected: seq<ExpectedFinding>, findings: seq<Finding>, n: nat, size: nat)
    requires IsLargest(expected, findings, size) && size <= n
    ensures Largest(expected, findings, n) == size
  {
    if n > size { LargestFound(expected, findings, n - 1, size); }
  }

  ghost predicate Totals(r: Report, inputs: seq<CaseInput>) {
    && r.truePositive == r.correctCategory == SumScored(inputs, GreedySize)
    && r.predicted == SumScored(inputs, FindingCount)
    && r.expected == SumScored(inputs, ExpectedCount)
    && r.located == SumScored(inputs, LocatedSize)
    && Tallies(r, inputs) && Cases(r, inputs)
    && RatiosInUnitInterval(r)
  }

  /** The counters of the scored cases' predictions. */
  ghost predicate Tallies(r: Report, inputs: seq<CaseInput>) {
    && r.locationMatch == SumScored(inputs, LocatedCount)
    && r.confirmedPredicted == SumScored(inputs, ConfirmedCount)
    && r.confirmedTruePositive == SumScored(inputs, RightlyConfirmed)
    && r.overconfirmed == SumScored(inputs, Overconfirmed)
  }

  /** The counters of the cases themselves. */
  ghost predicate Cases(r: Report, inputs: seq<CaseInput>) {
    && r.scored == HowMany(inputs, Scored) && r.failed == HowMany(inputs, Failed)
    && r.noIssueCases == HowMany(inputs, Negative) && r.falsePositiveCases == HowMany(inputs, FalseAlarm)
  }

  lemma AddCaseTallies(r: Report, inputs: seq<CaseInput>, n: nat, located: nat, truePositives: nat, tally: Tally)
    requires n < |inputs| && Scored(inputs[n]) && Tallies(r, inputs[..n])
    requires TallyCounts(inputs[n].expected, inputs[n].findings, |inputs[n].findings|, tally)
    ensures true == Tallies(AddCase(r, inputs[n], located, truePositives, tally), inputs[..n + 1])
  {
    hide SumScored;
    SumStep(inputs, n, LocatedCount);
    SumStep(inputs, n, ConfirmedCount);
    SumStep(inputs, n, RightlyConfirmed);
    SumStep(inputs, n, Overconfirmed);
  }

  lemma AddCaseCases(r: Report, inputs: seq<CaseInput>, n: nat, located: nat, truePositives: nat, tally: Tally)
    requires n < |inputs| && Scored(inputs[n]) && Cases(r, inputs[..n])
    ensures true == Cases(AddCase(r, inputs[n], located, truePositives, tally), inputs[..n + 1])
  {
    hide HowMany;
    HowManyStep(inputs, n, Scored);
    HowManyStep(inputs, n, Failed);
    HowManyStep(inputs, n, Negative);
    HowManyStep(inputs, n, FalseAlarm);
  }

  lemma FailedCaseCounts(r: Report, inputs: seq<CaseInput>, n: nat)
    requires n < |inputs| && !Scored(inputs[n]) && Cases(r, inputs[..n]) && Tallies(r, inputs[..n])
    ensures true == Cases(r.(failed := r.failed + 1), inputs[..n + 1])
    ensures true == Tallies(r.(failed := r.failed + 1), inputs[..n + 1])
  {
    hide HowMany, SumScored;
    HowManyStep(inputs, n, Scored);
    HowManyStep(inputs, n, Failed);
    HowManyStep(inputs, n, Negative);
    HowManyStep(inputs, n, FalseAlarm);
    SumStep(inputs, n, LocatedCount);
    SumStep(inputs, n, ConfirmedCount);
    SumStep(inputs, n, RightlyConfirmed);
    SumStep(inputs, n, Overconfirmed);
  }

  lemma SumStep(inputs: seq<CaseInput>, n: nat, size: CaseInput -> nat)
    requires n < |inputs|
    ensures SumScored(inputs[..n + 1], size) == SumScored(inputs[..n], size) + if Scored(inputs[n]) then size(inputs[n]) else 0
  {
    assert inputs[..n + 1][..n] == inputs[..n];
  }

  lemma AddCaseTotals(r: Report, inputs: seq<CaseInput>, n: nat, located: nat, truePositives: nat, tally: Tally)
    requires n < |inputs| && Scored(inputs[n]) && Totals(r, inputs[..n])
    requires truePositives == GreedySize(inputs[n]) <= |inputs[n].expected|
    requires located == LocatedSize(inputs[n]) <= |inputs[n].findings| && located <= |inputs[n].expected|
    requires Bounded(tally, truePositives, |inputs[n].findings|)
    requires TallyCounts(inputs[n].expected, inputs[n].findings, |inputs[n].findings|, tally)
    ensures Totals(AddCase(r, inputs[n], located, truePositives, tally), inputs[..n + 1])
  {
    hide SumScored, GreedySize, LocatedSize, Tallies, Cases, TallyCounts;
    AddCaseTallies(r, inputs, n, located, truePositives, tally);
    AddCaseCases(r, inputs, n, located, truePositives, tally);
    SumStep(inputs, n, GreedySize);
    SumStep(inputs, n, FindingCount);
    SumStep(inputs, n, ExpectedCount);
    SumStep(inputs, n, LocatedSize);
  }

  lemma FailedCaseTotals(r: Report, inputs: seq<CaseInput>, n: nat)
    requires n < |inputs| && !Scored(inputs[n]) && Totals(r, inputs[..n])
    ensures Totals(r.(failed := r.failed + 1), inputs[..n + 1])
  {
    hide SumScored, GreedySize, LocatedSize, Tallies, Cases;
    FailedCaseCounts(r, inputs, n);
    SumStep(inputs, n, GreedySize);
    SumStep(inputs, n, FindingCount);
    SumStep(inputs, n, ExpectedCount);
    SumStep(inputs, n, LocatedSize);
  }

  lemma NothingTotalled(cases: nat)
    ensures true == Totals(Report(cases, 0, 0, 0, 0, 0, 0, 0, 0, 0, 0, 0, 0, 0), [])
  {
  }

  /** The report counts the scored cases' own sizes; `located` is the sum of the largest location matchings. */
  method Evaluate(inputs: seq<CaseInput>) returns (report: Report, results: seq<CaseResult>)
    ensures |results| == report.cases == |inputs| == report.failed + report.scored
    ensures report.truePositive == report.correctCategory == SumScored(inputs, GreedySize)
    ensures report.predicted == SumScored(inputs, FindingCount)
    ensures report.expected == SumScored(inputs, ExpectedCount)
    ensures report.located == SumScored(inputs, LocatedSize)
    ensures report.locationMatch == SumScored(inputs, LocatedCount)
    ensures report.confirmedPredicted == SumScored(inputs, ConfirmedCount)
    ensures report.confirmedTruePositive == SumScored(inputs, RightlyConfirmed)
    ensures report.overconfirmed == SumScored(inputs, Overconfirmed)
    ensures report.scored == HowMany(inputs, Scored) && report.failed == HowMany(inputs, Failed)
    ensures report.noIssueCases == HowMany(inputs, Negative) && report.falsePositiveCases == HowMany(inputs, FalseAlarm)
    ensures RatiosInUnitInterval(report)
    ensures forall i | 0 <= i < |inputs| :: results[i].error == inputs[i].error
    ensures forall i | 0 <= i < |inputs| && Scored(inputs[i]) :: true == CaseOk(inputs[i], results[i])
  {
    hide SumScored, HowMany, CaseOk;
    report := Report(|inputs|, 0, 0, 0, 0, 0, 0, 0, 0, 0, 0, 0, 0, 0);
    results := [];
    NothingTotalled(|inputs|);
    assert inputs[..0] == [];
    for n := 0 to |inputs|
      invariant |results| == n == report.failed + report.scored && report.cases == |inputs|
      invariant true == Totals(report, inputs[..n])
      invariant forall i | 0 <= i < n :: results[i].error == inputs[i].error
      invariant forall i | 0 <= i < n && Scored(inputs[i]) :: true == CaseOk(inputs[i], results[i])
    {
      hide Totals;
      var result;
      report, result := EvaluateCase(report, inputs[n], inputs, n);
      results := results + [result];
    }
    assert inputs[..|inputs|] == inputs;
  }

  method EvaluateCase(report: Report, input: CaseInput, ghost inputs: seq<CaseInput>, ghost n: nat)
    returns (after: Report, result: CaseResult)
    requires n < |inputs| && input == inputs[n] && Totals(report, inputs[..n])
    ensures true == Totals(after, inputs[..n + 1])
    ensures after.cases == report.cases && after.failed + after.scored == report.failed + report.scored + 1
    ensures result.error == input.error && (Scored(input) ==> CaseOk(input, result))
  {
    hide Totals, SumScored, LocatedSize;
    if input.error != "" {
      FailedCaseTotals(report, inputs, n);
      return report.(failed := report.failed + 1), CaseResult(input.error, 0, [], []);
    }
    var located := LocationMatching.CountLocationMatches(input.expected, input.findings);
    LocatedBound(input.expected, input.findings, located);
    LocatedIs(input, located);
    var tally;
    result, tally := ScoreCase(input);
    AddCaseTotals(report, inputs, n, located, result.truePositives, tally);
    after := AddCase(report, input, located, result.truePositives, tally);
  }

  lemma LocatedIs(input: CaseInput, located: nat)
    requires IsLargest(input.expected, input.findings, located) && located <= |input.expected|
    ensures LocatedSize(input) == located
  {
    LargestFound(input.expected, input.findings, |input.expected|, located);
  }

  /** A location matching is no larger than either side. */
  lemma LocatedBound(expected: seq<ExpectedFinding>, findings: seq<Finding>, located: nat)
    requires exists m :: LocationMatching.IsMatching(expected, findings, m) && |m| == located
    ensures located <= |expected| && located <= |findings|
  {
    var m :| LocationMatching.IsMatching(expected, findings, m) && |m| == located;
    InjectiveValues(m);
    forall p | p in m.Values ensures 0 <= p < |findings| {
      var e := KeyOf(m, p);
    }
    UnpickedSize(findings, m.Values);
    UnpickedSize(expected, m.Keys);
  }
}
