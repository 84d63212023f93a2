/** The evaluator's maximum one-to-one location matching: Kuhn's augmenting paths (eval/eval.go). */
module LocationMatching {
  import opened Collections
  import opened EvalFindings

  predicate Edge(expected: seq<ExpectedFinding>, actual: seq<Finding>, e: int, p: int) {
    0 <= e < |expected| && 0 <= p < |actual| && PrimaryLocationMatches(expected[e], actual[p])
  }

  /** A one-to-one assignment of predictions (values) to expectations (keys) at matching locations. */
  ghost predicate IsMatching(expected: seq<ExpectedFinding>, actual: seq<Finding>, m: map<int, int>) {
    Injective(m) && forall e <- m :: Edge(expected, actual, e, m[e])
  }

  /** `matched[e]` is the prediction assigned to expectation `e`, or -1: an injective assignment along edges. */
  ghost predicate Assignment(expected: seq<ExpectedFinding>, actual: seq<Finding>, matched: seq<int>) {
    Except(expected, actual, matched, -1)
  }

  /** An assignment in which the entry at `hole` may repeat a prediction used elsewhere. */
  ghost predicate Except(expected: seq<ExpectedFinding>, actual: seq<Finding>, matched: seq<int>, hole: int) {
    && |matched| == |expected|
    && (forall e | 0 <= e < |matched| :: matched[e] == -1 || Edge(expected, actual, e, matched[e]))
    && (forall e, f | 0 <= e < f < |matched| && e != hole && f != hole && matched[e] >= 0 :: matched[e] != matched[f])
  }

  /** The predictions assigned to expectations other than `hole`. */
  ghost function Image(matched: seq<int>, hole: int): set<int> {
    set e | 0 <= e < |matched| && e != hole && matched[e] >= 0 :: matched[e]
  }

  /** All expectations that prediction `p` could take are in `s`. */
  ghost predicate Neighbours(expected: seq<ExpectedFinding>, actual: seq<Finding>, p: int, s: set<int>) {
    forall e :: Edge(expected, actual, e, p) ==> e in s
  }

  /** A dead end: every expectation in `s` is taken, by a prediction that has nowhere to go outside `s`. */
  ghost predicate Closed(expected: seq<ExpectedFinding>, actual: seq<Finding>, matched: seq<int>, s: set<int>)
    requires |matched| == |expected|
  {
    forall e <- s :: 0 <= e < |matched| && matched[e] >= 0 && Neighbours(expected, actual, matched[e], s)
  }

  ghost function Seen(seen: seq<bool>): set<int> {
    set e | 0 <= e < |seen| && seen[e]
  }

  ghost function Unseen(seen: seq<bool>): set<int> {
    set e | 0 <= e < |seen| && !seen[e]
  }

  /** Setting a free expectation to a new prediction. */
  lemma TakeFree(expected: seq<ExpectedFinding>, actual: seq<Finding>, before: seq<int>, hole: int, e: int, p: int)
    requires Assignment(expected, actual, before)
    requires 0 <= e < |before| && before[e] == -1 && Edge(expected, actual, e, p)
    requires hole == -1 || (0 <= hole < |before| && before[hole] == p)
    requires p !in Image(before, hole)
    ensures Except(expected, actual, before[e := p], hole)
    ensures Image(before[e := p], hole) == Image(before, hole) + {p}
  {
    var after := before[e := p];
    forall f, g | 0 <= f < g < |after| && f != hole && g != hole && after[f] >= 0
      ensures after[f] != after[g]
    {
      if f == e && before[g] >= 0 { assert before[g] in Image(before, hole); }
      if g == e { assert before[f] in Image(before, hole); }
    }
    assert p in Image(after, hole) by { assert after[e] == p; }
    forall x | x in Image(before, hole) ensures x in Image(after, hole) {
      var f :| 0 <= f < |before| && f != hole && before[f] >= 0 && before[f] == x;
      assert after[f] == x;
    }
  }

  lemma Holder(matched: seq<int>, hole: int, p: int) returns (e: int)
    requires p in Image(matched, hole)
    ensures 0 <= e < |matched| && e != hole && matched[e] == p >= 0
  {
    e :| 0 <= e < |matched| && e != hole && matched[e] >= 0 && matched[e] == p;
  }

  /** Handing expectation `e` over from the prediction that found another place to `p`. */
  lemma TakeOver(expected: seq<ExpectedFinding>, actual: seq<Finding>, before: seq<int>, moved: seq<int>,
                 hole: int, e: int, p: int)
    requires Assignment(expected, actual, before)
    requires 0 <= e < |before| && e != hole && before[e] >= 0 && Edge(expected, actual, e, p)
    requires hole == -1 || (0 <= hole < |before| && before[hole] == p)
    requires p !in Image(before, hole)
    requires Except(expected, actual, moved, e) && moved[e] == before[e]
    requires hole >= 0 ==> moved[hole] == p
    requires Image(moved, e) == Image(before, e) + {before[e]}
    ensures Except(expected, actual, moved[e := p], hole)
    ensures Image(moved[e := p], hole) == Image(before, hole) + {p}
  {
    var after := moved[e := p];
    NotTakenElsewhere(expected, actual, before, moved, hole, e, p);
    assert Except(expected, actual, after, hole);
    assert after[e] in Image(after, hole);
    forall x | x in Image(before, hole) ensures x in Image(after, hole) {
      var g := Holder(before, hole, x);
      assert x in Image(moved, e) by { if g != e { assert before[g] in Image(before, e); } }
      var f := Holder(moved, e, x);
      assert after[f] in Image(after, hole);
    }
    forall x | x in Image(after, hole) && x != p ensures x in Image(before, hole) {
      var f := Holder(after, hole, x);
      assert moved[f] in Image(moved, e);
      assert before[e] in Image(before, hole);
      if x != before[e] {
        var g := Holder(before, e, x);
        assert before[g] in Image(before, hole);
      }
    }
  }

  lemma NotTakenElsewhere(expected: seq<ExpectedFinding>, actual: seq<Finding>, before: seq<int>, moved: seq<int>,
                          hole: int, e: int, p: int)
    requires Assignment(expected, actual, before)
    requires 0 <= e < |before| && e != hole && before[e] >= 0 && 0 <= p
    requires hole == -1 || (0 <= hole < |before| && before[hole] == p)
    requires p !in Image(before, hole)
    requires Except(expected, actual, moved, e)
    requires hole >= 0 ==> moved[hole] == p
    requires Image(moved, e) == Image(before, e) + {before[e]}
    ensures forall f | 0 <= f < |moved| && f != hole && f != e :: moved[f] != p
  {
    assert before[e] in Image(before, hole);
    assert hole == -1 ==> Image(before, e) <= Image(before, hole);
    forall f | 0 <= f < |moved| && f != hole && f != e ensures moved[f] != p {
      assert moved[f] >= 0 ==> moved[f] in Image(moved, e);
    }
  }

  /** Prediction `p` may be moved: it holds nothing but possibly the already visited expectation `hole`. */
  ghost predicate Movable(expected: seq<ExpectedFinding>, actual: seq<Finding>, matched: seq<int>, seen: seq<bool>,
                          p: int, hole: int)
  {
    && Assignment(expected, actual, matched)
    && |seen| == |expected| && 0 <= p < |actual|
    && (hole == -1 || (0 <= hole < |expected| && seen[hole] && matched[hole] == p))
    && p !in Image(matched, hole)
  }

  /** The result of a successful search: one more prediction is placed; visited and dead-end entries are untouched. */
  ghost predicate Augmented(expected: seq<ExpectedFinding>, actual: seq<Finding>, before: seq<int>, after: seq<int>,
                            seen: seq<bool>, p: int, hole: int, closed: set<int>)
  {
    && |before| == |seen| == |expected|
    && Except(expected, actual, after, hole)
    && Image(after, hole) == Image(before, hole) + {p}
    && (forall e | 0 <= e < |seen| && seen[e] :: after[e] == before[e])
    && (forall e <- closed :: 0 <= e < |before| && after[e] == before[e])
    && !Neighbours(expected, actual, p, closed)
  }

  /** What a search that has failed so far knows: what it visited leads only to what it visited. */
  ghost predicate Explored(expected: seq<ExpectedFinding>, actual: seq<Finding>, matched: seq<int>,
                           old': seq<bool>, seen: seq<bool>, p: int, upTo: int)
  {
    && |matched| == |old'| == |seen| == |expected|
    && (forall f | 0 <= f < |seen| && old'[f] :: seen[f])
    && (forall f | 0 <= f < upTo && Edge(expected, actual, f, p) :: seen[f])
    && (forall f | 0 <= f < |seen| && seen[f] && !old'[f] ::
          matched[f] >= 0 && Neighbours(expected, actual, matched[f], Seen(seen)))
  }

  lemma UnseenShrinks(old': seq<bool>, seen: seq<bool>, e: int)
    requires |old'| == |seen| && 0 <= e < |seen| && !seen[e]
    requires forall f | 0 <= f < |seen| && old'[f] :: seen[f]
    ensures |Unseen(seen[e := true])| < |Unseen(old')|
  {
    assert Unseen(seen[e := true]) <= Unseen(old') - {e};
    SubsetSize(Unseen(seen[e := true]), Unseen(old') - {e});
  }

  lemma VisitHolder(expected: seq<ExpectedFinding>, actual: seq<Finding>, matched: seq<int>, seen: seq<bool>,
                    p: int, hole: int, e: int)
    requires Movable(expected, actual, matched, seen, p, hole)
    requires 0 <= e < |expected| && !seen[e] && matched[e] >= 0
    ensures Movable(expected, actual, matched, seen[e := true], matched[e], e)
  {
  }

  /** A visited expectation whose holder could not move is explored. */
  lemma Stuck(expected: seq<ExpectedFinding>, actual: seq<Finding>, matched: seq<int>,
              old': seq<bool>, seen: seq<bool>, later: seq<bool>, p: int, e: int)
    requires Explored(expected, actual, matched, old', seen, p, e)
    requires 0 <= e < |expected| && matched[e] >= 0
    requires Explored(expected, actual, matched, seen[e := true], later, matched[e], |expected|)
    ensures Explored(expected, actual, matched, old', later, p, e + 1)
  {
    assert Seen(seen) <= Seen(later);
    assert forall f | 0 <= f < |seen| && seen[f] :: seen[e := true][f];
    assert Neighbours(expected, actual, matched[e], Seen(later));
  }

  lemma AugmentFree(expected: seq<ExpectedFinding>, actual: seq<Finding>, before: seq<int>, seen: seq<bool>,
                    p: int, hole: int, e: int, closed: set<int>)
    requires Movable(expected, actual, before, seen, p, hole) && Closed(expected, actual, before, closed)
    requires 0 <= e < |expected| && !seen[e] && before[e] < 0 && Edge(expected, actual, e, p)
    ensures Augmented(expected, actual, before, before[e := p], seen, p, hole, closed)
  {
    TakeFree(expected, actual, before, hole, e, p);
  }

  lemma AugmentOver(expected: seq<ExpectedFinding>, actual: seq<Finding>, before: seq<int>, moved: seq<int>,
                    seen: seq<bool>, later: seq<bool>, p: int, hole: int, e: int, closed: set<int>)
    requires Movable(expected, actual, before, seen, p, hole) && Closed(expected, actual, before, closed)
    requires |later| == |expected| && 0 <= e < |expected| && !later[e] && before[e] >= 0
    requires Edge(expected, actual, e, p)
    requires forall f | 0 <= f < |seen| && seen[f] :: later[f]
    requires Augmented(expected, actual, before, moved, later[e := true], before[e], e, closed)
    ensures Augmented(expected, actual, before, moved[e := p], seen, p, hole, closed)
  {
    assert moved[e] == before[e];
    assert hole >= 0 ==> later[e := true][hole];
    TakeOver(expected, actual, before, moved, hole, e, p);
    assert e !in closed;
  }

  /**
   * Tries to give prediction `p` an expectation, moving earlier predictions along an augmenting path.
   * `hole` is the expectation `p` currently holds when a recursive call asks it to move (-1 at the top);
   * `closed` is any dead end known so far: a successful search never enters it.
   */
  method Assign(expected: seq<ExpectedFinding>, actual: seq<Finding>, matched: array<int>, p: int, seen: array<bool>,
                ghost hole: int, ghost closed: set<int>)
    returns (ok: bool)
    requires matched.Length == seen.Length == |expected|
    requires Movable(expected, actual, matched[..], seen[..], p, hole)
    requires Closed(expected, actual, matched[..], closed)
    modifies matched, seen
    ensures ok ==> Augmented(expected, actual, old(matched[..]), matched[..], old(seen[..]), p, hole, closed)
    ensures !ok ==> matched[..] == old(matched[..])
    ensures !ok ==> Explored(expected, actual, matched[..], old(seen[..]), seen[..], p, |expected|)
    decreases |Unseen(seen[..])|
  {
    ghost var before, start := matched[..], seen[..];
    var e := 0;
    while e < |expected|
      invariant 0 <= e <= |expected|
      invariant matched[..] == before
      invariant Explored(expected, actual, before, start, seen[..], p, e)
    {
      if !seen[e] && PrimaryLocationMatches(expected[e], actual[p]) {
        ghost var now := seen[..];
        UnseenShrinks(start, now, e);
        seen[e] := true;
        assert seen[..] == now[e := true];
        if matched[e] < 0 {
          AugmentFree(expected, actual, before, start, p, hole, e, closed);
          matched[e] := p;
          assert matched[..] == before[e := p];
          return true;
        }
        VisitHolder(expected, actual, before, now, p, hole, e);
        var moved := Assign(expected, actual, matched, matched[e], seen, e, closed);
        if moved {
          AugmentOver(expected, actual, before, matched[..], start, now, p, hole, e, closed);
          ghost var after := matched[..][e := p];
          matched[e] := p;
          assert matched[..] == after;
          return true;
        }
        Stuck(expected, actual, before, start, now, seen[..], p, e);
      }
      e := e + 1;
    }
    return false;
  }

  lemma HoldersAreAssigned(expected: seq<ExpectedFinding>, actual: seq<Finding>, matched: seq<int>,
                           closed: set<int>, holders: map<int, int>)
    requires Assignment(expected, actual, matched) && Closed(expected, actual, matched, closed)
    requires holders.Keys == closed && forall e <- closed :: holders[e] == matched[e]
    ensures holders.Values <= Image(matched, -1) && |holders.Values| == |closed|
  {
    forall e, f | e in holders && f in holders && holders[e] == holders[f] ensures e == f {
      assert matched[e] == matched[f];
    }
    InjectiveValues(holders);
    assert |holders| == |holders.Keys|;
    forall p | p in holders.Values ensures p in Image(matched, -1) {
      var e := KeyOf(holders, p);
    }
  }

  lemma OutsideIsFree(expected: seq<ExpectedFinding>, actual: seq<Finding>, matched: seq<int>,
                      closed: set<int>, holders: map<int, int>, e: int, p: int)
    requires Assignment(expected, actual, matched) && Closed(expected, actual, matched, closed)
    requires forall q | 0 <= q < |actual| && q !in Image(matched, -1) :: Neighbours(expected, actual, q, closed)
    requires holders.Keys == closed && forall f <- closed :: holders[f] == matched[f]
    requires Edge(expected, actual, e, p) && e !in closed
    ensures p in Image(matched, -1) - holders.Values
  {
    assert Neighbours(expected, actual, p, closed) ==> e in closed;
    forall f | f in holders ensures holders[f] != p {
      assert Neighbours(expected, actual, matched[f], closed);
    }
  }

  /** A dead end, together with "every prediction left out has nowhere to go outside it", bounds every rival matching. */
  lemma DeadEndBoundsMatchings(expected: seq<ExpectedFinding>, actual: seq<Finding>, matched: seq<int>,
                               closed: set<int>, m: map<int, int>)
    requires Assignment(expected, actual, matched) && Closed(expected, actual, matched, closed)
    requires forall p | 0 <= p < |actual| && p !in Image(matched, -1) :: Neighbours(expected, actual, p, closed)
    requires IsMatching(expected, actual, m)
    ensures |m| <= |Image(matched, -1)|
  {
    // Rival pairs outside the dead end use assigned predictions, none of them a holder of the dead end.
    var outside := m - closed;
    var holders := map e | e in closed :: matched[e];
    HoldersAreAssigned(expected, actual, matched, closed, holders);
    forall e | e in outside ensures outside[e] in Image(matched, -1) - holders.Values {
      OutsideIsFree(expected, actual, matched, closed, holders, e, m[e]);
    }
    SplitBound(m, closed, outside, holders.Values, Image(matched, -1));
  }

  /** Pairs inside the dead end are at most its size; the others use distinct predictions that are not its holders. */
  lemma SplitBound(m: map<int, int>, closed: set<int>, outside: map<int, int>, holders: set<int>, taken: set<int>)
    requires Injective(m) && outside == m - closed
    requires holders <= taken && |holders| == |closed|
    requires forall e <- outside :: outside[e] in taken - holders
    ensures |m| <= |taken|
  {
    KeysSplit(m, closed);
    OutsideBound(outside, taken - holders);
    Remove(taken, holders);
  }

  lemma Remove(taken: set<int>, holders: set<int>)
    requires holders <= taken
    ensures |taken| == |holders| + |taken - holders|
  {
    assert taken == holders + (taken - holders);
  }

  lemma OutsideBound(outside: map<int, int>, free: set<int>)
    requires Injective(outside) && forall e <- outside :: outside[e] in free
    ensures |outside| <= |free|
  {
    InjectiveValues(outside);
    forall v | v in outside.Values ensures v in free {
      var e := KeyOf(outside, v);
    }
    SubsetSize(outside.Values, free);
  }

  /** An assignment is a matching of the size of its image. */
  lemma AssignmentIsMatching(expected: seq<ExpectedFinding>, actual: seq<Finding>, matched: seq<int>)
    returns (m: map<int, int>)
    requires Assignment(expected, actual, matched)
    ensures IsMatching(expected, actual, m) && |m| == |Image(matched, -1)|
  {
    m := map e | 0 <= e < |matched| && matched[e] >= 0 :: matched[e];
    InjectiveValues(m);
    forall p | p in Image(matched, -1) ensures p in m.Values {
      var e :| 0 <= e < |matched| && matched[e] >= 0 && matched[e] == p;
      assert e in m && m[e] == p;
    }
    assert m.Values == Image(matched, -1);
  }

  lemma AssignmentIsMaximum(expected: seq<ExpectedFinding>, actual: seq<Finding>, matched: seq<int>, closed: set<int>)
    requires Assignment(expected, actual, matched) && Closed(expected, actual, matched, closed)
    requires forall p | 0 <= p < |actual| && p !in Image(matched, -1) :: Neighbours(expected, actual, p, closed)
    ensures exists m :: IsMatching(expected, actual, m) && |m| == |Image(matched, -1)|
    ensures forall m :: IsMatching(expected, actual, m) ==> |m| <= |Image(matched, -1)|
  {
    var witness' := AssignmentIsMatching(expected, actual, matched);
    forall m | IsMatching(expected, actual, m) ensures |m| <= |Image(matched, -1)| {
      DeadEndBoundsMatchings(expected, actual, matched, closed, m);
    }
  }

  /** The expectations a failed search visited join the dead end. */
  lemma GrowDeadEnd(expected: seq<ExpectedFinding>, actual: seq<Finding>, matched: seq<int>,
                    closed: set<int>, visited: set<int>)
    requires |matched| == |expected|
    requires Closed(expected, actual, matched, closed) && Closed(expected, actual, matched, visited)
    ensures Closed(expected, actual, matched, closed + visited)
    ensures forall p | Neighbours(expected, actual, p, closed) || Neighbours(expected, actual, p, visited) ::
              Neighbours(expected, actual, p, closed + visited)
  {
  }

  method CountLocationMatches(expected: seq<ExpectedFinding>, actual: seq<Finding>) returns (count: nat)
    ensures exists m :: IsMatching(expected, actual, m) && |m| == count
    ensures forall m :: IsMatching(expected, actual, m) ==> |m| <= count
  {
    var matched := new int[|expected|](_ => -1);
    count := 0;
    ghost var closed: set<int> := {};
    NothingPlaced(expected, actual, matched[..]);
    hide Placed, Movable, Closed, Augmented, Explored, Image;
    for p := 0 to |actual|
      invariant true == Placed(expected, actual, matched[..], p, count, closed)
    {
      ghost var before := matched[..];
      var seen := new bool[|expected|](_ => false);
      NextMovable(expected, actual, before, seen[..], p, count, closed);
      ghost var fresh' := seen[..];
      var ok := Assign(expected, actual, matched, p, seen, -1, closed);
      if ok {
        NextPlaced(expected, actual, before, matched[..], fresh', p, count, closed);
        count := count + 1;
      } else {
        NextLeftOut(expected, actual, before, fresh', seen[..], p, count, closed);
        closed := closed + Seen(seen[..]);
      }
    }
    AllPlaced(expected, actual, matched[..], count, closed);
  }

  /** After the first `p` predictions: `count` of them are placed and a dead end accounts for the others. */
  ghost predicate Placed(expected: seq<ExpectedFinding>, actual: seq<Finding>, matched: seq<int>, p: int, count: int,
                         closed: set<int>)
  {
    && Assignment(expected, actual, matched)
    && Closed(expected, actual, matched, closed)
    && (forall q <- Image(matched, -1) :: q < p)
    && count == |Image(matched, -1)|
    && (forall q | 0 <= q < p && q !in Image(matched, -1) :: Neighbours(expected, actual, q, closed))
  }

  lemma NothingPlaced(expected: seq<ExpectedFinding>, actual: seq<Finding>, matched: seq<int>)
    requires |matched| == |expected| && forall e | 0 <= e < |matched| :: matched[e] == -1
    ensures Placed(expected, actual, matched, 0, 0, {})
  {
    assert Image(matched, -1) == {};
  }

  lemma NextMovable(expected: seq<ExpectedFinding>, actual: seq<Finding>, matched: seq<int>, seen: seq<bool>, p: int,
                    count: int, closed: set<int>)
    requires 0 <= p < |actual| && Placed(expected, actual, matched, p, count, closed) && |seen| == |expected|
    ensures Movable(expected, actual, matched, seen, p, -1)
    ensures |matched| == |expected| && Closed(expected, actual, matched, closed)
  {
  }

  lemma AllPlaced(expected: seq<ExpectedFinding>, actual: seq<Finding>, matched: seq<int>, count: int, closed: set<int>)
    requires Placed(expected, actual, matched, |actual|, count, closed)
    ensures exists m :: IsMatching(expected, actual, m) && |m| == count
    ensures forall m :: IsMatching(expected, actual, m) ==> |m| <= count
  {
    hide Assignment, Closed, Neighbours, IsMatching;
    AssignmentIsMaximum(expected, actual, matched, closed);
  }

  lemma NextPlaced(expected: seq<ExpectedFinding>, actual: seq<Finding>, before: seq<int>, after: seq<int>,
                   seen: seq<bool>, p: int, count: int, closed: set<int>)
    requires 0 <= p < |actual| && Placed(expected, actual, before, p, count, closed)
    requires Augmented(expected, actual, before, after, seen, p, -1, closed)
    ensures Placed(expected, actual, after, p + 1, count + 1, closed)
  {
    assert p !in Image(before, -1);
  }

  lemma NextLeftOut(expected: seq<ExpectedFinding>, actual: seq<Finding>, matched: seq<int>,
                    start: seq<bool>, seen: seq<bool>, p: int, count: int, closed: set<int>)
    requires 0 <= p < |actual| && Placed(expected, actual, matched, p, count, closed)
    requires |start| == |expected| && forall e | 0 <= e < |start| :: !start[e]
    requires Explored(expected, actual, matched, start, seen, p, |expected|)
    ensures Placed(expected, actual, matched, p + 1, count, closed + Seen(seen))
  {
    GrowDeadEnd(expected, actual, matched, closed, Seen(seen));
  }
}
