/** Sums over multisets, and how they compare. */
module MultisetSums {

  ghost function Any<T>(m: multiset<T>): (x: T)
    requires m != multiset{}
    ensures x in m
  {
    var x :| x in m;
    x
  }

  ghost function Sum<T>(m: multiset<T>, f: T -> nat): nat
    decreases |m|
  {
    if m == multiset{} then 0 else f(Any(m)) + Sum(m - multiset{Any(m)}, f)
  }

  lemma {:induction false} SumWithout<T>(m: multiset<T>, f: T -> nat, x: T)
    requires x in m
    ensures Sum(m, f) == f(x) + Sum(m - multiset{x}, f)
    decreases |m|
  {
    var y := Any(m);
    if x != y {
      SumWithout(m - multiset{y}, f, x);
      SumWithout(m - multiset{x}, f, y);
      assert m - multiset{y} - multiset{x} == m - multiset{x} - multiset{y};
    }
  }

  lemma SumWith<T>(m: multiset<T>, f: T -> nat, x: T)
    ensures Sum(m + multiset{x}, f) == f(x) + Sum(m, f)
  {
    SumWithout(m + multiset{x}, f, x);
    assert m + multiset{x} - multiset{x} == m;
  }

  /** If no summand exceeds its counterpart by more than `d`, the sum does not by more than that each time. */
  lemma {:induction false} SumBound<T(!new)>(m: multiset<T>, f: T -> nat, g: T -> nat, d: nat)
    requires forall x :: f(x) <= g(x) + d
    ensures Sum(m, f) <= Sum(m, g) + |m| * d
    decreases |m|
  {
    if m != multiset{} {
      var x := Any(m);
      SumBound(m - multiset{x}, f, g, d);
      OneLessSize(m, x);
      Successor(|m - multiset{x}|, d);
    }
  }

  lemma OneLessSize<T>(m: multiset<T>, x: T)
    requires x in m
    ensures |m| == |m - multiset{x}| + 1
  {
  }

  lemma Successor(k: nat, d: nat)
    ensures (k + 1) * d == k * d + d
  {
  }

  lemma {:induction false} SumAtMost<T>(m: multiset<T>, f: T -> nat, d: nat)
    requires forall x <- m :: f(x) <= d
    ensures Sum(m, f) <= |m| * d
    decreases |m|
  {
    if m != multiset{} {
      var x := Any(m);
      SumAtMost(m - multiset{x}, f, d);
      OneLessSize(m, x);
      Successor(|m - multiset{x}|, d);
    }
  }

  lemma Distribute(x: nat, y: nat, z: nat, d: nat)
    ensures (x + y + z) * d == x * d + y * d + z * d
  {
  }
}
