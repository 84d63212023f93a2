/** Optional values and a few counting facts about sets and maps. */
module Collections {

  datatype Option<+T> = None | Some(value: T)

  function Min(a: nat, b: nat): nat { if a < b then a else b }

  function Max(a: nat, b: nat): nat { if a < b then b else a }

  /** A non-empty set has an element. */
  lemma Pick<T>(s: set<T>) returns (x: T)
    requires s != {}
    ensures x in s
  {
    x :| x in s;
  }

  /** Every value of a map has a key. */
  lemma KeyOf<K, V>(m: map<K, V>, v: V) returns (k: K)
    requires v in m.Values
    ensures k in m && m[k] == v
  {
    k :| k in m && m[k] == v;
  }

  /** No two keys share a value. */
  ghost predicate Injective<K(!new), V>(m: map<K, V>) {
    forall k, l | k in m && l in m && m[k] == m[l] :: k == l
  }

  /** An injective map has as many values as keys. */
  lemma {:induction false} InjectiveValues<K(!new), V>(m: map<K, V>)
    requires Injective(m)
    ensures |m.Values| == |m|
    decreases |m|
  {
    if m.Keys == {} {
      assert |m| == |m.Keys|;
      assert m.Values == {};
    } else {
      var k := Pick(m.Keys);
      var rest := m - {k};
      InjectiveValues(rest);
      assert m.Keys == rest.Keys + {k};
      forall v | v in m.Values && v != m[k] ensures v in rest.Values {
        var l := KeyOf(m, v);
        assert l in rest && rest[l] == v;
      }
      forall v | v in rest.Values ensures v in m.Values && v != m[k] {
        var l := KeyOf(rest, v);
        assert l in m && m[l] == v;
      }
      assert m.Values == rest.Values + {m[k]};
    }
  }

  /** Cardinality is monotone. */
  lemma {:induction false} SubsetSize<T>(a: set<T>, b: set<T>)
    requires a <= b
    ensures |a| <= |b|
  {
    assert b == a + (b - a);
  }

  /** A map has no more entries than a set of keys and what is left without them. */
  lemma KeysSplit<K, V>(m: map<K, V>, keys: set<K>)
    ensures |m| <= |keys| + |m - keys|
  {
    SubsetSize(m.Keys * keys, keys);
    assert m.Keys == m.Keys * keys + (m - keys).Keys;
  }

  lemma Associates<T>(a: seq<T>, b: seq<T>, c: seq<T>)
    ensures a + b + c == a + (b + c)
  {
  }

  /** The elements that satisfy `keep`, in order. */
  function Filter<T>(s: seq<T>, keep: T -> bool): seq<T> {
    if |s| == 0 then []
    else
      var before := Filter(s[..|s| - 1], keep);
      if keep(s[|s| - 1]) then before + [s[|s| - 1]] else before
  }

  lemma FilterAppend<T>(s: seq<T>, x: T, keep: T -> bool)
    ensures Filter(s + [x], keep) == Filter(s, keep) + if keep(x) then [x] else []
  {
    assert (s + [x])[..|s|] == s;
  }

  lemma {:induction false} FilterMembers<T>(s: seq<T>, keep: T -> bool)
    ensures forall x :: x in Filter(s, keep) <==> x in s && keep(x)
  {
    if |s| > 0 {
      FilterMembers(s[..|s| - 1], keep);
      assert s == s[..|s| - 1] + [s[|s| - 1]];
    }
  }

  lemma {:induction false} FilterAll<T>(s: seq<T>, keep: T -> bool)
    requires forall x <- s :: keep(x)
    ensures Filter(s, keep) == s
  {
    if |s| > 0 {
      FilterAll(s[..|s| - 1], keep);
      assert s == s[..|s| - 1] + [s[|s| - 1]];
    }
  }

  lemma {:induction false} FilterNone<T>(s: seq<T>, keep: T -> bool)
    requires forall x <- s :: !keep(x)
    ensures Filter(s, keep) == []
  {
    if |s| > 0 {
      FilterNone(s[..|s| - 1], keep);
    }
  }

  /** What is kept and what is not make up the whole. */
  lemma {:induction false} FilterPartition<T>(s: seq<T>, keep: T -> bool, drop: T -> bool)
    requires forall x <- s :: keep(x) != drop(x)
    ensures multiset(s) == multiset(Filter(s, keep)) + multiset(Filter(s, drop))
  {
    if |s| > 0 {
      FilterPartition(s[..|s| - 1], keep, drop);
      assert s == s[..|s| - 1] + [s[|s| - 1]];
    }
  }

  /** Kept elements stay in their order: their positions increase. */
  lemma {:induction false} FilterInOrder<T>(s: seq<T>, keep: T -> bool) returns (at: seq<nat>)
    ensures |at| == |Filter(s, keep)|
    ensures forall i | 0 <= i < |at| :: at[i] < |s| && s[at[i]] == Filter(s, keep)[i]
    ensures forall i, j | 0 <= i < j < |at| :: at[i] < at[j]
  {
    at := [];
    if |s| > 0 {
      at := FilterInOrder(s[..|s| - 1], keep);
      if keep(s[|s| - 1]) {
        at := at + [|s| - 1];
      }
    }
  }
}
