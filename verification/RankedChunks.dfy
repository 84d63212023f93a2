/** The ranking of retrieved code chunks, and sorting by it (internal/githubtools/retrieval.go). */
module RankedChunks {

  datatype Line = Line(path: string, line: nat, snippet: string)

  datatype Chunk = Chunk(path: string, startLine: nat, endLine: nat, score: nat, lines: seq<Line>)

  // ----- the order -----

  /** Strings compare byte by byte, a proper prefix first. */
  predicate Less(a: string, b: string) {
    if |b| == 0 then false
    else if |a| == 0 then true
    else a[0] < b[0] || (a[0] == b[0] && Less(a[1..], b[1..]))
  }

  lemma {:induction false} LessTransitive(a: string, b: string, c: string)
    requires Less(a, b) && Less(b, c)
    ensures Less(a, c)
  {
    if |a| > 0 && a[0] == b[0] == c[0] {
      LessTransitive(a[1..], b[1..], c[1..]);
    }
  }

  lemma {:induction false} LessTotal(a: string, b: string)
    ensures Less(a, b) || Less(b, a) || a == b
    ensures !(Less(a, b) && Less(b, a)) && !Less(a, a)
  {
    if |a| > 0 && |b| > 0 {
      LessTotal(a[1..], b[1..]);
      LessTotal(a[1..], a[1..]);
      assert a == [a[0]] + a[1..] && b == [b[0]] + b[1..];
    } else if |a| > 0 {
      LessTotal(a[1..], a[1..]);
    }
  }

  /** A higher score first, then the path, then the start line. */
  predicate Before(a: Chunk, b: Chunk) {
    if a.score != b.score then a.score > b.score
    else if a.path != b.path then Less(a.path, b.path)
    else a.startLine < b.startLine
  }

  /** Chunks of different files or starts; their order is strict. */
  predicate Apart(a: Chunk, b: Chunk) {
    a.path != b.path || a.startLine != b.startLine
  }

  lemma BeforeTransitive(a: Chunk, b: Chunk, c: Chunk)
    requires !Before(b, a) && !Before(c, b)
    ensures !Before(c, a)
  {
    LessTotal(a.path, b.path);
    LessTotal(b.path, c.path);
    LessTotal(a.path, c.path);
    if Less(a.path, b.path) && Less(b.path, c.path) {
      LessTransitive(a.path, b.path, c.path);
    }
  }

  lemma BeforeTotal(a: Chunk, b: Chunk)
    ensures !(Before(a, b) && Before(b, a))
    ensures Apart(a, b) ==> Before(a, b) || Before(b, a)
  {
    LessTotal(a.path, b.path);
  }

  // ----- sorting -----

  predicate Sorted(chunks: seq<Chunk>) {
    forall i, j | 0 <= i < j < |chunks| :: !Before(chunks[j], chunks[i])
  }

  predicate Distinct(chunks: seq<Chunk>) {
    forall i, j | 0 <= i < j < |chunks| :: Apart(chunks[i], chunks[j])
  }

  /** The chunk at its place in a sorted sequence, after its equals. */
  function Insert(c: Chunk, chunks: seq<Chunk>): (r: seq<Chunk>)
    ensures |r| == |chunks| + 1
  {
    if |chunks| == 0 || Before(c, chunks[0]) then [c] + chunks else [chunks[0]] + Insert(c, chunks[1..])
  }

  function SortAll(chunks: seq<Chunk>): (r: seq<Chunk>)
    ensures |r| == |chunks|
  {
    if |chunks| == 0 then [] else Insert(chunks[|chunks| - 1], SortAll(chunks[..|chunks| - 1]))
  }

  /** The first `k` of all chunks in rank order. */
  function Top(all: seq<Chunk>, k: nat): (r: seq<Chunk>)
    ensures |r| == if |all| < k then |all| else k
  {
    SortAll(all)[..if |all| < k then |all| else k]
  }

  lemma SortedCons(c: Chunk, chunks: seq<Chunk>)
    requires Sorted(chunks) && (|chunks| > 0 ==> !Before(chunks[0], c))
    ensures Sorted([c] + chunks)
  {
    var r := [c] + chunks;
    forall i, j | 0 <= i < j < |r| ensures !Before(r[j], r[i]) {
      if i == 0 && j > 1 {
        BeforeTransitive(c, chunks[0], chunks[j - 1]);
      }
    }
  }

  lemma {:induction false} InsertHead(c: Chunk, chunks: seq<Chunk>)
    ensures Insert(c, chunks)[0] == c || (|chunks| > 0 && Insert(c, chunks)[0] == chunks[0])
  {
  }

  lemma {:induction false} InsertSorted(c: Chunk, chunks: seq<Chunk>)
    requires Sorted(chunks)
    ensures Sorted(Insert(c, chunks))
  {
    if |chunks| == 0 {
    } else if Before(c, chunks[0]) {
      BeforeTotal(c, chunks[0]);
      SortedCons(c, chunks);
    } else {
      InsertSorted(c, chunks[1..]);
      InsertHead(c, chunks[1..]);
      assert |chunks| > 1 ==> !Before(chunks[1], chunks[0]);
      SortedCons(chunks[0], Insert(c, chunks[1..]));
    }
  }

  lemma {:induction false} InsertPermutes(c: Chunk, chunks: seq<Chunk>)
    ensures multiset(Insert(c, chunks)) == multiset(chunks) + multiset{c}
  {
    if |chunks| > 0 && !Before(c, chunks[0]) {
      InsertPermutes(c, chunks[1..]);
      assert chunks == [chunks[0]] + chunks[1..];
    }
  }

  lemma {:induction false} SortAllSorted(chunks: seq<Chunk>)
    ensures Sorted(SortAll(chunks))
  {
    if |chunks| > 0 {
      SortAllSorted(chunks[..|chunks| - 1]);
      InsertSorted(chunks[|chunks| - 1], SortAll(chunks[..|chunks| - 1]));
    }
  }

  lemma {:induction false} SortAllPermutes(chunks: seq<Chunk>)
    ensures multiset(SortAll(chunks)) == multiset(chunks)
  {
    if |chunks| > 0 {
      var last := |chunks| - 1;
      SortAllPermutes(chunks[..last]);
      InsertPermutes(chunks[last], SortAll(chunks[..last]));
      assert chunks == chunks[..last] + [chunks[last]];
    }
  }

  /** The sorting is one: ordered, and of the same chunks. */
  lemma SortAllSorts(chunks: seq<Chunk>)
    ensures Sorted(SortAll(chunks)) && multiset(SortAll(chunks)) == multiset(chunks)
  {
    SortAllSorted(chunks);
    SortAllPermutes(chunks);
  }

  lemma SameElements(a: seq<Chunk>, b: seq<Chunk>, x: Chunk)
    requires multiset(a) == multiset(b) && x in a
    ensures x in b
  {
    assert x in multiset(a);
  }

  /** `Distinct` speaks about the chunks, not their order. */
  predicate AllApart(m: multiset<Chunk>) {
    (forall x <- m :: m[x] == 1) && forall x <- m, y <- m :: x != y ==> Apart(x, y)
  }

  lemma {:induction false} DistinctIsAllApart(chunks: seq<Chunk>)
    requires Distinct(chunks)
    ensures AllApart(multiset(chunks))
  {
    if |chunks| > 0 {
      var last := |chunks| - 1;
      DistinctIsAllApart(chunks[..last]);
      assert chunks == chunks[..last] + [chunks[last]];
      forall x | x in chunks[..last] ensures Apart(x, chunks[last]) {
      }
      assert chunks[last] !in multiset(chunks[..last]);
    }
  }

  lemma AllApartPart(part: multiset<Chunk>, m: multiset<Chunk>)
    requires AllApart(m) && part <= m
    ensures AllApart(part)
  {
    forall x | x in part ensures part[x] == 1 {
      assert part[x] <= m[x];
    }
  }

  lemma Tail(a: seq<Chunk>)
    requires |a| > 0 && Sorted(a) && AllApart(multiset(a))
    ensures Sorted(a[1..]) && true == AllApart(multiset(a[1..]))
    ensures multiset(a[1..]) == multiset(a) - multiset{a[0]}
  {
    assert a == [a[0]] + a[1..];
    AllApartPart(multiset(a[1..]), multiset(a));
  }

  /** Distinct chunks have one sorted order only. */
  lemma {:induction false} SortedUnique(a: seq<Chunk>, b: seq<Chunk>)
    requires Sorted(a) && Sorted(b) && multiset(a) == multiset(b) && AllApart(multiset(a))
    ensures a == b
  {
    hide Sorted, AllApart;
    assert |a| == |multiset(a)| == |b|;
    if |a| > 0 {
      HeadsEqual(a, b);
      Tail(a);
      Tail(b);
      SortedUnique(a[1..], b[1..]);
      assert a == [a[0]] + a[1..] && b == [b[0]] + b[1..];
    }
  }

  lemma HeadsEqual(a: seq<Chunk>, b: seq<Chunk>)
    requires |a| > 0 && |b| > 0 && Sorted(a) && Sorted(b) && multiset(a) == multiset(b) && AllApart(multiset(a))
    ensures a[0] == b[0]
  {
    SameElements(a, b, a[0]);
    SameElements(b, a, b[0]);
    BeforeTotal(a[0], b[0]);
    assert a[0] in multiset(a) && b[0] in multiset(a);
  }

  // ----- streaming -----

  /** Inserting first and cutting afterwards keeps the same chunks as cutting before, too. */
  lemma {:induction false} InsertIntoPrefix(c: Chunk, chunks: seq<Chunk>, k: nat, n: nat)
    requires k <= |chunks| && n <= k + 1 && n <= |chunks| + 1 && (k < |chunks| ==> n <= k)
    ensures Insert(c, chunks)[..n] == Insert(c, chunks[..k])[..n]
  {
    if k == 0 || n == 0 {
      if k == 0 < |chunks| {
        assert n == 0;
      }
      assert chunks[..k] == if k == |chunks| then chunks else chunks[..k];
    } else if !Before(c, chunks[0]) {
      InsertIntoPrefix(c, chunks[1..], k - 1, n - 1);
      assert chunks[..k][1..] == chunks[1..][..k - 1];
      assert Insert(c, chunks)[..n] == [chunks[0]] + Insert(c, chunks[1..])[..n - 1];
      assert Insert(c, chunks[..k])[..n] == [chunks[0]] + Insert(c, chunks[..k][1..])[..n - 1];
    } else {
      assert Insert(c, chunks)[..n] == [c] + chunks[..n - 1];
      assert Insert(c, chunks[..k])[..n] == [c] + chunks[..k][..n - 1];
      assert chunks[..k][..n - 1] == chunks[..n - 1];
    }
  }

  lemma PrefixPart(chunks: seq<Chunk>, n: nat)
    requires n <= |chunks|
    ensures multiset(chunks[..n]) <= multiset(chunks)
  {
    assert chunks == chunks[..n] + chunks[n..];
  }

  /** One step of the stream: however the best so far and a new chunk are sorted, cutting gives the new best. */
  lemma TopStep(all: seq<Chunk>, c: Chunk, k: nat, sorted: seq<Chunk>)
    requires Distinct(all + [c])
    requires Sorted(sorted) && multiset(sorted) == multiset(Top(all, k) + [c])
    ensures |sorted| == |Top(all, k)| + 1
    ensures sorted[..if |sorted| < k then |sorted| else k] == Top(all + [c], k)
  {
    var best := SortAll(all);
    var n := |Top(all, k)|;
    assert (all + [c])[..|all|] == all;
    SortAllSorts(all);
    InsertSorted(c, best[..n]);
    InsertPermutes(c, best[..n]);
    assert multiset(best[..n] + [c]) == multiset(best[..n]) + multiset{c};
    DistinctIsAllApart(all + [c]);
    assert multiset(all + [c]) == multiset(all) + multiset{c};
    PrefixPart(best, n);
    AllApartPart(multiset(sorted), multiset(all + [c]));
    SortedUnique(sorted, Insert(c, best[..n]));
    InsertIntoPrefix(c, best, n, if n + 1 < k then n + 1 else k);
  }

  /**
   * A chunk that is kept never has a lower score than one that is not; among equal scores its path is not greater, and in
   * the same file it does not start later.
   */
  lemma KeptScoresHigher(all: seq<Chunk>, k: nat, i: nat, dropped: Chunk)
    requires i < |Top(all, k)| && multiset(all)[dropped] > multiset(Top(all, k))[dropped]
    ensures var kept := Top(all, k)[i];
            && kept.score >= dropped.score
            && (kept.score == dropped.score ==> !Less(dropped.path, kept.path))
            && (kept.score == dropped.score && kept.path == dropped.path ==> kept.startLine <= dropped.startLine)
  {
    var best, n := SortAll(all), |Top(all, k)|;
    SortAllSorts(all);
    hide SortAll, Before;
    var j := BehindPrefix(best, n, dropped);
    assert !Before(best[j], best[i]);
    NotBefore(best[j], best[i]);
  }

  lemma BehindPrefix(best: seq<Chunk>, n: nat, c: Chunk) returns (j: nat)
    requires n <= |best| && multiset(best)[c] > multiset(best[..n])[c]
    ensures n <= j < |best| && best[j] == c
  {
    assert best == best[..n] + best[n..];
    assert c in multiset(best[n..]);
    j :| 0 <= j < |best[n..]| && best[n..][j] == c;
    j := n + j;
  }

  lemma NotBefore(a: Chunk, b: Chunk)
    requires !Before(a, b)
    ensures b.score >= a.score && (b.score == a.score ==> !Less(a.path, b.path))
    ensures b.score == a.score && b.path == a.path ==> b.startLine <= a.startLine
  {
    LessTotal(a.path, b.path);
  }

  /** Paths compare by their first different character; a proper prefix comes first. */
  lemma {:induction false} LessIsLexical(a: string, b: string)
    ensures Less(a, b) <==>
            a != b && (a <= b || exists k :: 0 <= k < |a| && k < |b| && a[..k] == b[..k] && a[k] < b[k])
  {
    if |a| > 0 && |b| > 0 {
      if a[0] == b[0] {
        LessIsLexical(a[1..], b[1..]);
        DiffersLater(a, b);
      } else {
        assert a[..0] == b[..0];
        assert forall k | 0 < k <= |a| && k <= |b| :: a[..k][0] == a[0] && b[..k][0] == b[0];
      }
    }
  }

  lemma DiffersLater(a: string, b: string)
    requires |a| > 0 && |b| > 0 && a[0] == b[0]
    ensures a <= b <==> a[1..] <= b[1..]
    ensures a == b <==> a[1..] == b[1..]
    ensures (exists k :: 0 <= k < |a| && k < |b| && a[..k] == b[..k] && a[k] < b[k]) <==>
            (exists k :: 0 <= k < |a[1..]| && k < |b[1..]| && a[1..][..k] == b[1..][..k] && a[1..][k] < b[1..][k])
  {
    assert a == [a[0]] + a[1..] && b == [b[0]] + b[1..];
    if k :| 0 <= k < |a| && k < |b| && a[..k] == b[..k] && a[k] < b[k] {
      assert k > 0;
      assert a[1..][..k - 1] == a[..k][1..] && b[1..][..k - 1] == b[..k][1..];
      assert a[1..][k - 1] == a[k] && b[1..][k - 1] == b[k];
    }
    if k :| 0 <= k < |a[1..]| && k < |b[1..]| && a[1..][..k] == b[1..][..k] && a[1..][k] < b[1..][k] {
      assert a[..k + 1] == [a[0]] + a[1..][..k] && b[..k + 1] == [b[0]] + b[1..][..k];
      assert a[k + 1] == a[1..][k] && b[k + 1] == b[1..][k];
    }
  }

  /** `Top` is what any full sort would put first. */
  lemma TopIsFirst(all: seq<Chunk>, k: nat, sorted: seq<Chunk>)
    requires Distinct(all) && Sorted(sorted) && multiset(sorted) == multiset(all)
    ensures |sorted| == |all| && Top(all, k) == sorted[..if |all| < k then |all| else k]
  {
    SortAllSorts(all);
    DistinctIsAllApart(all);
    SortedUnique(SortAll(all), sorted);
  }
}
