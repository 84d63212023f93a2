/**
 * The terms of a retrieval query (internal/githubtools/retrieval.go): the runs of letters, digits and underscores, each
 * once, in order. What a letter or digit is, is a parameter.
 */
module RetrievalQuery {
  import opened Collections
  import opened Text
  import opened RankedChunks

  const QUERY_BYTES := 256
  const MAX_TERMS := 8

  // ----- the library's split -----

  /** How many leading characters of `s` are in a term. */
  function WordRun(s: string, isWord: char -> bool): (n: nat)
    ensures n <= |s| && (forall i | 0 <= i < n :: isWord(s[i])) && (n < |s| ==> !isWord(s[n]))
  {
    if s != "" && isWord(s[0]) then 1 + WordRun(s[1..], isWord) else 0
  }

  function Fields(s: string, isWord: char -> bool): seq<string>
    decreases |s|
  {
    if s == "" then []
    else
      var n := WordRun(s, isWord);
      if n == 0 then Fields(s[1..], isWord) else [s[..n]] + Fields(s[n..], isWord)
  }

  /** A run of word characters that cannot be extended. */
  predicate IsField(s: string, isWord: char -> bool, i: int, j: int) {
    && 0 <= i < j <= |s| && (forall k | i <= k < j :: isWord(s[k]))
    && (i == 0 || !isWord(s[i - 1])) && (j == |s| || !isWord(s[j]))
  }

  predicate HasField(s: string, isWord: char -> bool, t: string) {
    exists i, j | 0 <= i <= j <= |s| :: IsField(s, isWord, i, j) && s[i..j] == t
  }

  /** Behind a character that is in no term, nothing changes. */
  lemma FieldsBehind(s: string, isWord: char -> bool, n: nat, i: int, j: int)
    requires n < |s| && !isWord(s[n])
    ensures IsField(s, isWord, i, j) && i > n <==> IsField(s[n + 1..], isWord, i - n - 1, j - n - 1)
    ensures IsField(s, isWord, i, j) && i > n ==> s[i..j] == s[n + 1..][i - n - 1..j - n - 1]
  {
    var rest := s[n + 1..];
    if IsField(rest, isWord, i - n - 1, j - n - 1) {
      assert forall k | i <= k < j :: s[k] == rest[k - n - 1];
    }
  }

  lemma HasFieldBehind(s: string, isWord: char -> bool, n: nat, t: string)
    requires n < |s| && !isWord(s[n])
    ensures HasField(s[n + 1..], isWord, t) <==> exists i, j | n < i <= j <= |s| :: IsField(s, isWord, i, j) && s[i..j] == t
  {
    var rest := s[n + 1..];
    if HasField(rest, isWord, t) {
      var i, j :| 0 <= i <= j <= |rest| && IsField(rest, isWord, i, j) && rest[i..j] == t;
      FieldsBehind(s, isWord, n, i + n + 1, j + n + 1);
      assert IsField(s, isWord, i + n + 1, j + n + 1) && s[i + n + 1..j + n + 1] == t;
    }
    if i, j :| n < i <= j <= |s| && IsField(s, isWord, i, j) && s[i..j] == t {
      FieldsBehind(s, isWord, n, i, j);
      assert IsField(rest, isWord, i - n - 1, j - n - 1) && rest[i - n - 1..j - n - 1] == t;
    }
  }

  /** The fields are exactly the maximal runs. */
  lemma {:induction false} FieldsExact(s: string, isWord: char -> bool, t: string)
    ensures t in Fields(s, isWord) <==> HasField(s, isWord, t)
    decreases |s|
  {
    var n := WordRun(s, isWord);
    if s == "" {
    } else if n == |s| {
      assert s[..n] == s && s[n..] == "";
      assert HasField(s, isWord, s) by { assert IsField(s, isWord, 0, |s|) && s[0..|s|] == s; }
      forall i, j | IsField(s, isWord, i, j) ensures i == 0 && j == n {
        FirstField(s, isWord, n, i, j);
      }
    } else {
      FieldsExact(s[n + 1..], isWord, t);
      HasFieldBehind(s, isWord, n, t);
      SkipOne(s, isWord, n);
      if n > 0 {
        assert IsField(s, isWord, 0, n) && s[0..n] == s[..n];
      }
      forall i, j | IsField(s, isWord, i, j) && i <= n ensures i == 0 && j == n > 0 {
        FirstField(s, isWord, n, i, j);
      }
    }
  }

  lemma FirstField(s: string, isWord: char -> bool, n: nat, i: int, j: int)
    requires n == WordRun(s, isWord) && IsField(s, isWord, i, j) && i <= n
    ensures i == 0 && j == n > 0
  {
  }

  lemma SkipOne(s: string, isWord: char -> bool, n: nat)
    requires n == WordRun(s, isWord) < |s|
    ensures Fields(s, isWord) == (if n == 0 then [] else [s[..n]]) + Fields(s[n + 1..], isWord)
  {
    var rest := s[n..];
    assert rest[1..] == s[n + 1..] && !isWord(rest[0]);
    assert WordRun(rest, isWord) == 0;
    assert Fields(rest, isWord) == Fields(rest[1..], isWord);
  }

  // ----- distinct and in order -----

  predicate Ascending(terms: seq<string>) {
    forall i, j | 0 <= i < j < |terms| :: Less(terms[i], terms[j])
  }

  /** The term at its place, unless it is there. */
  function InsertTerm(t: string, terms: seq<string>): seq<string> {
    if |terms| == 0 then [t]
    else if t == terms[0] then terms
    else if Less(t, terms[0]) then [t] + terms
    else [terms[0]] + InsertTerm(t, terms[1..])
  }

  lemma {:induction false} InsertTermKeeps(t: string, terms: seq<string>)
    requires Ascending(terms)
    ensures Ascending(InsertTerm(t, terms))
    ensures forall u :: u in InsertTerm(t, terms) <==> u == t || u in terms
  {
    if |terms| > 0 {
      LessTotal(t, terms[0]);
      if t != terms[0] && !Less(t, terms[0]) {
        var rest := InsertTerm(t, terms[1..]);
        InsertTermKeeps(t, terms[1..]);
        assert terms == [terms[0]] + terms[1..];
        forall i | 0 <= i < |rest| ensures Less(terms[0], rest[i]) {
          assert rest[i] in rest;
        }
      } else if t != terms[0] {
        forall i | 0 <= i < |terms| ensures Less(t, terms[i]) {
          if i > 0 { LessTransitive(t, terms[0], terms[i]); }
        }
      }
    }
  }

  /** The query's terms: exactly the maximal runs of word characters in its lower-case form, ascending. */
  method ParseTerms(query: string, isWord: char -> bool) returns (terms: seq<string>)
    ensures Ascending(terms)
    ensures forall t :: t in terms <==> HasField(ToLower(query), isWord, t)
  {
    var fields := Fields(ToLower(query), isWord);
    terms := [];
    for i := 0 to |fields|
      invariant Ascending(terms)
      invariant forall t :: t in terms <==> t in fields[..i]
    {
      InsertTermKeeps(fields[i], terms);
      assert fields[..i + 1] == fields[..i] + [fields[i]];
      terms := InsertTerm(fields[i], terms);
    }
    assert fields[..|fields|] == fields;
    forall t ensures t in terms <==> HasField(ToLower(query), isWord, t) {
      FieldsExact(ToLower(query), isWord, t);
    }
  }
}
