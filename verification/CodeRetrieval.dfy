/**
 * The retrieve_code_context tool (internal/githubtools/retrieval.go): overlapping windows of every searchable file are
 * scored, the best `k` are kept while scanning, and the result is trimmed until its encoding fits. The archive arrives
 * as entries; letters are ASCII, and the JSON sizes are parameters.
 */
module CodeRetrieval {
  import opened Collections
  import opened Text
  import opened RankedChunks
  import opened RetrievalQuery

  const STEP: nat := 16
  const WIDTH: nat := 20
  const OUTPUT_BYTES: nat := 12 * 1024
  const MAX_FILES: nat := 2000
  const MAX_FILE_BYTES: nat := 2 * 1024 * 1024

  // ----- one window -----

  /** Four points for each term in the window's text, one for each term in the file's name. */
  function Score(name: string, body: string, terms: seq<string>): nat {
    if |terms| == 0 then 0
    else
      var last := terms[|terms| - 1];
      Score(name, body, terms[..|terms| - 1])
      + (if Contains(ToLower(body), last) then 4 else 0) + (if Contains(ToLower(name), last) then 1 else 0)
  }

  method ScoreWindow(name: string, body: string, terms: seq<string>) returns (score: nat)
    ensures score == Score(name, body, terms)
  {
    score := 0;
    for i := 0 to |terms|
      invariant score == Score(name, body, terms[..i])
    {
      assert terms[..i + 1][..i] == terms[..i];
      if Contains(ToLower(body), terms[i]) {
        score := score + 4;
      }
      if Contains(ToLower(name), terms[i]) {
        score := score + 1;
      }
    }
    assert terms[..|terms|] == terms;
  }

  /** Some term occurs in the window's text or in the file's name. */
  predicate Mentions(name: string, body: string, terms: seq<string>) {
    exists t <- terms :: Contains(ToLower(body), t) || Contains(ToLower(name), t)
  }

  lemma {:induction false} ScoresIffMentions(name: string, body: string, terms: seq<string>)
    ensures Score(name, body, terms) > 0 <==> Mentions(name, body, terms)
  {
    if |terms| > 0 {
      var last := |terms| - 1;
      ScoresIffMentions(name, body, terms[..last]);
      assert terms == terms[..last] + [terms[last]];
    }
  }

  function End(lines: seq<string>, start: nat): nat {
    Min(start + WIDTH, |lines|)
  }

  /** The window's chunk: its exact lines, trimmed, with their numbers. */
  function WindowChunk(name: string, lines: seq<string>, start: nat, terms: seq<string>): Chunk
    requires start < |lines|
  {
    var end := End(lines, start);
    Chunk(name, start + 1, end, Score(name, Join(lines[start..end]), terms),
          seq(end - start, i requires 0 <= i < end - start => Line(name, start + i + 1, TrimSpace(lines[start + i]))))
  }

  // ----- the windows of one file -----

  datatype File = File(name: string, lines: seq<string>)

  /** A query's parameters: `lineBytes` is the encoded size of a chunk's lines, `outputBytes` that of the whole output. */
  datatype Query = Query(
    terms: seq<string>, k: nat, lineBytes: seq<Line> -> nat, outputBytes: (seq<Chunk>, bool) -> nat)

  predicate Scores(q: Query, f: File, start: nat)
    requires start < |f.lines|
  {
    WindowChunk(f.name, f.lines, start, q.terms).score > 0
  }

  predicate Oversized(q: Query, c: Chunk) {
    q.lineBytes(c.lines) > OUTPUT_BYTES / 2
  }

  predicate Candidate(q: Query, f: File, start: nat) {
    start < |f.lines| && Scores(q, f, start) && !Oversized(q, WindowChunk(f.name, f.lines, start, q.terms))
  }

  /** What the scan of a file from `start` on keeps; it stops after a kept window that reaches the end. */
  function Kept(q: Query, f: File, start: nat): seq<Chunk>
    decreases |f.lines| - start
  {
    if start >= |f.lines| then []
    else if !Candidate(q, f, start) then Kept(q, f, start + STEP)
    else
      var c := WindowChunk(f.name, f.lines, start, q.terms);
      if End(f.lines, start) == |f.lines| then [c] else [c] + Kept(q, f, start + STEP)
  }

  /** What it leaves out as too large. */
  function TooLarge(q: Query, f: File, start: nat): seq<Chunk>
    decreases |f.lines| - start
  {
    if start >= |f.lines| then []
    else
      var c := WindowChunk(f.name, f.lines, start, q.terms);
      if Candidate(q, f, start) && End(f.lines, start) == |f.lines| then []
      else (if Scores(q, f, start) && Oversized(q, c) then [c] else []) + TooLarge(q, f, start + STEP)
  }

  /** What becomes of the window at `start`. */
  lemma ScanStep(q: Query, f: File, start: nat)
    requires start < |f.lines|
    ensures !Scores(q, f, start) ==>
              Kept(q, f, start) == Kept(q, f, start + STEP) && TooLarge(q, f, start) == TooLarge(q, f, start + STEP)
    ensures Scores(q, f, start) && !Candidate(q, f, start) ==>
              Kept(q, f, start) == Kept(q, f, start + STEP) && TooLarge(q, f, start) != []
    ensures Candidate(q, f, start) ==>
              var c := WindowChunk(f.name, f.lines, start, q.terms);
              if End(f.lines, start) == |f.lines| then Kept(q, f, start) == [c] && TooLarge(q, f, start) == []
              else Kept(q, f, start) == [c] + Kept(q, f, start + STEP) && TooLarge(q, f, start) == TooLarge(q, f, start + STEP)
  {
    hide Score, Oversized;
  }

  /** The window before reaches the end of the file and was kept: nothing is left for this one. */
  predicate Covered(q: Query, f: File, start: nat) {
    start >= STEP && Candidate(q, f, start - STEP) && End(f.lines, start - STEP) == |f.lines|
  }

  /** Window `w` is a candidate that does not lie inside its predecessor, and `c` is its chunk. */
  predicate IsWindow(q: Query, f: File, w: nat, c: Chunk) {
    Candidate(q, f, STEP * w) && !Covered(q, f, STEP * w) && c == WindowChunk(f.name, f.lines, STEP * w, q.terms)
  }

  ghost predicate SomeWindow(q: Query, f: File, from: nat, c: Chunk) {
    exists w :: from <= w && IsWindow(q, f, w, c)
  }

  /** A file's candidates are the scoring windows that fit, but for a last one inside its predecessor. */
  lemma {:induction false} KeptExact(q: Query, f: File, w: nat, c: Chunk)
    requires !Covered(q, f, STEP * w)
    ensures c in Kept(q, f, STEP * w) <==> SomeWindow(q, f, w, c)
    decreases |f.lines| - STEP * w
  {
    hide Kept, SomeWindow, Candidate;
    if STEP * w >= |f.lines| {
      NoWindow(q, f, w, c);
    } else if Candidate(q, f, STEP * w) && End(f.lines, STEP * w) == |f.lines| {
      OnlyLast(q, f, w, c);
    } else {
      KeptExact(q, f, w + 1, c);
      NextWindow(q, f, w, c);
      KeptStep(q, f, w, c);
    }
  }

  lemma NoWindow(q: Query, f: File, w: nat, c: Chunk)
    requires STEP * w >= |f.lines|
    ensures Kept(q, f, STEP * w) == [] && !SomeWindow(q, f, w, c)
  {
  }

  /** One step of the scan keeps window `w`, or goes on without it. */
  lemma KeptStep(q: Query, f: File, w: nat, c: Chunk)
    requires STEP * w < |f.lines| && !(Candidate(q, f, STEP * w) && End(f.lines, STEP * w) == |f.lines|)
    requires !Covered(q, f, STEP * w)
    ensures c in Kept(q, f, STEP * w) <==> IsWindow(q, f, w, c) || c in Kept(q, f, STEP * (w + 1))
  {
    if Candidate(q, f, STEP * w) {
      KeptCons(q, f, STEP * w, c);
    }
  }

  lemma KeptCons(q: Query, f: File, start: nat, c: Chunk)
    requires Candidate(q, f, start) && End(f.lines, start) != |f.lines|
    ensures c in Kept(q, f, start) <==> c == WindowChunk(f.name, f.lines, start, q.terms) || c in Kept(q, f, start + STEP)
  {
  }

  lemma NextWindow(q: Query, f: File, w: nat, c: Chunk)
    ensures SomeWindow(q, f, w, c) <==> IsWindow(q, f, w, c) || SomeWindow(q, f, w + 1, c)
  {
    if SomeWindow(q, f, w, c) && !IsWindow(q, f, w, c) {
      var v :| w <= v && IsWindow(q, f, v, c);
      assert w + 1 <= v;
    }
  }

  /** After a kept window that reaches the end, the only later one is inside it. */
  lemma OnlyLast(q: Query, f: File, w: nat, c: Chunk)
    requires Candidate(q, f, STEP * w) && End(f.lines, STEP * w) == |f.lines| && !Covered(q, f, STEP * w)
    ensures c in Kept(q, f, STEP * w) <==> SomeWindow(q, f, w, c)
  {
    NextWindow(q, f, w, c);
    if SomeWindow(q, f, w + 1, c) {
      var v :| w + 1 <= v && IsWindow(q, f, v, c);
      LaterCovered(q, f, w, v);
      assert false;
    }
  }

  lemma LaterCovered(q: Query, f: File, w: nat, v: nat)
    requires Candidate(q, f, STEP * w) && End(f.lines, STEP * w) == |f.lines| && v > w && STEP * v < |f.lines|
    ensures Covered(q, f, STEP * v)
  {
    assert v == w + 1;
  }

  /** A window left out as too large: it scores, but its chunk does not fit. */
  predicate IsOversized(q: Query, f: File, w: nat, c: Chunk) {
    && STEP * w < |f.lines| && c == WindowChunk(f.name, f.lines, STEP * w, q.terms)
    && Scores(q, f, STEP * w) && Oversized(q, c) && !Covered(q, f, STEP * w)
  }

  ghost predicate SomeOversized(q: Query, f: File, from: nat, c: Chunk) {
    exists w :: from <= w && IsOversized(q, f, w, c)
  }

  lemma {:induction false} TooLargeExact(q: Query, f: File, w: nat, c: Chunk)
    requires !Covered(q, f, STEP * w)
    ensures c in TooLarge(q, f, STEP * w) <==> SomeOversized(q, f, w, c)
    decreases |f.lines| - STEP * w
  {
    hide TooLarge, SomeOversized, Candidate;
    if STEP * w >= |f.lines| || (Candidate(q, f, STEP * w) && End(f.lines, STEP * w) == |f.lines|) {
      NoOversized(q, f, w, c);
    } else {
      TooLargeExact(q, f, w + 1, c);
      NextOversized(q, f, w, c);
      TooLargeStep(q, f, w, c);
    }
  }

  lemma NoOversized(q: Query, f: File, w: nat, c: Chunk)
    requires STEP * w >= |f.lines| || (Candidate(q, f, STEP * w) && End(f.lines, STEP * w) == |f.lines|)
    ensures TooLarge(q, f, STEP * w) == [] && !SomeOversized(q, f, w, c)
  {
    if SomeOversized(q, f, w, c) {
      var v :| w <= v && IsOversized(q, f, v, c);
      if v > w {
        LaterCovered(q, f, w, v);
      }
      assert false;
    }
  }

  lemma TooLargeStep(q: Query, f: File, w: nat, c: Chunk)
    requires STEP * w < |f.lines| && !(Candidate(q, f, STEP * w) && End(f.lines, STEP * w) == |f.lines|)
    requires !Covered(q, f, STEP * w)
    ensures c in TooLarge(q, f, STEP * w) <==> IsOversized(q, f, w, c) || c in TooLarge(q, f, STEP * (w + 1))
  {
    var d := WindowChunk(f.name, f.lines, STEP * w, q.terms);
    assert TooLarge(q, f, STEP * w)
        == (if Scores(q, f, STEP * w) && Oversized(q, d) then [d] else []) + TooLarge(q, f, STEP * (w + 1));
  }

  lemma NextOversized(q: Query, f: File, w: nat, c: Chunk)
    ensures SomeOversized(q, f, w, c) <==> IsOversized(q, f, w, c) || SomeOversized(q, f, w + 1, c)
  {
    if SomeOversized(q, f, w, c) && !IsOversized(q, f, w, c) {
      var v :| w <= v && IsOversized(q, f, v, c);
      assert w + 1 <= v;
    }
  }

  /** No window disappears: each is kept, left out as too large, inside a kept predecessor, or mentions no term. */
  lemma WindowsAreAccountedFor(q: Query, f: File, w: nat)
    requires STEP * w < |f.lines|
    ensures var c := WindowChunk(f.name, f.lines, STEP * w, q.terms);
            && (c in Kept(q, f, 0) <==> Candidate(q, f, STEP * w) && !Covered(q, f, STEP * w))
            && (c in Kept(q, f, 0) || c in TooLarge(q, f, 0) <==>
                  && Mentions(f.name, Join(f.lines[STEP * w..End(f.lines, STEP * w)]), q.terms)
                  && !Covered(q, f, STEP * w))
  {
    hide Kept, TooLarge, Covered, Mentions, Score, Oversized;
    var c := WindowChunk(f.name, f.lines, STEP * w, q.terms);
    ScoresIffMentions(f.name, Join(f.lines[STEP * w..End(f.lines, STEP * w)]), q.terms);
    FirstIsNotCovered(q, f);
    KeptExact(q, f, 0, c);
    TooLargeExact(q, f, 0, c);
    assert IsWindow(q, f, w, c) || IsOversized(q, f, w, c) <==> Scores(q, f, STEP * w) && !Covered(q, f, STEP * w);
    if SomeWindow(q, f, 0, c) {
      var v :| IsWindow(q, f, v, c);
      assert v == w;
    }
    if SomeOversized(q, f, 0, c) {
      var v :| IsOversized(q, f, v, c);
      assert v == w;
    }
  }

  lemma FirstIsNotCovered(q: Query, f: File)
    ensures !Covered(q, f, STEP * 0)
  {
  }

  lemma {:induction false} KeptStarts(q: Query, f: File, from: nat)
    ensures forall i | 0 <= i < |Kept(q, f, from)| :: Kept(q, f, from)[i].path == f.name && Kept(q, f, from)[i].startLine > from
    ensures Distinct(Kept(q, f, from))
    decreases |f.lines| - from
  {
    if from < |f.lines| {
      KeptStarts(q, f, from + STEP);
    }
  }

  /** What is kept of a file quotes it: up to 20 successive lines by their numbers, each trimmed, from every 16th line on. */
  lemma KeptQuoteTheFile(q: Query, f: File, c: Chunk)
    requires c in Kept(q, f, 0)
    ensures c.path == f.name && 1 <= c.startLine <= c.endLine <= |f.lines| && (c.startLine - 1) % 16 == 0
    ensures c.endLine == |f.lines| || c.endLine == c.startLine + 19
    ensures c.endLine <= c.startLine + 19 && |c.lines| == c.endLine - c.startLine + 1
    ensures forall k | 0 <= k < |c.lines| ::
              c.lines[k] == Line(f.name, c.startLine + k, TrimSpace(f.lines[c.startLine + k - 1]))
  {
    hide Kept, Candidate, Covered, WindowChunk;
    FirstIsNotCovered(q, f);
    KeptExact(q, f, 0, c);
    var w: nat :| IsWindow(q, f, w, c);
    CandidateStarts(q, f, STEP * w);
    WindowQuotes(f.name, f.lines, STEP * w, q.terms);
  }

  lemma CandidateStarts(q: Query, f: File, start: nat)
    requires Candidate(q, f, start)
    ensures start < |f.lines|
  {
  }

  lemma WindowQuotes(name: string, lines: seq<string>, start: nat, terms: seq<string>)
    requires start < |lines|
    ensures var c := WindowChunk(name, lines, start, terms);
            && c.path == name && c.startLine == start + 1 && c.startLine <= c.endLine <= |lines|
            && (c.endLine == |lines| || c.endLine == c.startLine + 19) && c.endLine <= c.startLine + 19
            && |c.lines| == c.endLine - c.startLine + 1
            && forall k | 0 <= k < |c.lines| ::
                 c.lines[k] == Line(name, c.startLine + k, TrimSpace(lines[c.startLine + k - 1]))
  {
    hide Score, TrimSpace;
  }

  // ----- all files -----

  function AllKept(q: Query, files: seq<File>): seq<Chunk> {
    if |files| == 0 then [] else AllKept(q, files[..|files| - 1]) + Kept(q, files[|files| - 1], 0)
  }

  function AllTooLarge(q: Query, files: seq<File>): seq<Chunk> {
    if |files| == 0 then [] else AllTooLarge(q, files[..|files| - 1]) + TooLarge(q, files[|files| - 1], 0)
  }

  lemma {:induction false} MoreFiles(q: Query, files: seq<File>, found: seq<File>)
    ensures AllKept(q, files + found) == AllKept(q, files) + AllKept(q, found)
    ensures AllTooLarge(q, files + found) == AllTooLarge(q, files) + AllTooLarge(q, found)
  {
    hide Kept, TooLarge, AllTooLarge;
    MoreTooLarge(q, files, found);
    if |found| == 0 {
      assert files + found == files;
    } else {
      var last := |found| - 1;
      MoreFiles(q, files, found[..last]);
      assert (files + found)[..|files + found| - 1] == files + found[..last];
      Associates(AllKept(q, files), AllKept(q, found[..last]), Kept(q, found[last], 0));
    }
  }

  lemma {:induction false} MoreTooLarge(q: Query, files: seq<File>, found: seq<File>)
    ensures AllTooLarge(q, files + found) == AllTooLarge(q, files) + AllTooLarge(q, found)
  {
    hide TooLarge;
    if |found| == 0 {
      assert files + found == files;
    } else {
      var last := |found| - 1;
      MoreTooLarge(q, files, found[..last]);
      assert (files + found)[..|files + found| - 1] == files + found[..last];
      Associates(AllTooLarge(q, files), AllTooLarge(q, found[..last]), TooLarge(q, found[last], 0));
    }
  }

  predicate DistinctNames(files: seq<File>) {
    forall i, j | 0 <= i < j < |files| :: files[i].name != files[j].name
  }

  lemma {:induction false} KeptPaths(q: Query, files: seq<File>, c: Chunk)
    requires c in AllKept(q, files)
    ensures exists i | 0 <= i < |files| :: files[i].name == c.path
  {
    var last := |files| - 1;
    if c in Kept(q, files[last], 0) {
      KeptStarts(q, files[last], 0);
    } else {
      KeptPaths(q, files[..last], c);
    }
  }

  lemma DistinctConcat(a: seq<Chunk>, b: seq<Chunk>)
    requires Distinct(a) && Distinct(b)
    requires forall x <- a, y <- b :: x.path != y.path
    ensures Distinct(a + b)
  {
    forall i, j | 0 <= i < j < |a + b| ensures Apart((a + b)[i], (a + b)[j]) {
      if i < |a| <= j {
        assert (a + b)[i] in a && (a + b)[j] in b;
      }
    }
  }

  /** Files with different names have different chunks. */
  lemma {:induction false} AllKeptDistinct(q: Query, files: seq<File>)
    requires DistinctNames(files)
    ensures Distinct(AllKept(q, files))
  {
    if |files| > 0 {
      var last := |files| - 1;
      AllKeptDistinct(q, files[..last]);
      KeptStarts(q, files[last], 0);
      forall x, y | x in AllKept(q, files[..last]) && y in Kept(q, files[last], 0) ensures x.path != y.path {
        KeptPaths(q, files[..last], x);
      }
      DistinctConcat(AllKept(q, files[..last]), Kept(q, files[last], 0));
    }
  }

  /**
   * An entry of the archive; `cut` says that the archive's size limit is reached at its header or in its body, or that one
   * of them cannot be read. The same can happen at the archive's end marker.
   */
  datatype Cut = Whole | AtHeader | InBody | BrokenHeader | BrokenBody

  datatype Entry = Entry(searchable: bool, name: string, size: nat, text: Option<seq<string>>, cut: Cut)

  datatype ArchiveEnd = Marker | CutMarker | BrokenMarker

  datatype Failure = BadQuery | BadTopK | Unavailable | Unreadable | Cancelled

  /** The entry cannot be read, and the scan has to. */
  predicate Broken(e: Entry) {
    e.cut == BrokenHeader || (e.cut == BrokenBody && e.searchable && e.size <= MAX_FILE_BYTES)
  }

  /** A file that counts towards the limit: its header can be read, it is regular with a searchable name, not too large. */
  predicate Counts(e: Entry) {
    e.cut != AtHeader && e.cut != BrokenHeader && e.searchable && e.size <= MAX_FILE_BYTES
  }

  function Counted(entries: seq<Entry>): nat {
    if |entries| == 0 then 0
    else Counted(entries[..|entries| - 1]) + if Counts(entries[|entries| - 1]) then 1 else 0
  }

  /** The scan ends at an entry: the archive's limit cuts its header or its body, or it is one file too many. */
  predicate Ends(e: Entry, counted: nat) {
    e.cut == AtHeader || (Counts(e) && (e.cut == InBody || counted == MAX_FILES))
  }

  predicate EndsAt(entries: seq<Entry>, i: nat) {
    i < |entries| && Ends(entries[i], Counted(entries[..i]))
  }

  /** The entries before `stop` can be read, and none of them ends the scan. */
  predicate Handled(entries: seq<Entry>, stop: nat) {
    stop <= |entries| && forall i | 0 <= i < stop :: !Broken(entries[i]) && !EndsAt(entries, i)
  }

  lemma NothingHandled(entries: seq<Entry>)
    ensures Handled(entries, 0)
  {
  }

  lemma HandledMore(entries: seq<Entry>, stop: nat)
    requires Handled(entries, stop) && stop < |entries| && !Broken(entries[stop]) && !EndsAt(entries, stop)
    ensures Handled(entries, stop + 1)
  {
  }

  /** The scan gets as far as `stop`, and nothing but a limit makes it stop there. */
  predicate StopsAt(entries: seq<Entry>, stop: nat) {
    Handled(entries, stop) && (stop < |entries| ==> EndsAt(entries, stop))
  }

  /** The files to search: regular, with a searchable name, not too large, and text. */
  function Texts(entries: seq<Entry>): seq<File> {
    if |entries| == 0 then []
    else
      var e := entries[|entries| - 1];
      Texts(entries[..|entries| - 1])
      + if e.searchable && e.size <= MAX_FILE_BYTES && e.text.Some? then [File(e.name, e.text.value)] else []
  }

  predicate TooLong(e: Entry) {
    e.searchable && e.size > MAX_FILE_BYTES
  }

  predicate AnyTooLong(entries: seq<Entry>) {
    exists i | 0 <= i < |entries| :: TooLong(entries[i])
  }

  lemma NoEntries()
    ensures Texts([]) == [] && !AnyTooLong([]) && Counted([]) == 0
  {
  }

  lemma NextEntry(entries: seq<Entry>, e: Entry)
    ensures AnyTooLong(entries + [e]) <==> AnyTooLong(entries) || TooLong(e)
    ensures Counted(entries + [e]) == Counted(entries) + if Counts(e) then 1 else 0
    ensures Texts(entries + [e]) == Texts(entries)
              + if e.searchable && e.size <= MAX_FILE_BYTES && e.text.Some? then [File(e.name, e.text.value)] else []
  {
    var more := entries + [e];
    assert more[..|entries|] == entries && more[|entries|] == e;
    if AnyTooLong(entries) {
      var i :| 0 <= i < |entries| && TooLong(entries[i]);
      assert TooLong(more[i]);
    }
  }

  /** The file a scan stops in has been opened, unless it is one too many. */
  function OpenedBy(e: Entry, counted: nat): nat {
    if Counts(e) && counted < MAX_FILES then counted + 1 else counted
  }

  function Opened(entries: seq<Entry>, stop: nat): nat
    requires stop <= |entries|
  {
    if stop < |entries| then OpenedBy(entries[stop], Counted(entries[..stop])) else Counted(entries)
  }

  lemma GoesOn(e: Entry, counted: nat)
    requires !Ends(e, counted) && counted <= MAX_FILES
    ensures OpenedBy(e, counted) == counted + (if Counts(e) then 1 else 0) <= MAX_FILES
  {
  }

  function Flatten(chunks: seq<Chunk>): seq<Line> {
    if |chunks| == 0 then [] else Flatten(chunks[..|chunks| - 1]) + chunks[|chunks| - 1].lines
  }

  datatype Output = Output(
    chunks: seq<Chunk>, matches: seq<Line>, resultsTruncated: bool, scannedFiles: nat, scanTruncated: bool)

  /** How the output looks with only the first `n` chunks. */
  predicate Fits(q: Query, best: seq<Chunk>, dropped: bool, n: nat) {
    n <= |best| && q.outputBytes(best[..n], dropped || n < |best|) <= OUTPUT_BYTES
  }

  /** The result is the longest prefix of `best` that fits, or there is none; the flag says whether anything is missing. */
  ghost predicate LongestFitting(q: Query, best: seq<Chunk>, dropped: bool, r: Option<Output>) {
    match r
    case None => forall n | 0 <= n <= |best| :: !Fits(q, best, dropped, n)
    case Some(out) =>
      && Fits(q, best, dropped, |out.chunks|) && out.chunks == best[..|out.chunks|]
      && (forall m | |out.chunks| < m <= |best| :: !Fits(q, best, dropped, m))
      && out.matches == Flatten(out.chunks)
      && (out.resultsTruncated <==> dropped || |out.chunks| < |best|)
  }

  class Scan {
    const q: Query
    var chunks: seq<Chunk>
    var candidates: nat
    var resultsTruncated: bool
    var scannedFiles: nat
    var scanTruncated: bool
    /** Every candidate so far, in scan order. */
    ghost var all: seq<Chunk>

    constructor (q: Query)
      ensures this.q == q && Best() && all == [] && !resultsTruncated && !scanTruncated && scannedFiles == 0
    {
      this.q := q;
      chunks, candidates, resultsTruncated, scannedFiles, scanTruncated, all := [], 0, false, 0, false, [];
    }

    /** `chunks` holds the best candidates. */
    ghost predicate Best()
      reads this`chunks, this`candidates, this`all
    {
      && candidates == |all| && |chunks| == Min(|all|, q.k)
      && (Distinct(all) ==> chunks == Top(all, q.k))
    }

    /** The library sort: ordered, and the same chunks. */
    method SortSlice(s: seq<Chunk>) returns (sorted: seq<Chunk>)
      ensures Sorted(sorted) && multiset(sorted) == multiset(s) && |sorted| == |s|
    {
      sorted := [];
      for i := 0 to |s|
        invariant |sorted| == i && Sorted(sorted) && multiset(sorted) == multiset(s[..i])
      {
        InsertSorted(s[i], sorted);
        InsertPermutes(s[i], sorted);
        assert s[..i + 1] == s[..i] + [s[i]];
        sorted := Insert(s[i], sorted);
      }
      assert s[..|s|] == s;
    }

    /** Appends, sorts and cuts. */
    method Keep(c: Chunk)
      requires Best()
      modifies this`chunks, this`candidates, this`all
      ensures Best() && all == old(all) + [c]
    {
      candidates := candidates + 1;
      var sorted := SortSlice(chunks + [c]);
      if Distinct(all + [c]) {
        assert forall i | 0 <= i < |all| :: (all + [c])[i] == all[i];
        TopStep(all, c, q.k, sorted);
      }
      all := all + [c];
      chunks := sorted;
      if |chunks| > q.k {
        chunks := chunks[..q.k];
      }
    }

    /** Scans a file's windows. The caller's context may be cancelled at any of them. */
    method ScanFile(f: File) returns (error: Option<Failure>)
      requires Best()
      modifies this`chunks, this`candidates, this`all, this`resultsTruncated
      ensures true == Best() && (error.Some? ==> error.value == Cancelled)
      ensures error.None? ==> all == old(all) + Kept(q, f, 0)
      ensures error.None? ==> (resultsTruncated <==> old(resultsTruncated) || TooLarge(q, f, 0) != [])
    {
      hide Best, Top, Distinct, Score, Join;
      var start := 0;
      while start < |f.lines|
        invariant true == Best()
        invariant all + Kept(q, f, start) == old(all) + Kept(q, f, 0)
        invariant (resultsTruncated || TooLarge(q, f, start) != []) <==> (old(resultsTruncated) || TooLarge(q, f, 0) != [])
        decreases |f.lines| - start
      {
        hide Kept, TooLarge;
        if * {
          return Some(Cancelled);
        }
        ScanStep(q, f, start);
        var end := Min(start + WIDTH, |f.lines|);
        var score := ScoreWindow(f.name, Join(f.lines[start..end]), q.terms);
        if score == 0 {
          start := start + STEP;
          continue;
        }
        var c := WindowChunk(f.name, f.lines, start, q.terms);
        if q.lineBytes(c.lines) > OUTPUT_BYTES / 2 {
          resultsTruncated := true;
          start := start + STEP;
          continue;
        }
        Associates(all, [c], Kept(q, f, start + STEP));
        Keep(c);
        if end == |f.lines| {
          return None;
        }
        start := start + STEP;
      }
      return None;
    }

    /**
     * Handles one entry; the scan ends here if a limit is reached or something fails. `found` is the file it searched, if
     * any.
     */
    method ScanEntry(e: Entry) returns (more: bool, error: Option<Failure>, ghost found: seq<File>)
      requires Best() && scannedFiles <= MAX_FILES
      modifies this
      ensures true == Best()
      ensures scannedFiles <= MAX_FILES
      ensures more ==> !Ends(e, old(scannedFiles))
      ensures !more && error.None? ==> Ends(e, old(scannedFiles))
      ensures more || error.None? ==> scannedFiles == OpenedBy(e, old(scannedFiles))
      ensures error.Some? ==>
                && !more
                && (error.value == Cancelled || (error.value == Unreadable && Broken(e) && !Ends(e, old(scannedFiles))))
      ensures !more && error.None? ==> all == old(all) && resultsTruncated == old(resultsTruncated) && scanTruncated
      ensures more ==>
                && !Broken(e)
                && found == (if e.searchable && e.size <= MAX_FILE_BYTES && e.text.Some? then [File(e.name, e.text.value)] else [])
                && all == old(all) + AllKept(q, found)
                && (resultsTruncated <==> old(resultsTruncated) || AllTooLarge(q, found) != [])
                && (scanTruncated <==> old(scanTruncated) || TooLong(e))
    {
      hide Best, Top, Distinct, Kept, TooLarge;
      more, error, found := false, None, [];
      if * {
        error := Some(Cancelled);
        return;
      }
      if e.cut == AtHeader {
        scanTruncated := true;
        return;
      }
      if e.cut == BrokenHeader {
        error := Some(Unreadable);
        return;
      }
      if !e.searchable {
        more := true;
        return;
      }
      if e.size > MAX_FILE_BYTES {
        scanTruncated, more := true, true;
        return;
      }
      if scannedFiles >= MAX_FILES {
        scanTruncated := true;
        return;
      }
      scannedFiles := scannedFiles + 1;
      if e.cut == InBody {
        scanTruncated := true;
        return;
      }
      if e.cut == BrokenBody {
        error := Some(Unreadable);
        return;
      }
      if e.text.Some? {
        found := [File(e.name, e.text.value)];
        error := ScanFile(File(e.name, e.text.value));
        assert found[..0] == [];
      }
      more := error.None?;
    }

    /** Scans entries until the archive's or the file limit ends it, or an error; `files` are those searched. */
    method ScanArchive(entries: seq<Entry>, end: ArchiveEnd)
      returns (error: Option<Failure>, ghost files: seq<File>, ghost stop: nat)
      requires Best() && all == [] && !resultsTruncated && !scanTruncated && scannedFiles == 0
      modifies this
      ensures true == Best() && scannedFiles <= MAX_FILES && stop <= |entries|
      ensures error.Some? ==> FailsAt(entries, end, stop, error.value)
      ensures error.None? ==> stop == |entries| ==> end != BrokenMarker
      ensures error.None? ==> files == Texts(entries[..stop]) && all == AllKept(q, files)
      ensures error.None? ==> StopsAt(entries, stop) && scannedFiles == Opened(entries, stop)
      ensures error.None? ==> (resultsTruncated <==> AllTooLarge(q, files) != [])
      ensures error.None? ==> (scanTruncated <==> stop < |entries| || end == CutMarker || AnyTooLong(entries[..stop]))
    {
      hide Best, Top, Distinct, Texts, AnyTooLong, Handled, Broken, Counted, Counts, Ends;
      assert entries[..0] == [];
      NoEntries();
      NothingHandled(entries);
      files, stop, error := [], 0, None;
      for i := 0 to |entries|
        invariant true == Best()
        invariant all == AllKept(q, files) && stop == i && files == Texts(entries[..i])
        invariant resultsTruncated <==> AllTooLarge(q, files) != []
        invariant scanTruncated <==> AnyTooLong(entries[..i])
        invariant scannedFiles <= MAX_FILES && error == None && scannedFiles == Counted(entries[..i])
        invariant true == Handled(entries, i)
      {
        NextEntry(entries[..i], entries[i]);
        assert entries[..i + 1] == entries[..i] + [entries[i]];
        ghost var found;
        var more;
        more, error, found := ScanEntry(entries[i]);
        if !more {
          return;
        }
        MoreFiles(q, files, found);
        HandledMore(entries, i);
        GoesOn(entries[i], Counted(entries[..i]));
        files := files + found;
        stop := i + 1;
      }
      assert entries[..|entries|] == entries;
      if * {
        error := Some(Cancelled);
      } else if end == CutMarker {
        scanTruncated := true;
      } else if end == BrokenMarker {
        error := Some(Unreadable);
      }
    }

    method AllLines(chunks: seq<Chunk>) returns (matches: seq<Line>)
      ensures matches == Flatten(chunks)
    {
      matches := [];
      for i := 0 to |chunks|
        invariant matches == Flatten(chunks[..i])
      {
        assert chunks[..i + 1][..i] == chunks[..i];
        matches := matches + chunks[i].lines;
      }
      assert chunks[..|chunks|] == chunks;
    }

    /** Drops chunks from the end until the output fits; with nothing left to drop the program panics. */
    method Finish() returns (r: Option<Output>)
      requires Best()
      modifies this`chunks, this`resultsTruncated
      ensures LongestFitting(q, old(chunks), old(resultsTruncated) || candidates > |old(chunks)|, r)
      ensures r.Some? ==> r.value.scannedFiles == scannedFiles && r.value.scanTruncated == scanTruncated
    {
      hide Best, Top, Distinct, Flatten;
      ghost var best := chunks;
      resultsTruncated := resultsTruncated || candidates > |chunks|;
      ghost var dropped := resultsTruncated;
      while true
        invariant |chunks| <= |best| && chunks == best[..|chunks|]
        invariant resultsTruncated <==> dropped || |chunks| < |best|
        invariant forall m | |chunks| < m <= |best| :: !Fits(q, best, dropped, m)
        decreases |chunks|
      {
        var matches := AllLines(chunks);
        if q.outputBytes(chunks, resultsTruncated) <= OUTPUT_BYTES {
          return Some(Output(chunks, matches, resultsTruncated, scannedFiles, scanTruncated));
        }
        resultsTruncated := true;
        if |chunks| == 0 {
          return None;
        }
        chunks := chunks[..|chunks| - 1];
      }
    }

    /**
     * The best `k` candidates of all searched files, cut to the longest prefix that fits; the flag tells exactly
     * whether a scoring window is missing from the output. An error is the caller's cancellation or a broken archive.
     */
    method Execute(entries: seq<Entry>, end: ArchiveEnd)
      returns (error: Option<Failure>, r: Option<Output>, ghost files: seq<File>, ghost stop: nat)
      requires Best() && all == [] && !resultsTruncated && !scanTruncated && scannedFiles == 0
      modifies this
      ensures stop <= |entries|
      ensures error.Some? ==> r.None? && FailsAt(entries, end, stop, error.value)
      ensures error.None? ==>
                files == Texts(entries[..stop]) && (stop == |entries| ==> end != BrokenMarker)
      ensures error.None? ==> true == StopsAt(entries, stop)
      ensures error.None? && r.Some? ==>
                && r.value.scannedFiles == Opened(entries, stop)
                && (r.value.scanTruncated <==> stop < |entries| || end == CutMarker || AnyTooLong(entries[..stop]))
      ensures error.None? && r.Some? ==>
                (r.value.resultsTruncated <==> AllTooLarge(q, files) != [] || |AllKept(q, files)| > |r.value.chunks|)
      ensures error.None? && DistinctNames(files) ==>
                var best := Top(AllKept(q, files), q.k);
                LongestFitting(q, best, AllTooLarge(q, files) != [] || |AllKept(q, files)| > |best|, r)
    {
      hide Texts, AnyTooLong, Handled, EndsAt;
      error, files, stop := ScanArchive(entries, end);
      if error.Some? {
        r := None;
        return;
      }
      if DistinctNames(files) {
        AllKeptDistinct(q, files);
      }
      ghost var best, dropped := chunks, resultsTruncated || candidates > |chunks|;
      assert DistinctNames(files) ==> best == Top(AllKept(q, files), q.k);
      r := Finish();
      assert true == LongestFitting(q, best, dropped, r);
      if r.Some? {
        Missing(best, dropped, r);
      }
    }

    lemma Missing(best: seq<Chunk>, dropped: bool, r: Option<Output>)
      requires LongestFitting(q, best, dropped, r) && r.Some?
      ensures |r.value.chunks| <= |best| && (r.value.resultsTruncated <==> dropped || |r.value.chunks| < |best|)
    {
    }
  }

  /** What makes a scan fail at entry `stop`, or at the end, with all before it handled. */
  predicate FailsAt(entries: seq<Entry>, end: ArchiveEnd, stop: nat, failure: Failure) {
    && Handled(entries, stop)
    && (|| failure == Cancelled
        || (&& failure == Unreadable
            && if stop == |entries| then end == BrokenMarker else Broken(entries[stop]) && !EndsAt(entries, stop)))
  }

  /**
   * One call of the tool: the query's terms and the number of results are checked, then the archive is scanned. `topK` is
   * what the input says, with the default filled in, or None if it is no integer; `reachable` says whether the pull request
   * and the archive can be had.
   */
  method RetrieveCode(query: string, isWord: char -> bool, topK: Option<int>, lineBytes: seq<Line> -> nat,
                      outputBytes: (seq<Chunk>, bool) -> nat, reachable: bool, entries: seq<Entry>, end: ArchiveEnd)
    returns (error: Option<Failure>, r: Option<Output>, ghost q: Query, ghost files: seq<File>, ghost stop: nat)
    ensures Ascending(q.terms) && forall t :: t in q.terms <==> HasField(ToLower(query), isWord, t)
    ensures error == Some(BadQuery) <==> |query| > QUERY_BYTES || !(1 <= |q.terms| <= MAX_TERMS)
    ensures error == Some(BadTopK) ==> topK.None? || !(1 <= topK.value <= 5)
    ensures error == Some(Unavailable) ==> !reachable
    ensures error.Some? ==> r.None?
    ensures error.None? ==> topK.Some? && 1 <= topK.value <= 5 && reachable && q.k == topK.value
    ensures error.None? ==> StopsAt(entries, stop) && files == Texts(entries[..stop])
    ensures error.None? && r.Some? ==>
              && r.value.scannedFiles == Opened(entries, stop)
              && (r.value.scanTruncated <==> stop < |entries| || end == CutMarker || AnyTooLong(entries[..stop]))
              && (r.value.resultsTruncated <==> AllTooLarge(q, files) != [] || |AllKept(q, files)| > |r.value.chunks|)
    ensures error.None? && DistinctNames(files) ==>
              var best := Top(AllKept(q, files), q.k);
              LongestFitting(q, best, AllTooLarge(q, files) != [] || |AllKept(q, files)| > |best|, r)
  {
    r, files, stop := None, [], 0;
    var terms := ParseTerms(query, isWord);
    q := Query(terms, if topK.Some? && topK.value > 0 then topK.value else 0, lineBytes, outputBytes);
    if |query| > QUERY_BYTES || |terms| == 0 || |terms| > MAX_TERMS {
      error := Some(BadQuery);
      return;
    }
    if topK.None? || topK.value < 1 || topK.value > 5 {
      error := Some(BadTopK);
      return;
    }
    if * {
      error := Some(Cancelled);
      return;
    }
    if !reachable {
      error := Some(Unavailable);
      return;
    }
    var scan := new Scan(Query(terms, topK.value, lineBytes, outputBytes));
    error, r, files, stop := scan.Execute(entries, end);
  }
}
