/**
 * What a kept quotation means, when everything the model was shown is what the tools and the service print for real
 * files. A reference the filter keeps is then a line of the new file - or a search result's snippet of one, since long
 * lines are clipped before they are printed, and the filter compares with the clipped text. Exactly the lines that clipping
 * changes can be misquoted.
 */
module HonestDiffs {
  import opened Collections
  import opened Text
  import opened EvidenceFilter
  import opened HonestOutputs
  import opened HonestTexts

  ghost predicate HonestSource(s: Source, files: Files) {
    HonestOutput(s, files) || HonestText(s, files)
  }

  lemma HonestSourceReads(s: Source, files: Files, e: Evidence)
    requires HonestSource(s, files) && SourceMatches(s, e) && e.file != "" && TrimSpace(e.text) != ""
    ensures Supports(files, e)
  {
    hide HonestRefs, HonestFile, HonestText, Reads, ReadsClipped, TrimSpace, RefMatches, FileMatches;
    if HonestText(s, files) {
      HonestTextReads(s, files, e);
    } else if RefMatches(s.refs.value, e) {
      HonestRefsRead(s.refs.value, files, e);
    } else if FileMatches(s.diffs.value.own, e) {
      HonestFileReads(s.diffs.value.own, files, e);
    } else {
      var i :| 0 <= i < |s.diffs.value.files| && FileMatches(s.diffs.value.files[i], e);
      HonestFileReads(s.diffs.value.files[i], files, e);
    }
  }

  ghost predicate HonestCorpus(sources: seq<Source>, files: Files) {
    forall s <- sources :: HonestSource(s, files)
  }

  /** The filter keeps this reference of the finding. */
  predicate KeepsReference(sources: seq<Source>, f: Finding, e: Evidence) {
    Keeps(sources, f) && e in Normalized(sources, f).evidence && e.kind == Reference
  }

  /**
   * A reference the filter keeps quotes the new file, at the finding's own file and line: its text there, or the snippet
   * of it. If clipping leaves the line alone, that is the line.
   */
  lemma {:induction false} KeptReferencesRead(sources: seq<Source>, files: Files, f: Finding, e: Evidence)
    requires HonestCorpus(sources, files) && KeepsReference(sources, f, e)
    ensures e.file == f.file && e.line == f.line
    ensures Reads(files, e) || ReadsClipped(files, e)
    ensures FitsSnippet(files[e.file][e.line - 1]) ==> Reads(files, e)
  {
    hide HonestSource, SourceMatches, TrimSpace, FitsSnippet, ClampSnippet;
    FilterMembers(f.evidence, e => Supported(sources, f, e));
    var i :| 0 <= i < |sources| && SourceMatches(sources[i], e);
    HonestSourceReads(sources[i], files, e);
    if ReadsClipped(files, e) {
      SnippetReadsIff(files, e);
    }
  }

  // ----- the lines that can be misquoted -----

  /** No named file has a line that clipping changes. */
  predicate AllFit(files: Files) {
    forall path <- files, n | path != "" && 0 <= n < |files[path]| :: FitsSnippet(files[path][n])
  }

  /** A search result for line `n`, and a finding that quotes its snippet. */
  function SearchResult(path: string, line: int, snippet: string): Source {
    var none := DiffFile("", "", None, "");
    Source("", Some(DiffOutput(none, [])), Some(RefOutput("", "", [RefMatch(path, line, snippet)])), None, [])
  }

  lemma SearchIsHonest(files: Files, path: string, n: nat)
    requires path in files && n < |files[path]|
    ensures HonestCorpus([SearchResult(path, n + 1, ClampSnippet(files[path][n], SNIPPET_SIZE))], files)
  {
    hide ClampSnippet;
  }

  lemma ClippedText(line: string)
    requires !FitsSnippet(line)
    ensures var s := ClampSnippet(line, SNIPPET_SIZE); TrimSpace(s) == s != "" && s != TrimSpace(line)
  {
    var t, s := TrimSpace(line), ClampSnippet(line, SNIPPET_SIZE);
    TrimSpaceTrimmed(line);
    assert s[0] == t[0] && s[|s| - 1] == '.';
    hide TrimSpace;
    TrimmedIsFixed(s);
  }

  lemma SnippetIsKept(path: string, line: int, snippet: string) returns (f: Finding, e: Evidence)
    requires path != "" && line > 0 && TrimSpace(snippet) == snippet != ""
    ensures e == Evidence(Reference, path, line, snippet, "", "") && KeepsReference([SearchResult(path, line, snippet)], f, e)
  {
    hide TrimSpace;
    var sources := [SearchResult(path, line, snippet)];
    e := Evidence(Reference, path, line, snippet, "", "");
    f := Finding(path, line, "", "", "", [e]);
    assert sources[0].refs.value.matches[0] == RefMatch(e.file, e.line, TrimSpace(e.text));
    assert RefMatches(sources[0].refs.value, e);
    assert SourceMatches(sources[0], e);
    assert Supported(sources, f, e);
    FilterMembers(f.evidence, e => Supported(sources, f, e));
  }

  /** For each line that clipping changes, a search result misleads the filter. */
  lemma LongLineMisleads(files: Files, path: string, n: nat) returns (sources: seq<Source>, f: Finding, e: Evidence)
    requires path != "" && path in files && n < |files[path]| && !FitsSnippet(files[path][n])
    ensures HonestCorpus(sources, files) && KeepsReference(sources, f, e) && !Reads(files, e)
  {
    hide ClampSnippet, HonestCorpus, KeepsReference, FitsSnippet, TrimSpace;
    var snippet := ClampSnippet(files[path][n], SNIPPET_SIZE);
    sources := [SearchResult(path, n + 1, snippet)];
    SearchIsHonest(files, path, n);
    ClippedText(files[path][n]);
    f, e := SnippetIsKept(path, n + 1, snippet);
  }

  /** The shortest such line has 501 characters. */
  lemma FiveHundredAndOne() returns (files: Files, sources: seq<Source>, f: Finding, e: Evidence)
    ensures files == map["main.go" := [seq(501, _ => 'a')]]
    ensures HonestCorpus(sources, files) && KeepsReference(sources, f, e) && !Reads(files, e)
  {
    hide HonestCorpus, KeepsReference, Reads;
    var line := seq(501, _ => 'a');
    files := map["main.go" := [line]];
    TrimmedIsFixed(line);
    assert line[500] != '.' && (line[..SNIPPET_SIZE] + " ...") != line;
    sources, f, e := LongLineMisleads(files, "main.go", 0);
  }

  /** Every reference kept under any honest corpus is a line of its file, iff clipping changes none of the lines. */
  lemma {:induction false} KeptReferencesReadIff(files: Files)
    ensures (forall sources, f, e | HonestCorpus(sources, files) && KeepsReference(sources, f, e) :: Reads(files, e))
            <==> AllFit(files)
  {
    hide HonestCorpus, KeepsReference, FitsSnippet;
    if AllFit(files) {
      forall sources, f, e | HonestCorpus(sources, files) && KeepsReference(sources, f, e) ensures Reads(files, e) {
        KeptReferencesRead(sources, files, f, e);
        KeptHasFile(sources, f, e);
      }
    } else {
      var path, n :| path in files && path != "" && 0 <= n < |files[path]| && !FitsSnippet(files[path][n]);
      var sources, f, e := LongLineMisleads(files, path, n);
    }
  }

  lemma KeptHasFile(sources: seq<Source>, f: Finding, e: Evidence)
    requires KeepsReference(sources, f, e)
    ensures f.file != ""
  {
  }
}
