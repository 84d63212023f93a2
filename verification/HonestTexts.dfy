/**
 * What the service prints for real files - the prompt's diffs, cut or not, and the file context - and what can be quoted
 * from it.
 */
module HonestTexts {
  import opened Collections
  import opened Text
  import opened UnifiedDiff
  import opened PatchReaders
  import opened DiffTheorems
  import opened ReaderAgreement
  import opened PromptSections
  import opened EvidenceFilter
  import opened FileContexts
  import opened HonestOutputs
  import FetchFiles

  // ----- the prompt -----

  predicate PrintsChange(f: FilePatch, old': seq<string>, new': seq<string>, hunks: seq<Hunk>) {
    && f.patch == Patch(hunks) && |hunks| > 0 && PlainHunks(hunks)
    && OneLineHunks(hunks) && Turns(old', new', hunks, 0, 0) && |old'| < MAX_INT && |new'| < MAX_INT
  }

  /** A file of the prompt: what the change made of it, or no patch at all. */
  ghost predicate HonestPatch(f: FilePatch, files: Files) {
    f.patch == "" || exists old', hunks :: PrintsChange(f, old', LinesOf(files, f.filename), hunks)
  }

  /** The remark on a cut stands right after a patch, or the file there really goes on like that. */
  predicate RemarkIsHarmless(patches: seq<FilePatch>, maxLines: int, files: Files) {
    forall i | 0 <= i < |patches| && LastBeforeCut(patches, maxLines, 0, i) && patches[i].patch == "" ::
      ShowsAt(LinesOf(files, patches[i].filename), 3, REMARK)
  }

  lemma DiffRemarkIsText()
    ensures TrimSpace(REMARK) == REMARK != ""
  {
    hide TrimSpace;
    var s := REMARK;
    assert s[0] == '[' && s[|s| - 1] == ']';
    TrimmedIsFixed(s);
  }

  /** The section of a file without a patch shows nothing, except the remark as its third line. */
  lemma EmptyPatch(patches: seq<FilePatch>, maxLines: int, i: nat, line: int, text: string)
    requires i < |patches| && patches[i].patch == "" && TrimSpace(text) != ""
    ensures SectionEvidence(Section(patches, maxLines, i), line, text) <==>
            LastBeforeCut(patches, maxLines, 0, i) && line == 3 && TrimSpace(text) == TrimSpace(REMARK)
  {
    var tail := Tail(patches, maxLines, 0, i);
    assert OneLine(REMARK);
    BetweenNewlines(REMARK);
    RemarkLines(tail);
    hide Split, Tail;
    SplitAppend("", tail);
    assert Section(patches, maxLines, i) == "" + "\n" + tail;
    SameHunks("", Section(patches, maxLines, i), Split(tail));
    assert !IsUnifiedDiff("");
    assert TrimSpace("") == "";
    assert tail == if LastBeforeCut(patches, maxLines, 0, i) then DIFF_TRUNCATED else "" by { TailIs(patches, maxLines, i); }
  }

  lemma TailIs(patches: seq<FilePatch>, maxLines: int, i: nat)
    ensures Tail(patches, maxLines, 0, i) == if LastBeforeCut(patches, maxLines, 0, i) then DIFF_TRUNCATED else ""
  {
  }

  /** Only the prompt's own files have sections. */
  lemma HasSection(patches: seq<FilePatch>, maxLines: int, e: Evidence) returns (i: nat)
    requires CleanFiles(patches) && PromptEvidence(patches, maxLines, e.file, e.line, e.text)
    ensures i < |patches| && patches[i].filename == e.file
  {
    hide CleanFiles, DiffText, Scan, SectionEvidence, Split, PatchMap;
    SectionsRoundTrip(patches, maxLines);
    if forall k | 0 <= k < |patches| :: patches[k].filename != e.file {
      PatchMapOnly(patches, maxLines, 0, e.file);
      assert false;
    }
    i :| 0 <= i < |patches| && patches[i].filename == e.file;
  }

  lemma PromptReads(patches: seq<FilePatch>, maxLines: int, files: Files, e: Evidence)
    requires CleanFiles(patches) && (forall f <- patches :: HonestPatch(f, files))
    requires RemarkIsHarmless(patches, maxLines, files)
    requires PromptEvidence(patches, maxLines, e.file, e.line, e.text) && TrimSpace(e.text) != ""
    ensures Reads(files, e)
  {
    hide CleanFiles, PromptEvidence, PlainHunks, OneLineHunks, Turns, Patch, LastBeforeCut, SectionEvidence, TrimSpace, LinesOf;
    var i := HasSection(patches, maxLines, e);
    assert HonestPatch(patches[i], files);
    if patches[i].patch == "" {
      PromptLookup(patches, maxLines, i, e.line, e.text);
      EmptyPatch(patches, maxLines, i, e.line, e.text);
    } else {
      var new' := LinesOf(files, e.file);
      var old', hunks :| PrintsChange(patches[i], old', new', hunks);
      PromptQuotesNewFile(patches, maxLines, i, old', new', hunks, e.line, e.text);
    }
    CoveredReads(files, e);
  }

  /** The remark after a file without a patch can be quoted as that file's third line. */
  lemma RemarkMisleads(patches: seq<FilePatch>, maxLines: int, files: Files, i: nat) returns (e: Evidence)
    requires CleanFiles(patches) && i < |patches| && LastBeforeCut(patches, maxLines, 0, i) && patches[i].patch == ""
    requires !ShowsAt(LinesOf(files, patches[i].filename), 3, REMARK)
    ensures PromptEvidence(patches, maxLines, e.file, e.line, e.text) && TrimSpace(e.text) != "" && !Reads(files, e)
  {
    hide CleanFiles, PromptEvidence, SectionEvidence, TrimSpace;
    e := Evidence(Reference, patches[i].filename, 3, REMARK, "", "");
    DiffRemarkIsText();
    PromptLookup(patches, maxLines, i, 3, REMARK);
    EmptyPatch(patches, maxLines, i, 3, REMARK);
  }

  /** Every quotation from an honest prompt is a line of the file it names, iff the remark on a cut is harmless. */
  lemma {:induction false} PromptReadsIff(patches: seq<FilePatch>, maxLines: int, files: Files)
    requires CleanFiles(patches) && forall f <- patches :: HonestPatch(f, files)
    ensures (forall e: Evidence |
               PromptEvidence(patches, maxLines, e.file, e.line, e.text) && TrimSpace(e.text) != "" :: Reads(files, e))
            <==> RemarkIsHarmless(patches, maxLines, files)
  {
    hide CleanFiles, PromptEvidence, LastBeforeCut, TrimSpace, HonestPatch, ShowsAt;
    if RemarkIsHarmless(patches, maxLines, files) {
      forall e: Evidence | PromptEvidence(patches, maxLines, e.file, e.line, e.text) && TrimSpace(e.text) != ""
        ensures Reads(files, e)
      {
        PromptReads(patches, maxLines, files, e);
      }
    } else {
      var i :| 0 <= i < |patches| && LastBeforeCut(patches, maxLines, 0, i) && patches[i].patch == "" &&
               !ShowsAt(LinesOf(files, patches[i].filename), 3, REMARK);
      var e := RemarkMisleads(patches, maxLines, files, i);
    }
  }

  ghost predicate PrintsPrompt(raw: string, patches: seq<FilePatch>, maxLines: int, files: Files) {
    && CleanFiles(patches) && (forall f <- patches :: HonestPatch(f, files))
    && RemarkIsHarmless(patches, maxLines, files) && raw == DiffText(patches, maxLines, 0)
  }

  // ----- the file context -----

  /** The file's text, with or without a final newline. */
  predicate IsTextOf(text: string, lines: seq<string>) {
    Split(text) == lines || Split(text) == lines + [""]
  }

  predicate PrintsContext(raw: string, contents: seq<FetchFiles.Content>, maxLines: int, files: Files) {
    && QuietContext(contents, maxLines) && raw == ContextText(contents, maxLines)
    && forall c <- contents :: c.path in files && IsTextOf(c.text, files[c.path]) && RemarkReads(Split(c.text), maxLines)
  }

  lemma ContextReads(contents: seq<FetchFiles.Content>, maxLines: int, files: Files, e: Evidence)
    requires PrintsContext(ContextText(contents, maxLines), contents, maxLines, files)
    requires ContextEvidence(contents, maxLines, e.file, e.line, e.text) && TrimSpace(e.text) != ""
    ensures Reads(files, e)
  {
    hide ContextText, QuietContext, RemarkReads, Split, TrimSpace, LimitText;
    ContextIsClean(contents, maxLines);
    assert PromptEvidence(ContextFiles(contents, maxLines), 0, e.file, e.line, e.text);
    hide ContextEvidence, PromptEvidence, CleanFiles;
    var i := HasSection(ContextFiles(contents, maxLines), 0, e);
    assert contents[i] in contents;
    var lines := Split(contents[i].text);
    ContextReadsIff(contents, maxLines, i);
    assert ShowsAt(lines, e.line, e.text);
    assert TrimSpace("") == "" by { BlankIsBlank(); }
  }

  lemma BlankIsBlank()
    ensures TrimSpace("") == ""
  {
  }

  // ----- any text of the service -----

  /** Text of the service: the prompt's diffs or its file context, or a remark in place of either. None of it is JSON. */
  ghost predicate HonestText(s: Source, files: Files) {
    && s.diffs.None? && s.refs.None?
    && (|| NoHeading(Split(s.raw))
        || (exists patches, maxLines :: PrintsPrompt(s.raw, patches, maxLines, files))
        || (exists contents, maxLines :: PrintsContext(s.raw, contents, maxLines, files)))
  }

  lemma {:induction false} NoSections(lines: seq<string>)
    requires NoHeading(lines)
    ensures Scan(lines, "", [], map[]) == map[]
  {
    if |lines| > 0 { NoSections(lines[1..]); }
  }

  lemma HonestTextReads(s: Source, files: Files, e: Evidence)
    requires HonestText(s, files) && SourceMatches(s, e) && TrimSpace(e.text) != ""
    ensures Reads(files, e)
  {
    hide CleanFiles, QuietContext, Scan, SectionEvidence, Split, HonestPatch, RemarkIsHarmless, NoHeading, TrimSpace;
    assert RawMatches(s.raw, e);
    if NoHeading(Split(s.raw)) {
      NoSections(Split(s.raw));
      assert false;
    } else if patches, maxLines :| PrintsPrompt(s.raw, patches, maxLines, files) {
      PromptReads(patches, maxLines, files, e);
    } else {
      var contents, maxLines :| PrintsContext(s.raw, contents, maxLines, files);
      ContextReads(contents, maxLines, files, e);
    }
  }
}
