/**
 * The file context of the plain service: whole files in sections of the prompt's form, cut to a number of lines
 * (internal/review/service.go, `buildFileContext` and `limitLines`), and what can be quoted from it. The sections are told
 * apart by their headings only, and a section is taken for a diff if one of its lines begins like a hunk header; so file
 * content that looks like either is misread.
 */
module FileContexts {
  import opened Collections
  import opened Text
  import opened UnifiedDiff
  import opened PatchReaders
  import opened DiffTheorems
  import opened ReaderAgreement
  import opened PromptSections
  import opened FetchFiles

  const CONTENT_REMARK := "[content truncated " + "because it exceeded " + "the configured line " + "limit]"

  predicate Limited(lines: seq<string>, maxLines: int) {
    0 < maxLines < |lines|
  }

  method LimitLines(content: string, maxLines: int) returns (limited: string)
    ensures limited == LimitText(content, maxLines)
  {
    if maxLines <= 0 {
      return content;
    }
    var lines := Split(content);
    if |lines| <= maxLines {
      return content;
    }
    return Join(lines[..maxLines]) + "\n" + CONTENT_REMARK;
  }

  function LimitText(content: string, maxLines: int): string {
    if Limited(Split(content), maxLines) then Join(Split(content)[..maxLines]) + "\n" + CONTENT_REMARK else content
  }

  /** The lines that are shown. */
  function Shown(lines: seq<string>, maxLines: int): seq<string> {
    if Limited(lines, maxLines) then lines[..maxLines] + [CONTENT_REMARK] else lines
  }

  /** A file's section is printed like a patch. */
  function ContextFiles(contents: seq<Content>, maxLines: int): (files: seq<FilePatch>)
    ensures |files| == |contents|
    ensures forall i | 0 <= i < |contents| ::
              files[i] == FilePatch(contents[i].path, LimitText(contents[i].text, maxLines))
  {
    seq(|contents|, i requires 0 <= i < |contents| => FilePatch(contents[i].path, LimitText(contents[i].text, maxLines)))
  }

  function ContextText(contents: seq<Content>, maxLines: int): string {
    DiffText(ContextFiles(contents, maxLines), 0, 0)
  }

  method BuildFileContext(contents: seq<Content>, maxLines: int) returns (b: string)
    ensures b == ContextText(contents, maxLines)
  {
    b := "";
    ghost var files, lineCount: nat := ContextFiles(contents, maxLines), 0;
    assert files[0..] == files;
    for i := 0 to |contents|
      invariant DiffText(files, 0, 0) == b + DiffText(files[i..], 0, lineCount)
    {
      hide DiffText, Split, LimitText;
      PrintsNext(files, i, 0, lineCount, b);
      lineCount := lineCount + |Split(files[i].patch)|;
      var limited := LimitLines(contents[i].text, maxLines);
      b := b + ("\n" + ("### " + contents[i].path + ("\n" + (limited + "\n"))));
    }
  }

  // ----- quoting -----

  /** No line begins like a section's heading or a hunk's header. */
  predicate Quiet(lines: seq<string>) {
    forall i | 0 <= i < |lines| :: !HasPrefix(lines[i], HEADING) && !HasPrefix(lines[i], "@@ ")
  }

  predicate QuietContext(contents: seq<Content>, maxLines: int) {
    && (forall c <- contents ::
          c.path != "" && Trimmed(c.path) && OneLine(c.path) && Quiet(Shown(Split(c.text), maxLines)))
    && (forall i, j | 0 <= i < j < |contents| :: contents[i].path != contents[j].path)
  }

  predicate ContextEvidence(contents: seq<Content>, maxLines: int, file: string, line: int, text: string) {
    PromptEvidence(ContextFiles(contents, maxLines), 0, file, line, text)
  }

  predicate ShowsAt(lines: seq<string>, line: int, text: string) {
    1 <= line <= |lines| && TrimSpace(lines[line - 1]) == TrimSpace(text)
  }

  lemma LimitedLines(content: string, maxLines: int)
    ensures Split(LimitText(content, maxLines)) == Shown(Split(content), maxLines)
  {
    var lines := Split(content);
    if Limited(lines, maxLines) {
      assert OneLine(CONTENT_REMARK);
      hide Split;
      SplitIsLines(content);
      SplitJoin(lines[..maxLines]);
      SplitAppend(Join(lines[..maxLines]), CONTENT_REMARK);
      SplitOneLine(CONTENT_REMARK);
    }
  }

  lemma ContextIsClean(contents: seq<Content>, maxLines: int)
    requires QuietContext(contents, maxLines)
    ensures CleanFiles(ContextFiles(contents, maxLines))
  {
    hide Split, LimitText, Shown, Trimmed;
    forall i | 0 <= i < |contents| ensures true == Clean(ContextFiles(contents, maxLines)[i]) {
      assert contents[i] in contents;
      LimitedLines(contents[i].text, maxLines);
    }
  }

  /** A section of quiet lines is read line by line. */
  lemma PlainSection(patch: string, line: int, text: string)
    requires Quiet(Split(patch)) && TrimSpace(text) != ""
    ensures SectionEvidence(patch + "\n" + "", line, text) <==> ShowsAt(Split(patch), line, text)
  {
    hide Split;
    SplitAppend(patch, "");
    SplitOneLine("");
    var lines := Split(patch + "\n" + "");
    assert !IsUnifiedDiff(patch + "\n" + "") by {
      assert forall i | 0 <= i < |lines| :: !HasPrefix(lines[i], "@@ ");
    }
    assert TrimSpace("") == "";
  }

  /** From a quiet context, exactly the shown lines can be quoted, at their numbers. */
  lemma {:induction false} ContextLookup(contents: seq<Content>, maxLines: int, i: nat, line: int, text: string)
    requires QuietContext(contents, maxLines) && i < |contents| && TrimSpace(text) != ""
    ensures ContextEvidence(contents, maxLines, contents[i].path, line, text) <==>
            ShowsAt(Shown(Split(contents[i].text), maxLines), line, text)
  {
    var files := ContextFiles(contents, maxLines);
    assert Tail(files, 0, 0, i) == "";
    assert contents[i] in contents;
    hide Split, LimitText, Shown, PromptEvidence, SectionEvidence, CleanFiles, Tail, Printed, ShowsAt;
    ContextIsClean(contents, maxLines);
    AllPrinted(files);
    PromptLookup(files, 0, i, line, text);
    LimitedLines(contents[i].text, maxLines);
    PlainSection(files[i].patch, line, text);
  }

  lemma AllPrinted(files: seq<FilePatch>)
    ensures Printed(files, 0, 0) == |files|
  {
  }

  /** Without a cut within the file, or if the line after it reads like the remark. */
  predicate RemarkReads(lines: seq<string>, maxLines: int) {
    Limited(lines, maxLines) ==> TrimSpace(lines[maxLines]) == TrimSpace(CONTENT_REMARK)
  }

  lemma RemarkIsText()
    ensures TrimSpace(CONTENT_REMARK) == CONTENT_REMARK != ""
  {
    hide TrimSpace;
    var s := CONTENT_REMARK;
    assert s[0] == '[' && s[|s| - 1] == ']';
    TrimmedIsFixed(s);
  }

  /** Every quotation of a shown file is a line of the file, iff the file is not cut - or goes on with the remark itself. */
  lemma {:induction false} ContextReadsIff(contents: seq<Content>, maxLines: int, i: nat)
    requires QuietContext(contents, maxLines) && i < |contents|
    ensures var lines := Split(contents[i].text);
            (forall line, text |
               TrimSpace(text) != "" && ContextEvidence(contents, maxLines, contents[i].path, line, text) ::
                 ShowsAt(lines, line, text))
            <==> RemarkReads(lines, maxLines)
  {
    hide Split, ContextEvidence, QuietContext, TrimSpace;
    var lines, path := Split(contents[i].text), contents[i].path;
    if RemarkReads(lines, maxLines) {
      forall line, text | TrimSpace(text) != "" && ContextEvidence(contents, maxLines, path, line, text)
        ensures ShowsAt(lines, line, text)
      {
        ContextLookup(contents, maxLines, i, line, text);
        ShownReads(lines, maxLines, line, text);
      }
    } else {
      RemarkIsText();
      ContextLookup(contents, maxLines, i, maxLines + 1, CONTENT_REMARK);
      RemarkIsShown(lines, maxLines);
      assert !ShowsAt(lines, maxLines + 1, CONTENT_REMARK);
    }
  }

  lemma ShownReads(lines: seq<string>, maxLines: int, line: int, text: string)
    requires RemarkReads(lines, maxLines) && ShowsAt(Shown(lines, maxLines), line, text)
    ensures ShowsAt(lines, line, text)
  {
    hide TrimSpace;
  }

  lemma RemarkIsShown(lines: seq<string>, maxLines: int)
    requires Limited(lines, maxLines)
    ensures ShowsAt(Shown(lines, maxLines), maxLines + 1, CONTENT_REMARK)
  {
    hide TrimSpace;
  }

  // ----- content that is not quiet -----

  /** A later heading opens a section that lasts to the end, whatever comes before. */
  lemma {:induction false} ScanLastHeading(before: seq<string>, name: string, after: seq<string>, path: string,
                                           section: seq<string>, sections: map<string, string>)
    requires name != "" && Trimmed(name) && NoHeading(after)
    ensures var all := Scan(before + ([HEADING + name] + after), path, section, sections);
            name in all && all[name] == Join(after)
  {
    var lines := before + ([HEADING + name] + after);
    if |before| == 0 {
      assert lines == [HEADING + name] + after && lines[1..] == after;
      assert (HEADING + name)[|HEADING|..] == name;
      TrimmedIsFixed(name);
      var closed := Flush(sections, path, section);
      assert Scan(lines, path, section, sections) == Scan(after, name, [], closed);
      ScanPlain(after, [], name, [], closed);
      assert after + [] == after && [] + after == after;
    } else {
      assert lines[0] == before[0] && lines[1..] == before[1..] + ([HEADING + name] + after);
      hide Flush;
      if HasPrefix(lines[0], HEADING) {
        ScanLastHeading(before[1..], name, after, TrimSpace(lines[0][|HEADING|..]), [], Flush(sections, path, section));
      } else if path != "" {
        ScanLastHeading(before[1..], name, after, path, section + [lines[0]], sections);
      } else {
        ScanLastHeading(before[1..], name, after, path, section, sections);
      }
    }
  }

  /** A file with a line that reads as another file's heading: what follows is taken for that file's first lines. */
  lemma {:induction false} HeadingMisleads(c: Content, name: string, before: seq<string>, after: seq<string>, k: nat)
    requires OneLine(c.path) && name != "" && Trimmed(name)
    requires Split(c.text) == before + ([HEADING + name] + after) && Quiet(after) && k < |after|
    ensures ContextEvidence([c], 0, name, k + 1, after[k])
  {
    var files := ContextFiles([c], 0);
    assert files == [FilePatch(c.path, c.text)] && files[1..] == [];
    PromptLines(files, 0, 0);
    HeadedBody(HEADING + c.path, before, HEADING + name, after);
    OneLinesAfter(c.text, before, HEADING + name, after);
    hide Split, Scan, TrimSpace, IsUnifiedDiff, Trimmed, DiffText;
    assert DiffText([], 0, 0 + |Split(c.text)|) == "" && Split("") == [""] by { NothingMore(|Split(c.text)|); }
    ScanLastHeading(["", HEADING + c.path] + before, name, after + [""], "", [], map[]);
    var section := Join(after + [""]);
    SplitJoin(after + [""]);
    assert Split(section)[k] == after[k];
    QuietIsPlain(section, after);
  }

  lemma NothingMore(lineCount: nat)
    ensures DiffText([], 0, lineCount) == "" && Split("") == [""]
  {
  }

  lemma QuietIsPlain(section: string, after: seq<string>)
    requires Quiet(after) && Split(section) == after + [""]
    ensures !IsUnifiedDiff(section)
  {
    hide Split;
    assert forall i | 0 <= i < |after + [""]| :: !HasPrefix((after + [""])[i], "@@ ");
  }

  lemma HeadedBody(heading: string, before: seq<string>, inner: string, after: seq<string>)
    ensures ["", heading] + ((before + ([inner] + after)) + [""]) == (["", heading] + before) + ([inner] + (after + [""]))
  {
  }

  lemma OneLinesAfter(text: string, before: seq<string>, inner: string, after: seq<string>)
    requires Split(text) == before + ([inner] + after)
    ensures OneLines(after + [""])
  {
    hide Split;
    SplitIsLines(text);
    forall i | 0 <= i < |after + [""]| ensures OneLine((after + [""])[i]) {
      assert i < |after| ==> after[i] == Split(text)[|before| + 1 + i];
    }
  }

  /** A file that holds a diff is quoted by the numbers of that diff, not by its own. */
  lemma {:induction false} HunksMislead(c: Content, old': seq<string>, new': seq<string>, hunks: seq<Hunk>, line: int,
                                        text: string)
    requires c.path != "" && Trimmed(c.path) && OneLine(c.path) && c.text == Patch(hunks) && |hunks| > 0
    requires OneLineHunks(hunks) && Turns(old', new', hunks, 0, 0) && |old'| < MAX_INT && |new'| < MAX_INT
    requires PlainHunks(hunks)
    ensures Covered(hunks, line) ==> 1 <= line <= |new'|
    ensures ContextEvidence([c], 0, c.path, line, text) <==>
            Covered(hunks, line) && TrimSpace(new'[line - 1]) == TrimSpace(text)
  {
    var files := ContextFiles([c], 0);
    assert files == [FilePatch(c.path, Patch(hunks))];
    PrintedIsClean(files[0], hunks);
    AllPrinted(files);
    hide PromptEvidence, Patch, Turns, OneLineHunks, Clean, Covered;
    PromptQuotesNewFile(files, 0, 0, old', new', hunks, line, text);
  }
}
