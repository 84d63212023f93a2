/**
 * The prompt's per-file sections: buildDiff prints them, rawSections reads them back, and rawReferenceEvidence looks a
 * quotation up in the section of its file (internal/review/service.go).
 */
module PromptSections {
  import opened Collections
  import opened Text
  import opened UnifiedDiff
  import opened PatchReaders
  import opened DiffTheorems
  import opened ReaderAgreement

  const HEADING := "### "
  const REMARK := "[diff truncated " + "because it exceeded " + "the configured line " + "limit]"
  const DIFF_TRUNCATED := "\n" + REMARK + "\n"

  // ----- buildDiff -----

  function FileText(f: FilePatch): string {
    "\n" + ("### " + f.filename + ("\n" + (f.patch + "\n")))
  }

  /** The prompt text for the files from index `i` on, `lineCount` patch lines having been printed before them. */
  function DiffText(files: seq<FilePatch>, maxLines: int, lineCount: nat): string {
    if |files| == 0 then ""
    else if maxLines > 0 && lineCount >= maxLines then DIFF_TRUNCATED
    else FileText(files[0]) + DiffText(files[1..], maxLines, lineCount + |Split(files[0].patch)|)
  }

  /** One more file is printed. */
  lemma PrintsNext(files: seq<FilePatch>, i: nat, maxLines: int, lineCount: nat, b: string)
    requires i < |files| && !(maxLines > 0 && lineCount >= maxLines)
    ensures b + DiffText(files[i..], maxLines, lineCount)
         == b + FileText(files[i]) + DiffText(files[i + 1..], maxLines, lineCount + |Split(files[i].patch)|)
  {
    hide FileText, Split;
    assert files[i..][1..] == files[i + 1..];
    Associates(b, FileText(files[i]), DiffText(files[i + 1..], maxLines, lineCount + |Split(files[i].patch)|));
  }

  lemma PrintsCut(files: seq<FilePatch>, i: nat, maxLines: int, lineCount: nat)
    requires i < |files| && maxLines > 0 && lineCount >= maxLines
    ensures DiffText(files[i..], maxLines, lineCount) == DIFF_TRUNCATED
  {
  }

  method BuildDiff(files: seq<FilePatch>, maxLines: int) returns (b: string)
    ensures b == DiffText(files, maxLines, 0)
  {
    hide DiffText, FileText, Split;
    b := "";
    var lineCount := 0;
    var i := 0;
    assert files[0..] == files && "" + DiffText(files, maxLines, 0) == DiffText(files, maxLines, 0);
    while i < |files|
      invariant 0 <= i <= |files| && lineCount >= 0
      invariant DiffText(files, maxLines, 0) == b + DiffText(files[i..], maxLines, lineCount)
    {
      if maxLines > 0 && lineCount >= maxLines {
        PrintsCut(files, i, maxLines, lineCount);
        b := b + DIFF_TRUNCATED;
        return;
      }
      PrintsNext(files, i, maxLines, lineCount, b);
      b := b + FileText(files[i]);
      lineCount := lineCount + |Split(files[i].patch)|;
      i := i + 1;
    }
    PrintsNothing(maxLines, lineCount);
    assert files[i..] == [] && b + "" == b;
  }

  lemma PrintsNothing(maxLines: int, lineCount: nat)
    ensures DiffText([], maxLines, lineCount) == ""
  {
  }

  // ----- rawSections -----

  function Flush(sections: map<string, string>, path: string, section: seq<string>): map<string, string> {
    if path != "" then sections[path := Join(section)] else sections
  }

  function Scan(lines: seq<string>, path: string, section: seq<string>, sections: map<string, string>): map<string, string> {
    if |lines| == 0 then Flush(sections, path, section)
    else if HasPrefix(lines[0], HEADING) then
      Scan(lines[1..], TrimSpace(lines[0][|HEADING|..]), [], Flush(sections, path, section))
    else if path != "" then Scan(lines[1..], path, section + [lines[0]], sections)
    else Scan(lines[1..], path, section, sections)
  }

  method RawSections(source: string) returns (sections: map<string, string>)
    ensures sections == Scan(Split(source), "", [], map[])
  {
    sections := map[];
    var path := "";
    var section: seq<string> := [];
    var lines := Split(source);
    assert lines[0..] == lines;
    var i := 0;
    while i < |lines|
      invariant 0 <= i <= |lines|
      invariant Scan(lines, "", [], map[]) == Scan(lines[i..], path, section, sections)
    {
      var line := lines[i];
      assert lines[i..][1..] == lines[i + 1..];
      i := i + 1;
      if HasPrefix(line, HEADING) {
        if path != "" {
          sections := sections[path := Join(section)];
        }
        path := TrimSpace(line[|HEADING|..]);
        section := [];
        continue;
      }
      if path != "" {
        section := section + [line];
      }
    }
    if path != "" {
      sections := sections[path := Join(section)];
    }
  }

  // ----- round trip -----

  predicate NoHeading(lines: seq<string>) {
    forall i | 0 <= i < |lines| :: !HasPrefix(lines[i], HEADING)
  }

  /** A file the prompt can carry: a clean name, and no patch line that starts a section of its own. */
  predicate Clean(f: FilePatch) {
    f.filename != "" && Trimmed(f.filename) && OneLine(f.filename) && NoHeading(Split(f.patch))
  }

  predicate CleanFiles(files: seq<FilePatch>) {
    && (forall i | 0 <= i < |files| :: Clean(files[i]))
    && (forall i, j | 0 <= i < j < |files| :: files[i].filename != files[j].filename)
  }

  predicate Cut(maxLines: int, lineCount: nat) {
    maxLines > 0 && lineCount >= maxLines
  }

  /** What is printed after the last file: a remark, if there are more but the limit is reached. */
  function Remark(rest: seq<FilePatch>, maxLines: int, lineCount: nat): string {
    if |rest| > 0 && Cut(maxLines, lineCount) then DIFF_TRUNCATED else ""
  }

  /** Each printed file's name with its patch and a final newline, and with the remark if it is the last one. */
  function PatchMap(files: seq<FilePatch>, maxLines: int, lineCount: nat): map<string, string> {
    if |files| == 0 || Cut(maxLines, lineCount) then map[]
    else
      var next := lineCount + |Split(files[0].patch)|;
      PatchMap(files[1..], maxLines, next)[
        files[0].filename := files[0].patch + "\n" + Remark(files[1..], maxLines, next)]
  }

  /** How many files are printed: all, if there is no limit. */
  function Printed(files: seq<FilePatch>, maxLines: int, lineCount: nat): (n: nat)
    ensures n <= |files| && (maxLines <= 0 ==> n == |files|)
  {
    if |files| == 0 || Cut(maxLines, lineCount) then 0
    else 1 + Printed(files[1..], maxLines, lineCount + |Split(files[0].patch)|)
  }

  predicate LastBeforeCut(files: seq<FilePatch>, maxLines: int, lineCount: nat, i: nat) {
    i + 1 == Printed(files, maxLines, lineCount) < |files|
  }

  /** What is printed after the `i`th file's patch and its newline, up to the next section. */
  function Tail(files: seq<FilePatch>, maxLines: int, lineCount: nat, i: nat): string {
    if LastBeforeCut(files, maxLines, lineCount, i) then DIFF_TRUNCATED else ""
  }

  lemma TailStep(files: seq<FilePatch>, maxLines: int, lineCount: nat, i: nat)
    requires |files| > 0 && !Cut(maxLines, lineCount)
    ensures var next := lineCount + |Split(files[0].patch)|;
            Tail(files, maxLines, lineCount, i)
              == if i == 0 then Remark(files[1..], maxLines, next) else Tail(files[1..], maxLines, next, i - 1)
  {
    hide Split;
  }

  lemma {:induction false} PatchMapAt(files: seq<FilePatch>, maxLines: int, lineCount: nat, i: nat)
    requires CleanFiles(files) && i < |files|
    ensures files[i].filename in PatchMap(files, maxLines, lineCount) <==> i < Printed(files, maxLines, lineCount)
    ensures i < Printed(files, maxLines, lineCount) ==>
              PatchMap(files, maxLines, lineCount)[files[i].filename]
                == files[i].patch + "\n" + Tail(files, maxLines, lineCount, i)
  {
    hide Clean, Split, Tail, Remark;
    if !Cut(maxLines, lineCount) {
      TailStep(files, maxLines, lineCount, i);
      if i > 0 {
        assert files[i] == files[1..][i - 1];
        PatchMapAt(files[1..], maxLines, lineCount + |Split(files[0].patch)|, i - 1);
      }
    }
  }

  lemma {:induction false} PatchMapOnly(files: seq<FilePatch>, maxLines: int, lineCount: nat, path: string)
    requires forall i | 0 <= i < |files| :: files[i].filename != path
    ensures path !in PatchMap(files, maxLines, lineCount)
  {
    if |files| > 0 {
      assert files[0].filename != path;
      PatchMapOnly(files[1..], maxLines, lineCount + |Split(files[0].patch)|, path);
    }
  }

  /** The lines of the prompt: every file contributes an empty line, its heading and its patch lines. */
  lemma PromptLines(files: seq<FilePatch>, maxLines: int, lineCount: nat)
    requires |files| > 0 && OneLine(files[0].filename) && !Cut(maxLines, lineCount)
    ensures var rest := DiffText(files[1..], maxLines, lineCount + |Split(files[0].patch)|);
            Split(DiffText(files, maxLines, lineCount))
              == ["", HEADING + files[0].filename] + (Split(files[0].patch) + Split(rest))
  {
    hide Split, FileText;
    var f := files[0];
    var rest := DiffText(files[1..], maxLines, lineCount + |Split(f.patch)|);
    assert DiffText(files, maxLines, lineCount) == FileText(f) + rest;
    FileTextLines(f, rest);
  }

  lemma FileTextLines(f: FilePatch, rest: string)
    requires OneLine(f.filename)
    ensures Split(FileText(f) + rest) == ["", HEADING + f.filename] + (Split(f.patch) + Split(rest))
  {
    hide Split;
    var heading := HEADING + f.filename;
    assert OneLine(heading);
    assert FileText(f) + rest == "" + "\n" + (heading + "\n" + (f.patch + "\n" + rest));
    HeadedLines(heading, f.patch, rest);
  }

  lemma HeadedLines(heading: string, patch: string, rest: string)
    requires OneLine(heading)
    ensures Split("" + "\n" + (heading + "\n" + (patch + "\n" + rest))) == ["", heading] + (Split(patch) + Split(rest))
  {
    var tail := patch + "\n" + rest;
    SplitAppend(patch, rest);
    SplitAppend(heading, tail);
    SplitAppend("", heading + "\n" + tail);
    SplitOneLine(heading);
    SplitOneLine("");
    Two("", heading, Split(tail));
  }

  lemma Two(a: string, b: string, lines: seq<string>)
    ensures [a] + ([b] + lines) == [a, b] + lines
  {
  }

  lemma {:induction false} ScanPlain(a: seq<string>, b: seq<string>, path: string, section: seq<string>,
                                     sections: map<string, string>)
    requires path != "" && NoHeading(a)
    ensures Scan(a + b, path, section, sections) == Scan(b, path, section + a, sections)
  {
    if |a| == 0 {
      assert a + b == b && section + a == section;
    } else {
      assert (a + b)[1..] == a[1..] + b;
      ScanPlain(a[1..], b, path, section + [a[0]], sections);
      assert section + [a[0]] + a[1..] == section + a;
    }
  }

  /** Scanning one file's lines: the previous section is closed with an empty line, the file's section is open. */
  lemma ScanFile(f: FilePatch, rest: seq<string>, path: string, section: seq<string>, sections: map<string, string>)
    requires Clean(f)
    ensures Scan(["", HEADING + f.filename] + (Split(f.patch) + rest), path, section, sections)
         == Scan(rest, f.filename, Split(f.patch), if path == "" then sections else sections[path := Join(section + [""])])
  {
    var heading := HEADING + f.filename;
    var body := Split(f.patch) + rest;
    var lines := ["", heading] + body;
    var closed := if path == "" then sections else sections[path := Join(section + [""])];
    assert lines[1..] == [heading] + body && ([heading] + body)[1..] == body;
    assert heading[|HEADING|..] == f.filename;
    TrimmedIsFixed(f.filename);
    assert Scan(lines, path, section, sections) == Scan(body, f.filename, [], closed);
    ScanPlain(Split(f.patch), rest, f.filename, [], closed);
    assert [] + Split(f.patch) == Split(f.patch);
  }

  lemma ClosedSection(patch: string)
    ensures Join(Split(patch) + [""]) == patch + "\n"
  {
    SplitIsLines(patch);
    JoinAppend(Split(patch), [""]);
    assert patch + "\n" + "" == patch + "\n";
  }

  /** Text without a heading joins the open section, which ends with it. */
  lemma LastSection(open: FilePatch, text: string, sections: map<string, string>)
    requires open.filename != "" && NoHeading(Split(text))
    ensures Scan(Split(text), open.filename, Split(open.patch), sections)
         == sections[open.filename := open.patch + "\n" + text]
  {
    ScanPlain(Split(text), [], open.filename, Split(open.patch), sections);
    assert Split(text) + [] == Split(text);
    SplitIsLines(open.patch);
    SplitIsLines(text);
    JoinAppend(Split(open.patch), Split(text));
  }

  /** A line that no walker takes, and that starts no section. */
  predicate Skipped(line: string) {
    line == "" || line[0] == '['
  }

  lemma BetweenNewlines(line: string)
    requires OneLine(line) && Skipped(line)
    ensures Split("\n" + line + "\n") == ["", line, ""] && Split("") == [""]
  {
    assert "\n" + line + "\n" == "" + "\n" + (line + "\n" + "");
    SplitAppend("", line + "\n" + "");
    SplitAppend(line, "");
    SplitOneLine("");
    SplitOneLine(line);
  }

  /** What is printed after the last patch: lines that are skipped. */
  lemma RemarkLines(text: string)
    requires text == "" || text == DIFF_TRUNCATED
    ensures NoHeading(Split(text)) && forall line <- Split(text) :: Skipped(line)
  {
    assert OneLine(REMARK);
    BetweenNewlines(REMARK);
    hide Split;
    forall line | line in Split(text) ensures Skipped(line) {
    }
    forall i | 0 <= i < |Split(text)| ensures !HasPrefix(Split(text)[i], HEADING) {
      assert Split(text)[i] in Split(text);
      SkippedNoHeading(Split(text)[i]);
    }
  }

  lemma SkippedNoHeading(line: string)
    requires Skipped(line)
    ensures !HasPrefix(line, HEADING)
  {
    if line != "" {
      NotAHeading(line);
    }
  }

  lemma {:induction false} ScanFiles(files: seq<FilePatch>, maxLines: int, lineCount: nat, open: FilePatch,
                                     sections: map<string, string>)
    requires CleanFiles([open] + files)
    ensures Scan(Split(DiffText(files, maxLines, lineCount)), open.filename, Split(open.patch), sections)
         == sections[open.filename := open.patch + "\n" + Remark(files, maxLines, lineCount)]
              + PatchMap(files, maxLines, lineCount)
  {
    hide Split, Scan, Clean;
    CleanTail(open, files);
    if |files| == 0 || Cut(maxLines, lineCount) {
      RemarkLines(Remark(files, maxLines, lineCount));
      LastSection(open, Remark(files, maxLines, lineCount), sections);
    } else {
      var f := files[0];
      var next := lineCount + |Split(f.patch)|;
      ClosedSection(open.patch);
      PromptLines(files, maxLines, lineCount);
      ScanFile(f, Split(DiffText(files[1..], maxLines, next)), open.filename, Split(open.patch), sections);
      assert [f] + files[1..] == files;
      var closed := sections[open.filename := open.patch + "\n"];
      ScanFiles(files[1..], maxLines, next, f, closed);
      NotAgain(files, maxLines, next);
      AddLater(closed, PatchMap(files[1..], maxLines, next), f.filename,
               f.patch + "\n" + Remark(files[1..], maxLines, next));
      assert open.patch + "\n" + "" == open.patch + "\n";
    }
  }

  lemma CleanTail(open: FilePatch, files: seq<FilePatch>)
    requires CleanFiles([open] + files)
    ensures open.filename != "" && CleanFiles(files)
    ensures |files| > 0 ==> Clean(files[0]) && OneLine(files[0].filename)
  {
    var all := [open] + files;
    assert all[0] == open && Clean(all[0]);
    forall i | 0 <= i < |files| ensures true == Clean(files[i]) {
      assert files[i] == all[i + 1];
    }
    forall i, j | 0 <= i < j < |files| ensures files[i].filename != files[j].filename {
      assert files[i] == all[i + 1] && files[j] == all[j + 1];
    }
  }

  /** The first file's name does not come again. */
  lemma NotAgain(files: seq<FilePatch>, maxLines: int, lineCount: nat)
    requires |files| > 0 && CleanFiles(files)
    ensures files[0].filename !in PatchMap(files[1..], maxLines, lineCount)
  {
    hide PatchMap, Clean;
    forall i | 0 <= i < |files[1..]| ensures files[1..][i].filename != files[0].filename {
      assert files[1..][i] == files[i + 1];
    }
    PatchMapOnly(files[1..], maxLines, lineCount, files[0].filename);
  }

  lemma AddLater(a: map<string, string>, b: map<string, string>, key: string, value: string)
    requires key !in b
    ensures a[key := value] + b == a + b[key := value]
  {
  }

  /** Reading the prompt back gives every printed file its own patch, and nothing else but the remark on a cut. */
  lemma SectionsRoundTrip(files: seq<FilePatch>, maxLines: int)
    requires CleanFiles(files)
    ensures Scan(Split(DiffText(files, maxLines, 0)), "", [], map[]) == PatchMap(files, maxLines, 0)
  {
    if |files| == 0 {
      assert Split("") == [""] && [""][1..] == [];
    } else {
      var f := files[0];
      var next := |Split(f.patch)|;
      assert Clean(f) && OneLine(f.filename);
      FirstInMap(files, maxLines);
      hide Split, Scan, Clean, PatchMap, DiffText;
      PromptLines(files, maxLines, 0);
      FirstFile(Split(DiffText(files, maxLines, 0)), f, Split(DiffText(files[1..], maxLines, next)));
      assert [f] + files[1..] == files;
      ScanFiles(files[1..], maxLines, next, f, map[]);
      NotAgain(files, maxLines, next);
      AddLater(map[], PatchMap(files[1..], maxLines, next), f.filename,
               f.patch + "\n" + Remark(files[1..], maxLines, next));
      assert map[] + PatchMap(files, maxLines, 0) == PatchMap(files, maxLines, 0);
    }
  }

  lemma FirstInMap(files: seq<FilePatch>, maxLines: int)
    requires |files| > 0
    ensures var f, next := files[0], |Split(files[0].patch)|;
            PatchMap(files, maxLines, 0)
              == PatchMap(files[1..], maxLines, next)[f.filename := f.patch + "\n" + Remark(files[1..], maxLines, next)]
  {
  }

  lemma FirstFile(lines: seq<string>, f: FilePatch, rest: seq<string>)
    requires Clean(f) && lines == ["", HEADING + f.filename] + (Split(f.patch) + rest)
    ensures Scan(lines, "", [], map[]) == Scan(rest, f.filename, Split(f.patch), map[])
  {
    ScanFile(f, rest, "", [], map[]);
  }

  // ----- looking a quotation up -----

  predicate IsUnifiedDiff(section: string) {
    exists i :: 0 <= i < |Split(section)| && HasPrefix(Split(section)[i], "@@ ")
  }

  predicate PlainEvidence(section: string, line: int, text: string) {
    1 <= line <= |Split(section)| && TrimSpace(Split(section)[line - 1]) == TrimSpace(text)
  }

  predicate SectionEvidence(section: string, line: int, text: string) {
    if IsUnifiedDiff(section) then Quotes(RawPairs(Split(section), 0), line, text) else PlainEvidence(section, line, text)
  }

  /** `rawReferenceEvidence`, going through the sections in any order. */
  method RawReferenceEvidence(source: string, file: string, line: int, text: string) returns (found: bool)
    ensures var sections := Scan(Split(source), "", [], map[]);
            found <==> file in sections && SectionEvidence(sections[file], line, text)
  {
    var sections := RawSections(source);
    var rest := sections.Keys;
    while rest != {}
      invariant rest <= sections.Keys
      invariant file in sections && SectionEvidence(sections[file], line, text) ==> file in rest
      decreases |rest|
    {
      ghost var some := Pick(rest);
      var path :| path in rest;
      rest := rest - {path};
      if path != file {
        continue;
      }
      var section := sections[path];
      if IsUnifiedDiff(section) {
        var quoted := DiffReferenceEvidence(section, line, text);
        if quoted {
          return true;
        }
        continue;
      }
      if PlainEvidence(section, line, text) {
        return true;
      }
    }
    return false;
  }

  /** What the prompt built from `files` says about a quotation. */
  predicate PromptEvidence(files: seq<FilePatch>, maxLines: int, file: string, line: int, text: string) {
    var sections := Scan(Split(DiffText(files, maxLines, 0)), "", [], map[]);
    file in sections && SectionEvidence(sections[file], line, text)
  }

  /** A printed file's section. */
  function Section(files: seq<FilePatch>, maxLines: int, i: nat): string
    requires i < |files|
  {
    files[i].patch + "\n" + Tail(files, maxLines, 0, i)
  }

  /** Looking a quotation up in the prompt is looking it up in that file's own patch, if it is printed. */
  lemma PromptLookup(files: seq<FilePatch>, maxLines: int, i: nat, line: int, text: string)
    requires CleanFiles(files) && i < |files|
    ensures PromptEvidence(files, maxLines, files[i].filename, line, text) <==>
            i < Printed(files, maxLines, 0) && SectionEvidence(Section(files, maxLines, i), line, text)
  {
    hide Scan, Split, SectionEvidence, Clean, PatchMap, Tail, Printed, DiffText;
    SectionsRoundTrip(files, maxLines);
    PatchMapAt(files, maxLines, 0, i);
  }

  /** The walker for diffs does not see what follows the patch. */
  lemma TailUnseen(files: seq<FilePatch>, maxLines: int, i: nat)
    requires i < |files|
    ensures RawPairs(Split(Section(files, maxLines, i)), 0) == RawPairs(Split(files[i].patch), 0)
    ensures IsUnifiedDiff(Section(files, maxLines, i)) <==> IsUnifiedDiff(files[i].patch)
  {
    var tail, patch := Tail(files, maxLines, 0, i), files[i].patch;
    RemarkLines(tail);
    hide Split, Tail, RawPairs, IsUnifiedDiff;
    SplitAppend(patch, tail);
    RawEndsSkipped(Split(patch), Split(tail), 0);
    SameHunks(patch, Section(files, maxLines, i), Split(tail));
  }

  lemma SameHunks(patch: string, section: string, extra: seq<string>)
    requires Split(section) == Split(patch) + extra && forall line <- extra :: Skipped(line)
    ensures IsUnifiedDiff(section) <==> IsUnifiedDiff(patch)
  {
    hide Split;
    if IsUnifiedDiff(patch) {
      var i :| 0 <= i < |Split(patch)| && HasPrefix(Split(patch)[i], "@@ ");
      assert Split(section)[i] == Split(patch)[i];
    }
    if IsUnifiedDiff(section) {
      var i :| 0 <= i < |Split(section)| && HasPrefix(Split(section)[i], "@@ ");
      assert i < |Split(patch)| || Split(section)[i] in extra;
    }
  }

  lemma {:induction false} RawEndsSkipped(lines: seq<string>, extra: seq<string>, n: int)
    requires forall line <- extra :: Skipped(line)
    ensures RawPairs(lines + extra, n) == RawPairs(lines, n)
    decreases |lines| + |extra|
  {
    if |lines| > 0 {
      assert (lines + extra)[1..] == lines[1..] + extra;
      RawEndsSkipped(lines[1..], extra, RawNext(n, lines[0]));
    } else if |extra| > 0 {
      assert lines + extra == extra;
      assert Skipped(extra[0]);
      RawEndsSkipped([], extra[1..], n);
      assert [] + extra[1..] == extra[1..];
    }
  }

  /** Printed body lines and headers never start a section. */
  lemma {:induction false} PrintedNoHeading(hunks: seq<Hunk>)
    ensures NoHeading(PrintHunks(hunks))
  {
    if |hunks| > 0 {
      PrintedNoHeading(hunks[1..]);
      HeaderPrefix(hunks[0]);
      NotAHeading(PrintHeader(hunks[0]));
      RenderedNoHeading(hunks[0].lines);
    }
  }

  lemma NotAHeading(s: string)
    requires s != "" && s[0] != '#'
    ensures !HasPrefix(s, HEADING)
  {
    assert HEADING[0] == '#';
  }

  lemma {:induction false} RenderedNoHeading(lines: seq<HunkLine>)
    ensures NoHeading(RenderAll(lines))
  {
    if |lines| > 0 {
      RenderedNoHeading(lines[1..]);
      RenderedStart(lines[0]);
      NotAHeading(Render(lines[0]));
    }
  }

  /** Any printed patch is one the prompt can carry, whatever the file's lines say. */
  lemma PrintedIsClean(f: FilePatch, hunks: seq<Hunk>)
    requires f.filename != "" && Trimmed(f.filename) && OneLine(f.filename)
    requires f.patch == Patch(hunks) && OneLineHunks(hunks)
    ensures Clean(f)
  {
    PatchLines(hunks);
    PrintedNoHeading(hunks);
  }

  /**
   * End to end: a file whose patch describes the change from `old'` to `new'`, without an added line that looks like a
   * file header, can be quoted from the prompt exactly where its hunks show the new file - if the limit lets it be printed.
   */
  lemma {:induction false} PromptQuotesNewFile(files: seq<FilePatch>, maxLines: int, i: nat, old': seq<string>,
                                               new': seq<string>, hunks: seq<Hunk>, line: int, text: string)
    requires CleanFiles(files) && i < |files| && files[i].patch == Patch(hunks) && |hunks| > 0
    requires OneLineHunks(hunks) && Turns(old', new', hunks, 0, 0) && |old'| < MAX_INT && |new'| < MAX_INT
    requires PlainHunks(hunks)
    ensures Covered(hunks, line) ==> 1 <= line <= |new'|
    ensures PromptEvidence(files, maxLines, files[i].filename, line, text) <==>
            i < Printed(files, maxLines, 0) && Covered(hunks, line) && TrimSpace(new'[line - 1]) == TrimSpace(text)
  {
    hide PromptEvidence, Section, Split, Patch, Turns, OneLineHunks;
    PromptLookup(files, maxLines, i, line, text);
    PrintedIsDiff(hunks);
    TailUnseen(files, maxLines, i);
    ReadersAgree(old', new', hunks);
    PatchEvidenceExact(old', new', hunks, line, text);
  }

  lemma PrintedIsDiff(hunks: seq<Hunk>)
    requires |hunks| > 0 && OneLineHunks(hunks)
    ensures IsUnifiedDiff(Patch(hunks))
  {
    PatchLines(hunks);
    HeaderPrefix(hunks[0]);
    assert HasPrefix(Split(Patch(hunks))[0], "@@ ");
  }
}
