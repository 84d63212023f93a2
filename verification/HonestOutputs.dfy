/**
 * What the tools print for real files, and what can be quoted from it: diffs, cut or not, numbered file content, search
 * results. File content never reaches the model clamped within a line: once it is that long, the output is replaced as a
 * whole (internal/githubtools/tools.go:444, 639-655). Search results do clip long lines.
 */
module HonestOutputs {
  import opened Collections
  import opened Text
  import opened UnifiedDiff
  import opened PatchReaders
  import opened DiffTheorems
  import opened EvidenceFilter

  /** The new files by path. */
  type Files = map<string, seq<string>>

  /** The file really has this text at this line. */
  predicate Reads(files: Files, e: Evidence) {
    && e.file in files && 1 <= e.line <= |files[e.file]|
    && TrimSpace(files[e.file][e.line - 1]) == TrimSpace(e.text)
  }

  /** A file that is not there has no lines. */
  function LinesOf(files: Files, path: string): seq<string> {
    if path in files then files[path] else []
  }

  lemma CoveredReads(files: Files, e: Evidence)
    requires 1 <= e.line <= |LinesOf(files, e.file)|
    requires TrimSpace(LinesOf(files, e.file)[e.line - 1]) == TrimSpace(e.text)
    ensures Reads(files, e)
  {
  }

  // ----- diffs -----

  /** The patch is a printed diff from some old file to `new'`, possibly cut to `limit` lines. */
  predicate ShowsPatch(d: DiffFile, old': seq<string>, new': seq<string>, hunks: seq<Hunk>, limit: int) {
    && OneLineHunks(hunks) && Turns(old', new', hunks, 0, 0) && |old'| < MAX_INT && |new'| < MAX_INT
    && d.patch == TakeLines(Patch(hunks), limit).text
  }

  ghost predicate Shows(d: DiffFile, new': seq<string>) {
    exists old', hunks, limit :: ShowsPatch(d, old', new', hunks, limit)
  }

  /** A file of the diff tool's output; other tools' outputs decode to one without a patch. */
  ghost predicate HonestFile(d: DiffFile, files: Files) {
    d.path == "" || d.status == "removed" || d.patch == "" || Shows(d, LinesOf(files, d.path))
  }

  lemma HonestFileReads(d: DiffFile, files: Files, e: Evidence)
    requires HonestFile(d, files) && FileMatches(d, e) && e.file != ""
    ensures Reads(files, e)
  {
    hide Turns, Patch, OneLineHunks, TrimSpace, TakeLines, Pairs, Split;
    if d.patch == "" {
      NoPatch(e.line, e.text);
      assert false;
    } else {
      var new' := LinesOf(files, d.path);
      var old', hunks, limit :| ShowsPatch(d, old', new', hunks, limit);
      TakeLinesSound(Patch(hunks), limit, e.line, e.text);
      PatchEvidenceExact(old', new', hunks, e.line, e.text);
    }
  }

  lemma NoPatch(line: int, text: string)
    ensures !Quotes(Pairs(Split(""), START), line, text)
  {
    assert Split("") == [""];
  }

  // ----- file content -----

  /**
   * A line of the file tool's output: a numbered line of the file, or a heading, a remark or nothing. A heading quotes a
   * symbol's name; that no line of it reads like a numbered one is an assumption, see StrayNumberMisleads.
   */
  datatype ContentRow = Numbered(n: nat) | Note(text: string)

  predicate HonestRow(row: ContentRow, lines: seq<string>) {
    match row
    case Numbered(n) => 1 <= n <= |lines|
    case Note(text) =>
      OneLine(text) && (TrimSpace(text) == "" || (!IsDigit(TrimSpace(text)[0]) && TrimSpace(text)[0] != '-'))
  }

  function RowText(row: ContentRow, lines: seq<string>): string
    requires HonestRow(row, lines)
  {
    match row
    case Numbered(n) => ToDecimal(n) + ": " + lines[n - 1]
    case Note(text) => text
  }

  ghost predicate HonestContent(content: string, lines: seq<string>) {
    && OneLines(lines)
    && exists rows: seq<ContentRow> | |rows| > 0 && (forall row <- rows :: HonestRow(row, lines)) ::
         content == Join(RowTexts(rows, lines))
  }

  function RowTexts(rows: seq<ContentRow>, lines: seq<string>): (texts: seq<string>)
    requires forall row <- rows :: HonestRow(row, lines)
    ensures |texts| == |rows| && forall i | 0 <= i < |rows| :: texts[i] == RowText(rows[i], lines)
  {
    seq(|rows|, i requires 0 <= i < |rows| => RowText(rows[i], lines))
  }

  /** A numbered line shows exactly its own text at exactly its own number. */
  lemma NumberedShows(n: nat, text: string, e: Evidence)
    ensures ContentShows(ToDecimal(n) + ": " + text, e) <==> e.line == n && TrimSpace(e.text) == TrimSpace(text)
  {
    hide TrimSpace, TrimRight, ToDecimal;
    var body := TrimRight(" " + text);
    TrimmedRow(n, text);
    TrimRightFirst(" " + text);
    LeadingBlank(text);
    var line, prefix := ToDecimal(n) + ":" + body, Decimal(e.line) + ":";
    assert e.line == n ==> HasPrefix(line, prefix);
    if HasPrefix(line, prefix) {
      SameNumber(n, e.line, body, line[|prefix|..]);
    }
  }

  lemma LeadingBlank(text: string)
    ensures TrimSpace(" " + text) == TrimSpace(text)
  {
    assert (" " + text)[1..] == text;
  }

  lemma TrimmedRow(n: nat, text: string)
    ensures TrimSpace(ToDecimal(n) + ": " + text) == ToDecimal(n) + ":" + TrimRight(" " + text)
  {
    hide ToDecimal;
    var number := ToDecimal(n) + ":";
    assert ToDecimal(n) + ": " + text == number + (" " + text);
    assert IsDigit(number[0]);
    TrimRightAfter(number, " " + text);
  }

  lemma FirstDigit(n: nat, tail: string)
    ensures IsDigit((ToDecimal(n) + tail)[0])
  {
    assert IsDigit(ToDecimal(n)[0]);
  }

  lemma NotNegative(line: int, rest: string)
    ensures IsDigit((Decimal(line) + ":" + rest)[0]) ==> line >= 0
  {
    assert line < 0 ==> Decimal(line)[0] == '-';
  }

  /** A row begins with one number only. */
  lemma SameNumber(n: nat, line: int, body: string, rest: string)
    requires ToDecimal(n) + ":" + body == Decimal(line) + ":" + rest
    ensures line == n && rest == body
  {
    hide ToDecimal;
    FirstDigit(n, ":" + body);
    assert ToDecimal(n) + ":" + body == ToDecimal(n) + (":" + body);
    NotNegative(line, rest);
    assert ToDecimal(n) + (":" + body) == ToDecimal(line) + (":" + rest);
    SameDecimal(n, line, ":" + body, ":" + rest);
    assert body == (":" + body)[1..] == (":" + rest)[1..] == rest;
  }

  lemma NoteShowsNothing(text: string, e: Evidence)
    requires TrimSpace(text) == "" || (!IsDigit(TrimSpace(text)[0]) && TrimSpace(text)[0] != '-')
    ensures !ContentShows(text, e)
  {
    var prefix := Decimal(e.line) + ":";
    assert IsDigit(prefix[0]) || prefix[0] == '-';
  }

  lemma RowsAreOneLine(rows: seq<ContentRow>, lines: seq<string>)
    requires (forall row <- rows :: HonestRow(row, lines)) && OneLines(lines)
    ensures OneLines(RowTexts(rows, lines))
  {
    hide HonestRow;
    forall k | 0 <= k < |rows| ensures OneLine(RowTexts(rows, lines)[k]) {
      assert rows[k] in rows;
      RowIsOneLine(rows[k], lines);
    }
  }

  lemma RowIsOneLine(row: ContentRow, lines: seq<string>)
    requires HonestRow(row, lines) && OneLines(lines)
    ensures OneLine(RowText(row, lines))
  {
    if row.Numbered? {
      assert forall c <- ToDecimal(row.n) :: IsDigit(c);
    }
  }

  lemma RowShows(row: ContentRow, lines: seq<string>, e: Evidence)
    requires HonestRow(row, lines) && ContentShows(RowText(row, lines), e)
    ensures 1 <= e.line <= |lines| && TrimSpace(lines[e.line - 1]) == TrimSpace(e.text)
  {
    hide ContentShows, ToDecimal, TrimSpace;
    match row
    case Numbered(n) => NumberedShows(n, lines[n - 1], e);
    case Note(text) => NoteShowsNothing(text, e);
  }

  lemma ContentReads(content: string, lines: seq<string>, i: nat, e: Evidence)
    requires HonestContent(content, lines) && i < |Split(content)| && ContentShows(Split(content)[i], e)
    ensures 1 <= e.line <= |lines| && TrimSpace(lines[e.line - 1]) == TrimSpace(e.text)
  {
    hide ContentShows, TrimSpace, HonestRow, Split, Join, OneLines;
    var rows: seq<ContentRow> :| |rows| > 0 && (forall row <- rows :: HonestRow(row, lines))
                                 && content == Join(RowTexts(rows, lines));
    RowsAreOneLine(rows, lines);
    SplitJoin(RowTexts(rows, lines));
    assert rows[i] in rows;
    RowShows(rows[i], lines, e);
  }

  /** Any line of that form is believed, also one that comes from a symbol's name spread over several lines. */
  lemma {:induction false} StrayNumberMisleads(r: RefOutput, before: string, after: string, e: Evidence)
    requires r.path == e.file && e.line >= 0 && OneLine(e.text)
    requires r.content == before + "\n" + (ToDecimal(e.line) + ": " + e.text + "\n" + after)
    ensures RefMatches(r, e)
  {
    var row := ToDecimal(e.line) + ": " + e.text;
    assert OneLine(row) by {
      assert forall c <- ToDecimal(e.line) :: IsDigit(c);
    }
    hide Split, ContentShows, TrimSpace, ToDecimal;
    SplitAppend(before, row + "\n" + after);
    SplitAppend(row, after);
    SplitOneLine(row);
    NumberedShows(e.line, e.text, e);
    assert Split(r.content)[|Split(before)|] == row;
  }

  // ----- search results -----

  const SNIPPET_SIZE := 500

  /** The snippet of a line in a search result: trimmed, and if it is long its beginning only. */
  function ClampSnippet(value: string, limit: int): string {
    var t := TrimSpace(value);
    if limit <= 0 || |t| <= limit then t else t[..limit] + " ..."
  }

  /** Clipping leaves the line as it is. */
  predicate FitsSnippet(line: string) {
    var t := TrimSpace(line);
    |t| <= SNIPPET_SIZE || t == t[..SNIPPET_SIZE] + " ..."
  }

  /** The evidence is a line's snippet. */
  predicate ReadsClipped(files: Files, e: Evidence) {
    && e.file in files && 1 <= e.line <= |files[e.file]|
    && ClampSnippet(files[e.file][e.line - 1], SNIPPET_SIZE) == TrimSpace(e.text)
  }

  /** A match as printed by the search for references, which clips, or by the retrieval, which does not. */
  predicate HonestMatch(m: RefMatch, files: Files) {
    || m.snippet == ""
    || (&& m.path in files && 1 <= m.line <= |files[m.path]|
        && var line := files[m.path][m.line - 1];
           m.snippet == TrimSpace(line) || m.snippet == ClampSnippet(line, SNIPPET_SIZE))
  }

  /** A printed snippet that supports a quotation makes it the file's line, iff clipping leaves that line alone. */
  lemma SnippetReadsIff(files: Files, e: Evidence)
    requires ReadsClipped(files, e)
    ensures Reads(files, e) <==> FitsSnippet(files[e.file][e.line - 1])
  {
  }

  ghost predicate HonestRefs(r: RefOutput, files: Files) {
    && (r.path == "" || (r.path in files && HonestContent(r.content, files[r.path])))
    && forall m <- r.matches :: HonestMatch(m, files)
  }

  /** A tool's output decodes both as diffs and as references. */
  ghost predicate HonestOutput(s: Source, files: Files) {
    && s.diffs.Some? && HonestFile(s.diffs.value.own, files)
    && (forall d <- s.diffs.value.files :: HonestFile(d, files))
    && s.refs.Some? && HonestRefs(s.refs.value, files)
  }

  /** What honest sources support. */
  predicate Supports(files: Files, e: Evidence) {
    Reads(files, e) || ReadsClipped(files, e)
  }

  lemma HonestRefsRead(r: RefOutput, files: Files, e: Evidence)
    requires HonestRefs(r, files) && RefMatches(r, e) && e.file != "" && TrimSpace(e.text) != ""
    ensures Supports(files, e)
  {
    hide ContentShows, TrimSpace, Split, HonestContent, ClampSnippet;
    if i :| 0 <= i < |r.matches| && r.matches[i] == RefMatch(e.file, e.line, TrimSpace(e.text)) {
      assert HonestMatch(r.matches[i], files);
    } else {
      var i :| 0 <= i < |Split(r.content)| && ContentShows(Split(r.content)[i], e);
      ContentReads(r.content, files[r.path], i, e);
    }
  }
}
