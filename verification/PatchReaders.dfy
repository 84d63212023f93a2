/** The three patch readers, as loops, and the numbered lines each of them sees. */
module PatchReaders {
  import opened Collections
  import opened Text
  import opened UnifiedDiff

  /** 64-bit increment. */
  function Inc(n: int): int {
    if n == MAX_INT then -MAX_INT - 1 else n + 1
  }

  // ----- patchEvidence -----

  datatype Walk = Walk(next: int, oldRemaining: int, newRemaining: int)

  const START := Walk(0, 0, 0)

  /** The walker right after a line that starts with `@@`. */
  function AtHeader(line: string): Walk {
    var parts := ParseHeader(line);
    if parts.None? then START else
    var a, b := Atoi(parts.value.oldStart), CountOf(parts.value.oldCount);
    var c, d := Atoi(parts.value.newStart), CountOf(parts.value.newCount);
    if a.None? || b.None? || c.None? || d.None? then START
    else if (a.value == 0 && b.value != 0) || (c.value == 0 && d.value != 0) then START
    else Walk(c.value, b.value, d.value)
  }

  /** Whether the walker takes a line as a new-side line of the current hunk. */
  predicate Takes(w: Walk, line: string) {
    && !HasPrefix(line, "@@") && line != NO_NEWLINE && line != "" && w.next > 0
    && (line[0] == '+' || line[0] == ' ')
    && w.newRemaining > 0 && (line[0] == ' ' ==> w.oldRemaining > 0)
  }

  function Step(w: Walk, line: string): Walk {
    if HasPrefix(line, "@@") then AtHeader(line)
    else if line == NO_NEWLINE then w
    else if line == "" then w.(next := 0)
    else if w.next <= 0 then w
    else if line[0] == '-' then
      if w.oldRemaining <= 0 then w.(next := 0) else w.(oldRemaining := w.oldRemaining - 1)
    else if Takes(w, line) then
      Walk(Inc(w.next), w.oldRemaining - (if line[0] == ' ' then 1 else 0), w.newRemaining - 1)
    else w.(next := 0)
  }

  function Emit(w: Walk, line: string): seq<Numbered> {
    if Takes(w, line) then [Numbered(w.next, line[1..])] else []
  }

  /** The numbered new-side lines the walker accepts as evidence. */
  function Pairs(lines: seq<string>, w: Walk): seq<Numbered> {
    if |lines| == 0 then [] else Emit(w, lines[0]) + Pairs(lines[1..], Step(w, lines[0]))
  }

  lemma PairsStep(lines: seq<string>, i: nat, w: Walk, line: int, text: string)
    requires i < |lines|
    ensures Quotes(Pairs(lines[i..], w), line, text) <==>
            Quotes(Emit(w, lines[i]), line, text) || Quotes(Pairs(lines[i + 1..], Step(w, lines[i])), line, text)
  {
    assert lines[i..][1..] == lines[i + 1..];
    QuotesAppend(Emit(w, lines[i]), Pairs(lines[i + 1..], Step(w, lines[i])), line, text);
  }

  lemma QuotesOne(n: Numbered, line: int, text: string)
    ensures Quotes([n], line, text) <==> n.line == line && TrimSpace(n.text) == TrimSpace(text)
  {
    assert n.line == line && TrimSpace(n.text) == TrimSpace(text) ==>
             [n][0].line == line && TrimSpace([n][0].text) == TrimSpace(text);
  }

  lemma NothingLeft(w: Walk, line: int, text: string)
    ensures !Quotes(Pairs([], w), line, text)
  {
  }

  /** `patchEvidence`: does the patch show `text` as line `line` of the new file? */
  method PatchEvidence(patch: string, line: int, text: string) returns (found: bool)
    ensures found <==> Quotes(Pairs(Split(patch), START), line, text)
  {
    hide Pairs, Split, ParseHeader, Atoi;
    var target := TrimSpace(text);
    var next, oldRemaining, newRemaining := 0, 0, 0;
    var lines := Split(patch);
    assert lines[0..] == lines;
    var i := 0;
    while i < |lines|
      invariant 0 <= i <= |lines|
      invariant Quotes(Pairs(lines, START), line, text) <==>
                Quotes(Pairs(lines[i..], Walk(next, oldRemaining, newRemaining)), line, text)
    {
      var current := lines[i];
      PairsStep(lines, i, Walk(next, oldRemaining, newRemaining), line, text);
      i := i + 1;
      if HasPrefix(current, "@@") {
        next, oldRemaining, newRemaining := 0, 0, 0;
        var parts := ParseHeader(current);
        if parts.None? {
          continue;
        }
        var a, b := Atoi(parts.value.oldStart), CountOf(parts.value.oldCount);
        var c, d := Atoi(parts.value.newStart), CountOf(parts.value.newCount);
        var valid := a.Some? && b.Some? && c.Some? && d.Some?;
        if !valid || (a.value == 0 && b.value != 0) || (c.value == 0 && d.value != 0) {
          continue;
        }
        next, oldRemaining, newRemaining := c.value, b.value, d.value;
        continue;
      }
      if current == NO_NEWLINE {
        continue;
      }
      if current == "" {
        next := 0;
        continue;
      }
      if next <= 0 {
        continue;
      }
      if current[0] == '-' {
        if oldRemaining <= 0 {
          next := 0;
          continue;
        }
        oldRemaining := oldRemaining - 1;
      } else if current[0] == '+' || current[0] == ' ' {
        if newRemaining <= 0 || (current[0] == ' ' && oldRemaining <= 0) {
          next := 0;
          continue;
        }
        QuotesOne(Numbered(next, current[1..]), line, text);
        if current[0] == ' ' {
          oldRemaining := oldRemaining - 1;
        }
        newRemaining := newRemaining - 1;
        if next == line && TrimSpace(current[1..]) == target {
          return true;
        }
        next := Inc(next);
      } else {
        next := 0;
      }
    }
    NothingLeft(Walk(next, oldRemaining, newRemaining), line, text);
    assert lines[i..] == [];
    return false;
  }

  // ----- changedLinesForPath -----

  /** The number the line counter has after a line. */
  function NextNumber(n: int, line: string): int {
    if HasPrefix(line, "@@") then NewHunkStart(line)
    else if HasPrefix(line, "+++") || HasPrefix(line, "---") then n
    else if HasPrefix(line, "+") then Inc(n)
    else if HasPrefix(line, "-") || HasPrefix(line, "\\") then n
    else Inc(n)
  }

  /** Whether the line is counted as an added line at number `n`. */
  predicate IsChange(n: int, line: string) {
    !HasPrefix(line, "@@") && !HasPrefix(line, "+++") && !HasPrefix(line, "---") && HasPrefix(line, "+") && n > 0
  }

  function Changed(lines: seq<string>, n: int): seq<int> {
    if |lines| == 0 then []
    else (if IsChange(n, lines[0]) then [n] else []) + Changed(lines[1..], NextNumber(n, lines[0]))
  }

  lemma ChangedStep(lines: seq<string>, i: nat, n: int, changed: seq<int>)
    requires i < |lines|
    ensures changed + Changed(lines[i..], n)
         == (if IsChange(n, lines[i]) then changed + [n] else changed) + Changed(lines[i + 1..], NextNumber(n, lines[i]))
  {
    assert lines[i..][1..] == lines[i + 1..];
  }

  datatype FilePatch = FilePatch(filename: string, patch: string)

  /** The patch of the first file named `path` that has a non-blank one. */
  function FirstPatch(files: seq<FilePatch>, path: string): Option<string> {
    if |files| == 0 then None
    else if files[0].filename != path || TrimSpace(files[0].patch) == "" then FirstPatch(files[1..], path)
    else Some(files[0].patch)
  }

  /** The changed lines of the path's first patch that is not blank. */
  function ChangedFor(files: seq<FilePatch>, path: string): seq<int> {
    match FirstPatch(files, path)
    case None => []
    case Some(patch) => Changed(Split(patch), 0)
  }

  method ChangedLinesForPath(files: seq<FilePatch>, path: string) returns (changed: seq<int>)
    ensures changed == ChangedFor(files, path)
  {
    var f := 0;
    while f < |files|
      invariant 0 <= f <= |files|
      invariant FirstPatch(files, path) == FirstPatch(files[f..], path)
    {
      var file := files[f];
      assert files[f..][1..] == files[f + 1..];
      if file.filename != path || TrimSpace(file.patch) == "" {
        f := f + 1;
        continue;
      }
      changed := ChangedLines(file.patch);
      return;
    }
    return [];
  }

  /** The inner loop over the lines of one patch. */
  method ChangedLines(patch: string) returns (changed: seq<int>)
    ensures changed == Changed(Split(patch), 0)
  {
    changed := [];
    var newLineNumber := 0;
    var lines := Split(patch);
    assert lines[0..] == lines;
    var i := 0;
    while i < |lines|
      invariant 0 <= i <= |lines|
      invariant Changed(lines, 0) == changed + Changed(lines[i..], newLineNumber)
    {
      var line := lines[i];
      ChangedStep(lines, i, newLineNumber, changed);
      i := i + 1;
      if HasPrefix(line, "@@") {
        newLineNumber := NewHunkStart(line);
      } else if HasPrefix(line, "+++") || HasPrefix(line, "---") {
        continue;
      } else if HasPrefix(line, "+") {
        if newLineNumber > 0 {
          changed := changed + [newLineNumber];
        }
        newLineNumber := Inc(newLineNumber);
      } else if HasPrefix(line, "-") {
        continue;
      } else if HasPrefix(line, "\\") {
        continue;
      } else {
        newLineNumber := Inc(newLineNumber);
      }
    }
  }

  // ----- diffReferenceEvidence -----

  predicate RawTakes(n: int, line: string) {
    && !HasPrefix(line, "@@ ") && n > 0 && line != ""
    && !HasPrefix(line, "+++") && !HasPrefix(line, "---") && !HasPrefix(line, "\\")
    && (HasPrefix(line, "+") || HasPrefix(line, " "))
  }

  function RawNext(n: int, line: string): int {
    if HasPrefix(line, "@@ ") then NewHunkStart(line) else if RawTakes(n, line) then Inc(n) else n
  }

  function RawEmit(n: int, line: string): seq<Numbered> {
    if RawTakes(n, line) then [Numbered(n, line[1..])] else []
  }

  function RawPairs(lines: seq<string>, n: int): seq<Numbered> {
    if |lines| == 0 then [] else RawEmit(n, lines[0]) + RawPairs(lines[1..], RawNext(n, lines[0]))
  }

  lemma RawStep(lines: seq<string>, i: nat, n: int, line: int, text: string)
    requires i < |lines|
    ensures Quotes(RawPairs(lines[i..], n), line, text) <==>
            Quotes(RawEmit(n, lines[i]), line, text) || Quotes(RawPairs(lines[i + 1..], RawNext(n, lines[i])), line, text)
  {
    assert lines[i..][1..] == lines[i + 1..];
    QuotesAppend(RawEmit(n, lines[i]), RawPairs(lines[i + 1..], RawNext(n, lines[i])), line, text);
  }

  method DiffReferenceEvidence(section: string, line: int, text: string) returns (found: bool)
    ensures found <==> Quotes(RawPairs(Split(section), 0), line, text)
  {
    var target := TrimSpace(text);
    var newLineNumber := 0;
    var lines := Split(section);
    assert lines[0..] == lines;
    var i := 0;
    while i < |lines|
      invariant 0 <= i <= |lines|
      invariant Quotes(RawPairs(lines, 0), line, text) <==> Quotes(RawPairs(lines[i..], newLineNumber), line, text)
    {
      var current := lines[i];
      RawStep(lines, i, newLineNumber, line, text);
      i := i + 1;
      if HasPrefix(current, "@@ ") {
        newLineNumber := NewHunkStart(current);
        continue;
      }
      if newLineNumber <= 0 || current == "" || HasPrefix(current, "+++") || HasPrefix(current, "---")
         || HasPrefix(current, "\\") {
        continue;
      }
      if HasPrefix(current, "+") || HasPrefix(current, " ") {
        QuotesOne(Numbered(newLineNumber, current[1..]), line, text);
        if newLineNumber == line && TrimSpace(current[1..]) == target {
          return true;
        }
        newLineNumber := Inc(newLineNumber);
      }
    }
    return false;
  }

  // ----- takeLines -----

  const TRUNCATED := "[patch truncated by tool limit]"

  function SplitLines(content: string): seq<string> {
    var body := if content != "" && content[|content| - 1] == '\n' then content[..|content| - 1] else content;
    if body == "" then [] else Split(body)
  }

  datatype Taken = Taken(text: string, used: int, truncated: bool)

  /** `takeLines`: the first `limit` lines and a note, or the whole text when it is short enough. */
  function TakeLines(content: string, limit: int): Taken {
    if content == "" then Taken("", 0, false)
    else
      var lines := SplitLines(content);
      if limit <= 0 || |lines| <= limit then Taken(content, |lines|, false)
      else Taken(Join(lines[..limit]) + "\n" + TRUNCATED, limit, true)
  }

  // ----- 64-bit numbers -----

  predicate IsLineNumber(n: int) {
    1 <= n <= MAX_INT
  }

  /** Whatever a patch says: behind the last line number the walkers wrap around and take no further lines. */
  lemma {:induction false} PairsAreLineNumbers(lines: seq<string>, w: Walk)
    requires w.next <= MAX_INT
    ensures forall p <- Pairs(lines, w) :: IsLineNumber(p.line)
  {
    if |lines| > 0 {
      HeaderFits(lines[0]);
      PairsAreLineNumbers(lines[1..], Step(w, lines[0]));
    }
  }

  lemma HeaderFits(line: string)
    ensures AtHeader(line).next <= MAX_INT
  {
    hide ParseHeader;
  }

  lemma {:induction false} ChangesAreLineNumbers(lines: seq<string>, n: int)
    requires n <= MAX_INT
    ensures forall c <- Changed(lines, n) :: IsLineNumber(c)
  {
    hide NewHunkStart;
    if |lines| > 0 {
      StartFits(lines[0]);
      ChangesAreLineNumbers(lines[1..], NextNumber(n, lines[0]));
    }
  }

  lemma {:induction false} RawPairsAreLineNumbers(lines: seq<string>, n: int)
    requires n <= MAX_INT
    ensures forall p <- RawPairs(lines, n) :: IsLineNumber(p.line)
  {
    hide NewHunkStart;
    if |lines| > 0 {
      StartFits(lines[0]);
      RawPairsAreLineNumbers(lines[1..], RawNext(n, lines[0]));
    }
  }

  lemma StartFits(header: string)
    ensures NewHunkStart(header) <= MAX_INT
  {
  }
}
