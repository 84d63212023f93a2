/**
 * Unified diffs as POSIX.1-2017 describes them (`diff` utility, "Diff -u or -U Output Format"), printed from
 * hunks, and the program's three independent readers of a patch:
 *   patchEvidence (internal/review/diff_evidence.go), which tracks both line counts of the hunk;
 *   diffReferenceEvidence (internal/review/service.go), which ignores the counts;
 *   changedLinesForPath (internal/githubtools/tools.go), which only numbers the added lines.
 */
module UnifiedDiff {
  import opened Collections
  import opened Text

  // ----- hunks and how they are printed -----

  datatype HunkLine = Context(text: string) | Added(text: string) | Removed(text: string) | NoNewline

  datatype Hunk = Hunk(oldStart: nat, newStart: nat, lines: seq<HunkLine>, heading: Option<string>)

  const NO_NEWLINE := "\\ No newline at end of file"

  function Render(line: HunkLine): string {
    match line
    case Context(text) => " " + text
    case Added(text) => "+" + text
    case Removed(text) => "-" + text
    case NoNewline => NO_NEWLINE
  }

  function RenderAll(lines: seq<HunkLine>): (r: seq<string>)
    ensures |r| == |lines|
  {
    if |lines| == 0 then [] else [Render(lines[0])] + RenderAll(lines[1..])
  }

  predicate OnNewSide(line: HunkLine) { line.Context? || line.Added? }

  predicate OnOldSide(line: HunkLine) { line.Context? || line.Removed? }

  function NewTexts(lines: seq<HunkLine>): seq<string> {
    if |lines| == 0 then []
    else (if OnNewSide(lines[0]) then [lines[0].text] else []) + NewTexts(lines[1..])
  }

  function OldTexts(lines: seq<HunkLine>): seq<string> {
    if |lines| == 0 then []
    else (if OnOldSide(lines[0]) then [lines[0].text] else []) + OldTexts(lines[1..])
  }

  function NewCount(h: Hunk): nat { |NewTexts(h.lines)| }

  function OldCount(h: Hunk): nat { |OldTexts(h.lines)| }

  /** A one-line range shows only its start; an empty range starts at the line before it. */
  function PrintRange(start: nat, count: nat): string {
    ToDecimal(start) + if count == 1 then "" else "," + ToDecimal(count)
  }

  function PrintHeading(heading: Option<string>): string {
    if heading.None? then "" else " " + heading.value
  }

  function PrintHeader(h: Hunk): string {
    "@@ -" + (PrintRange(h.oldStart, OldCount(h)) +
    (" +" + (PrintRange(h.newStart, NewCount(h)) + (" @@" + PrintHeading(h.heading)))))
  }

  function PrintHunk(h: Hunk): seq<string> {
    [PrintHeader(h)] + RenderAll(h.lines)
  }

  function PrintHunks(hunks: seq<Hunk>): seq<string> {
    if |hunks| == 0 then [] else PrintHunk(hunks[0]) + PrintHunks(hunks[1..])
  }

  function Patch(hunks: seq<Hunk>): string {
    Join(PrintHunks(hunks))
  }

  // ----- what it means for hunks to turn one file into another -----

  /** Number of lines before the range that starts at `start` and has `count` lines. */
  function LinesBefore(start: nat, count: nat): int {
    if count == 0 then start else start - 1
  }

  /**
   * The hunks, in order, describe all differences between `old'` from index `i` on and `new'` from index `j` on.
   */
  predicate Turns(old': seq<string>, new': seq<string>, hunks: seq<Hunk>, i: nat, j: nat)
    decreases |hunks|
  {
    i <= |old'| && j <= |new'| &&
    if |hunks| == 0 then old'[i..] == new'[j..]
    else
      var h := hunks[0];
      var k, l := LinesBefore(h.oldStart, OldCount(h)), LinesBefore(h.newStart, NewCount(h));
      && i <= k && j <= l && k + OldCount(h) <= |old'| && l + NewCount(h) <= |new'|
      && old'[i..k] == new'[j..l]
      && old'[k..k + OldCount(h)] == OldTexts(h.lines)
      && new'[l..l + NewCount(h)] == NewTexts(h.lines)
      && Turns(old', new', hunks[1..], k + OldCount(h), l + NewCount(h))
  }

  predicate OneLineHunk(h: Hunk) {
    && (h.heading.Some? ==> OneLine(h.heading.value))
    && forall i | 0 <= i < |h.lines| :: OneLine(Render(h.lines[i]))
  }

  predicate OneLineHunks(hunks: seq<Hunk>) {
    forall i | 0 <= i < |hunks| :: OneLineHunk(hunks[i])
  }

  // ----- numbered new-side lines -----

  datatype Numbered = Numbered(line: int, text: string)

  /** The new-side lines of a hunk body, numbered from `next`. */
  function NewSide(lines: seq<HunkLine>, next: int): seq<Numbered> {
    if |lines| == 0 then []
    else if OnNewSide(lines[0]) then [Numbered(next, lines[0].text)] + NewSide(lines[1..], next + 1)
    else NewSide(lines[1..], next)
  }

  /** All new-side lines the hunks show, with their line numbers in the new file. */
  function Shown(hunks: seq<Hunk>): seq<Numbered> {
    if |hunks| == 0 then [] else NewSide(hunks[0].lines, hunks[0].newStart) + Shown(hunks[1..])
  }

  /** Some listed line has this number and, after trimming, this text. */
  predicate Quotes(listed: seq<Numbered>, line: int, text: string) {
    exists i :: 0 <= i < |listed| && listed[i].line == line && TrimSpace(listed[i].text) == TrimSpace(text)
  }

  lemma QuotesAppend(a: seq<Numbered>, b: seq<Numbered>, line: int, text: string)
    ensures Quotes(a + b, line, text) <==> Quotes(a, line, text) || Quotes(b, line, text)
  {
    if Quotes(a, line, text) {
      var i :| 0 <= i < |a| && a[i].line == line && TrimSpace(a[i].text) == TrimSpace(text);
      assert (a + b)[i] == a[i];
    }
    if Quotes(b, line, text) {
      var i :| 0 <= i < |b| && b[i].line == line && TrimSpace(b[i].text) == TrimSpace(text);
      assert (a + b)[|a| + i] == b[i];
    }
  }

  // ----- reading a hunk header -----

  datatype HeaderParts = HeaderParts(oldStart: string, oldCount: string, newStart: string, newCount: string)

  datatype RangeParts = RangeParts(start: string, count: string, rest: string)

  /** `[0-9]+(?:,([0-9]+))?` at the front of `s`. */
  function ParseRange(s: string): Option<RangeParts> {
    var n := DigitRun(s);
    if n == 0 then None
    else if n < |s| && s[n] == ',' && DigitRun(s[n + 1..]) > 0 then
      var m := DigitRun(s[n + 1..]);
      Some(RangeParts(s[..n], s[n + 1..][..m], s[n + 1..][m..]))
    else Some(RangeParts(s[..n], "", s[n..]))
  }

  /** The expression `^@@ -([0-9]+)(?:,([0-9]+))? \+([0-9]+)(?:,([0-9]+))? @@(?: .*)?$` on a one-line string. */
  function ParseHeader(line: string): Option<HeaderParts> {
    if !HasPrefix(line, "@@ -") then None else
    var old' := ParseRange(line[4..]);
    if old'.None? || !HasPrefix(old'.value.rest, " +") then None else
    var new' := ParseRange(old'.value.rest[2..]);
    if new'.None? || !HasPrefix(new'.value.rest, " @@") then None else
    var tail := new'.value.rest[3..];
    if tail == "" || tail[0] == ' ' then
      Some(HeaderParts(old'.value.start, old'.value.count, new'.value.start, new'.value.count))
    else None
  }

  /** An omitted count is one. */
  function CountOf(s: string): Option<int> {
    if s == "" then Some(1) else Atoi(s)
  }

  /** Position of the first character of `s` that is in `chars`, or -1. */
  function IndexAny(s: string, chars: string): (n: int)
    ensures -1 <= n < |s|
  {
    if s == "" then -1
    else if s[0] in chars then 0
    else if IndexAny(s[1..], chars) < 0 then -1 else IndexAny(s[1..], chars) + 1
  }

  /** The number after the first `+`, up to a comma or blank; 0 when there is none (both lenient readers use it). */
  function NewHunkStart(header: string): (n: int)
    ensures n >= 0
  {
    var plusIndex := IndexAny(header, "+");
    if plusIndex < 0 then 0 else
    var value := header[plusIndex + 1..];
    var endIndex := IndexAny(value, ", ");
    var number := Atoi(if endIndex >= 0 then value[..endIndex] else value);
    if number.None? || number.value <= 0 then 0 else number.value
  }

  // ----- headers survive printing and reading -----

  lemma TakeDrop(a: string, b: string)
    ensures (a + b)[..|a|] == a && (a + b)[|a|..] == b
  {
  }

  lemma ShortRange(a: string, rest: string)
    requires a != "" && AllDigits(a) && HasPrefix(rest, " ")
    ensures ParseRange(a + rest) == Some(RangeParts(a, "", rest))
  {
    DigitRunStops(a, rest);
    TakeDrop(a, rest);
  }

  lemma LongRange(a: string, b: string, rest: string)
    requires a != "" && b != "" && AllDigits(a) && AllDigits(b) && HasPrefix(rest, " ")
    ensures ParseRange(a + ("," + (b + rest))) == Some(RangeParts(a, b, rest))
  {
    var tail := "," + (b + rest);
    DigitRunStops(a, tail);
    TakeDrop(a, tail);
    var s := a + tail;
    assert s[|a| + 1..] == b + rest;
    DigitRunStops(b, rest);
    TakeDrop(b, rest);
  }

  lemma RangeRoundTrip(start: nat, count: nat, rest: string)
    requires HasPrefix(rest, " ")
    ensures ParseRange(PrintRange(start, count) + rest)
         == Some(RangeParts(ToDecimal(start), if count == 1 then "" else ToDecimal(count), rest))
  {
    hide ParseRange, ToDecimal;
    var a, b := ToDecimal(start), ToDecimal(count);
    if count == 1 {
      ShortRange(a, rest);
      assert PrintRange(start, count) == a;
    } else {
      LongRange(a, b, rest);
      RangeText(a, b, rest);
    }
  }

  lemma RangeText(a: string, b: string, rest: string)
    ensures a + ("," + b) + rest == a + ("," + (b + rest))
  {
  }

  /** A header put together from two ranges that read back is read back. */
  lemma HeaderOfRanges(old': string, new': string, heading: string, oldParts: RangeParts, newParts: RangeParts)
    requires heading == "" || heading[0] == ' '
    requires ParseRange(old' + (" +" + (new' + (" @@" + heading)))) == Some(oldParts)
    requires oldParts.rest == " +" + (new' + (" @@" + heading))
    requires ParseRange(new' + (" @@" + heading)) == Some(newParts) && newParts.rest == " @@" + heading
    ensures ParseHeader("@@ -" + (old' + (" +" + (new' + (" @@" + heading)))))
         == Some(HeaderParts(oldParts.start, oldParts.count, newParts.start, newParts.count))
  {
    TakeDrop("@@ -", old' + (" +" + (new' + (" @@" + heading))));
    TakeDrop(" +", new' + (" @@" + heading));
    TakeDrop(" @@", heading);
  }

  lemma {:induction false} HeaderRoundTrip(h: Hunk)
    ensures ParseHeader(PrintHeader(h)) == Some(HeaderParts(
              ToDecimal(h.oldStart), if OldCount(h) == 1 then "" else ToDecimal(OldCount(h)),
              ToDecimal(h.newStart), if NewCount(h) == 1 then "" else ToDecimal(NewCount(h))))
  {
    var heading := PrintHeading(h.heading);
    var tail := " @@" + heading;
    var second := " +" + (PrintRange(h.newStart, NewCount(h)) + tail);
    RangeRoundTrip(h.oldStart, OldCount(h), second);
    RangeRoundTrip(h.newStart, NewCount(h), tail);
    HeaderOfRanges(PrintRange(h.oldStart, OldCount(h)), PrintRange(h.newStart, NewCount(h)), heading,
                   RangeParts(ToDecimal(h.oldStart), if OldCount(h) == 1 then "" else ToDecimal(OldCount(h)), second),
                   RangeParts(ToDecimal(h.newStart), if NewCount(h) == 1 then "" else ToDecimal(NewCount(h)), tail));
  }

  lemma CountRoundTrip(count: nat)
    requires count <= MAX_INT
    ensures CountOf(if count == 1 then "" else ToDecimal(count)) == Some(count as int)
  {
    AtoiDecimal(count);
  }

  lemma {:induction false} IndexAnySkips(a: string, b: string, chars: string)
    requires forall i | 0 <= i < |a| :: a[i] !in chars
    requires b != "" && b[0] in chars
    ensures IndexAny(a + b, chars) == |a|
  {
    if a == "" {
      assert a + b == b;
    } else {
      IndexAnySkips(a[1..], b, chars);
      assert (a + b)[1..] == a[1..] + b;
    }
  }

  /** The lenient reader stops at the first `+` and reads the digits behind it. */
  lemma NewStartOf(before: string, digits: string, after: string)
    requires '+' !in before && AllDigits(digits) && after != "" && after[0] in ", "
    ensures NewHunkStart(before + ("+" + (digits + after)))
         == (var n := Atoi(digits); if n.None? || n.value <= 0 then 0 else n.value)
  {
    var s, value := before + ("+" + (digits + after)), digits + after;
    IndexAnySkips(before, "+" + value, "+");
    assert s[|before| + 1..] == value;
    IndexAnySkips(digits, after, ", ");
    TakeDrop(digits, after);
  }

  lemma Regroup(a: string, old': string, rest: string)
    ensures a + (old' + (" +" + rest)) == (a + (old' + " ")) + ("+" + rest)
  {
    assert " +" + rest == " " + ("+" + rest);
  }

  lemma RangeTail(start: nat, count: nat, tail: string)
    requires HasPrefix(tail, " ")
    ensures '+' !in PrintRange(start, count)
    ensures var after := (if count == 1 then "" else "," + ToDecimal(count)) + tail;
            after != "" && after[0] in ", " && PrintRange(start, count) + tail == ToDecimal(start) + after
  {
  }

  lemma NewStartRoundTrip(h: Hunk)
    requires h.newStart <= MAX_INT
    ensures NewHunkStart(PrintHeader(h)) == h.newStart
  {
    var tail := " @@" + PrintHeading(h.heading);
    var old' := PrintRange(h.oldStart, OldCount(h));
    var after := (if NewCount(h) == 1 then "" else "," + ToDecimal(NewCount(h))) + tail;
    RangeTail(h.oldStart, OldCount(h), tail);
    RangeTail(h.newStart, NewCount(h), tail);
    var before := "@@ -" + (old' + " ");
    assert '+' !in before;
    NewStartOf(before, ToDecimal(h.newStart), after);
    Regroup("@@ -", old', PrintRange(h.newStart, NewCount(h)) + tail);
    AtoiDecimal(h.newStart);
  }
}
