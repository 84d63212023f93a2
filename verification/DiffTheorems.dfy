/** What the three readers see in a patch that really describes the change from one file to another. */
module DiffTheorems {
  import opened Collections
  import opened Text
  import opened UnifiedDiff
  import opened PatchReaders

  // ----- facts about hunks that turn one file into another -----

  /** The header numbers fit in 64 bits and only an empty range may start at 0. */
  predicate SoundHeader(h: Hunk) {
    && h.oldStart <= MAX_INT && OldCount(h) <= MAX_INT && (h.oldStart == 0 ==> OldCount(h) == 0)
    && (h.newStart == 0 ==> NewCount(h) == 0)
    && h.newStart + NewCount(h) <= MAX_INT
  }

  lemma {:induction false} TurnsSound(old': seq<string>, new': seq<string>, hunks: seq<Hunk>, i: nat, j: nat, k: nat)
    requires Turns(old', new', hunks, i, j) && |old'| < MAX_INT && |new'| < MAX_INT && k < |hunks|
    ensures SoundHeader(hunks[k])
    ensures NewCount(hunks[k]) > 0 ==>
              && j < hunks[k].newStart && hunks[k].newStart + NewCount(hunks[k]) - 1 <= |new'|
              && new'[hunks[k].newStart - 1..hunks[k].newStart - 1 + NewCount(hunks[k])] == NewTexts(hunks[k].lines)
  {
    if k > 0 {
      var h := hunks[0];
      var a, b := LinesBefore(h.oldStart, OldCount(h)), LinesBefore(h.newStart, NewCount(h));
      TurnsSound(old', new', hunks[1..], a + OldCount(h), b + NewCount(h), k - 1);
    }
  }

  /** New-side ranges do not overlap: a later hunk starts after the end of an earlier one. */
  lemma {:induction false} TurnsOrdered(old': seq<string>, new': seq<string>, hunks: seq<Hunk>, i: nat, j: nat, k: nat, l: nat)
    requires Turns(old', new', hunks, i, j) && |old'| < MAX_INT && |new'| < MAX_INT && k < l < |hunks|
    requires NewCount(hunks[k]) > 0 && NewCount(hunks[l]) > 0
    ensures hunks[k].newStart + NewCount(hunks[k]) <= hunks[l].newStart
  {
    var h := hunks[0];
    var a, b := LinesBefore(h.oldStart, OldCount(h)), LinesBefore(h.newStart, NewCount(h));
    if k == 0 {
      TurnsSound(old', new', hunks[1..], a + OldCount(h), b + NewCount(h), l - 1);
    } else {
      TurnsOrdered(old', new', hunks[1..], a + OldCount(h), b + NewCount(h), k - 1, l - 1);
    }
  }

  /** Line `line` of the new file is shown by one of the hunks. */
  predicate Covered(hunks: seq<Hunk>, line: int) {
    exists k :: 0 <= k < |hunks| && CoveredBy(hunks[k], line)
  }

  predicate CoveredBy(h: Hunk, line: int) {
    h.newStart <= line < h.newStart + NewCount(h)
  }

  lemma {:induction false} NewSideLines(lines: seq<HunkLine>, next: int)
    ensures |NewSide(lines, next)| == |NewTexts(lines)|
    ensures forall k | 0 <= k < |NewTexts(lines)| :: NewSide(lines, next)[k] == Numbered(next + k, NewTexts(lines)[k])
  {
    if |lines| > 0 {
      NewSideLines(lines[1..], if OnNewSide(lines[0]) then next + 1 else next);
    }
  }

  lemma QuotesOfHunk(new': seq<string>, h: Hunk, line: int, text: string)
    requires NewCount(h) > 0 ==>
               && 1 <= h.newStart && h.newStart + NewCount(h) - 1 <= |new'|
               && new'[h.newStart - 1..h.newStart - 1 + NewCount(h)] == NewTexts(h.lines)
    ensures Quotes(NewSide(h.lines, h.newStart), line, text) <==>
            CoveredBy(h, line) && TrimSpace(new'[line - 1]) == TrimSpace(text)
  {
    NewSideLines(h.lines, h.newStart);
    if CoveredBy(h, line) {
      var k := line - h.newStart;
      assert new'[h.newStart - 1..h.newStart - 1 + NewCount(h)][k] == new'[line - 1];
      assert NewSide(h.lines, h.newStart)[k] == Numbered(line, new'[line - 1]);
    }
  }

  lemma {:induction false} QuotesOfShown(old': seq<string>, new': seq<string>, hunks: seq<Hunk>, i: nat, j: nat,
                                         line: int, text: string)
    requires Turns(old', new', hunks, i, j) && |old'| < MAX_INT && |new'| < MAX_INT
    ensures Covered(hunks, line) ==> 1 <= line <= |new'|
    ensures Quotes(Shown(hunks), line, text) <==> Covered(hunks, line) && TrimSpace(new'[line - 1]) == TrimSpace(text)
  {
    if |hunks| > 0 {
      var h := hunks[0];
      var a, b := LinesBefore(h.oldStart, OldCount(h)), LinesBefore(h.newStart, NewCount(h));
      TurnsSound(old', new', hunks, i, j, 0);
      QuotesOfHunk(new', h, line, text);
      QuotesAppend(NewSide(h.lines, h.newStart), Shown(hunks[1..]), line, text);
      QuotesOfShown(old', new', hunks[1..], a + OldCount(h), b + NewCount(h), line, text);
      CoveredSplit(hunks, line);
    }
  }

  lemma CoveredSplit(hunks: seq<Hunk>, line: int)
    requires |hunks| > 0
    ensures Covered(hunks, line) <==> CoveredBy(hunks[0], line) || Covered(hunks[1..], line)
  {
    if Covered(hunks[1..], line) {
      var k :| 0 <= k < |hunks[1..]| && CoveredBy(hunks[1..][k], line);
      assert CoveredBy(hunks[k + 1], line);
    }
    if Covered(hunks, line) {
      var k :| 0 <= k < |hunks| && CoveredBy(hunks[k], line);
      assert k > 0 ==> CoveredBy(hunks[1..][k - 1], line);
    }
  }

  // ----- the printed patch as lines -----

  lemma {:induction false} RenderedOneLines(lines: seq<HunkLine>)
    requires forall i | 0 <= i < |lines| :: OneLine(Render(lines[i]))
    ensures OneLines(RenderAll(lines))
  {
    if |lines| > 0 { RenderedOneLines(lines[1..]); }
  }

  lemma HeaderOneLine(h: Hunk)
    requires h.heading.Some? ==> OneLine(h.heading.value)
    ensures OneLine(PrintHeader(h))
  {
    RangeTail(h.oldStart, OldCount(h), " ");
    RangeTail(h.newStart, NewCount(h), " ");
    assert OneLine(PrintRange(h.oldStart, OldCount(h))) && OneLine(PrintRange(h.newStart, NewCount(h)));
    assert OneLine(PrintHeading(h.heading));
  }

  lemma {:induction false} PrintedOneLines(hunks: seq<Hunk>)
    requires OneLineHunks(hunks)
    ensures OneLines(PrintHunks(hunks))
  {
    if |hunks| > 0 {
      RenderedOneLines(hunks[0].lines);
      HeaderOneLine(hunks[0]);
      PrintedOneLines(hunks[1..]);
    }
  }

  lemma PatchLines(hunks: seq<Hunk>)
    requires OneLineHunks(hunks)
    ensures Split(Patch(hunks)) == if |hunks| == 0 then [""] else PrintHunks(hunks)
  {
    if |hunks| > 0 {
      PrintedOneLines(hunks);
      SplitJoin(PrintHunks(hunks));
    }
  }

  lemma RenderedStart(line: HunkLine)
    ensures Render(line) != "" && Render(line)[0] in " +-\\"
    ensures !HasPrefix(Render(line), "@@")
    ensures Render(line)[0] == ' ' <==> line.Context?
    ensures Render(line)[0] == '+' <==> line.Added?
    ensures Render(line)[0] == '-' <==> line.Removed?
    ensures !line.NoNewline? ==> Render(line) != NO_NEWLINE && Render(line)[1..] == line.text
    ensures HasPrefix(Render(line), "+++") <==> line.Added? && HasPrefix(line.text, "++")
  {
  }

  // ----- patchEvidence on a printed patch -----

  /** The rest of a printed patch: nothing, or a new header, which resets the walker. */
  predicate Reset(tail: seq<string>) {
    |tail| == 0 || HasPrefix(tail[0], "@@")
  }

  lemma ResetPairs(tail: seq<string>, w: Walk)
    requires Reset(tail)
    ensures Pairs(tail, w) == Pairs(tail, START)
  {
  }

  /** The walker's counts are those of the body lines still to come. */
  predicate Fits(lines: seq<HunkLine>, w: Walk) {
    && w.oldRemaining == |OldTexts(lines)| && w.newRemaining == |NewTexts(lines)|
    && 0 < w.next && w.next + w.newRemaining <= MAX_INT
  }

  /** The walker after a body line, as the hunk's own counts describe it. */
  function Passed(line: HunkLine, w: Walk): Walk {
    Walk(if OnNewSide(line) then w.next + 1 else w.next,
         w.oldRemaining - (if OnOldSide(line) then 1 else 0),
         w.newRemaining - (if OnNewSide(line) then 1 else 0))
  }

  function ShownBy(line: HunkLine, next: int): seq<Numbered> {
    if OnNewSide(line) then [Numbered(next, line.text)] else []
  }

  lemma FitsOn(lines: seq<HunkLine>, w: Walk)
    requires |lines| > 0 && Fits(lines, w)
    ensures Fits(lines[1..], Passed(lines[0], w))
    ensures NewSide(lines, w.next) == ShownBy(lines[0], w.next) + NewSide(lines[1..], Passed(lines[0], w).next)
  {
    SideCounts(lines);
    SideStep(lines, w.next);
  }

  lemma SideCounts(lines: seq<HunkLine>)
    requires |lines| > 0
    ensures |NewTexts(lines)| == (if OnNewSide(lines[0]) then 1 else 0) + |NewTexts(lines[1..])|
    ensures |OldTexts(lines)| == (if OnOldSide(lines[0]) then 1 else 0) + |OldTexts(lines[1..])|
  {
  }

  lemma SideStep(lines: seq<HunkLine>, next: int)
    requires |lines| > 0
    ensures NewSide(lines, next) ==
            ShownBy(lines[0], next) + NewSide(lines[1..], if OnNewSide(lines[0]) then next + 1 else next)
  {
    if !OnNewSide(lines[0]) {
      assert [] + NewSide(lines[1..], next) == NewSide(lines[1..], next);
    }
  }

  /** One body line, read with the counts its hunk still has. */
  lemma LineStep(line: HunkLine, w: Walk)
    requires 0 < w.next < MAX_INT
    requires OnOldSide(line) ==> w.oldRemaining > 0
    requires OnNewSide(line) ==> w.newRemaining > 0
    ensures Emit(w, Render(line)) == ShownBy(line, w.next)
    ensures Step(w, Render(line)) == Passed(line, w)
  {
    RenderedStart(line);
  }

  lemma {:induction false} BodyPairs(lines: seq<HunkLine>, w: Walk, tail: seq<string>)
    requires Reset(tail) && Fits(lines, w)
    ensures Pairs(RenderAll(lines) + tail, w) == NewSide(lines, w.next) + Pairs(tail, START)
  {
    if NewTexts(lines) == [] {
      LastLines(lines, w, tail);
    } else {
      FitsOn(lines, w);
      LineStep(lines[0], w);
      BodyPairs(lines[1..], Passed(lines[0], w), tail);
      UnfoldPairs(Render(lines[0]), RenderAll(lines[1..]), tail, w);
    }
  }

  lemma UnfoldPairs(first: string, rest: seq<string>, tail: seq<string>, w: Walk)
    ensures Pairs([first] + rest + tail, w) == Emit(w, first) + Pairs(rest + tail, Step(w, first))
  {
    assert ([first] + rest + tail)[1..] == rest + tail;
  }

  /** Lines without a new side are never taken. */
  lemma {:induction false} LastLines(lines: seq<HunkLine>, w: Walk, tail: seq<string>)
    requires Reset(tail) && NewTexts(lines) == []
    ensures NewSide(lines, w.next) == []
    ensures Pairs(RenderAll(lines) + tail, w) == Pairs(tail, START)
  {
    var all := RenderAll(lines) + tail;
    if |lines| == 0 {
      assert all == tail;
      ResetPairs(tail, w);
    } else {
      RenderedStart(lines[0]);
      assert all[0] == Render(lines[0]) && all[1..] == RenderAll(lines[1..]) + tail;
      LastLines(lines[1..], Step(w, Render(lines[0])), tail);
      NewSideLines(lines[1..], w.next);
    }
  }

  lemma HeaderPrefix(h: Hunk)
    ensures HasPrefix(PrintHeader(h), "@@ ")
    ensures HasPrefix(PrintHeader(h), "@@")
  {
  }

  lemma AtHeaderOf(line: string, a: nat, b: nat, c: nat, d: nat)
    requires ParseHeader(line) == Some(HeaderParts(ToDecimal(a), if b == 1 then "" else ToDecimal(b),
                                                   ToDecimal(c), if d == 1 then "" else ToDecimal(d)))
    requires a <= MAX_INT && b <= MAX_INT && c <= MAX_INT && d <= MAX_INT
    requires (a == 0 ==> b == 0) && (c == 0 ==> d == 0)
    ensures AtHeader(line) == Walk(c, b, d)
  {
    AtoiDecimal(a);
    AtoiDecimal(c);
    CountRoundTrip(b);
    CountRoundTrip(d);
  }

  lemma HeaderWalk(h: Hunk)
    requires SoundHeader(h)
    ensures AtHeader(PrintHeader(h)) == Walk(h.newStart, OldCount(h), NewCount(h))
  {
    HeaderRoundTrip(h);
    AtHeaderOf(PrintHeader(h), h.oldStart, OldCount(h), h.newStart, NewCount(h));
  }

  lemma PrintedReset(hunks: seq<Hunk>)
    ensures Reset(PrintHunks(hunks))
  {
    if |hunks| > 0 { HeaderPrefix(hunks[0]); }
  }

  /** One printed hunk shows its numbered new side. */
  lemma HunkPairs(h: Hunk, tail: seq<string>)
    requires SoundHeader(h) && Reset(tail)
    ensures Pairs(PrintHunk(h) + tail, START) == NewSide(h.lines, h.newStart) + Pairs(tail, START)
  {
    var header := PrintHeader(h);
    var all := PrintHunk(h) + tail;
    assert all[0] == header && all[1..] == RenderAll(h.lines) + tail;
    HeaderPrefix(h);
    HeaderWalk(h);
    var w := Walk(h.newStart, OldCount(h), NewCount(h));
    assert Pairs(all, START) == Pairs(RenderAll(h.lines) + tail, w);
    if NewTexts(h.lines) == [] {
      LastLines(h.lines, w, tail);
    } else {
      BodyPairs(h.lines, w, tail);
    }
  }

  lemma {:induction false} PrintedPairs(hunks: seq<Hunk>)
    requires forall k | 0 <= k < |hunks| :: SoundHeader(hunks[k])
    ensures Pairs(PrintHunks(hunks), START) == Shown(hunks)
  {
    if |hunks| > 0 {
      PrintedPairs(hunks[1..]);
      PrintedReset(hunks[1..]);
      HunkPairs(hunks[0], PrintHunks(hunks[1..]));
    }
  }

  /** On a printed patch the walker lists exactly the new-side lines the hunks show. */
  lemma PatchPairs(old': seq<string>, new': seq<string>, hunks: seq<Hunk>)
    requires OneLineHunks(hunks) && Turns(old', new', hunks, 0, 0) && |old'| < MAX_INT && |new'| < MAX_INT
    ensures Pairs(Split(Patch(hunks)), START) == Shown(hunks)
  {
    PatchLines(hunks);
    forall k | 0 <= k < |hunks| ensures SoundHeader(hunks[k]) {
      TurnsSound(old', new', hunks, 0, 0, k);
    }
    PrintedPairs(hunks);
  }

  /**
   * Soundness and completeness of `patchEvidence`: on the printed patch of any change it accepts a quotation exactly
   * when a hunk shows that line of the new file and the line reads so, up to surrounding white space.
   */
  lemma {:induction false} PatchEvidenceExact(old': seq<string>, new': seq<string>, hunks: seq<Hunk>, line: int, text: string)
    requires OneLineHunks(hunks) && Turns(old', new', hunks, 0, 0) && |old'| < MAX_INT && |new'| < MAX_INT
    ensures Covered(hunks, line) ==> 1 <= line <= |new'|
    ensures Quotes(Pairs(Split(Patch(hunks)), START), line, text) <==>
            Covered(hunks, line) && TrimSpace(new'[line - 1]) == TrimSpace(text)
  {
    PatchPairs(old', new', hunks);
    QuotesOfShown(old', new', hunks, 0, 0, line, text);
  }

  // ----- cut patches -----

  function After(lines: seq<string>, w: Walk): Walk {
    if |lines| == 0 then w else After(lines[1..], Step(w, lines[0]))
  }

  lemma {:induction false} PairsAppend(a: seq<string>, b: seq<string>, w: Walk)
    ensures Pairs(a + b, w) == Pairs(a, w) + Pairs(b, After(a, w))
  {
    if |a| == 0 {
      assert a + b == b;
    } else {
      assert (a + b)[1..] == a[1..] + b;
      PairsAppend(a[1..], b, Step(w, a[0]));
    }
  }

  lemma SplitLinesArePrefix(content: string)
    ensures SplitLines(content) <= Split(content) && OneLines(SplitLines(content))
  {
    hide Split, Join;
    SplitIsLines(content);
    if content != "" && content[|content| - 1] == '\n' {
      var body := content[..|content| - 1];
      assert content == body + "\n" + "";
      SplitAppend(body, "");
    }
  }

  lemma CutLines(content: string, limit: nat)
    requires 0 < limit < |SplitLines(content)|
    ensures limit < |Split(content)|
    ensures Split(TakeLines(content, limit).text) == Split(content)[..limit] + [TRUNCATED]
  {
    SplitLinesArePrefix(content);
    var kept := SplitLines(content)[..limit];
    assert kept == Split(content)[..limit];
    JoinedCut(kept);
  }

  lemma JoinedCut(kept: seq<string>)
    requires |kept| > 0 && OneLines(kept)
    ensures Split(Join(kept) + "\n" + TRUNCATED) == kept + [TRUNCATED]
  {
    SplitAppend(Join(kept), TRUNCATED);
    SplitJoin(kept);
    NoteIsOneLine();
  }

  lemma NoteIsOneLine()
    ensures Split(TRUNCATED) == [TRUNCATED]
  {
    assert OneLine(TRUNCATED);
    SplitOneLine(TRUNCATED);
  }

  /**
   * Cutting a patch shows the walker exactly the quotations of the lines that were kept:
   * the note that replaces the rest is never one, and nothing is accepted that the whole patch does not show.
   */
  lemma {:induction false} TakeLinesSound(content: string, limit: int, line: int, text: string)
    ensures var taken := TakeLines(content, limit);
            && (!taken.truncated ==> taken.text == content)
            && (taken.truncated ==>
                  && 0 < limit < |Split(content)|
                  && Pairs(Split(taken.text), START) == Pairs(Split(content)[..limit], START))
            && Pairs(Split(taken.text), START) <= Pairs(Split(content), START)
            && (Quotes(Pairs(Split(taken.text), START), line, text) ==> Quotes(Pairs(Split(content), START), line, text))
  {
    var taken := TakeLines(content, limit);
    if taken.truncated {
      CutLines(content, limit);
      SplitLinesArePrefix(content);
      CutPairs(Split(content), limit);
    }
    QuotesPrefix(Pairs(Split(taken.text), START), Pairs(Split(content), START), line, text);
  }

  lemma CutPairs(lines: seq<string>, limit: nat)
    requires limit <= |lines|
    ensures Pairs(lines[..limit] + [TRUNCATED], START) == Pairs(lines[..limit], START) <= Pairs(lines, START)
  {
    NoteIsNotEvidence(After(lines[..limit], START));
    NotedPairs(lines, limit, TRUNCATED);
  }

  lemma NotedPairs(lines: seq<string>, limit: nat, note: string)
    requires limit <= |lines| && Pairs([note], After(lines[..limit], START)) == []
    ensures Pairs(lines[..limit] + [note], START) == Pairs(lines[..limit], START) <= Pairs(lines, START)
  {
    hide Pairs, After;
    PairsAppend(lines[..limit], [note], START);
    PairsAppend(lines[..limit], lines[limit..], START);
    assert lines[..limit] + lines[limit..] == lines;
  }

  lemma NoteIsNotEvidence(w: Walk)
    ensures Pairs([TRUNCATED], w) == []
  {
    assert !Takes(w, TRUNCATED);
  }

  lemma QuotesPrefix(a: seq<Numbered>, b: seq<Numbered>, line: int, text: string)
    requires a <= b
    ensures Quotes(a, line, text) ==> Quotes(b, line, text)
  {
    assert b == a + b[|a|..];
    QuotesAppend(a, b[|a|..], line, text);
  }
}
