/**
 * When the two lenient readers agree with patchEvidence. Both skip every line that starts with `+++`, also an added
 * line whose own text starts with `++`; they agree with the strict reader exactly on patches without such a line.
 */
module ReaderAgreement {
  import opened Collections
  import opened Text
  import opened UnifiedDiff
  import opened PatchReaders
  import opened DiffTheorems

  /** An added line the lenient readers take for a file header. */
  predicate LooksLikeHeader(line: HunkLine) {
    line.Added? && HasPrefix(line.text, "++")
  }

  predicate Plain(lines: seq<HunkLine>) {
    forall i | 0 <= i < |lines| :: !LooksLikeHeader(lines[i])
  }

  predicate PlainHunks(hunks: seq<Hunk>) {
    forall k | 0 <= k < |hunks| :: Plain(hunks[k].lines)
  }

  /** The prefixes the readers test, on a printed body line. */
  lemma RenderedPrefixes(line: HunkLine)
    ensures var s := Render(line);
            && s != "" && !HasPrefix(s, "@@") && !HasPrefix(s, "@@ ")
            && (HasPrefix(s, "+++") <==> LooksLikeHeader(line))
            && (HasPrefix(s, "+") <==> line.Added?)
            && (HasPrefix(s, "-") <==> line.Removed?)
            && (HasPrefix(s, "---") ==> line.Removed?)
            && (HasPrefix(s, "\\") <==> line.NoNewline?)
            && (HasPrefix(s, " ") <==> line.Context?)
            && (!line.NoNewline? ==> s[1..] == line.text)
  {
    var s := Render(line);
    RenderedStart(line);
    assert HasPrefix(s, "---") ==> s[0] == '-';
  }

  // ----- changedLinesForPath -----

  /** The added lines of a hunk body with their numbers. */
  function AddedSide(lines: seq<HunkLine>, next: int): seq<Numbered> {
    if |lines| == 0 then []
    else
      var first := if lines[0].Added? then [Numbered(next, lines[0].text)] else [];
      first + AddedSide(lines[1..], if OnNewSide(lines[0]) then next + 1 else next)
  }

  function AllAdded(hunks: seq<Hunk>): seq<Numbered> {
    if |hunks| == 0 then [] else AddedSide(hunks[0].lines, hunks[0].newStart) + AllAdded(hunks[1..])
  }

  function Numbers(listed: seq<Numbered>): (r: seq<int>)
    ensures |r| == |listed| && forall i | 0 <= i < |r| :: r[i] == listed[i].line
  {
    if |listed| == 0 then [] else [listed[0].line] + Numbers(listed[1..])
  }

  /** The line counter of changedLinesForPath after a body line. */
  function ChangedNext(line: HunkLine, n: int): int {
    if LooksLikeHeader(line) || !OnNewSide(line) then n else Inc(n)
  }

  /** What changedLinesForPath collects from a hunk body. */
  function ChangedIn(lines: seq<HunkLine>, n: int): seq<int> {
    if |lines| == 0 then []
    else
      var first := if lines[0].Added? && !LooksLikeHeader(lines[0]) && n > 0 then [n] else [];
      first + ChangedIn(lines[1..], ChangedNext(lines[0], n))
  }

  lemma ChangedStepOnBody(line: HunkLine, n: int)
    ensures IsChange(n, Render(line)) <==> line.Added? && !LooksLikeHeader(line) && n > 0
    ensures NextNumber(n, Render(line)) == ChangedNext(line, n)
  {
    RenderedPrefixes(line);
  }

  lemma ChangedUnfold(first: string, rest: seq<string>, tail: seq<string>, n: int)
    ensures Changed([first] + rest + tail, n)
         == (if IsChange(n, first) then [n] else []) + Changed(rest + tail, NextNumber(n, first))
  {
    assert ([first] + rest + tail)[1..] == rest + tail;
  }

  lemma {:induction false} ChangedBody(lines: seq<HunkLine>, n: int, tail: seq<string>)
    requires Reset(tail)
    ensures Changed(RenderAll(lines) + tail, n) == ChangedIn(lines, n) + Changed(tail, 0)
  {
    if |lines| == 0 {
      assert RenderAll(lines) + tail == tail;
    } else {
      ChangedStepOnBody(lines[0], n);
      ChangedUnfold(Render(lines[0]), RenderAll(lines[1..]), tail, n);
      ChangedBody(lines[1..], ChangedNext(lines[0], n), tail);
    }
  }

  function AllChanged(hunks: seq<Hunk>): seq<int> {
    if |hunks| == 0 then [] else ChangedIn(hunks[0].lines, hunks[0].newStart) + AllChanged(hunks[1..])
  }

  lemma ChangedHunk(h: Hunk, tail: seq<string>)
    requires h.newStart <= MAX_INT && Reset(tail)
    ensures Changed(PrintHunk(h) + tail, 0) == ChangedIn(h.lines, h.newStart) + Changed(tail, 0)
  {
    HeaderPrefix(h);
    NewStartRoundTrip(h);
    ChangedUnfold(PrintHeader(h), RenderAll(h.lines), tail, 0);
    ChangedBody(h.lines, h.newStart, tail);
  }

  lemma {:induction false} PrintedChanged(hunks: seq<Hunk>)
    requires forall k | 0 <= k < |hunks| :: SoundHeader(hunks[k])
    ensures Changed(PrintHunks(hunks), 0) == AllChanged(hunks)
  {
    if |hunks| > 0 {
      PrintedChanged(hunks[1..]);
      PrintedReset(hunks[1..]);
      ChangedHunk(hunks[0], PrintHunks(hunks[1..]));
    }
  }

  /** A hunk body yields one number per plain added line: as many as there are added lines only if all are plain. */
  lemma {:induction false} ChangedInSize(lines: seq<HunkLine>, n: int)
    requires 0 <= n && n + |NewTexts(lines)| <= MAX_INT && (n == 0 ==> NewTexts(lines) == [])
    ensures |ChangedIn(lines, n)| <= |AddedSide(lines, n)|
    ensures Plain(lines) ==> ChangedIn(lines, n) == Numbers(AddedSide(lines, n))
    ensures |ChangedIn(lines, n)| == |AddedSide(lines, n)| ==> Plain(lines)
  {
    if |lines| > 0 {
      ChangedInSize(lines[1..], ChangedNext(lines[0], n));
      if LooksLikeHeader(lines[0]) {
        AddedSideSize(lines[1..], n, n + 1);
      } else {
        PlainSplit(lines);
      }
    }
  }

  lemma PlainSplit(lines: seq<HunkLine>)
    requires |lines| > 0
    ensures Plain(lines) <==> !LooksLikeHeader(lines[0]) && Plain(lines[1..])
  {
    assert Plain(lines) ==> Plain(lines[1..]);
    assert forall i | 1 <= i < |lines| :: lines[i] == lines[1..][i - 1];
  }

  lemma {:induction false} AddedSideSize(lines: seq<HunkLine>, n: int, m: int)
    ensures |AddedSide(lines, n)| == |AddedSide(lines, m)|
  {
    if |lines| > 0 {
      var d := if OnNewSide(lines[0]) then 1 else 0;
      AddedSideSize(lines[1..], n + d, m + d);
    }
  }

  lemma PlainHunksSplit(hunks: seq<Hunk>)
    requires |hunks| > 0
    ensures PlainHunks(hunks) <==> Plain(hunks[0].lines) && PlainHunks(hunks[1..])
  {
    assert PlainHunks(hunks) ==> PlainHunks(hunks[1..]);
    assert forall k | 1 <= k < |hunks| :: hunks[k] == hunks[1..][k - 1];
  }

  lemma NumbersAppend(a: seq<Numbered>, b: seq<Numbered>)
    ensures Numbers(a + b) == Numbers(a) + Numbers(b)
  {
  }

  lemma {:induction false} AllChangedSize(hunks: seq<Hunk>)
    requires forall k | 0 <= k < |hunks| :: SoundHeader(hunks[k])
    ensures |AllChanged(hunks)| <= |AllAdded(hunks)|
    ensures PlainHunks(hunks) ==> AllChanged(hunks) == Numbers(AllAdded(hunks))
    ensures |AllChanged(hunks)| == |AllAdded(hunks)| ==> PlainHunks(hunks)
  {
    if |hunks| > 0 {
      AllChangedSize(hunks[1..]);
      ChangedInSize(hunks[0].lines, hunks[0].newStart);
      PlainHunksSplit(hunks);
      NumbersAppend(AddedSide(hunks[0].lines, hunks[0].newStart), AllAdded(hunks[1..]));
    }
  }

  /** changedLinesForPath reports exactly the numbers of the added lines, iff no added line looks like a file header. */
  lemma {:induction false} ChangedLinesExact(old': seq<string>, new': seq<string>, hunks: seq<Hunk>)
    requires OneLineHunks(hunks) && Turns(old', new', hunks, 0, 0) && |old'| < MAX_INT && |new'| < MAX_INT
    ensures Changed(Split(Patch(hunks)), 0) == Numbers(AllAdded(hunks)) <==> PlainHunks(hunks)
  {
    PatchLines(hunks);
    forall k | 0 <= k < |hunks| ensures SoundHeader(hunks[k]) {
      TurnsSound(old', new', hunks, 0, 0, k);
    }
    PrintedChanged(hunks);
    AllChangedSize(hunks);
    if |hunks| == 0 {
      assert [""][1..] == [];
    }
  }

  lemma {:induction false} FirstPatchFound(files: seq<FilePatch>, i: nat)
    requires i < |files| && TrimSpace(files[i].patch) != ""
    requires forall j | 0 <= j < i :: files[j].filename != files[i].filename
    ensures FirstPatch(files, files[i].filename) == Some(files[i].patch)
  {
    if i > 0 {
      assert files[i] == files[1..][i - 1];
      FirstPatchFound(files[1..], i - 1);
    }
  }

  lemma PatchNotBlank(hunks: seq<Hunk>)
    requires |hunks| > 0 && OneLineHunks(hunks)
    ensures TrimSpace(Patch(hunks)) != ""
  {
    PatchLines(hunks);
    HeaderPrefix(hunks[0]);
    var p := Patch(hunks);
    assert p != "" && p[0] == '@' by { FirstCharacter(p); }
    assert TrimLeft(p) == p;
    TrimRightTrims(p);
  }

  lemma FirstCharacter(p: string)
    requires HasPrefix(Split(p)[0], "@@ ")
    ensures p != "" && p[0] == '@'
  {
    var first := Split(p)[0];
    assert first[0] == "@@ "[0];
    assert p != "" ==> first == Cons(p[0], Split(p[1..]))[0];
  }

  /**
   * Among the files of a pull request: the lines a file's context is built around are the numbers of its added lines, iff
   * none of them looks like a file header.
   */
  lemma {:induction false} PathChangesExact(files: seq<FilePatch>, i: nat, old': seq<string>, new': seq<string>, hunks: seq<Hunk>)
    requires i < |files| && files[i].patch == Patch(hunks) && |hunks| > 0
    requires forall j | 0 <= j < i :: files[j].filename != files[i].filename
    requires OneLineHunks(hunks) && Turns(old', new', hunks, 0, 0) && |old'| < MAX_INT && |new'| < MAX_INT
    ensures ChangedFor(files, files[i].filename) == Numbers(AllAdded(hunks)) <==> PlainHunks(hunks)
  {
    hide TrimSpace, Split, Patch, Turns, OneLineHunks, Changed;
    PatchNotBlank(hunks);
    FirstPatchFound(files, i);
    ChangedLinesExact(old', new', hunks);
  }

  // ----- the added lines are increasing and quotable -----

  lemma {:induction false} AddedSideBounds(lines: seq<HunkLine>, n: int)
    ensures forall i | 0 <= i < |AddedSide(lines, n)| :: n <= AddedSide(lines, n)[i].line < n + |NewTexts(lines)|
    ensures forall i, j | 0 <= i < j < |AddedSide(lines, n)| :: AddedSide(lines, n)[i].line < AddedSide(lines, n)[j].line
    ensures forall i | 0 <= i < |AddedSide(lines, n)| :: AddedSide(lines, n)[i] in NewSide(lines, n)
  {
    if |lines| > 0 {
      AddedSideBounds(lines[1..], if OnNewSide(lines[0]) then n + 1 else n);
    }
  }

  lemma {:induction false} AllAddedFacts(old': seq<string>, new': seq<string>, hunks: seq<Hunk>, i: nat, j: nat)
    requires Turns(old', new', hunks, i, j) && |old'| < MAX_INT && |new'| < MAX_INT
    ensures forall k | 0 <= k < |AllAdded(hunks)| :: j < AllAdded(hunks)[k].line
    ensures forall k, l | 0 <= k < l < |AllAdded(hunks)| :: AllAdded(hunks)[k].line < AllAdded(hunks)[l].line
    ensures forall k | 0 <= k < |AllAdded(hunks)| :: AllAdded(hunks)[k] in Shown(hunks)
  {
    if |hunks| > 0 {
      var h := hunks[0];
      var a, b := LinesBefore(h.oldStart, OldCount(h)), LinesBefore(h.newStart, NewCount(h));
      AddedSideBounds(h.lines, h.newStart);
      AllAddedFacts(old', new', hunks[1..], a + OldCount(h), b + NewCount(h));
    }
  }

  /** The reported lines come in strictly increasing order, and each can be quoted with its text. */
  lemma {:induction false} AddedLinesAreQuotable(old': seq<string>, new': seq<string>, hunks: seq<Hunk>, k: nat)
    requires OneLineHunks(hunks) && Turns(old', new', hunks, 0, 0) && |old'| < MAX_INT && |new'| < MAX_INT
    requires k < |AllAdded(hunks)|
    ensures k > 0 ==> Numbers(AllAdded(hunks))[k - 1] < Numbers(AllAdded(hunks))[k]
    ensures Quotes(Pairs(Split(Patch(hunks)), START), AllAdded(hunks)[k].line, AllAdded(hunks)[k].text)
  {
    AllAddedFacts(old', new', hunks, 0, 0);
    PatchPairs(old', new', hunks);
    assert AllAdded(hunks)[k] in Shown(hunks);
  }

  // ----- diffReferenceEvidence -----

  function RawIn(lines: seq<HunkLine>, n: int): seq<Numbered> {
    if |lines| == 0 then []
    else if OnNewSide(lines[0]) && !LooksLikeHeader(lines[0]) then
      [Numbered(n, lines[0].text)] + RawIn(lines[1..], Inc(n))
    else RawIn(lines[1..], n)
  }

  function RawShown(hunks: seq<Hunk>): seq<Numbered> {
    if |hunks| == 0 then [] else RawIn(hunks[0].lines, hunks[0].newStart) + RawShown(hunks[1..])
  }

  lemma RawUnfold(first: string, rest: seq<string>, tail: seq<string>, n: int)
    ensures RawPairs([first] + rest + tail, n) == RawEmit(n, first) + RawPairs(rest + tail, RawNext(n, first))
  {
    assert ([first] + rest + tail)[1..] == rest + tail;
  }

  /** A later part of a printed patch starts with a header both lenient readers recognise. */
  predicate RawReset(tail: seq<string>) {
    |tail| == 0 || HasPrefix(tail[0], "@@ ")
  }

  /** The line counter of the raw reader after a body line. */
  function RawPassed(line: HunkLine, n: int): int {
    if OnNewSide(line) && !LooksLikeHeader(line) then Inc(n) else n
  }

  function RawShownBy(line: HunkLine, n: int): seq<Numbered> {
    if OnNewSide(line) && !LooksLikeHeader(line) then [Numbered(n, line.text)] else []
  }

  lemma RawStepOnBody(line: HunkLine, n: int)
    requires 0 < n
    ensures RawNext(n, Render(line)) == RawPassed(line, n)
    ensures RawEmit(n, Render(line)) == RawShownBy(line, n)
  {
    RenderedPrefixes(line);
  }

  lemma RawInStep(lines: seq<HunkLine>, n: int)
    requires |lines| > 0
    ensures RawIn(lines, n) == RawShownBy(lines[0], n) + RawIn(lines[1..], RawPassed(lines[0], n))
  {
  }

  lemma {:induction false} RawBody(lines: seq<HunkLine>, n: int, tail: seq<string>)
    requires RawReset(tail) && 0 < n && n + |NewTexts(lines)| <= MAX_INT
    ensures RawPairs(RenderAll(lines) + tail, n) == RawIn(lines, n) + RawPairs(tail, 0)
  {
    if |lines| == 0 {
      assert RenderAll(lines) + tail == tail;
    } else {
      RawStepOnBody(lines[0], n);
      RawUnfold(Render(lines[0]), RenderAll(lines[1..]), tail, n);
      RawInStep(lines, n);
      RawBody(lines[1..], RawPassed(lines[0], n), tail);
      Associates(RawShownBy(lines[0], n), RawIn(lines[1..], RawPassed(lines[0], n)), RawPairs(tail, 0));
    }
  }

  lemma {:induction false} RawIdle(lines: seq<HunkLine>, tail: seq<string>)
    requires RawReset(tail) && NewTexts(lines) == []
    ensures RawPairs(RenderAll(lines) + tail, 0) == RawPairs(tail, 0)
    ensures forall n :: RawIn(lines, n) == []
  {
    if |lines| == 0 {
      assert RenderAll(lines) + tail == tail;
    } else {
      RenderedPrefixes(lines[0]);
      RawUnfold(Render(lines[0]), RenderAll(lines[1..]), tail, 0);
      RawIdle(lines[1..], tail);
    }
  }

  lemma RawHunk(h: Hunk, tail: seq<string>)
    requires SoundHeader(h) && RawReset(tail)
    ensures RawPairs(PrintHunk(h) + tail, 0) == RawIn(h.lines, h.newStart) + RawPairs(tail, 0)
  {
    HeaderPrefix(h);
    NewStartRoundTrip(h);
    RawUnfold(PrintHeader(h), RenderAll(h.lines), tail, 0);
    if h.newStart == 0 {
      RawIdle(h.lines, tail);
    } else {
      RawBody(h.lines, h.newStart, tail);
    }
  }

  lemma {:induction false} PrintedRaw(hunks: seq<Hunk>)
    requires forall k | 0 <= k < |hunks| :: SoundHeader(hunks[k])
    ensures RawPairs(PrintHunks(hunks), 0) == RawShown(hunks)
  {
    if |hunks| > 0 {
      PrintedRaw(hunks[1..]);
      if |hunks| > 1 { HeaderPrefix(hunks[1]); }
      RawHunk(hunks[0], PrintHunks(hunks[1..]));
    }
  }

  lemma {:induction false} RawInFacts(lines: seq<HunkLine>, n: int)
    requires 0 <= n && n + |NewTexts(lines)| <= MAX_INT
    ensures |RawIn(lines, n)| <= |NewTexts(lines)|
    ensures Plain(lines) ==> RawIn(lines, n) == NewSide(lines, n)
    ensures !Plain(lines) ==> |RawIn(lines, n)| < |NewTexts(lines)|
    ensures forall i | 0 <= i < |RawIn(lines, n)| :: n <= RawIn(lines, n)[i].line < n + |RawIn(lines, n)|
  {
    if |lines| > 0 {
      PlainSplit(lines);
      RawInFacts(lines[1..], if OnNewSide(lines[0]) && !LooksLikeHeader(lines[0]) then Inc(n) else n);
    }
  }

  lemma {:induction false} PlainRaw(hunks: seq<Hunk>)
    requires (forall k | 0 <= k < |hunks| :: SoundHeader(hunks[k])) && PlainHunks(hunks)
    ensures RawShown(hunks) == Shown(hunks)
  {
    if |hunks| > 0 {
      RawInFacts(hunks[0].lines, hunks[0].newStart);
      assert forall k | 1 <= k < |hunks| :: hunks[k] == hunks[1..][k - 1];
      PlainRaw(hunks[1..]);
    }
  }

  /** The lines the raw reader can quote from a hunk. */
  predicate RawCovers(h: Hunk, line: int) {
    h.newStart <= line < h.newStart + |RawIn(h.lines, h.newStart)|
  }

  lemma {:induction false} RawShownLines(hunks: seq<Hunk>, line: int, text: string)
    requires forall k | 0 <= k < |hunks| :: SoundHeader(hunks[k])
    requires forall k | 0 <= k < |hunks| :: !RawCovers(hunks[k], line)
    ensures !Quotes(RawShown(hunks), line, text)
  {
    if |hunks| > 0 {
      var h := hunks[0];
      RawInFacts(h.lines, h.newStart);
      assert forall k | 1 <= k < |hunks| :: hunks[k] == hunks[1..][k - 1];
      RawShownLines(hunks[1..], line, text);
      QuotesAppend(RawIn(h.lines, h.newStart), RawShown(hunks[1..]), line, text);
    }
  }

  /** In a hunk with a line that looks like a file header, the raw reader misses the last new-side line. */
  lemma RawMissesLast(old': seq<string>, new': seq<string>, hunks: seq<Hunk>, k: nat)
    requires Turns(old', new', hunks, 0, 0) && |old'| < MAX_INT && |new'| < MAX_INT
    requires k < |hunks| && !Plain(hunks[k].lines)
    ensures var last := hunks[k].newStart + NewCount(hunks[k]) - 1;
            && 1 <= last <= |new'|
            && true == Quotes(Shown(hunks), last, new'[last - 1])
            && false == Quotes(RawShown(hunks), last, new'[last - 1])
  {
    hide Turns, Quotes, NewCount, Plain, Covered, Shown, RawShown;
    var last := hunks[k].newStart + NewCount(hunks[k]) - 1;
    LastIsCovered(old', new', hunks, k);
    CoveredIsShown(old', new', hunks, last, new'[last - 1]);
    LastIsMissed(old', new', hunks, k, new'[last - 1]);
  }

  lemma CoveredIsShown(old': seq<string>, new': seq<string>, hunks: seq<Hunk>, line: int, text: string)
    requires Turns(old', new', hunks, 0, 0) && |old'| < MAX_INT && |new'| < MAX_INT
    requires 1 <= line <= |new'| && Covered(hunks, line) && new'[line - 1] == text
    ensures true == Quotes(Shown(hunks), line, text)
  {
    QuotesOfShown(old', new', hunks, 0, 0, line, text);
  }

  lemma LastIsMissed(old': seq<string>, new': seq<string>, hunks: seq<Hunk>, k: nat, text: string)
    requires Turns(old', new', hunks, 0, 0) && |old'| < MAX_INT && |new'| < MAX_INT
    requires k < |hunks| && !Plain(hunks[k].lines)
    ensures false == Quotes(RawShown(hunks), hunks[k].newStart + NewCount(hunks[k]) - 1, text)
  {
    TurnsSound(old', new', hunks, 0, 0, k);
    NoneCovers(old', new', hunks, k);
    RawShownLines(hunks, hunks[k].newStart + NewCount(hunks[k]) - 1, text);
  }

  lemma NoneCovers(old': seq<string>, new': seq<string>, hunks: seq<Hunk>, k: nat)
    requires Turns(old', new', hunks, 0, 0) && |old'| < MAX_INT && |new'| < MAX_INT
    requires k < |hunks| && !Plain(hunks[k].lines) && SoundHeader(hunks[k])
    ensures forall l | 0 <= l < |hunks| :: SoundHeader(hunks[l])
    ensures forall l | 0 <= l < |hunks| :: !RawCovers(hunks[l], hunks[k].newStart + NewCount(hunks[k]) - 1)
  {
    forall l | 0 <= l < |hunks|
      ensures SoundHeader(hunks[l]) && !RawCovers(hunks[l], hunks[k].newStart + NewCount(hunks[k]) - 1) {
      TurnsSound(old', new', hunks, 0, 0, l);
      NotCoveredElsewhere(old', new', hunks, k, l);
    }
  }

  lemma LastIsCovered(old': seq<string>, new': seq<string>, hunks: seq<Hunk>, k: nat)
    requires Turns(old', new', hunks, 0, 0) && |old'| < MAX_INT && |new'| < MAX_INT
    requires k < |hunks| && !Plain(hunks[k].lines)
    ensures var last := hunks[k].newStart + NewCount(hunks[k]) - 1;
            SoundHeader(hunks[k]) && 1 <= last <= |new'| && Covered(hunks, last)
  {
    var h := hunks[k];
    TurnsSound(old', new', hunks, 0, 0, k);
    RawInFacts(h.lines, h.newStart);
    assert CoveredBy(h, h.newStart + NewCount(h) - 1);
  }

  lemma NotCoveredElsewhere(old': seq<string>, new': seq<string>, hunks: seq<Hunk>, k: nat, l: nat)
    requires Turns(old', new', hunks, 0, 0) && |old'| < MAX_INT && |new'| < MAX_INT
    requires k < |hunks| && l < |hunks| && SoundHeader(hunks[k]) && SoundHeader(hunks[l]) && !Plain(hunks[k].lines)
    ensures !RawCovers(hunks[l], hunks[k].newStart + NewCount(hunks[k]) - 1)
  {
    RawInFacts(hunks[k].lines, hunks[k].newStart);
    RawInFacts(hunks[l].lines, hunks[l].newStart);
    if NewCount(hunks[l]) > 0 {
      if l < k { TurnsOrdered(old', new', hunks, 0, 0, l, k); }
      if k < l { TurnsOrdered(old', new', hunks, 0, 0, k, l); }
    }
  }

  lemma BothReaders(old': seq<string>, new': seq<string>, hunks: seq<Hunk>)
    requires OneLineHunks(hunks) && Turns(old', new', hunks, 0, 0) && |old'| < MAX_INT && |new'| < MAX_INT
    ensures RawPairs(Split(Patch(hunks)), 0) == RawShown(hunks) && Pairs(Split(Patch(hunks)), START) == Shown(hunks)
  {
    AllSound(old', new', hunks);
    PatchPairs(old', new', hunks);
    RawReading(hunks);
  }

  lemma AllSound(old': seq<string>, new': seq<string>, hunks: seq<Hunk>)
    requires Turns(old', new', hunks, 0, 0) && |old'| < MAX_INT && |new'| < MAX_INT
    ensures forall k | 0 <= k < |hunks| :: SoundHeader(hunks[k])
  {
    forall k | 0 <= k < |hunks| ensures SoundHeader(hunks[k]) {
      TurnsSound(old', new', hunks, 0, 0, k);
    }
  }

  lemma RawReading(hunks: seq<Hunk>)
    requires OneLineHunks(hunks) && forall k | 0 <= k < |hunks| :: SoundHeader(hunks[k])
    ensures RawPairs(Split(Patch(hunks)), 0) == RawShown(hunks)
  {
    hide OneLineHunks, SoundHeader, Split, Patch, RawPairs, PrintHunks, RawShown;
    PatchLines(hunks);
    PrintedRaw(hunks);
    EmptyReading();
  }

  lemma EmptyReading()
    ensures RawPairs([""], 0) == [] && RawShown([]) == []
  {
    assert [""][1..] == [];
  }

  /** A quotation on which the readers disagree: the last new-side line of the hunk that confuses the raw reader. */
  lemma Disagreement(old': seq<string>, new': seq<string>, hunks: seq<Hunk>, k: nat) returns (line: int, text: string)
    requires OneLineHunks(hunks) && Turns(old', new', hunks, 0, 0) && |old'| < MAX_INT && |new'| < MAX_INT
    requires k < |hunks| && !Plain(hunks[k].lines)
    ensures var lines := Split(Patch(hunks));
            false == Quotes(RawPairs(lines, 0), line, text) && true == Quotes(Pairs(lines, START), line, text)
  {
    hide Turns, Quotes, NewCount, Plain;
    BothReaders(old', new', hunks);
    RawMissesLast(old', new', hunks, k);
    line := hunks[k].newStart + NewCount(hunks[k]) - 1;
    text := new'[line - 1];
  }

  /** The raw reader accepts the same quotations as patchEvidence, iff no added line looks like a file header. */
  lemma {:induction false} ReadersAgree(old': seq<string>, new': seq<string>, hunks: seq<Hunk>)
    requires OneLineHunks(hunks) && Turns(old', new', hunks, 0, 0) && |old'| < MAX_INT && |new'| < MAX_INT
    ensures var lines := Split(Patch(hunks));
            (forall line, text :: Quotes(RawPairs(lines, 0), line, text) <==> Quotes(Pairs(lines, START), line, text))
            <==> PlainHunks(hunks)
  {
    if PlainHunks(hunks) {
      SameReading(old', new', hunks);
    } else {
      var k :| 0 <= k < |hunks| && !Plain(hunks[k].lines);
      var line, text := Disagreement(old', new', hunks, k);
    }
  }

  lemma SameReading(old': seq<string>, new': seq<string>, hunks: seq<Hunk>)
    requires OneLineHunks(hunks) && Turns(old', new', hunks, 0, 0) && |old'| < MAX_INT && |new'| < MAX_INT
    requires PlainHunks(hunks)
    ensures RawPairs(Split(Patch(hunks)), 0) == Pairs(Split(Patch(hunks)), START)
  {
    BothReaders(old', new', hunks);
    AllSound(old', new', hunks);
    PlainRaw(hunks);
  }

  /** A new file whose only line reads `++x`: its added line is reported by neither lenient reader. */
  lemma LookalikeExample() returns (old': seq<string>, new': seq<string>, hunks: seq<Hunk>, line: int, text: string)
    ensures OneLineHunks(hunks) && Turns(old', new', hunks, 0, 0) && |old'| < MAX_INT && |new'| < MAX_INT
    ensures Changed(Split(Patch(hunks)), 0) != Numbers(AllAdded(hunks))
    ensures !Quotes(RawPairs(Split(Patch(hunks)), 0), line, text) && Quotes(Pairs(Split(Patch(hunks)), START), line, text)
  {
    var added := Added("++x");
    var h := Hunk(0, 1, [added], None);
    old', new', hunks := [], ["++x"], [h];
    assert h.lines[1..] == [] && NewTexts([]) == [] && OldTexts([]) == [];
    assert NewTexts(h.lines) == ["++x"];
    assert OldTexts(h.lines) == [];
    assert Render(added) == "+++x";
    assert OneLineHunk(h);
    assert hunks[1..] == [];
    assert Turns(old', new', hunks[1..], 0, 1);
    assert LooksLikeHeader(h.lines[0]);
    assert !Plain(hunks[0].lines);
    ChangedLinesExact(old', new', hunks);
    line, text := Disagreement(old', new', hunks, 0);
  }
}
