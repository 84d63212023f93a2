/**
 * Fetching file contents in small concurrent batches (internal/review/service.go). What GitHub answers for a file is a
 * parameter; the fetches of a batch finish in any order, and the caller's context may be cancelled at any time.
 */
module FetchFiles {
  import opened Collections
  import opened Text

  const CONCURRENCY: nat := 4

  datatype Content = Content(path: string, text: string)

  /** What one fetch contributes: nothing on an error or a blank file. */
  function Fetched(fetch: string -> Option<string>, name: string): Option<Content> {
    if fetch(name).Some? && TrimSpace(fetch(name).value) != "" then Some(Content(name, fetch(name).value)) else None
  }

  predicate Succeeds(readable: string -> bool, fetch: string -> Option<string>, name: string) {
    readable(name) && Fetched(fetch, name).Some?
  }

  /** One file after the other: the readable ones that can be fetched and are not blank, in order. */
  function Successes(files: seq<string>, readable: string -> bool, fetch: string -> Option<string>): seq<Content> {
    if |files| == 0 then []
    else
      var last := files[|files| - 1];
      var before := Successes(files[..|files| - 1], readable, fetch);
      if Succeeds(readable, fetch, last) then before + [Content(last, fetch(last).value)] else before
  }

  lemma {:induction false} SuccessesAppend(a: seq<string>, b: seq<string>, readable: string -> bool, fetch: string -> Option<string>)
    ensures Successes(a + b, readable, fetch) == Successes(a, readable, fetch) + Successes(b, readable, fetch)
  {
    if |b| == 0 {
      assert a + b == a;
    } else {
      SuccessesAppend(a, b[..|b| - 1], readable, fetch);
      assert (a + b)[..|a + b| - 1] == a + b[..|b| - 1];
    }
  }

  lemma {:induction false} SuccessesCount(files: seq<string>, readable: string -> bool, fetch: string -> Option<string>)
    ensures |Successes(files, readable, fetch)| <= |files|
  {
    if |files| > 0 {
      SuccessesCount(files[..|files| - 1], readable, fetch);
    }
  }

  /** The readable files, in order. */
  function Readable(files: seq<string>, readable: string -> bool): (selected: seq<string>)
    ensures forall name <- selected :: readable(name)
  {
    if |files| == 0 then []
    else
      var last := files[|files| - 1];
      var before := Readable(files[..|files| - 1], readable);
      if readable(last) then before + [last] else before
  }

  lemma {:induction false} SuccessesOfReadable(files: seq<string>, readable: string -> bool, fetch: string -> Option<string>)
    ensures Successes(Readable(files, readable), readable, fetch) == Successes(files, readable, fetch)
  {
    if |files| > 0 {
      var before := Readable(files[..|files| - 1], readable);
      SuccessesOfReadable(files[..|files| - 1], readable, fetch);
      assert (before + [files[|files| - 1]])[..|before|] == before;
    }
  }

  function Slots(n: nat): (slots: set<nat>)
    ensures forall i :: i in slots <==> 0 <= i < n
  {
    if n == 0 then {} else Slots(n - 1) + {n - 1}
  }

  // ----- what a cancelled fetch leaves -----

  /** `part` is `all` with some elements left out. */
  predicate Thinned(part: seq<Content>, all: seq<Content>) {
    if |all| == 0 then |part| == 0
    else
      var last := |all| - 1;
      || Thinned(part, all[..last])
      || (|part| > 0 && part[|part| - 1] == all[last] && Thinned(part[..|part| - 1], all[..last]))
  }

  lemma {:induction false} ThinnedSame(all: seq<Content>)
    ensures Thinned(all, all)
  {
    if |all| > 0 { ThinnedSame(all[..|all| - 1]); }
  }

  lemma {:induction false} ThinnedConcat(a: seq<Content>, b: seq<Content>, c: seq<Content>, d: seq<Content>)
    requires Thinned(a, b) && Thinned(c, d)
    ensures Thinned(a + c, b + d)
    decreases |d|
  {
    if |d| == 0 {
      assert a + c == a && b + d == b;
    } else {
      var last := |d| - 1;
      assert (b + d)[..|b + d| - 1] == b + d[..last];
      if Thinned(c, d[..last]) {
        ThinnedConcat(a, b, c, d[..last]);
      } else {
        assert (a + c)[..|a + c| - 1] == a + c[..|c| - 1];
        ThinnedConcat(a, b, c[..|c| - 1], d[..last]);
      }
    }
  }

  // ----- the fetches -----

  /** What a fetch has written to its slot: its result, unless the context was cancelled. */
  predicate Filled(slot: Option<Content>, result: Option<Content>, cancelled: bool) {
    slot == result || (cancelled && slot == None)
  }

  /** Runs the fetches of one batch, each writing its own slot when it finishes; they finish in any order. */
  method FetchBatch(selected: seq<string>, fetch: string -> Option<string>)
    returns (slots: array<Option<Content>>, cancelled: bool)
    ensures fresh(slots) && slots.Length == |selected|
    ensures forall i | 0 <= i < |selected| :: Filled(slots[i], Fetched(fetch, selected[i]), cancelled)
  {
    slots := new Option<Content>[|selected|](_ => None);
    cancelled := *;
    var running := Slots(|selected|);
    while running != {}
      invariant forall i <- running :: 0 <= i < |selected|
      invariant forall i | 0 <= i < |selected| && i !in running :: Filled(slots[i], Fetched(fetch, selected[i]), cancelled)
      invariant forall i <- running :: slots[i] == None
      decreases |running|
    {
      ghost var some := Pick(running);
      var index :| index in running;
      if * {
        cancelled := true;
      }
      var arrives: bool := *;
      if !cancelled || arrives {
        var content := fetch(selected[index]);
        if content.Some? && TrimSpace(content.value) != "" {
          slots[index] := Some(Content(selected[index], content.value));
        }
      }
      running := running - {index};
    }
  }

  /**
   * Exactly the first `maxFiles` contents that fetching one file after the other would give. Nothing that was fetched
   * successfully is thrown away: the files asked for are those before `next`, and their contents are the result. After a
   * cancellation some of these contents may be missing.
   */
  method FetchFileContents(files: seq<string>, maxFiles: int, readable: string -> bool, fetch: string -> Option<string>)
    returns (contents: seq<Content>, next: nat, cancelled: bool)
    ensures maxFiles <= 0 ==> contents == [] && next == 0
    ensures maxFiles > 0 && !cancelled ==>
              var all := Successes(files, readable, fetch); contents == all[..Min(maxFiles, |all|)]
    ensures next <= |files| && (!cancelled ==> contents == Successes(files[..next], readable, fetch))
    ensures |contents| <= (if maxFiles > 0 then maxFiles else 0) && Thinned(contents, Successes(files[..next], readable, fetch))
  {
    hide Successes, Thinned;
    contents, next, cancelled := [], 0, false;
    NoFiles(readable, fetch);
    ThinnedSame([]);
    if maxFiles <= 0 {
      return;
    }
    cancelled := *;
    while next < |files| && |contents| < maxFiles && !cancelled
      invariant next <= |files| && |contents| <= maxFiles
      invariant !cancelled ==> contents == Successes(files[..next], readable, fetch)
      invariant Thinned(contents, Successes(files[..next], readable, fetch))
      decreases |files| - next
    {
      var size := Min(CONCURRENCY, maxFiles - |contents|);
      var start := next;
      var selected: seq<string> := [];
      while next < |files| && |selected| < size
        invariant start <= next <= |files| && |selected| <= size
        invariant selected == Readable(files[start..next], readable)
        invariant next == start ==> selected == []
      {
        assert files[start..next + 1][..next - start] == files[start..next];
        if readable(files[next]) {
          selected := selected + [files[next]];
        }
        next := next + 1;
      }
      var batch;
      batch, cancelled := Collect(selected, readable, fetch);
      BatchAppends(files, start, next, readable, fetch);
      ThinnedConcat(contents, Successes(files[..start], readable, fetch), batch, Successes(selected, readable, fetch));
      contents := contents + batch;
    }
    SuccessesAppend(files[..next], files[next..], readable, fetch);
    assert files[..next] + files[next..] == files;
  }

  lemma NoFiles(readable: string -> bool, fetch: string -> Option<string>)
    ensures Successes([], readable, fetch) == []
  {
  }

  /** A batch adds the successes among the files it was selected from. */
  lemma BatchAppends(files: seq<string>, start: nat, next: nat, readable: string -> bool, fetch: string -> Option<string>)
    requires start <= next <= |files|
    ensures var batch := Successes(Readable(files[start..next], readable), readable, fetch);
            && |batch| <= |Readable(files[start..next], readable)|
            && Successes(files[..next], readable, fetch) == Successes(files[..start], readable, fetch) + batch
  {
    SuccessesOfReadable(files[start..next], readable, fetch);
    SuccessesCount(Readable(files[start..next], readable), readable, fetch);
    SuccessesAppend(files[..start], files[start..next], readable, fetch);
    assert files[..start] + files[start..next] == files[..next];
  }

  /** The filled slots of a batch, in order. */
  method Collect(selected: seq<string>, readable: string -> bool, fetch: string -> Option<string>)
    returns (batch: seq<Content>, cancelled: bool)
    requires forall name <- selected :: readable(name)
    ensures |batch| <= |selected| && Thinned(batch, Successes(selected, readable, fetch))
    ensures !cancelled ==> batch == Successes(selected, readable, fetch)
  {
    var slots, stopped := FetchBatch(selected, fetch);
    cancelled, batch := stopped, [];
    for i := 0 to |selected|
      invariant |batch| <= i && Thinned(batch, Successes(selected[..i], readable, fetch))
      invariant !cancelled ==> batch == Successes(selected[..i], readable, fetch)
      invariant forall i | 0 <= i < |selected| :: Filled(slots[i], Fetched(fetch, selected[i]), cancelled)
    {
      hide Successes, Thinned;
      assert selected[i] in selected;
      NextSlot(batch, selected, i, readable, fetch);
      if slots[i].Some? {
        batch := batch + [slots[i].value];
      }
    }
    assert selected[..|selected|] == selected;
  }

  /** One more slot, filled or not. */
  lemma NextSlot(batch: seq<Content>, selected: seq<string>, i: nat, readable: string -> bool, fetch: string -> Option<string>)
    requires i < |selected| && readable(selected[i]) && Thinned(batch, Successes(selected[..i], readable, fetch))
    ensures var result, all := Fetched(fetch, selected[i]), Successes(selected[..i + 1], readable, fetch);
            && Thinned(batch, all) && (result.Some? ==> Thinned(batch + [result.value], all))
            && var before := Successes(selected[..i], readable, fetch);
               all == if result.Some? then before + [result.value] else before
  {
    assert selected[..i + 1][..i] == selected[..i];
    var before, result := Successes(selected[..i], readable, fetch), Fetched(fetch, selected[i]);
    if result.Some? {
      assert (before + [result.value])[..|before|] == before;
      assert (batch + [result.value])[..|batch|] == batch;
    }
  }
}
