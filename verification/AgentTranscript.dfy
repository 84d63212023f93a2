/** What the agent loop exchanges with the model: messages, tool calls and their results (internal/agent/agent.go). */
module AgentTranscript {
  import opened Collections
  import opened Text

  datatype ToolCall = ToolCall(id: string, name: string, arguments: string)

  datatype Message =
    | System(content: string)
    | User(content: string)
    | Assistant(content: string, toolCalls: seq<ToolCall>)
    | Tool(content: string, name: string, toolCallId: string)

  /** An invocation as it is recorded. `cached` ones only point to an earlier one. */
  datatype Invocation = Invocation(cached: bool, id: string, name: string, arguments: string, output: string, error: string)

  /** The output of an accepted invocation is shown to the model and is evidence. */
  predicate Accepted(invocation: Invocation) {
    invocation.error == "" && !invocation.cached
  }

  function ToolResultContent(invocation: Invocation): string {
    if invocation.error != "" then "Tool execution failed: " + invocation.error
    else if invocation.output == "" then "Tool returned an empty result."
    else invocation.output
  }

  function DuplicateNote(id: string): string {
    "Duplicate read; reuse the complete result of earlier tool call " + id + "."
  }

  function AcceptedBytes(calls: seq<Invocation>): nat {
    if |calls| == 0 then 0
    else
      var last := calls[|calls| - 1];
      AcceptedBytes(calls[..|calls| - 1]) + if Accepted(last) then |last.output| else 0
  }

  /** The evidence corpus: the accepted outputs in order. */
  function Corpus(calls: seq<Invocation>): (corpus: seq<string>) {
    if |calls| == 0 then []
    else
      var last := calls[|calls| - 1];
      Corpus(calls[..|calls| - 1]) + if Accepted(last) then [last.output] else []
  }

  function TotalBytes(corpus: seq<string>): nat {
    if |corpus| == 0 then 0 else TotalBytes(corpus[..|corpus| - 1]) + |corpus[|corpus| - 1]|
  }

  lemma {:induction false} CorpusBytes(calls: seq<Invocation>)
    ensures TotalBytes(Corpus(calls)) == AcceptedBytes(calls)
  {
    if |calls| > 0 {
      var last := calls[|calls| - 1];
      var before := Corpus(calls[..|calls| - 1]);
      CorpusBytes(calls[..|calls| - 1]);
      if Accepted(last) {
        assert (before + [last.output])[..|before|] == before;
      } else {
        assert before + [] == before;
      }
    }
  }

  /** Evidence is collected in the order of the calls. */
  lemma {:induction false} CorpusAppends(calls: seq<Invocation>, more: seq<Invocation>)
    ensures Corpus(calls + more) == Corpus(calls) + Corpus(more)
  {
    if |more| == 0 {
      assert calls + more == calls && Corpus(calls) + [] == Corpus(calls);
    } else {
      CorpusAppends(calls, more[..|more| - 1]);
      assert (calls + more)[..|calls + more| - 1] == calls + more[..|more| - 1];
    }
  }

  // ----- pairing -----

  predicate Answer(m: Message, call: ToolCall) {
    m.Tool? && m.toolCallId == call.id && m.name == call.name
  }

  predicate Answers(messages: seq<Message>, at: nat, calls: seq<ToolCall>) {
    at + |calls| <= |messages| && forall k | 0 <= k < |calls| :: Answer(messages[at + k], calls[k])
  }

  predicate AnswersAt(messages: seq<Message>, i: nat) {
    i < |messages| && messages[i].Assistant? && Answers(messages, i + 1, messages[i].toolCalls)
  }

  /** Message `j` answers a call of assistant message `i`. */
  predicate Belongs(messages: seq<Message>, j: nat, i: nat) {
    i < j < |messages| && messages[i].Assistant? && j <= i + |messages[i].toolCalls|
  }

  /** Each assistant message is followed by the answers to its calls, in order, and every tool message is such an answer. */
  ghost predicate WellPaired(messages: seq<Message>) {
    && (forall i | 0 <= i < |messages| && messages[i].Assistant? :: AnswersAt(messages, i))
    && (forall j | 0 <= j < |messages| && messages[j].Tool? :: exists i :: Belongs(messages, j, i))
  }

  lemma AppendPlain(messages: seq<Message>, m: Message)
    requires WellPaired(messages) && (m.User? || m.System? || (m.Assistant? && m.toolCalls == []))
    ensures WellPaired(messages + [m])
  {
    var more := messages + [m];
    assert forall k | 0 <= k < |messages| :: more[k] == messages[k];
    forall i | 0 <= i < |more| && more[i].Assistant? ensures AnswersAt(more, i) {
      if i < |messages| {
        assert AnswersAt(messages, i);
      }
    }
    forall j | 0 <= j < |more| && more[j].Tool? ensures exists i :: Belongs(more, j, i) {
      var i :| Belongs(messages, j, i);
      assert Belongs(more, j, i);
    }
  }

  /** A round: an assistant message and all its answers. */
  lemma AppendRound(messages: seq<Message>, assistant: Message, answers: seq<Message>)
    requires WellPaired(messages) && assistant.Assistant?
    requires |answers| == |assistant.toolCalls| && Answers(answers, 0, assistant.toolCalls)
    ensures WellPaired(messages + [assistant] + answers)
  {
    var more := messages + [assistant] + answers;
    assert forall k | 0 <= k < |messages| :: more[k] == messages[k];
    forall k | 0 <= k < |answers| ensures Answer(answers[k], assistant.toolCalls[k]) {
      assert answers[0 + k] == answers[k];
    }
    assert forall i | |messages| < i < |more| :: more[i] == answers[i - |messages| - 1];
    forall i | 0 <= i < |more| && more[i].Assistant? ensures AnswersAt(more, i) {
      if i < |messages| {
        assert AnswersAt(messages, i);
      } else {
        assert Answers(more, |messages| + 1, assistant.toolCalls);
      }
    }
    forall j | 0 <= j < |more| && more[j].Tool? ensures exists i :: Belongs(more, j, i) {
      if j < |messages| {
        var i :| Belongs(messages, j, i);
        assert Belongs(more, j, i);
      } else {
        assert Belongs(more, j, |messages|);
      }
    }
  }

  /** The contents of the tool messages, in order. */
  function Shown(messages: seq<Message>): seq<string> {
    if |messages| == 0 then []
    else
      var last := messages[|messages| - 1];
      Shown(messages[..|messages| - 1]) + if last.Tool? then [last.content] else []
  }

  lemma ShownAppend(messages: seq<Message>, m: Message)
    ensures Shown(messages + [m]) == Shown(messages) + if m.Tool? then [m.content] else []
  {
    assert (messages + [m])[..|messages|] == messages;
  }

  /** What the model has said, in order: the assistant messages. */
  function Spoken(messages: seq<Message>): seq<Message> {
    if |messages| == 0 then []
    else
      var last := messages[|messages| - 1];
      Spoken(messages[..|messages| - 1]) + if last.Assistant? then [last] else []
  }

  lemma SpokenAppend(messages: seq<Message>, m: Message)
    ensures Spoken(messages + [m]) == Spoken(messages) + if m.Assistant? then [m] else []
  {
    assert (messages + [m])[..|messages|] == messages;
  }

  lemma {:induction false} SpokenShownSplit(messages: seq<Message>, k: nat)
    requires k <= |messages|
    ensures Spoken(messages) == Spoken(messages[..k]) + Spoken(messages[k..])
    ensures Shown(messages) == Shown(messages[..k]) + Shown(messages[k..])
  {
    if k == |messages| {
      assert messages[..k] == messages && messages[k..] == [];
    } else {
      var init := messages[..|messages| - 1];
      SpokenShownSplit(init, k);
      assert init[..k] == messages[..k] && init[k..] == messages[k..][..|messages| - 1 - k];
    }
  }

  lemma {:induction false} OnlyAnswers(messages: seq<Message>)
    requires forall k | 0 <= k < |messages| :: messages[k].Tool?
    ensures Spoken(messages) == []
  {
    if |messages| > 0 {
      OnlyAnswers(messages[..|messages| - 1]);
    }
  }

  /** The opening, then nothing but the given assistant messages and the answers to their calls, from the given invocations. */
  ghost predicate Transcript(messages: seq<Message>, open: seq<Message>, spoken: seq<Message>, calls: seq<Invocation>) {
    && open <= messages && (forall k | |open| <= k < |messages| :: messages[k].Assistant? || messages[k].Tool?)
    && WellPaired(messages) && Spoken(messages) == spoken && Shown(messages) == Contents(calls)
  }

  predicate OpeningOnly(open: seq<Message>) {
    forall k | 0 <= k < |open| :: open[k].System? || open[k].User?
  }

  /** These determine the conversation: opening, assistant messages and invocations leave no choice. */
  lemma {:induction false} TranscriptIsUnique(
      a: seq<Message>, b: seq<Message>, open: seq<Message>, spoken: seq<Message>, calls: seq<Invocation>)
    requires OpeningOnly(open) && Transcript(a, open, spoken, calls) && Transcript(b, open, spoken, calls)
    ensures a == b
  {
    hide Shown, Spoken, Contents, WellPaired;
    TranscriptSize(a, open, spoken, calls);
    TranscriptSize(b, open, spoken, calls);
    assert a[..|open|] == b[..|open|] == open;
    var k := |open|;
    while k < |a|
      invariant |open| <= k <= |a| && a[..k] == b[..k]
    {
      SameNext(a, b, open, spoken, calls, k);
      assert a[..k + 1] == a[..k] + [a[k]] && b[..k + 1] == b[..k] + [b[k]];
      k := k + 1;
    }
    assert a[..k] == a && b[..k] == b;
  }

  lemma TranscriptSize(messages: seq<Message>, open: seq<Message>, spoken: seq<Message>, calls: seq<Invocation>)
    requires OpeningOnly(open) && Transcript(messages, open, spoken, calls)
    ensures |messages| == |open| + |spoken| + |calls|
  {
    hide WellPaired;
    assert forall i | 0 <= i < |open| :: messages[i] == open[i];
    TranscriptLength(messages, |open|, |messages|);
    assert messages[..|messages|] == messages;
  }

  /** After the opening there are as many messages as assistant and tool messages. */
  lemma {:induction false} TranscriptLength(messages: seq<Message>, open: nat, k: nat)
    requires open <= k <= |messages|
    requires forall i | 0 <= i < |messages| :: (messages[i].Assistant? || messages[i].Tool?) <==> open <= i
    ensures k == open + |Spoken(messages[..k])| + |Shown(messages[..k])|
  {
    if k == open {
      NothingYet(messages[..k]);
    } else {
      TranscriptLength(messages, open, k - 1);
      assert messages[..k] == messages[..k - 1] + [messages[k - 1]];
      SpokenAppend(messages[..k - 1], messages[k - 1]);
      ShownAppend(messages[..k - 1], messages[k - 1]);
    }
  }

  lemma {:induction false} NothingYet(open: seq<Message>)
    requires OpeningOnly(open)
    ensures Spoken(open) == [] && Shown(open) == []
  {
    if |open| > 0 {
      NothingYet(open[..|open| - 1]);
    }
  }

  lemma SameNext(a: seq<Message>, b: seq<Message>, open: seq<Message>, spoken: seq<Message>, calls: seq<Invocation>, k: nat)
    requires Transcript(a, open, spoken, calls) && Transcript(b, open, spoken, calls)
    requires |open| <= k < |a| && k < |b| && a[..k] == b[..k]
    ensures a[k] == b[k]
  {
    hide Shown, Spoken, Contents;
    NextOf(a, k);
    NextOf(b, k);
    assert forall i | 0 <= i < k :: a[i] == a[..k][i] == b[i];
    if a[k].Tool? {
      SameAnswer(a, b, k);
    } else if b[k].Tool? {
      SameAnswer(b, a, k);
    }
  }

  /** The next message is the next of its kind. */
  lemma NextOf(a: seq<Message>, k: nat)
    requires k < |a|
    ensures a[k].Tool? ==> |Shown(a[..k])| < |Shown(a)| && Shown(a)[|Shown(a[..k])|] == a[k].content
    ensures a[k].Assistant? ==> |Spoken(a[..k])| < |Spoken(a)| && Spoken(a)[|Spoken(a[..k])|] == a[k]
  {
    SpokenShownSplit(a, k + 1);
    assert a[..k + 1] == a[..k] + [a[k]];
    SpokenAppend(a[..k], a[k]);
    ShownAppend(a[..k], a[k]);
  }

  lemma SameAnswer(a: seq<Message>, b: seq<Message>, k: nat)
    requires WellPaired(a) && WellPaired(b) && k < |a| && k < |b| && a[k].Tool?
    requires forall i | 0 <= i < k :: a[i] == b[i]
    ensures b[k].Tool? && b[k].name == a[k].name && b[k].toolCallId == a[k].toolCallId
  {
    var i: nat :| Belongs(a, k, i);
    assert AnswersAt(a, i) && AnswersAt(b, i);
    var n := k - i - 1;
    assert Answer(a[i + 1 + n], a[i].toolCalls[n]) && Answer(b[i + 1 + n], b[i].toolCalls[n]);
  }

  /** Evidence has been shown to the model as it is, and of a failed or rejected call only the error. */
  lemma {:induction false} EvidenceIsShown(calls: seq<Invocation>, i: nat)
    requires i < |calls|
    ensures Accepted(calls[i]) ==> calls[i].output in Corpus(calls)
    ensures Accepted(calls[i]) && calls[i].output != "" ==> Contents(calls)[i] == calls[i].output
    ensures calls[i].error != "" ==> Contents(calls)[i] == "Tool execution failed: " + calls[i].error
    ensures calls[i].cached && calls[i].error == "" && calls[i].output != "" ==> Contents(calls)[i] == calls[i].output
    ensures Contents(calls)[i] != ""
  {
    if i < |calls| - 1 {
      EvidenceIsShown(calls[..|calls| - 1], i);
    }
  }

  /** The note for a repeated read says which call to look at. */
  lemma NoteNamesTheCall(a: string, b: string)
    requires DuplicateNote(a) == DuplicateNote(b)
    ensures a == b
  {
    var head := "Duplicate read; reuse the complete result of earlier tool call ";
    var left, right := DuplicateNote(a), DuplicateNote(b);
    assert left == head + (a + ".") && right == head + (b + ".");
    assert a + "." == left[|head|..] && b + "." == right[|head|..];
    assert a == (a + ".")[..|a + "."| - 1] && b == (b + ".")[..|b + "."| - 1];
  }

  function Contents(calls: seq<Invocation>): (contents: seq<string>)
    ensures |contents| == |calls|
    ensures forall i | 0 <= i < |calls| :: contents[i] == ToolResultContent(calls[i])
  {
    seq(|calls|, i requires 0 <= i < |calls| => ToolResultContent(calls[i]))
  }

  // ----- call IDs -----

  function CallId(round: nat, i: nat): string {
    "tool-call-" + (ToDecimal(round) + ("-" + ToDecimal(i + 1)))
  }

  /** No two generated IDs of a run are equal. */
  lemma CallIdsAreDistinct(round: nat, i: nat, other: nat, j: nat)
    requires CallId(round, i) == CallId(other, j)
    ensures round == other && i == j
  {
    hide ToDecimal;
    var x, y := "-" + ToDecimal(i + 1), "-" + ToDecimal(j + 1);
    SameTail("tool-call-", ToDecimal(round) + x, ToDecimal(other) + y);
    SameDecimal(round, other, x, y);
    SameTail("-", ToDecimal(i + 1), ToDecimal(j + 1));
    DecimalValue(i + 1);
    DecimalValue(j + 1);
  }

  lemma SameTail(head: string, x: string, y: string)
    requires head + x == head + y
    ensures x == y
  {
    assert x == (head + x)[|head|..] && y == (head + y)[|head|..];
  }

  /** The calls of a round, with an ID each. */
  function WithIds(calls: seq<ToolCall>, round: nat): seq<ToolCall> {
    seq(|calls|, i requires 0 <= i < |calls| => if calls[i].id == "" then calls[i].(id := CallId(round, i)) else calls[i])
  }

  /** Calls without an ID get one from their round and position; nothing else changes. */
  method NormalizeToolCallIDs(calls: seq<ToolCall>, round: nat) returns (normalized: seq<ToolCall>)
    ensures normalized == WithIds(calls, round)
    ensures |normalized| == |calls|
    ensures forall i | 0 <= i < |calls| ::
              normalized[i] == if calls[i].id == "" then calls[i].(id := CallId(round, i)) else calls[i]
  {
    normalized := calls;
    for i := 0 to |calls|
      invariant |normalized| == |calls|
      invariant forall k | 0 <= k < i ::
                  normalized[k] == if calls[k].id == "" then calls[k].(id := CallId(round, k)) else calls[k]
      invariant forall k | i <= k < |calls| :: normalized[k] == calls[k]
    {
      if normalized[i].id == "" {
        normalized := normalized[i := normalized[i].(id := CallId(round, i))];
      }
    }
  }

  // ----- cache keys -----

  /** `normalize` decodes JSON arguments and encodes them canonically; it fails on invalid JSON. */
  function Key(cacheable: seq<string>, normalize: string -> Option<string>, name: string, arguments: string): string {
    if name in cacheable && normalize(arguments).Some? then name + normalize(arguments).value else ""
  }

  /** Equal keys mean the same tool and the same decoded arguments. */
  ghost predicate KeysDetermineReads(cacheable: seq<string>, normalize: string -> Option<string>) {
    forall n, m, a, b | n in cacheable && m in cacheable && normalize(a).Some? && normalize(b).Some? &&
                        n + normalize(a).value == m + normalize(b).value ::
      n == m && normalize(a) == normalize(b)
  }

  predicate PrefixFree(names: seq<string>) {
    forall i, j | 0 <= i < |names| && 0 <= j < |names| && names[i] <= names[j] :: names[i] == names[j]
  }

  /** A list of names none of which begins another is safe, whatever the arguments. */
  lemma PrefixFreeSuffices(cacheable: seq<string>, normalize: string -> Option<string>)
    requires PrefixFree(cacheable)
    ensures KeysDetermineReads(cacheable, normalize)
  {
    forall n, m, a, b | n in cacheable && m in cacheable && normalize(a).Some? && normalize(b).Some? &&
                        n + normalize(a).value == m + normalize(b).value
      ensures n == m && normalize(a) == normalize(b) {
      var x, y := normalize(a).value, normalize(b).value;
      assert n == (n + x)[..|n|] && m == (m + y)[..|m|];
      assert n <= m || m <= n;
      assert x == (n + x)[|n|..] && y == (m + y)[|m|..];
    }
  }

  const CACHEABLE_TOOLS: seq<string> := [
    "get_pr_meta", "list_changed_files", "read_diff", "read_file_context", "get_commit_history", "search_references",
    "retrieve_code_context"]

  /** The tools the review agent caches are safe. */
  lemma ProductionKeysDetermineReads(normalize: string -> Option<string>)
    ensures KeysDetermineReads(CACHEABLE_TOOLS, normalize)
  {
    var t := CACHEABLE_TOOLS;
    assert t[0][0] == 'g' && t[1][0] == 'l' && t[2][0] == 'r' && t[3][0] == 'r' && t[4][0] == 'g' && t[5][0] == 's' && t[6][0] == 'r';
    assert t[0][4] == 'p' && t[4][4] == 'c';
    assert t[2][5] == 'd' && t[3][5] == 'f' && t[6][5] == 'e';
    PrefixFreeSuffices(CACHEABLE_TOOLS, normalize);
  }

  /** Without that, a read of one tool can be answered with the result of another. */
  lemma KeysCanCollide(normalize: string -> Option<string>)
    requires normalize("12") == Some("12") && normalize("2") == Some("2")
    ensures !KeysDetermineReads(["read", "read1"], normalize)
  {
    assert "read" + "12" == "read1" + "2";
    var cacheable := ["read", "read1"];
    assert "read" == cacheable[0] && "read1" == cacheable[1];
    assert "read" in cacheable && "read1" in cacheable;
    assert |"read"| != |"read1"|;
  }
}
