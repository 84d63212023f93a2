/**
 * The requests of an agent run (internal/agent/agent.go): what each of them tells the model, as a predicate on the requests
 * sent, the replies received and the invocations made.
 */
module AgentRequests {
  import opened Collections
  import opened Text
  import opened AgentTranscript

  datatype Response = Response(content: string, toolCalls: seq<ToolCall>)

  /** All calls the model has asked for, in order. */
  function Requested(replies: seq<Response>): seq<ToolCall> {
    if |replies| == 0 then [] else Requested(replies[..|replies| - 1]) + replies[|replies| - 1].toolCalls
  }

  lemma RequestedAppend(replies: seq<Response>, reply: Response)
    ensures Requested(replies + [reply]) == Requested(replies) + reply.toolCalls
  {
    assert (replies + [reply])[..|replies|] == replies;
  }

  /** The recorded invocations are the calls asked for: each once, in order, with its arguments. */
  predicate CarriedOut(asked: seq<ToolCall>, calls: seq<Invocation>) {
    && |asked| == |calls|
    && forall i | 0 <= i < |asked| :: calls[i].name == asked[i].name && calls[i].arguments == asked[i].arguments
  }

  lemma CarriedOutAppend(asked: seq<ToolCall>, calls: seq<Invocation>, call: ToolCall, invocation: Invocation)
    requires CarriedOut(asked, calls) && invocation.name == call.name && invocation.arguments == call.arguments
    ensures CarriedOut(asked + [call], calls + [invocation])
  {
  }

  /** Calls that differ in their IDs only. */
  predicate SameCalls(a: seq<ToolCall>, b: seq<ToolCall>) {
    |a| == |b| && forall i | 0 <= i < |a| :: a[i].name == b[i].name && a[i].arguments == b[i].arguments
  }

  lemma CarriedOutAs(before: seq<ToolCall>, calls: seq<ToolCall>, raw: seq<ToolCall>, invocations: seq<Invocation>)
    requires CarriedOut(before + calls, invocations) && SameCalls(calls, raw)
    ensures CarriedOut(before + raw, invocations)
  {
    forall i | 0 <= i < |before + raw|
      ensures invocations[i].name == (before + raw)[i].name && invocations[i].arguments == (before + raw)[i].arguments {
      assert invocations[i].name == (before + calls)[i].name;
    }
  }

  /** What a run is given: prompts, prescribed calls, steps, the budget and what of it is too little, the final check. */
  datatype Brief = Brief(
    open: seq<Message>, initial: seq<ToolCall>, steps: nat, budget: nat, low: nat,
    validate: (string, seq<string>) -> Option<string>)

  /** All calls asked for before the next request, given the replies so far. */
  function Asked(brief: Brief, replies: seq<Response>): seq<ToolCall> {
    brief.initial + Requested(replies)
  }

  /** What the model has said: the prescribed round, then its replies, their calls with IDs. */
  function Said(brief: Brief, replies: seq<Response>): seq<Message> {
    (if brief.initial == [] then [] else [Assistant("", WithIds(brief.initial, 0))]) +
    seq(|replies|, k requires 0 <= k < |replies| => Assistant(replies[k].content, WithIds(replies[k].toolCalls, k + 1)))
  }

  lemma SaidAppend(brief: Brief, replies: seq<Response>, reply: Response)
    ensures Said(brief, replies + [reply]) ==
            Said(brief, replies) + [Assistant(reply.content, WithIds(reply.toolCalls, |replies| + 1))]
  {
  }

  /** The request is the conversation after these replies, with all their calls carried out and answered, then `tail`. */
  ghost predicate Continues(request: seq<Message>, tail: seq<Message>, brief: Brief, replies: seq<Response>, calls: seq<Invocation>) {
    var done := |Asked(brief, replies)|;
    && |tail| <= |request| && request[|request| - |tail|..] == tail && done <= |calls|
    && CarriedOut(Asked(brief, replies), calls[..done])
    && Transcript(request[..|request| - |tail|], brief.open, Said(brief, replies), calls[..done])
  }

  function BudgetNotice(remaining: nat, rounds: nat): string {
    "Remaining tool output budget: " + (ToDecimal(remaining) + (" bytes; " + (ToDecimal(rounds) + " tool rounds remain.")))
  }

  /** The model can read both numbers off the notice. */
  lemma NoticeTellsBoth(remaining: nat, rounds: nat, remaining': nat, rounds': nat)
    requires BudgetNotice(remaining, rounds) == BudgetNotice(remaining', rounds')
    ensures remaining == remaining' && rounds == rounds'
  {
    hide ToDecimal;
    var rest, rest' := ToDecimal(rounds) + " tool rounds remain.", ToDecimal(rounds') + " tool rounds remain.";
    SameTail("Remaining tool output budget: ", ToDecimal(remaining) + (" bytes; " + rest), ToDecimal(remaining') + (" bytes; " + rest'));
    SameDecimal(remaining, remaining', " bytes; " + rest, " bytes; " + rest');
    SameTail(" bytes; ", rest, rest');
    SameDecimal(rounds, rounds', " tool rounds remain.", " tool rounds remain.");
  }

  const FINAL_NOTICE := "The tool-calling budget is exhausted."

  function RepairNotice(error: string): (notice: string)
    ensures |error| <= |notice| && notice[|notice| - |error|..] == error
  {
    "Your final response failed validation: " + error
  }

  /** The conversation so far, then an assistant message, then the answers to its first `n` calls. */
  ghost predicate Underway(messages: seq<Message>, before: seq<Message>, assistant: Message, n: nat) {
    && assistant.Assistant? && n <= |assistant.toolCalls|
    && |messages| == |before| + 1 + n && messages[..|before| + 1] == before + [assistant]
    && Answers(messages, |before| + 1, assistant.toolCalls[..n])
  }

  lemma UnderwayStart(before: seq<Message>, assistant: Message)
    requires assistant.Assistant?
    ensures Underway(before + [assistant], before, assistant, 0)
  {
  }

  lemma UnderwayMore(messages: seq<Message>, more: seq<Message>, before: seq<Message>, assistant: Message, n: nat)
    requires Underway(messages, before, assistant, n) && n < |assistant.toolCalls|
    requires |more| == |messages| + 1 && more == messages + [more[|messages|]]
    requires Answer(more[|messages|], assistant.toolCalls[n])
    ensures Underway(more, before, assistant, n + 1)
  {
    var calls := assistant.toolCalls[..n + 1];
    forall k | 0 <= k < n + 1 ensures Answer(more[|before| + 1 + k], calls[k]) {
      assert k < n ==> Answer(messages[|before| + 1 + k], assistant.toolCalls[..n][k]);
    }
  }

  lemma UnderwayDone(messages: seq<Message>, before: seq<Message>, assistant: Message)
    requires WellPaired(before) && assistant.Assistant? && Underway(messages, before, assistant, |assistant.toolCalls|)
    ensures WellPaired(messages)
  {
    var answers := messages[|before| + 1..];
    var calls := assistant.toolCalls;
    forall k | 0 <= k < |calls| ensures Answer(answers[0 + k], calls[k]) {
      assert Answer(messages[|before| + 1 + k], calls[..|calls|][k]);
    }
    AppendRound(before, assistant, answers);
    assert messages == before + [assistant] + answers;
  }

  /** A finished round extends the transcript. */
  lemma UnderwayTranscript(messages: seq<Message>, before: seq<Message>, assistant: Message, open: seq<Message>,
                           spoken: seq<Message>, calls: seq<Invocation>)
    requires open <= before && (forall k | |open| <= k < |before| :: before[k].Assistant? || before[k].Tool?)
    requires WellPaired(before) && Spoken(before) == spoken && Shown(messages) == Contents(calls)
    requires assistant.Assistant? && Underway(messages, before, assistant, |assistant.toolCalls|)
    ensures Transcript(messages, open, spoken + [assistant], calls)
  {
    hide WellPaired, Shown, Spoken, Contents;
    UnderwayDone(messages, before, assistant);
    var at := |before| + 1;
    assert assistant.toolCalls[..|assistant.toolCalls|] == assistant.toolCalls;
    forall k | at <= k < |messages| ensures messages[k].Tool? {
      assert Answer(messages[at + (k - at)], assistant.toolCalls[k - at]);
    }
    SpokenShownSplit(messages, at);
    OnlyAnswers(messages[at..]);
    SpokenAppend(before, assistant);
    assert forall k | 0 <= k < at :: messages[k] == (before + [assistant])[k];
  }

  lemma TranscriptPaired(messages: seq<Message>, open: seq<Message>, spoken: seq<Message>, calls: seq<Invocation>)
    requires Transcript(messages, open, spoken, calls)
    ensures WellPaired(messages)
  {
    hide WellPaired;
  }

  // ----- the requests -----

  /** What was left of the budget when these invocations had been made. */
  function Left(brief: Brief, calls: seq<Invocation>): int {
    brief.budget - AcceptedBytes(calls)
  }

  /** Request `i` is one of the loop: the conversation so far, then what is left of the budget and of the steps. */
  ghost predicate InLoop(brief: Brief, sent: seq<seq<Message>>, replies: seq<Response>, calls: seq<Invocation>, i: nat) {
    && i < |sent| && i <= |replies| && i < brief.steps && |Asked(brief, replies[..i])| <= |calls|
    && var left := Left(brief, calls[..|Asked(brief, replies[..i])|]);
    && left > brief.low
    && Continues(sent[i], [User(BudgetNotice(left, brief.steps - i))], brief, replies[..i], calls)
  }

  /** Request `i` is the final one: the conversation so far and the notice that it is over. */
  ghost predicate Closes(brief: Brief, sent: seq<seq<Message>>, replies: seq<Response>, calls: seq<Invocation>, i: nat) {
    i < |sent| && i <= |replies| && Continues(sent[i], [User(FINAL_NOTICE)], brief, replies[..i], calls)
  }

  /** Request `i` asks to repair the answer to the one before: the same conversation, that answer and what is wrong with it. */
  ghost predicate Repairs(brief: Brief, sent: seq<seq<Message>>, replies: seq<Response>, calls: seq<Invocation>, i: nat) {
    && 0 < i < |sent| && i <= |replies| && replies[i - 1].toolCalls == []
    && brief.validate(replies[i - 1].content, Corpus(calls)).Some?
    && var tail := [Assistant(replies[i - 1].content, []),
                    User(RepairNotice(brief.validate(replies[i - 1].content, Corpus(calls)).value))];
    || (InLoop(brief, sent, replies, calls, i - 1) && Continues(sent[i], tail, brief, replies[..i - 1], calls))
    || (Closes(brief, sent, replies, calls, i - 1) &&
        Continues(sent[i], [User(FINAL_NOTICE)] + tail, brief, replies[..i - 1], calls))
  }

  ghost predicate AllInLoop(brief: Brief, sent: seq<seq<Message>>, replies: seq<Response>, calls: seq<Invocation>) {
    forall i | 0 <= i < |sent| :: InLoop(brief, sent, replies, calls, i)
  }

  /**
   * Each request is one of the loop; or the final one, which comes when nothing is left of the budget or the steps and is
   * followed by a repair at most; or the repair, which is the last.
   */
  ghost predicate History(
      brief: Brief, sent: seq<seq<Message>>, replies: seq<Response>, calls: seq<Invocation>, exhausted: bool) {
    forall i | 0 <= i < |sent| ::
      || InLoop(brief, sent, replies, calls, i)
      || (Closes(brief, sent, replies, calls, i) && |sent| <= i + 2 && (i == brief.steps || exhausted))
      || (Repairs(brief, sent, replies, calls, i) && |sent| == i + 1)
  }

  /** An answer has come, to a request of the loop or to the final one. */
  ghost predicate Answered(brief: Brief, final: bool, sent: seq<seq<Message>>, replies: seq<Response>,
                           calls: seq<Invocation>, exhausted: bool) {
    && |replies| == |sent| > 0
    && (forall i | 0 <= i < |sent| - 1 :: InLoop(brief, sent, replies, calls, i))
    && if final then Closes(brief, sent, replies, calls, |sent| - 1) && (|sent| - 1 == brief.steps || exhausted)
       else InLoop(brief, sent, replies, calls, |sent| - 1)
  }

  /** Requests stay what they were when more is sent, replied and invoked. */
  lemma StillInLoop(brief: Brief, sent: seq<seq<Message>>, replies: seq<Response>, calls: seq<Invocation>,
                    sent': seq<seq<Message>>, replies': seq<Response>, calls': seq<Invocation>, i: nat)
    requires sent <= sent' && replies <= replies' && calls <= calls'
    ensures InLoop(brief, sent, replies, calls, i) ==> InLoop(brief, sent', replies', calls', i)
    ensures Closes(brief, sent, replies, calls, i) ==> Closes(brief, sent', replies', calls', i)
  {
    hide CarriedOut, Transcript, AcceptedBytes, BudgetNotice, Asked;
    if i < |sent| && i <= |replies| {
      assert replies[..i] == replies'[..i] && sent[i] == sent'[i];
      var done := |Asked(brief, replies[..i])|;
      assert done <= |calls| ==> calls[..done] == calls'[..done];
    }
  }

  lemma StillAllInLoop(brief: Brief, sent: seq<seq<Message>>, replies: seq<Response>, calls: seq<Invocation>,
                       replies': seq<Response>, calls': seq<Invocation>)
    requires AllInLoop(brief, sent, replies, calls) && replies <= replies' && calls <= calls'
    ensures AllInLoop(brief, sent, replies', calls')
  {
    hide InLoop, Closes;
    forall i | 0 <= i < |sent| ensures InLoop(brief, sent, replies', calls', i) {
      assert InLoop(brief, sent, replies, calls, i);
      StillInLoop(brief, sent, replies, calls, sent, replies', calls', i);
    }
  }

  /** A request that continues a conversation at rest. */
  lemma Continuing(messages: seq<Message>, tail: seq<Message>, brief: Brief, replies: seq<Response>, calls: seq<Invocation>)
    requires Transcript(messages, brief.open, Said(brief, replies), calls) && CarriedOut(Asked(brief, replies), calls)
    ensures Continues(messages + tail, tail, brief, replies, calls)
  {
    hide Transcript, Said, Asked;
    assert (messages + tail)[..|messages|] == messages && (messages + tail)[|messages|..] == tail;
    assert calls[..|calls|] == calls;
  }

  lemma LoopRequest(brief: Brief, messages: seq<Message>, sent: seq<seq<Message>>, replies: seq<Response>,
                    calls: seq<Invocation>, replies': seq<Response>)
    requires AllInLoop(brief, sent, replies, calls) && |sent| == |replies| < brief.steps && Left(brief, calls) > brief.low
    requires Transcript(messages, brief.open, Said(brief, replies), calls) && CarriedOut(Asked(brief, replies), calls)
    requires replies <= replies'
    ensures AllInLoop(brief, sent + [messages + [User(BudgetNotice(Left(brief, calls), brief.steps - |sent|))]], replies', calls)
  {
    hide Transcript, CarriedOut, Said, AcceptedBytes, BudgetNotice;
    var request := messages + [User(BudgetNotice(Left(brief, calls), brief.steps - |sent|))];
    var sent' := sent + [request];
    Continuing(messages, [User(BudgetNotice(Left(brief, calls), brief.steps - |sent|))], brief, replies, calls);
    forall i | 0 <= i < |sent'| ensures InLoop(brief, sent', replies', calls, i) {
      if i < |sent| {
        assert InLoop(brief, sent, replies, calls, i);
        StillInLoop(brief, sent, replies, calls, sent', replies', calls, i);
      } else {
        RequestedCarriedOut(brief, replies, calls);
        assert replies'[..i] == replies && calls[..|calls|] == calls;
      }
    }
  }

  lemma RequestedCarriedOut(brief: Brief, replies: seq<Response>, calls: seq<Invocation>)
    requires CarriedOut(Asked(brief, replies), calls)
    ensures |Asked(brief, replies)| == |calls|
  {
  }

  lemma FinalRequest(brief: Brief, messages: seq<Message>, sent: seq<seq<Message>>, replies: seq<Response>,
                     calls: seq<Invocation>, replies': seq<Response>)
    requires AllInLoop(brief, sent, replies, calls) && |sent| == |replies|
    requires Transcript(messages, brief.open, Said(brief, replies), calls) && CarriedOut(Asked(brief, replies), calls)
    requires replies <= replies'
    ensures var sent' := sent + [messages + [User(FINAL_NOTICE)]];
            && Closes(brief, sent', replies', calls, |sent|)
            && forall i | 0 <= i < |sent| :: InLoop(brief, sent', replies', calls, i)
  {
    hide Transcript, CarriedOut, Said, Asked, InLoop;
    var sent' := sent + [messages + [User(FINAL_NOTICE)]];
    Continuing(messages, [User(FINAL_NOTICE)], brief, replies, calls);
    forall i | 0 <= i < |sent| ensures InLoop(brief, sent', replies', calls, i) {
      assert InLoop(brief, sent, replies, calls, i);
      StillInLoop(brief, sent, replies, calls, sent', replies', calls, i);
    }
    assert replies'[..|sent|] == replies;
  }

  /** After an answer nothing more is sent, or the request to repair it. */
  lemma AnsweredHistory(brief: Brief, final: bool, messages: seq<Message>, sent: seq<seq<Message>>, replies: seq<Response>,
                        calls: seq<Invocation>, exhausted: bool, replies': seq<Response>)
    requires Answered(brief, final, sent, replies, calls, exhausted) && replies <= replies'
    requires replies[|replies| - 1].toolCalls == []
    requires Transcript(messages, brief.open, Said(brief, replies[..|replies| - 1]), calls)
    requires CarriedOut(Asked(brief, replies[..|replies| - 1]), calls)
    ensures History(brief, sent, replies, calls, exhausted)
    ensures var content := replies[|replies| - 1].content; brief.validate(content, Corpus(calls)).Some? ==>
            History(brief, sent + [messages + (if final then [User(FINAL_NOTICE)] else []) +
                [Assistant(content, []), User(RepairNotice(brief.validate(content, Corpus(calls)).value))]],
              replies', calls, exhausted)
  {
    hide Transcript, CarriedOut, Said, Asked, InLoop, Closes;
    var content, n := replies[|replies| - 1].content, |sent|;
    var error := brief.validate(content, Corpus(calls));
    if error.Some? {
      var tail := [Assistant(content, []), User(RepairNotice(error.value))];
      var lead := if final then [User(FINAL_NOTICE)] else [];
      var sent' := sent + [messages + lead + tail];
      assert messages + lead + tail == messages + (lead + tail);
      assert [] + tail == tail;
      Continuing(messages, lead + tail, brief, replies[..n - 1], calls);
      assert replies'[..n - 1] == replies[..n - 1] && replies'[n - 1] == replies[n - 1];
      forall i | 0 <= i < n
        ensures InLoop(brief, sent, replies, calls, i) ==> InLoop(brief, sent', replies', calls, i)
        ensures Closes(brief, sent, replies, calls, i) ==> Closes(brief, sent', replies', calls, i) {
        StillInLoop(brief, sent, replies, calls, sent', replies', calls, i);
      }
      assert Repairs(brief, sent', replies', calls, n);
    }
  }

  lemma NothingSent(brief: Brief, replies: seq<Response>, calls: seq<Invocation>, exhausted: bool)
    ensures History(brief, [], replies, calls, exhausted)
  {
  }

  lemma LoopHistory(brief: Brief, sent: seq<seq<Message>>, replies: seq<Response>, calls: seq<Invocation>, exhausted: bool)
    requires AllInLoop(brief, sent, replies, calls)
    ensures History(brief, sent, replies, calls, exhausted)
  {
    hide InLoop, Closes, Repairs;
  }

  /**
   * In short: request `i` opens with the prompts, its assistant messages are what the model has said, and its tool messages
   * are the results of exactly the calls asked for until then.
   */
  ghost predicate Tells(brief: Brief, sent: seq<seq<Message>>, replies: seq<Response>, calls: seq<Invocation>, i: nat) {
    && i < |sent| && i <= |replies|
    && brief.open <= sent[i] && Spoken(sent[i]) == Said(brief, replies[..i])
    && var asked := Asked(brief, replies[..i]);
    && |asked| <= |calls| && CarriedOut(asked, calls[..|asked|]) && Shown(sent[i]) == Contents(calls[..|asked|])
  }

  ghost predicate AllTell(brief: Brief, sent: seq<seq<Message>>, replies: seq<Response>, calls: seq<Invocation>) {
    forall i | 0 <= i < |sent| :: Tells(brief, sent, replies, calls, i)
  }

  lemma HistoryTells(brief: Brief, sent: seq<seq<Message>>, replies: seq<Response>, calls: seq<Invocation>, exhausted: bool)
    requires History(brief, sent, replies, calls, exhausted)
    ensures AllTell(brief, sent, replies, calls)
  {
    hide InLoop, Closes, Repairs, Said, Asked, CarriedOut, Spoken, Shown, Contents;
    forall i | 0 <= i < |sent| ensures Tells(brief, sent, replies, calls, i) {
      RequestTells(brief, sent, replies, calls, i);
    }
  }

  lemma RequestTells(brief: Brief, sent: seq<seq<Message>>, replies: seq<Response>, calls: seq<Invocation>, i: nat)
    requires InLoop(brief, sent, replies, calls, i) || Closes(brief, sent, replies, calls, i) || Repairs(brief, sent, replies, calls, i)
    ensures Tells(brief, sent, replies, calls, i)
  {
    hide Continues, Said, Asked, CarriedOut, Spoken, Shown, Contents;
    if InLoop(brief, sent, replies, calls, i) {
      LoopTells(brief, sent, replies, calls, i);
    } else if Closes(brief, sent, replies, calls, i) {
      ClosingTells(brief, sent, replies, calls, i);
    } else {
      RepairTells(brief, sent, replies, calls, i);
    }
  }

  lemma LoopTells(brief: Brief, sent: seq<seq<Message>>, replies: seq<Response>, calls: seq<Invocation>, i: nat)
    requires InLoop(brief, sent, replies, calls, i)
    ensures Tells(brief, sent, replies, calls, i)
  {
    hide Continues, Said, CarriedOut, Spoken, Shown, Contents;
    var notice := User(BudgetNotice(Left(brief, calls[..|Asked(brief, replies[..i])|]), brief.steps - i));
    TailSpoken(notice, Assistant("", []), notice);
    TailTells(sent[i], [notice], brief, replies[..i], calls);
    assert Said(brief, replies[..i]) + [] == Said(brief, replies[..i]);
  }

  lemma ClosingTells(brief: Brief, sent: seq<seq<Message>>, replies: seq<Response>, calls: seq<Invocation>, i: nat)
    requires Closes(brief, sent, replies, calls, i)
    ensures Tells(brief, sent, replies, calls, i)
  {
    hide Continues, Said, CarriedOut, Spoken, Shown, Contents;
    TailSpoken(User(FINAL_NOTICE), Assistant("", []), User(""));
    TailTells(sent[i], [User(FINAL_NOTICE)], brief, replies[..i], calls);
    assert Said(brief, replies[..i]) + [] == Said(brief, replies[..i]);
  }

  /** What follows the conversation adds to what has been said, and nothing to what has been shown. */
  lemma TailTells(request: seq<Message>, tail: seq<Message>, brief: Brief, replies: seq<Response>, calls: seq<Invocation>)
    requires Continues(request, tail, brief, replies, calls) && forall k | 0 <= k < |tail| :: !tail[k].Tool?
    ensures brief.open <= request && Spoken(request) == Said(brief, replies) + Spoken(tail)
    ensures |Asked(brief, replies)| <= |calls| && CarriedOut(Asked(brief, replies), calls[..|Asked(brief, replies)|])
    ensures Shown(request) == Contents(calls[..|Asked(brief, replies)|])
  {
    hide CarriedOut, WellPaired, Contents, Said, Spoken, Shown, Asked;
    var at := |request| - |tail|;
    SpokenShownSplit(request, at);
    NothingShown(tail);
    assert Shown(request[..at]) + [] == Shown(request[..at]);
  }

  lemma {:induction false} NothingShown(messages: seq<Message>)
    requires forall k | 0 <= k < |messages| :: !messages[k].Tool?
    ensures Shown(messages) == []
  {
    if |messages| > 0 {
      NothingShown(messages[..|messages| - 1]);
    }
  }

  lemma RepairTells(brief: Brief, sent: seq<seq<Message>>, replies: seq<Response>, calls: seq<Invocation>, i: nat)
    requires Repairs(brief, sent, replies, calls, i)
    ensures Tells(brief, sent, replies, calls, i)
  {
    hide Continues, CarriedOut, InLoop, Closes, Spoken, Said, Shown, Contents, Corpus;
    var answer := Assistant(replies[i - 1].content, []);
    var notice := User(RepairNotice(brief.validate(replies[i - 1].content, Corpus(calls)).value));
    TailSpoken(User(FINAL_NOTICE), answer, notice);
    assert replies[..i] == replies[..i - 1] + [replies[i - 1]];
    SaidAppend(brief, replies[..i - 1], replies[i - 1]);
    RequestedAppend(replies[..i - 1], replies[i - 1]);
    assert Asked(brief, replies[..i]) == Asked(brief, replies[..i - 1]);
    assert WithIds([], i) == [];
    if Continues(sent[i], [answer, notice], brief, replies[..i - 1], calls) {
      TailTells(sent[i], [answer, notice], brief, replies[..i - 1], calls);
    } else {
      assert [User(FINAL_NOTICE)] + [answer, notice] == [User(FINAL_NOTICE), answer, notice];
      TailTells(sent[i], [User(FINAL_NOTICE), answer, notice], brief, replies[..i - 1], calls);
    }
  }

  lemma TailSpoken(notice: Message, answer: Message, repair: Message)
    requires notice.User? && answer.Assistant? && repair.User?
    ensures Spoken([notice]) == [] && Spoken([answer, repair]) == [answer] && Spoken([notice, answer, repair]) == [answer]
  {
    SpokenAppend([], notice);
    SpokenAppend([notice], answer);
    SpokenAppend([notice, answer], repair);
    SpokenAppend([], answer);
    SpokenAppend([answer], repair);
    assert [notice] + [answer] == [notice, answer] && [notice, answer] + [repair] == [notice, answer, repair];
    assert [answer] + [repair] == [answer, repair];
  }

  lemma AnswerInLoop(brief: Brief, sent: seq<seq<Message>>, replies: seq<Response>, calls: seq<Invocation>, exhausted: bool)
    requires AllInLoop(brief, sent, replies, calls) && |sent| == |replies| > 0
    ensures Answered(brief, false, sent, replies, calls, exhausted)
  {
    hide InLoop, Closes;
  }

  lemma FinalHistory(brief: Brief, sent: seq<seq<Message>>, replies: seq<Response>, calls: seq<Invocation>, exhausted: bool,
                     sent0: seq<seq<Message>>, replies0: seq<Response>)
    requires AllInLoop(brief, sent0, replies0, calls) && |sent0| == |replies0| && (|sent0| == brief.steps || exhausted)
    requires (sent == sent0 && replies == replies0) ||
             (sent0 < sent && |sent| == |sent0| + 1 && Closes(brief, sent, replies, calls, |sent0|) &&
              forall i | 0 <= i < |sent0| :: InLoop(brief, sent, replies, calls, i))
    ensures History(brief, sent, replies, calls, exhausted)
  {
    hide InLoop, Closes, Repairs;
    if sent != sent0 {
      forall i | 0 <= i < |sent|
        ensures InLoop(brief, sent, replies, calls, i) ||
                (Closes(brief, sent, replies, calls, i) && |sent| <= i + 2 && (i == brief.steps || exhausted)) {
      }
    }
  }
}
