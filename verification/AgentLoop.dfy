/**
 * The tool-calling loop (internal/agent/agent.go). Provider replies, tool results and recording failures are arbitrary;
 * sizes are counted in characters, each standing for a byte.
 */
module AgentLoop {
  import opened Collections
  import opened Text
  import opened AgentRequests
  import opened AgentTranscript

  datatype Result = Final(content: string) | Failure

  const DEFAULT_MAX_CONTEXT_BYTES: nat := 96 * 1024
  const DEFAULT_MAX_TOOL_OUTPUT_BYTES: nat := 48 * 1024
  const DEFAULT_MAX_STEPS: nat := 8

  const BUDGET_EXHAUSTED := "Tool output budget exhausted. Finish using collected evidence."
  const OUTPUT_TOO_LARGE := "Tool output exceeds remaining context budget."

  /** What stays outside: the tools, JSON, and the validation of a final answer against the evidence. */
  datatype Environment = Environment(
    tool: (nat, ToolCall) -> (string, string), normalize: string -> Option<string>,
    requestBytes: seq<Message> -> nat, validate: (string, seq<string>) -> Option<string>)

  /** The state of one Run: what its closures share, and ghost records of what was sent to the provider. */
  class AgentRun {
    const maxSteps: nat
    const maxOutput: nat
    const maxContext: nat
    const cacheable: seq<string>
    const env: Environment

    var messages: seq<Message>
    var cache: map<string, Invocation>
    var remaining: int
    var rejectedOutputs: nat
    var toolCalls: seq<Invocation>
    var providerCalls: nat
    /** How many tools have been run. */
    var executions: nat
    /** The requests sent, how many of them once exhausted, the replies, and how much was lost instead. */
    ghost var sent: seq<seq<Message>>
    ghost var sentExhausted: nat
    ghost var replies: seq<Response>
    ghost var lost: nat

    constructor (maxSteps: int, maxOutput: int, maxContext: int, cacheable: seq<string>, env: Environment)
      ensures this.maxSteps > 0 && (maxSteps > 0 ==> this.maxSteps == maxSteps)
      ensures this.maxOutput > 0 && (maxOutput > 0 ==> this.maxOutput == maxOutput)
      ensures this.maxContext > 0 && (maxContext > 0 ==> this.maxContext == maxContext)
      ensures this.cacheable == cacheable && this.env == env
      ensures Started()
    {
      this.maxSteps := if maxSteps <= 0 then DEFAULT_MAX_STEPS else maxSteps;
      this.maxOutput := if maxOutput <= 0 then DEFAULT_MAX_TOOL_OUTPUT_BYTES else maxOutput;
      this.maxContext := if maxContext <= 0 then DEFAULT_MAX_CONTEXT_BYTES else maxContext;
      this.cacheable, this.env := cacheable, env;
      messages, cache, rejectedOutputs, toolCalls, providerCalls, executions := [], map[], 0, [], 0, 0;
      remaining := if maxOutput <= 0 then DEFAULT_MAX_TOOL_OUTPUT_BYTES else maxOutput;
      sent, sentExhausted, replies, lost := [], 0, [], 0;
    }

    ghost predicate Started()
      reads this
    {
      && messages == [] && cache == map[] && remaining == maxOutput && rejectedOutputs == 0 && toolCalls == []
      && providerCalls == 0 && sent == [] && sentExhausted == 0 && replies == [] && lost == 0
    }

    function LowBudget(): nat {
      Min(2048, maxOutput / 10)
    }

    predicate Exhausted()
      reads this
    {
      remaining <= LowBudget() || rejectedOutputs >= 2
    }

    function KeyFor(invocation: Invocation): string {
      Key(cacheable, env.normalize, invocation.name, invocation.arguments)
    }

    predicate AcceptedAs(calls: seq<Invocation>, i: int, key: string) {
      0 <= i < |calls| && Accepted(calls[i]) && KeyFor(calls[i]) == key
    }

    /** Invocation `i` refers the model to the earlier, accepted invocation `k` of the same read. */
    predicate Backs(calls: seq<Invocation>, k: nat, i: nat) {
      && k < i < |calls| && KeyFor(calls[i]) != "" && AcceptedAs(calls, k, KeyFor(calls[i]))
      && calls[i].output == DuplicateNote(calls[k].id)
    }

    /** The cache holds exactly the accepted cacheable invocations. */
    ghost predicate Holds(cache: map<string, Invocation>, calls: seq<Invocation>) {
      && (forall key <- cache :: key != "" && exists i :: AcceptedAs(calls, i, key) && calls[i] == cache[key])
      && (forall i | 0 <= i < |calls| && Accepted(calls[i]) && KeyFor(calls[i]) != "" :: KeyFor(calls[i]) in cache)
    }

    /** No key is accepted twice. */
    ghost predicate OncePerKey(calls: seq<Invocation>) {
      forall i, j | 0 <= i < j < |calls| && Accepted(calls[i]) && Accepted(calls[j]) && KeyFor(calls[i]) != "" ::
        KeyFor(calls[i]) != KeyFor(calls[j])
    }

    ghost predicate Backed(calls: seq<Invocation>) {
      forall i | 0 <= i < |calls| && calls[i].cached :: exists k :: Backs(calls, k, i)
    }

    /** Budget and cache account for the invocations. */
    ghost predicate Accounts(cache: map<string, Invocation>, remaining: int, calls: seq<Invocation>) {
      && remaining >= 0 && remaining + AcceptedBytes(calls) == maxOutput
      && Holds(cache, calls) && OncePerKey(calls) && Backed(calls)
    }

    lemma BytesAppend(calls: seq<Invocation>, invocation: Invocation)
      ensures AcceptedBytes(calls + [invocation]) == AcceptedBytes(calls) + if Accepted(invocation) then |invocation.output| else 0
    {
      assert (calls + [invocation])[..|calls|] == calls;
    }

    lemma BackedAppend(calls: seq<Invocation>, invocation: Invocation)
      requires Backed(calls)
      requires invocation.cached ==> exists k :: Backs(calls + [invocation], k, |calls|)
      ensures Backed(calls + [invocation])
    {
      var more := calls + [invocation];
      forall i | 0 <= i < |more| && more[i].cached ensures exists k :: Backs(more, k, i) {
        if i < |calls| {
          var k :| Backs(calls, k, i);
          assert Backs(more, k, i);
        }
      }
    }

    lemma HoldsAppend(cache: map<string, Invocation>, calls: seq<Invocation>, invocation: Invocation)
      requires Holds(cache, calls)
      ensures forall key <- cache :: exists i :: AcceptedAs(calls + [invocation], i, key) && (calls + [invocation])[i] == cache[key]
    {
      var more := calls + [invocation];
      forall key | key in cache ensures exists i :: AcceptedAs(more, i, key) && more[i] == cache[key] {
        var i :| AcceptedAs(calls, i, key) && calls[i] == cache[key];
        assert AcceptedAs(more, i, key);
      }
    }

    lemma OnceAppend(cache: map<string, Invocation>, calls: seq<Invocation>, invocation: Invocation)
      requires Holds(cache, calls) && OncePerKey(calls)
      requires Accepted(invocation) ==> KeyFor(invocation) == "" || KeyFor(invocation) !in cache
      ensures OncePerKey(calls + [invocation])
    {
    }

    /** An invocation that is not accepted leaves cache and budget as they are. */
    lemma RejectedAccounts(cache: map<string, Invocation>, remaining: int, calls: seq<Invocation>, invocation: Invocation)
      requires Accounts(cache, remaining, calls) && !Accepted(invocation)
      requires invocation.cached ==> exists k :: Backs(calls + [invocation], k, |calls|)
      ensures Accounts(cache, remaining, calls + [invocation])
    {
      BytesAppend(calls, invocation);
      BackedAppend(calls, invocation);
      HoldsAppend(cache, calls, invocation);
      OnceAppend(cache, calls, invocation);
      assert true == Backed(calls + [invocation]) == OncePerKey(calls + [invocation]);
    }

    /** An accepted one is charged, and cached under a key that was free. */
    lemma AcceptedAccounts(cache: map<string, Invocation>, remaining: int, calls: seq<Invocation>, invocation: Invocation)
      requires Accounts(cache, remaining, calls) && Accepted(invocation) && |invocation.output| <= remaining
      requires KeyFor(invocation) == "" || KeyFor(invocation) !in cache
      ensures var key := KeyFor(invocation);
              Accounts(if key != "" then cache[key := invocation] else cache, remaining - |invocation.output|, calls + [invocation])
    {
      BytesAppend(calls, invocation);
      BackedAppend(calls, invocation);
      HoldsAppend(cache, calls, invocation);
      OnceAppend(cache, calls, invocation);
      assert AcceptedAs(calls + [invocation], |calls|, KeyFor(invocation));
    }

    /** The evidence is what the budget was spent on: never more than the maximum. */
    lemma EvidenceWithinBudget(cache: map<string, Invocation>, remaining: int, calls: seq<Invocation>)
      requires Accounts(cache, remaining, calls)
      ensures TotalBytes(Corpus(calls)) + remaining == maxOutput && TotalBytes(Corpus(calls)) <= maxOutput
    {
      CorpusBytes(calls);
    }

    /** A cached invocation refers to an earlier accepted one of the same tool with the same decoded arguments. */
    lemma CachedReadsAreSame(cache: map<string, Invocation>, remaining: int, calls: seq<Invocation>, i: nat) returns (k: nat)
      requires Accounts(cache, remaining, calls) && KeysDetermineReads(cacheable, env.normalize)
      requires i < |calls| && calls[i].cached
      ensures k < i && Accepted(calls[k]) && calls[i].output == DuplicateNote(calls[k].id)
      ensures calls[k].name == calls[i].name
      ensures env.normalize(calls[i].arguments).Some?
      ensures env.normalize(calls[k].arguments) == env.normalize(calls[i].arguments)
    {
      k :| Backs(calls, k, i);
    }

    /**
     * A cacheable read with the same decoded arguments as an accepted one runs no tool; the model is referred to that one,
     * or to another that reads the same.
     */
    lemma RepeatedReadsAreCached(call: ToolCall, i: nat) returns (k: nat)
      requires Accounts(cache, remaining, toolCalls) && KeysDetermineReads(cacheable, env.normalize)
      requires i < |toolCalls| && Accepted(toolCalls[i]) && call.name == toolCalls[i].name && call.name in cacheable && call.name != ""
      requires env.normalize(call.arguments).Some? && env.normalize(call.arguments) == env.normalize(toolCalls[i].arguments)
      ensures !Runs(call) && Outcome(call).cached
      ensures k < |toolCalls| && Accepted(toolCalls[k]) && Outcome(call).output == DuplicateNote(toolCalls[k].id)
      ensures toolCalls[k].name == call.name && env.normalize(toolCalls[k].arguments) == env.normalize(call.arguments)
    {
      var key := KeyFor(toolCalls[i]);
      assert key == call.name + env.normalize(call.arguments).value && key in cache;
      k :| AcceptedAs(toolCalls, k, key) && toolCalls[k] == cache[key];
    }

    /** Whether a call runs a tool: it is not cached, enough budget is left, and the last two outputs were not both too large. */
    predicate Runs(call: ToolCall)
      reads this
    {
      && Key(cacheable, env.normalize, call.name, call.arguments) !in cache
      && remaining > Min(2048, maxOutput / 10) && rejectedOutputs < 2
    }

    /** What a call yields: a pointer to the cached read, a refusal, or the tool's output if it fits. */
    function Outcome(call: ToolCall): Invocation
      reads this
    {
      var key := Key(cacheable, env.normalize, call.name, call.arguments);
      var invocation := Invocation(false, call.id, call.name, call.arguments, "", "");
      if key in cache then invocation.(cached := true, output := DuplicateNote(cache[key].id))
      else if Exhausted() then invocation.(error := BUDGET_EXHAUSTED)
      else
        var (output, error) := env.tool(executions, call);
        if error == "" && |output| > remaining then invocation.(error := OUTPUT_TOO_LARGE)
        else invocation.(output := output, error := error)
    }

    /** The execute closure. Only an output that is accepted is charged, and cached if its tool may be. */
    method Execute(call: ToolCall) returns (invocation: Invocation)
      requires Accounts(cache, remaining, toolCalls)
      modifies this`cache, this`remaining, this`rejectedOutputs, this`executions
      ensures Accounts(cache, remaining, toolCalls + [invocation])
      ensures invocation == old(Outcome(call))
      ensures executions == old(executions) + if old(Runs(call)) then 1 else 0
      ensures old(Runs(call)) && env.tool(old(executions), call).1 == "" ==>
                rejectedOutputs == if |env.tool(old(executions), call).0| > old(remaining) then old(rejectedOutputs) + 1 else 0
      ensures !(old(Runs(call)) && env.tool(old(executions), call).1 == "") ==> rejectedOutputs == old(rejectedOutputs)
      ensures Accepted(invocation) ==> old(Runs(call)) && remaining == old(remaining) - |invocation.output|
      ensures !Accepted(invocation) ==> remaining == old(remaining) && cache == old(cache)
      ensures old(Exhausted()) ==> Exhausted()
    {
      var key := Key(cacheable, env.normalize, call.name, call.arguments);
      if key != "" && key in cache {
        invocation := Invocation(true, call.id, call.name, call.arguments, DuplicateNote(cache[key].id), "");
        ghost var k :| AcceptedAs(toolCalls, k, key) && toolCalls[k] == cache[key];
        assert Backs(toolCalls + [invocation], k, |toolCalls|);
        RejectedAccounts(cache, remaining, toolCalls, invocation);
        return;
      }
      if Exhausted() {
        invocation := Invocation(false, call.id, call.name, call.arguments, "", BUDGET_EXHAUSTED);
        RejectedAccounts(cache, remaining, toolCalls, invocation);
        return;
      }
      var output, error := ExecuteTool(call);
      invocation := Settle(Invocation(false, call.id, call.name, call.arguments, output, error), key);
    }

    /** Charges an output that fits the budget and rejects one that does not. */
    method Settle(executed: Invocation, key: string) returns (invocation: Invocation)
      requires Accounts(cache, remaining, toolCalls)
      requires !executed.cached && key == KeyFor(executed) && (key == "" || key !in cache)
      modifies this`cache, this`remaining, this`rejectedOutputs
      ensures Accounts(cache, remaining, toolCalls + [invocation])
      ensures invocation == if executed.error == "" && |executed.output| > old(remaining)
                            then executed.(output := "", error := OUTPUT_TOO_LARGE) else executed
      ensures remaining == old(remaining) - if Accepted(invocation) then |invocation.output| else 0
      ensures cache == if Accepted(invocation) && key != "" then old(cache)[key := invocation] else old(cache)
      ensures rejectedOutputs == if executed.error != "" then old(rejectedOutputs)
                                 else if |executed.output| > old(remaining) then old(rejectedOutputs) + 1 else 0
    {
      invocation := executed;
      if invocation.error == "" {
        if |invocation.output| > remaining {
          rejectedOutputs := rejectedOutputs + 1;
          invocation := invocation.(output := "", error := OUTPUT_TOO_LARGE);
        } else {
          AcceptedAccounts(cache, remaining, toolCalls, invocation);
          rejectedOutputs := 0;
          remaining := remaining - |invocation.output|;
          if key != "" {
            cache := cache[key := invocation];
          }
          return;
        }
      }
      RejectedAccounts(cache, remaining, toolCalls, invocation);
    }

    /** Runs a tool. That the budget is not exhausted is what its callers must have made sure of. */
    method ExecuteTool(call: ToolCall) returns (output: string, error: string)
      requires remaining > Min(2048, maxOutput / 10) && rejectedOutputs < 2
      modifies this`executions
      ensures (output, error) == env.tool(old(executions), call) && executions == old(executions) + 1
    {
      var result := env.tool(executions, call);
      executions := executions + 1;
      return result.0, result.1;
    }

    // ----- the conversation -----

    /** Budget and cache account for the invocations; every request sent was well paired and within the context budget. */
    ghost predicate Conversation()
      reads this`cache, this`remaining, this`toolCalls, this`replies, this`sent
    {
      && Accounts(cache, remaining, toolCalls)
      && |replies| <= |sent|
      && forall i | 0 <= i < |sent| :: WellPaired(sent[i]) && env.requestBytes(sent[i]) <= maxContext
    }

    /** Between rounds: every call asked for is carried out and answered, every request so far was one of the loop. */
    ghost predicate AtRest(brief: Brief)
      reads this`cache, this`remaining, this`toolCalls, this`replies, this`sent, this`messages, this`providerCalls
    {
      && Conversation() && Given(brief) && Transcript(messages, brief.open, Said(brief, replies), toolCalls)
      && CarriedOut(Asked(brief, replies), toolCalls) && providerCalls == |replies| == |sent|
      && AllInLoop(brief, sent, replies, toolCalls)
    }

    /** Sends a request, unless it is too large; the provider may answer anything or fail. */
    method Chat(request: seq<Message>) returns (r: Option<Response>)
      requires Conversation() && WellPaired(request)
      modifies this`sent, this`sentExhausted, this`replies, this`lost
      ensures true == Conversation()
      ensures sent == old(sent) ==> sentExhausted == old(sentExhausted) && r.None?
      ensures sent != old(sent) ==>
                sent == old(sent) + [request] && sentExhausted == old(sentExhausted) + if Exhausted() then 1 else 0
      ensures r.Some? ==> replies == old(replies) + [r.value] && lost == old(lost)
      ensures r.None? ==> replies == old(replies) && lost == old(lost) + 1
    {
      if env.requestBytes(request) > maxContext {
        lost := lost + 1;
        return None;
      }
      sent := sent + [request];
      sentExhausted := sentExhausted + if Exhausted() then 1 else 0;
      if * {
        lost := lost + 1;
        return None;
      }
      var content: string, calls: seq<ToolCall> := *, *;
      replies := replies + [Response(content, calls)];
      r := Some(Response(content, calls));
    }

    /** An assistant message with its calls, each executed, recorded and answered. Recording may fail. */
    method Round(content: string, calls: seq<ToolCall>, ghost asked: seq<ToolCall>, ghost open: seq<Message>,
                 ghost spoken: seq<Message>)
      returns (ok: bool)
      requires Conversation() && Transcript(messages, open, spoken, toolCalls) && CarriedOut(asked, toolCalls)
      modifies this`messages, this`cache, this`remaining, this`rejectedOutputs, this`toolCalls, this`executions, this`lost
      ensures true == Conversation()
      ensures ok ==> true == Transcript(messages, open, spoken + [Assistant(content, calls)], toolCalls)
      ensures ok ==> true == CarriedOut(asked + calls, toolCalls) && lost == old(lost)
      ensures !ok ==> lost == old(lost) + 1
      ensures old(Exhausted()) ==> Exhausted()
      ensures old(toolCalls) <= toolCalls
    {
      hide Conversation, WellPaired, Underway, CarriedOut, Shown, Spoken, Contents, Outcome;
      ShownAppend(messages, Assistant(content, calls));
      messages := messages + [Assistant(content, calls)];
      UnderwayStart(old(messages), Assistant(content, calls));
      assert asked + calls[..0] == asked;
      for i := 0 to |calls|
        invariant true == Conversation()
        invariant old(Exhausted()) ==> Exhausted()
        invariant true == Underway(messages, old(messages), Assistant(content, calls), i)
        invariant Shown(messages) == Contents(toolCalls)
        invariant true == CarriedOut(asked + calls[..i], toolCalls)
        invariant lost == old(lost) && old(toolCalls) <= toolCalls
      {
        ghost var before, invocations := messages, toolCalls;
        ok := Perform(calls[i]);
        if !ok {
          return;
        }
        UnderwayMore(before, messages, old(messages), Assistant(content, calls), i);
        CarriedOutAppend(asked + calls[..i], invocations, calls[i], toolCalls[|invocations|]);
        assert asked + calls[..i] + [calls[i]] == asked + calls[..i + 1];
      }
      assert calls[..|calls|] == calls;
      UnderwayTranscript(messages, old(messages), Assistant(content, calls), open, spoken, toolCalls);
      return true;
    }

    /** Executes a call, records it and appends its answer. */
    method Perform(call: ToolCall) returns (ok: bool)
      requires Conversation() && Shown(messages) == Contents(toolCalls)
      modifies this`messages, this`cache, this`remaining, this`rejectedOutputs, this`toolCalls, this`executions, this`lost
      ensures true == Conversation()
      ensures old(Exhausted()) ==> Exhausted()
      ensures toolCalls == old(toolCalls) + [old(Outcome(call))]
      ensures old(Outcome(call)).name == call.name && old(Outcome(call)).arguments == call.arguments
      ensures ok ==>
                && |messages| == |old(messages)| + 1 && messages == old(messages) + [messages[|messages| - 1]]
                && Answer(messages[|messages| - 1], call) && Shown(messages) == Contents(toolCalls) && lost == old(lost)
      ensures !ok ==> lost == old(lost) + 1
    {
      hide Shown, Contents, WellPaired, Accounts, Outcome;
      ghost var outcome := Outcome(call);
      OutcomeOfCall(call);
      var invocation := Execute(call);
      ContentsAppend(toolCalls, invocation);
      toolCalls := toolCalls + [invocation];
      if * {
        lost := lost + 1;
        return false;
      }
      ShownAppend(messages, Tool(ToolResultContent(invocation), call.name, call.id));
      messages := messages + [Tool(ToolResultContent(invocation), call.name, call.id)];
      return true;
    }

    lemma OutcomeOfCall(call: ToolCall)
      ensures Outcome(call).id == call.id && Outcome(call).name == call.name && Outcome(call).arguments == call.arguments
    {
    }

    lemma ContentsAppend(calls: seq<Invocation>, invocation: Invocation)
      ensures Contents(calls + [invocation]) == Contents(calls) + [ToolResultContent(invocation)]
    {
    }

    /** A reply that cannot be the final answer. */
    predicate Unusable(reply: Response)
      reads this`toolCalls
    {
      reply.toolCalls != [] || reply.content == "" || env.validate(reply.content, Corpus(toolCalls)).Some?
    }

    /** The last reply is an attempt to repair the one before: an answer that was rejected. */
    ghost predicate Repaired()
      reads this`toolCalls, this`replies
    {
      |replies| > 1 &&
      var rejected := replies[|replies| - 2];
      rejected.toolCalls == [] && rejected.content != "" && env.validate(rejected.content, Corpus(toolCalls)).Some?
    }

    /**
     * The result is the last reply, if that is valid; only a repair may be empty. A failure has a cause outside, or a useless
     * last reply.
     */
    ghost predicate Concluded(r: Result)
      reads this`toolCalls, this`replies, this`lost
    {
      match r
      case Final(content) =>
        && |replies| > 0 && replies[|replies| - 1] == Response(content, [])
        && env.validate(content, Corpus(toolCalls)).None? && (content != "" || Repaired())
      case Failure => lost > 0 || (|replies| > 0 && Unusable(replies[|replies| - 1]))
    }

    /** A rejected final answer may be repaired once. `base` is the conversation, without the notice that it is over. */
    method ValidateFinal(messages: seq<Message>, content: string, ghost brief: Brief, ghost base: seq<Message>, ghost final: bool)
      returns (r: Result)
      requires Conversation() && WellPaired(messages) && messages == base + if final then [User(FINAL_NOTICE)] else []
      requires Given(brief) && providerCalls == |replies| && Answered(brief, final, sent, replies, toolCalls, Exhausted())
      requires |replies| > 0 && replies[|replies| - 1] == Response(content, []) && content != ""
      requires Transcript(base, brief.open, Said(brief, replies[..|replies| - 1]), toolCalls)
      requires CarriedOut(Asked(brief, replies[..|replies| - 1]), toolCalls)
      modifies this`sent, this`sentExhausted, this`providerCalls, this`replies, this`lost
      ensures true == Conversation()
      ensures true == Concluded(r)
      ensures true == History(brief, sent, replies, toolCalls, Exhausted())
      ensures |sent| <= |old(sent)| + 1 && sentExhausted <= old(sentExhausted) + 1 && lost >= old(lost)
      ensures providerCalls == |replies|
      ensures Requested(replies) == Requested(old(replies)) || r.Failure?
    {
      hide WellPaired, Transcript, Answered, Accounts, CarriedOut, Said, Asked, History;
      AnsweredHistory(brief, final, base, sent, replies, toolCalls, Exhausted(), replies);
      var error := env.validate(content, Corpus(toolCalls));
      if error.None? {
        return Final(content);
      }
      var repair := messages + [Assistant(content, [])];
      AppendPlain(messages, Assistant(content, []));
      AppendPlain(repair, User(RepairNotice(error.value)));
      ghost var request := repair + [User(RepairNotice(error.value))];
      assert request == messages + [Assistant(content, []), User(RepairNotice(error.value))];
      var response := Chat(repair + [User(RepairNotice(error.value))]);
      AnsweredHistory(brief, final, base, old(sent), old(replies), toolCalls, Exhausted(), replies);
      if response.None? {
        return Failure;
      }
      providerCalls := providerCalls + 1;
      RequestedAppend(old(replies), response.value);
      if response.value.toolCalls != [] || env.validate(response.value.content, Corpus(toolCalls)).Some? {
        return Failure;
      }
      return Final(response.value.content);
    }

    /** One request of the loop. The notice is added to it only, not to the conversation. */
    method Ask(rounds: nat, ghost brief: Brief) returns (response: Option<Response>)
      requires AtRest(brief) && !Exhausted() && |sent| < brief.steps && rounds == brief.steps - |sent|
      modifies this`sent, this`sentExhausted, this`providerCalls, this`replies, this`lost
      ensures true == Conversation()
      ensures true == AllInLoop(brief, sent, replies, toolCalls)
      ensures |sent| <= |old(sent)| + 1 && sentExhausted <= old(sentExhausted)
      ensures providerCalls == |replies|
      ensures response.Some? ==> replies == old(replies) + [response.value] && lost == old(lost) && |sent| == |replies|
      ensures response.None? ==> replies == old(replies) && lost > old(lost)
    {
      hide WellPaired, Accounts, CarriedOut, Said, Asked, AllInLoop, BudgetNotice, Shown, Spoken, Contents;
      AccountsLeft(brief, cache, remaining, toolCalls);
      AppendPlain(messages, User(BudgetNotice(remaining, rounds)));
      response := Chat(messages + [User(BudgetNotice(remaining, rounds))]);
      StillAllInLoop(brief, old(sent), old(replies), toolCalls, replies, toolCalls);
      LoopRequest(brief, messages, old(sent), old(replies), toolCalls, replies);
      if response.Some? {
        providerCalls := providerCalls + 1;
      }
    }

    lemma AccountsLeft(brief: Brief, cache: map<string, Invocation>, remaining: int, calls: seq<Invocation>)
      requires Accounts(cache, remaining, calls) && Given(brief)
      ensures 0 <= remaining == Left(brief, calls)
    {
    }

    /**
     * Tool rounds until the model answers, the budget is exhausted or the steps are used up; then one final request. The
     * budget and the cache account for all that was executed; every request was well paired, fits the context, and is what
     * `History` says: it opens with the prompts and shows the model what it has said and the results of exactly the calls it
     * has asked for. At most two requests were sent once exhausted; with an answer, all calls have been carried out, in order.
     */
    method Run(initialCalls: seq<ToolCall>, systemPrompt: string, userPrompt: string, requestedSteps: int)
      returns (r: Result)
      requires Started()
      modifies this
      ensures Conversation()
      ensures |sent| <= (if requestedSteps <= 0 then maxSteps else requestedSteps) + 2
      ensures sentExhausted <= 2 && providerCalls == |replies|
      ensures var brief := BriefOf(initialCalls, systemPrompt, userPrompt, requestedSteps);
              && History(brief, sent, replies, toolCalls, remaining <= Min(2048, maxOutput / 10) || rejectedOutputs >= 2)
              && AllTell(brief, sent, replies, toolCalls)
      ensures TrimSpace(systemPrompt) == "" || TrimSpace(userPrompt) == "" ==> r.Failure? && sent == [] && toolCalls == []
      ensures TrimSpace(systemPrompt) != "" && TrimSpace(userPrompt) != "" ==> Concluded(r)
      ensures r.Final? ==> CarriedOut(initialCalls + Requested(replies), toolCalls)
    {
      hide History, Transcript, Accounts, WellPaired, CarriedOut, AllInLoop, Tells, Said, Asked, Requested;
      ghost var brief := BriefOf(initialCalls, systemPrompt, userPrompt, requestedSteps);
      if TrimSpace(systemPrompt) == "" || TrimSpace(userPrompt) == "" {
        StartAccounts();
        NothingSent(brief, replies, toolCalls, Exhausted());
        return Failure;
      }
      var steps := if requestedSteps <= 0 then maxSteps else requestedSteps;
      r := Talk(initialCalls, systemPrompt, userPrompt, steps, brief);
      HistoryTells(brief, sent, replies, toolCalls, Exhausted());
      assert Asked(brief, replies) == initialCalls + Requested(replies) by {
        AskedOf(brief, replies);
      }
    }

    /** What this run is given. */
    function BriefOf(initialCalls: seq<ToolCall>, systemPrompt: string, userPrompt: string, requestedSteps: int): Brief {
      Brief([System(systemPrompt), User(userPrompt)], initialCalls, if requestedSteps <= 0 then maxSteps else requestedSteps,
            maxOutput, Min(2048, maxOutput / 10), env.validate)
    }

    lemma AskedOf(brief: Brief, replies: seq<Response>)
      ensures Asked(brief, replies) == brief.initial + Requested(replies)
    {
    }

    ghost predicate Given(brief: Brief) {
      brief.budget == maxOutput && brief.low == LowBudget() && brief.validate == env.validate
    }

    method Talk(initialCalls: seq<ToolCall>, systemPrompt: string, userPrompt: string, steps: nat, ghost brief: Brief)
      returns (r: Result)
      requires Started() && Given(brief) && brief.steps == steps && brief.initial == initialCalls
      requires brief.open == [System(systemPrompt), User(userPrompt)]
      modifies this
      ensures true == Conversation()
      ensures |sent| <= steps + 2 && sentExhausted <= 2 && providerCalls == |replies|
      ensures true == History(brief, sent, replies, toolCalls, Exhausted())
      ensures true == Concluded(r)
      ensures r.Final? ==> true == CarriedOut(Asked(brief, replies), toolCalls)
    {
      hide History, Transcript, Accounts, WellPaired, CarriedOut, AllInLoop, Said, Asked;
      var ok := Open(initialCalls, systemPrompt, userPrompt, brief);
      if !ok {
        NothingSent(brief, replies, toolCalls, Exhausted());
        return Failure;
      }
      var ended;
      ended, r := Steps(steps, brief);
      if ended {
        return;
      }
      r := Conclude(brief);
    }

    /** The prompts, and the round the caller prescribes. */
    method Open(initialCalls: seq<ToolCall>, systemPrompt: string, userPrompt: string, ghost brief: Brief) returns (ok: bool)
      requires Started() && Given(brief) && brief.open == [System(systemPrompt), User(userPrompt)] && brief.initial == initialCalls
      modifies this
      ensures true == Conversation()
      ensures ok ==> true == AtRest(brief)
      ensures sent == [] && sentExhausted == 0 && replies == [] && providerCalls == 0
      ensures !ok ==> lost > 0
    {
      hide WellPaired, CarriedOut, Shown, Spoken, Contents, Accounts, Requested, Transcript;
      StartAccounts();
      messages := [System(systemPrompt), User(userPrompt)];
      Opening(systemPrompt, userPrompt);
      ok := true;
      assert initialCalls + [] == [] + initialCalls == initialCalls;
      if initialCalls != [] {
        var calls := NormalizeToolCallIDs(initialCalls, 0);
        ok := Round("", calls, [], brief.open, []);
        if ok {
          CarriedOutAs([], calls, initialCalls, toolCalls);
          assert [] + [Assistant("", calls)] == Said(brief, []);
        }
      } else {
        assert Said(brief, []) == [];
      }
    }

    lemma StartAccounts()
      ensures Accounts(map[], maxOutput, []) && CarriedOut([], []) && Contents([]) == [] && Requested([]) == []
    {
    }

    lemma Opening(system: string, user: string)
      ensures Transcript([System(system), User(user)], [System(system), User(user)], [], [])
    {
      var open := [System(system), User(user)];
      NothingYet(open);
      assert WellPaired(open);
    }

    method Steps(steps: nat, ghost brief: Brief) returns (ended: bool, r: Result)
      requires AtRest(brief) && sent == [] && sentExhausted == 0 && steps == brief.steps
      modifies this
      ensures true == Conversation()
      ensures !ended ==> true == AtRest(brief)
      ensures !ended ==> |sent| == steps || Exhausted()
      ensures ended ==> true == History(brief, sent, replies, toolCalls, Exhausted())
      ensures |sent| <= steps + (if ended then 1 else 0) && sentExhausted <= if ended then 1 else 0
      ensures ended ==> true == Concluded(r) && providerCalls == |replies|
      ensures ended && r.Final? ==> true == CarriedOut(Asked(brief, replies), toolCalls)
    {
      hide History, Transcript, Accounts, WellPaired, CarriedOut, AllInLoop, Said, Asked;
      var step := 0;
      while step < steps && !Exhausted()
        invariant step <= steps && |sent| == step && sentExhausted == 0
        invariant true == AtRest(brief)
      {
        ended, r := Step(step, steps, brief);
        if ended {
          return;
        }
        step := step + 1;
      }
      return false, Failure;
    }

    /** One request of the loop: an answer or a failure ends the run, tool calls are carried out. */
    method Step(step: nat, steps: nat, ghost brief: Brief) returns (ended: bool, r: Result)
      requires AtRest(brief) && !Exhausted() && step == |sent| < steps == brief.steps
      modifies this
      ensures true == Conversation()
      ensures !ended ==> true == AtRest(brief)
      ensures ended ==> true == History(brief, sent, replies, toolCalls, Exhausted())
      ensures !ended ==> |sent| == |old(sent)| + 1
      ensures |sent| <= |old(sent)| + 2
      ensures sentExhausted <= old(sentExhausted) + if ended then 1 else 0
      ensures ended ==> true == Concluded(r) && providerCalls == |replies|
      ensures ended && r.Final? ==> true == CarriedOut(Asked(brief, replies), toolCalls)
    {
      hide WellPaired, CarriedOut, Shown, Spoken, Contents, Accounts, Requested, Transcript, History, AllInLoop, Said;
      r := Failure;
      var response := Ask(steps - step, brief);
      if response.None? {
        LoopHistory(brief, sent, replies, toolCalls, Exhausted());
        return true, Failure;
      }
      RequestedAppend(old(replies), response.value);
      assert replies[..|replies| - 1] == old(replies);
      if response.value.toolCalls == [] {
        assert Asked(brief, replies) == Asked(brief, old(replies));
        if response.value.content == "" {
          LoopHistory(brief, sent, replies, toolCalls, Exhausted());
          return true, Failure;
        }
        AnswerInLoop(brief, sent, replies, toolCalls, Exhausted());
        TranscriptPaired(messages, brief.open, Said(brief, old(replies)), toolCalls);
        assert messages + [] == messages;
        r := ValidateFinal(messages, response.value.content, brief, messages, false);
        return true, r;
      }
      ended := ToolRound(response.value, step, brief);
    }

    /** Once answered with tool calls: these are carried out. */
    method ToolRound(reply: Response, step: nat, ghost brief: Brief) returns (failed: bool)
      requires Conversation() && AllInLoop(brief, sent, replies, toolCalls) && |sent| == |replies| == step + 1
      requires Given(brief) && replies[step] == reply && providerCalls == |replies|
      requires Transcript(messages, brief.open, Said(brief, replies[..step]), toolCalls)
      requires CarriedOut(Asked(brief, replies[..step]), toolCalls)
      modifies this`messages, this`cache, this`remaining, this`rejectedOutputs, this`toolCalls, this`executions, this`lost
      ensures true == Conversation()
      ensures !failed ==> true == AtRest(brief)
      ensures failed ==> true == History(brief, sent, replies, toolCalls, Exhausted())
      ensures failed ==> lost > 0
    {
      hide WellPaired, CarriedOut, Shown, Spoken, Contents, Accounts, Requested, Transcript, History, AllInLoop, Said;
      var calls := NormalizeToolCallIDs(reply.toolCalls, step + 1);
      var ok := Round(reply.content, calls, Asked(brief, replies[..step]), brief.open, Said(brief, replies[..step]));
      StillAllInLoop(brief, sent, replies, old(toolCalls), replies, toolCalls);
      LoopHistory(brief, sent, replies, toolCalls, Exhausted());
      if ok {
        assert replies == replies[..step] + [reply];
        RequestedAppend(replies[..step], reply);
        SaidAppend(brief, replies[..step], reply);
        CarriedOutAs(Asked(brief, replies[..step]), calls, reply.toolCalls, toolCalls);
        assert Asked(brief, replies) == Asked(brief, replies[..step]) + reply.toolCalls;
      }
      failed := !ok;
    }

    /** The final request, without tools. */
    method Conclude(ghost brief: Brief) returns (r: Result)
      requires AtRest(brief) && (|sent| == brief.steps || Exhausted())
      modifies this`messages, this`sent, this`sentExhausted, this`providerCalls, this`replies, this`lost
      ensures true == Conversation()
      ensures |sent| <= |old(sent)| + 2 && sentExhausted <= old(sentExhausted) + 2 && providerCalls == |replies|
      ensures true == History(brief, sent, replies, toolCalls, Exhausted())
      ensures true == Concluded(r)
      ensures r.Final? ==> true == CarriedOut(Asked(brief, replies), toolCalls)
    {
      hide WellPaired, CarriedOut, Shown, Spoken, Contents, Accounts, Requested, History, InLoop, Closes, Repairs, Said;
      ghost var base := messages;
      AppendPlain(messages, User(FINAL_NOTICE));
      messages := messages + [User(FINAL_NOTICE)];
      var response := Chat(messages);
      FinalRequest(brief, base, old(sent), old(replies), toolCalls, replies);
      FinalHistory(brief, sent, replies, toolCalls, Exhausted(), old(sent), old(replies));
      if response.None? {
        return Failure;
      }
      providerCalls := providerCalls + 1;
      RequestedAppend(old(replies), response.value);
      assert Requested(old(replies)) + [] == Requested(old(replies));
      if response.value.content == "" || response.value.toolCalls != [] {
        return Failure;
      }
      assert replies[..|replies| - 1] == old(replies);
      r := ValidateFinal(messages, response.value.content, brief, base, true);
    }

  }
}
