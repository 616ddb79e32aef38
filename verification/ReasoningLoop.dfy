/** One agent run: reason, act, observe (crates/roos-orchestrator/src/loop_.rs).

    Everything outside the loop is an oracle: the provider answers the k-th call
    of a run as it likes, and so do the tools and the schema validation. */
module ReasoningLoop {
  import opened Common
  import opened Conversation
  import opened Completion
  import opened AgentStates
  import Store = InMemoryStore

  datatype Tool = Tool(name: string, schema: Json)

  type Registry = map<string, Tool>

  datatype AgentInput = AgentInput(content: string, runId: Uuid, maxSteps: Option<nat>)

  datatype ToolCallRecord = ToolCallRecord(
    toolName: string, input: Json, output: Option<string>, error: Option<string>, step: nat)

  datatype AgentOutput = AgentOutput(
    content: string, stepsTaken: nat, toolsCalled: seq<ToolCallRecord>, totalTokens: TokenUsage, runId: Uuid)

  datatype AgentError =
    | ProviderError(message: string)
    | MaxStepsExceeded(steps: nat)
    | ContextWindowExceeded
    | MemoryError(message: string)
    | ConfigurationError(message: string)

  /** What the world does during one run. Calls are identified by the number of
      the completion and, for tools, by the position within its response. */
  datatype World = World(
    complete: (nat, seq<Message>) -> Result<CompletionResponse, string>,
    validate: (Tool, Json) -> Option<string>,
    execute: (nat, nat, Tool, Json) -> Result<string, string>,
    loadFault: Option<string>,
    appendFault: Option<string>)

  /** A tool body that ran, with its result. */
  datatype Execution = Execution(step: nat, position: nat, tool: Tool, input: Json)

  // ── Acting ───────────────────────────────────────────────────────────────

  /** The registry that `new` builds: a later tool of the same name replaces an earlier one. */
  function Register(tools: seq<Tool>): Registry {
    if tools == [] then map[] else Register(tools[..|tools| - 1])[tools[|tools| - 1].name := tools[|tools| - 1]]
  }

  /** The body of a tool runs for a call that names a registered tool and satisfies its schema. */
  predicate Runs(w: World, reg: Registry, call: ToolCall) {
    call.name in reg && w.validate(reg[call.name], call.input) == None
  }

  /** What a call yields: the result of the tool body, or the reason why it did not run. */
  function Yield(w: World, reg: Registry, step: nat, position: nat, call: ToolCall): Result<string, string> {
    if Runs(w, reg, call) then w.execute(step, position, reg[call.name], call.input)
    else if call.name in reg then Err(w.validate(reg[call.name], call.input).value)
    else Err("no tool named '" + call.name + "'")
  }

  function RecordOf(call: ToolCall, step: nat, yield': Result<string, string>): ToolCallRecord {
    match yield'
    case Ok(out) => ToolCallRecord(call.name, call.input, Some(out), None, step)
    case Err(e) => ToolCallRecord(call.name, call.input, None, Some(e), step)
  }

  function Observation(record: ToolCallRecord): Message {
    Message("tool",
            if record.output.Some? then record.output.value
            else "error: " + (if record.error.Some? then record.error.value else "unknown"))
  }

  /** The records of the calls of one response, in order. */
  function Records(w: World, reg: Registry, step: nat, calls: seq<ToolCall>): seq<ToolCallRecord> {
    if calls == [] then []
    else
      var n := |calls| - 1;
      Records(w, reg, step, calls[..n]) + [RecordOf(calls[n], step, Yield(w, reg, step, n, calls[n]))]
  }

  function Executions(w: World, reg: Registry, step: nat, calls: seq<ToolCall>): seq<Execution> {
    if calls == [] then []
    else
      var n := |calls| - 1;
      Executions(w, reg, step, calls[..n]) +
      if Runs(w, reg, calls[n]) then [Execution(step, n, reg[calls[n].name], calls[n].input)] else []
  }

  function Observations(records: seq<ToolCallRecord>): seq<Message> {
    seq(|records|, i requires 0 <= i < |records| => Observation(records[i]))
  }

  // ── The transcript ───────────────────────────────────────────────────────

  /** Tool calls count only when the response stopped to use tools. */
  function CallsActedOn(r: CompletionResponse): seq<ToolCall> {
    if r.stopReason.ToolUse? then r.toolCalls else []
  }

  /** What one response adds to the prompt. */
  function Turn(w: World, reg: Registry, step: nat, r: CompletionResponse): seq<Message> {
    (if r.content.Some? then [Assistant(r.content.value)] else []) +
    Observations(Records(w, reg, step, CallsActedOn(r)))
  }

  function Flatten(w: World, reg: Registry, rs: seq<CompletionResponse>): seq<Message> {
    if rs == [] then [] else Flatten(w, reg, rs[..|rs| - 1]) + Turn(w, reg, |rs|, rs[|rs| - 1])
  }

  function AllRecords(w: World, reg: Registry, rs: seq<CompletionResponse>): seq<ToolCallRecord> {
    if rs == [] then []
    else AllRecords(w, reg, rs[..|rs| - 1]) + Records(w, reg, |rs|, CallsActedOn(rs[|rs| - 1]))
  }

  function AllExecutions(w: World, reg: Registry, rs: seq<CompletionResponse>): seq<Execution> {
    if rs == [] then []
    else AllExecutions(w, reg, rs[..|rs| - 1]) + Executions(w, reg, |rs|, CallsActedOn(rs[|rs| - 1]))
  }

  function TotalUsage(rs: seq<CompletionResponse>): TokenUsage {
    if rs == [] then NO_TOKENS else TotalUsage(rs[..|rs| - 1]).Add(rs[|rs| - 1].usage)
  }

  /** The provider's answer to the call behind the responses `rs`. */
  function Answer(w: World, reg: Registry, prompt: seq<Message>, rs: seq<CompletionResponse>): Result<CompletionResponse, string> {
    w.complete(|rs| + 1, prompt + Flatten(w, reg, rs))
  }

  predicate Continues(rs: seq<CompletionResponse>) {
    rs == [] || rs[|rs| - 1].stopReason.ToolUse?
  }

  /** The responses of a run that is allowed `n` calls. */
  function Transcript(w: World, reg: Registry, prompt: seq<Message>, n: nat): seq<CompletionResponse> {
    if n == 0 then []
    else
      var rs := Transcript(w, reg, prompt, n - 1);
      if |rs| == n - 1 && Continues(rs) && Answer(w, reg, prompt, rs).Ok? then rs + [Answer(w, reg, prompt, rs).value]
      else rs
  }

  /** The prompts of the calls that are made. */
  function Prompts(w: World, reg: Registry, prompt: seq<Message>, n: nat): seq<seq<Message>> {
    if n == 0 then []
    else
      var rs := Transcript(w, reg, prompt, n - 1);
      Prompts(w, reg, prompt, n - 1) +
      if |rs| == n - 1 && Continues(rs) then [prompt + Flatten(w, reg, rs)] else []
  }

  function ContentOf(r: CompletionResponse): string {
    if r.content.Some? then r.content.value else ""
  }

  function OutputOf(w: World, reg: Registry, rs: seq<CompletionResponse>, runId: Uuid): AgentOutput
    requires rs != []
  {
    AgentOutput(ContentOf(rs[|rs| - 1]), |rs|, AllRecords(w, reg, rs), TotalUsage(rs), runId)
  }

  function InitialPrompt(stored: Option<ConversationHistory>, input: AgentInput): seq<Message> {
    (if stored.Some? then stored.value.messages else []) + [User(input.content)]
  }

  function MaxSteps(input: AgentInput): nat {
    if input.maxSteps.Some? then input.maxSteps.value else 10
  }

  lemma {:induction false} TranscriptLength(w: World, reg: Registry, prompt: seq<Message>, n: nat)
    ensures |Transcript(w, reg, prompt, n)| <= n
  {
    if n > 0 {
      TranscriptLength(w, reg, prompt, n - 1);
    }
  }

  /** A run that stops before its limit is not changed by a higher limit. */
  lemma {:induction false} TranscriptStops(w: World, reg: Registry, prompt: seq<Message>, k: nat, n: nat)
    requires k <= n
    requires var rs := Transcript(w, reg, prompt, k); |rs| < k || !Continues(rs)
    ensures Transcript(w, reg, prompt, n) == Transcript(w, reg, prompt, k)
    ensures Prompts(w, reg, prompt, n) == Prompts(w, reg, prompt, k)
    decreases n
  {
    hide Flatten, Answer;
    if k < n {
      TranscriptStops(w, reg, prompt, k, n - 1);
      TranscriptLength(w, reg, prompt, k);
    }
  }

  /** A run that neither ended nor used up its calls was refused an answer. */
  lemma {:induction false} TranscriptRefused(w: World, reg: Registry, prompt: seq<Message>, n: nat)
    requires var rs := Transcript(w, reg, prompt, n); |rs| < n && Continues(rs)
    ensures Answer(w, reg, prompt, Transcript(w, reg, prompt, n)).Err?
  {
    TranscriptLength(w, reg, prompt, n - 1);
    if |Transcript(w, reg, prompt, n - 1)| < n - 1 {
      TranscriptRefused(w, reg, prompt, n - 1);
    }
  }

  /** How a run ends once its responses are known. */
  function Ending(w: World, reg: Registry, prompt: seq<Message>, max: nat, runId: Uuid): Result<AgentOutput, AgentError> {
    var rs := Transcript(w, reg, prompt, max);
    if Continues(rs) then
      TranscriptLength(w, reg, prompt, max);
      if |rs| == max then Err(MaxStepsExceeded(max))
      else
        TranscriptRefused(w, reg, prompt, max);
        Err(ProviderError(Answer(w, reg, prompt, rs).error))
    else if rs[|rs| - 1].stopReason.MaxTokens? then Err(ContextWindowExceeded)
    else if w.appendFault.Some? then Err(MemoryError(w.appendFault.value))
    else Ok(OutputOf(w, reg, rs, runId))
  }

  /** The result of a run, given what memory holds for its id. */
  function RunResult(w: World, reg: Registry, stored: Option<ConversationHistory>, input: AgentInput): Result<AgentOutput, AgentError> {
    if w.loadFault.Some? then Err(MemoryError(w.loadFault.value))
    else Ending(w, reg, InitialPrompt(stored, input), MaxSteps(input), input.runId)
  }

  function MemoryAfter(inner: Store.Histories, r: Result<AgentOutput, AgentError>): Store.Histories {
    if r.Ok? then Store.AfterAppend(inner, r.value.runId, Assistant(r.value.content)) else inner
  }

  // ── The loop ─────────────────────────────────────────────────────────────

  /** One more response, in every view of the transcript. */
  lemma OneMore(w: World, reg: Registry, prompt: seq<Message>, rs: seq<CompletionResponse>, r: CompletionResponse)
    requires rs == Transcript(w, reg, prompt, |rs|) && Continues(rs) && Answer(w, reg, prompt, rs) == Ok(r)
    ensures Transcript(w, reg, prompt, |rs| + 1) == rs + [r]
    ensures Flatten(w, reg, rs + [r]) == Flatten(w, reg, rs) + Turn(w, reg, |rs| + 1, r)
    ensures AllRecords(w, reg, rs + [r]) == AllRecords(w, reg, rs) + Records(w, reg, |rs| + 1, CallsActedOn(r))
    ensures AllExecutions(w, reg, rs + [r]) == AllExecutions(w, reg, rs) + Executions(w, reg, |rs| + 1, CallsActedOn(r))
    ensures TotalUsage(rs + [r]) == TotalUsage(rs).Add(r.usage)
  {
    hide Turn, Records, Executions, CallsActedOn;
    assert (rs + [r])[..|rs|] == rs;
  }

  /** The prompt of the next call, in every case. */
  lemma OneMorePrompt(w: World, reg: Registry, prompt: seq<Message>, rs: seq<CompletionResponse>)
    requires rs == Transcript(w, reg, prompt, |rs|) && Continues(rs)
    ensures Prompts(w, reg, prompt, |rs| + 1) == Prompts(w, reg, prompt, |rs|) + [prompt + Flatten(w, reg, rs)]
    ensures Answer(w, reg, prompt, rs).Err? ==> Transcript(w, reg, prompt, |rs| + 1) == rs
  {
    hide Flatten;
  }

  /** The prompt with the text of a response, if it has any. */
  function Spoken(messages: seq<Message>, r: CompletionResponse): seq<Message> {
    if r.content.Some? then messages + [Assistant(r.content.value)] else messages
  }

  /** A response that asks for tools, in every view of the transcript. */
  lemma OneMoreRound(w: World, reg: Registry, prompt: seq<Message>, rs: seq<CompletionResponse>, r: CompletionResponse)
    requires rs == Transcript(w, reg, prompt, |rs|) && Continues(rs) && Answer(w, reg, prompt, rs) == Ok(r)
    requires r.stopReason.ToolUse?
    ensures Transcript(w, reg, prompt, |rs| + 1) == rs + [r]
    ensures Prompts(w, reg, prompt, |rs| + 1) == Prompts(w, reg, prompt, |rs|) + [prompt + Flatten(w, reg, rs)]
    ensures prompt + Flatten(w, reg, rs + [r]) ==
            Spoken(prompt + Flatten(w, reg, rs), r) + Observations(Records(w, reg, |rs| + 1, r.toolCalls))
    ensures AllRecords(w, reg, rs + [r]) == AllRecords(w, reg, rs) + Records(w, reg, |rs| + 1, r.toolCalls)
    ensures AllExecutions(w, reg, rs + [r]) == AllExecutions(w, reg, rs) + Executions(w, reg, |rs| + 1, r.toolCalls)
    ensures TotalUsage(rs + [r]) == TotalUsage(rs).Add(r.usage)
  {
    hide Transcript, Prompts, Flatten, AllRecords, AllExecutions, TotalUsage, Records, Executions, Observations, Answer;
    OneMore(w, reg, prompt, rs, r);
    OneMorePrompt(w, reg, prompt, rs);
    assert CallsActedOn(r) == r.toolCalls;
    SpokenTurn(w, reg, prompt + Flatten(w, reg, rs), |rs| + 1, r);
    assert prompt + (Flatten(w, reg, rs) + Turn(w, reg, |rs| + 1, r)) == prompt + Flatten(w, reg, rs) + Turn(w, reg, |rs| + 1, r);
  }

  lemma SpokenTurn(w: World, reg: Registry, messages: seq<Message>, step: nat, r: CompletionResponse)
    ensures messages + Turn(w, reg, step, r) == Spoken(messages, r) + Observations(Records(w, reg, step, CallsActedOn(r)))
  {
    hide Records, Observations;
  }

  lemma EndsExhausted(w: World, reg: Registry, prompt: seq<Message>, rs: seq<CompletionResponse>, runId: Uuid)
    requires rs == Transcript(w, reg, prompt, |rs|) && Continues(rs)
    ensures Ending(w, reg, prompt, |rs|, runId) == Err(MaxStepsExceeded(|rs|))
  {
    hide Transcript;
  }

  lemma EndsRefused(w: World, reg: Registry, prompt: seq<Message>, rs: seq<CompletionResponse>, max: nat, runId: Uuid, e: string)
    requires rs == Transcript(w, reg, prompt, |rs|) && Continues(rs) && |rs| < max && Answer(w, reg, prompt, rs) == Err(e)
    ensures Ending(w, reg, prompt, max, runId) == Err(ProviderError(e))
    ensures Transcript(w, reg, prompt, max) == rs
    ensures Prompts(w, reg, prompt, max) == Prompts(w, reg, prompt, |rs|) + [prompt + Flatten(w, reg, rs)]
  {
    OneMorePrompt(w, reg, prompt, rs);
    TranscriptStops(w, reg, prompt, |rs| + 1, max);
    hide Transcript, Prompts;
  }

  lemma EndsStopped(w: World, reg: Registry, prompt: seq<Message>, rs: seq<CompletionResponse>, r: CompletionResponse, max: nat, runId: Uuid)
    requires rs == Transcript(w, reg, prompt, |rs|) && Continues(rs) && |rs| < max && Answer(w, reg, prompt, rs) == Ok(r)
    requires !r.stopReason.ToolUse?
    ensures Transcript(w, reg, prompt, max) == rs + [r]
    ensures AllExecutions(w, reg, rs + [r]) == AllExecutions(w, reg, rs)
    ensures Prompts(w, reg, prompt, max) == Prompts(w, reg, prompt, |rs|) + [prompt + Flatten(w, reg, rs)]
    ensures Ending(w, reg, prompt, max, runId) ==
            if r.stopReason.MaxTokens? then Err(ContextWindowExceeded)
            else if w.appendFault.Some? then Err(MemoryError(w.appendFault.value))
            else Ok(AgentOutput(ContentOf(r), |rs| + 1, AllRecords(w, reg, rs), TotalUsage(rs).Add(r.usage), runId))
  {
    OneMore(w, reg, prompt, rs, r);
    OneMorePrompt(w, reg, prompt, rs);
    TranscriptStops(w, reg, prompt, |rs| + 1, max);
    NoCalls(w, reg, |rs| + 1, r);
    hide Transcript, Prompts, Flatten;
    assert AllRecords(w, reg, rs) + [] == AllRecords(w, reg, rs);
    assert AllExecutions(w, reg, rs) + [] == AllExecutions(w, reg, rs);
  }

  lemma NothingYet(w: World, reg: Registry, prompt: seq<Message>)
    ensures Transcript(w, reg, prompt, 0) == [] && Prompts(w, reg, prompt, 0) == []
    ensures prompt + Flatten(w, reg, []) == prompt && TotalUsage([]) == NO_TOKENS
    ensures AllRecords(w, reg, []) == [] && AllExecutions(w, reg, []) == []
  {
  }

  lemma NoCalls(w: World, reg: Registry, step: nat, r: CompletionResponse)
    requires !r.stopReason.ToolUse?
    ensures Records(w, reg, step, CallsActedOn(r)) == [] && Executions(w, reg, step, CallsActedOn(r)) == []
  {
  }

  lemma OneMoreCall(w: World, reg: Registry, step: nat, calls: seq<ToolCall>, i: nat)
    requires i < |calls|
    ensures var record := RecordOf(calls[i], step, Yield(w, reg, step, i, calls[i]));
            Records(w, reg, step, calls[..i + 1]) == Records(w, reg, step, calls[..i]) + [record] &&
            Observations(Records(w, reg, step, calls[..i + 1])) ==
            Observations(Records(w, reg, step, calls[..i])) + [Observation(record)]
    ensures Executions(w, reg, step, calls[..i + 1]) ==
            Executions(w, reg, step, calls[..i]) +
            if Runs(w, reg, calls[i]) then [Execution(step, i, reg[calls[i].name], calls[i].input)] else []
  {
    assert calls[..i + 1][..i] == calls[..i];
    hide Yield, Observation;
  }

  class ReasoningLoop {
    const tools: Registry
    const memory: Store.InMemoryStore

    constructor (tools: seq<Tool>, memory: Store.InMemoryStore)
      ensures this.tools == Register(tools) && this.memory == memory
    {
      var registry: Registry := map[];
      for i := 0 to |tools|
        invariant registry == Register(tools[..i])
      {
        assert tools[..i + 1][..i] == tools[..i];
        registry := registry[tools[i].name := tools[i]];
      }
      assert tools[..|tools|] == tools;
      this.tools := registry;
      this.memory := memory;
    }

    method ExecuteTool(w: World, call: ToolCall, step: nat, position: nat)
      returns (record: ToolCallRecord, ghost executed: seq<Execution>)
      ensures record == RecordOf(call, step, Yield(w, tools, step, position, call))
      ensures executed == if Runs(w, tools, call) then [Execution(step, position, tools[call.name], call.input)] else []
    {
      executed := [];
      var output, error := None, None;
      if call.name !in tools {
        error := Some("no tool named '" + call.name + "'");
      } else {
        var tool := tools[call.name];
        var violation := w.validate(tool, call.input);
        if violation.Some? {
          error := violation;
        } else {
          executed := [Execution(step, position, tool, call.input)];
          match w.execute(step, position, tool, call.input) {
            case Ok(out) => output := Some(out);
            case Err(e) => error := Some(e);
          }
        }
      }
      record := ToolCallRecord(call.name, call.input, output, error, step);
    }

    /** The calls of one response, one after the other. */
    method Act(w: World, calls: seq<ToolCall>, step: nat, messages: seq<Message>, toolsCalled: seq<ToolCallRecord>)
      returns (messages': seq<Message>, toolsCalled': seq<ToolCallRecord>, ghost executed: seq<Execution>)
      ensures toolsCalled' == toolsCalled + Records(w, tools, step, calls)
      ensures messages' == messages + Observations(Records(w, tools, step, calls))
      ensures executed == Executions(w, tools, step, calls)
    {
      messages', toolsCalled', executed := messages, toolsCalled, [];
      for i := 0 to |calls|
        invariant toolsCalled' == toolsCalled + Records(w, tools, step, calls[..i])
        invariant messages' == messages + Observations(Records(w, tools, step, calls[..i]))
        invariant executed == Executions(w, tools, step, calls[..i])
      {
        OneMoreCall(w, tools, step, calls, i);
        hide Records, Executions, Runs, Yield;
        var record;
        ghost var ran;
        record, ran := ExecuteTool(w, calls[i], step, i);
        var observation := if record.output.Some? then record.output.value
                           else "error: " + (if record.error.Some? then record.error.value else "unknown");
        messages' := messages' + [Message("tool", observation)];
        toolsCalled' := toolsCalled' + [record];
        executed := executed + ran;
      }
      assert calls[..|calls|] == calls;
    }

    method Run(w: World, input: AgentInput)
      returns (r: Result<AgentOutput, AgentError>, ghost prompts: seq<seq<Message>>, ghost executed: seq<Execution>)
      modifies memory
      ensures r == RunResult(w, tools, Store.LoadReply(old(memory.inner), input.runId), input)
      ensures memory.inner == MemoryAfter(old(memory.inner), r)
      ensures r.Err? ==> memory.inner == old(memory.inner)
      ensures r.Ok? ==>
                var before := if input.runId in old(memory.inner) then old(memory.inner)[input.runId] else ConversationHistory(input.runId, []);
                memory.inner == old(memory.inner)[input.runId :=
                  before.(messages := before.messages + [Message("assistant", r.value.content)])]
      ensures w.loadFault.Some? ==> prompts == [] && executed == []
      ensures w.loadFault.None? ==>
                var prompt := InitialPrompt(Store.LoadReply(old(memory.inner), input.runId), input);
                prompts == Prompts(w, tools, prompt, MaxSteps(input)) &&
                executed == AllExecutions(w, tools, Transcript(w, tools, prompt, MaxSteps(input)))
    {
      hide Flatten, Turn, Records, Executions, AllRecords, AllExecutions, TotalUsage, Transcript, Prompts, Ending;
      prompts, executed := [], [];
      var maxSteps := if input.maxSteps.Some? then input.maxSteps.value else 10;
      var runId := input.runId;
      if w.loadFault.Some? {
        return Err(MemoryError(w.loadFault.value)), prompts, executed;
      }
      var messages: seq<Message> := [];
      var stored := memory.Load(runId);
      if stored.Some? {
        messages := stored.value.messages;
      }
      messages := messages + [User(input.content)];
      ghost var prompt := messages;
      assert prompt == InitialPrompt(stored, input);

      var started := Idle.Start();
      if started.Err? {
        return Err(ConfigurationError("start")), prompts, executed;
      }
      var state := started.value;
      var totalTokens := NO_TOKENS;
      var toolsCalled: seq<ToolCallRecord> := [];
      ghost var rs: seq<CompletionResponse> := [];
      NothingYet(w, tools, prompt);

      while true
        invariant state == Reasoning(|rs| + 1)
        invariant |rs| <= maxSteps
        invariant rs == Transcript(w, tools, prompt, |rs|) && Continues(rs)
        invariant messages == prompt + Flatten(w, tools, rs)
        invariant toolsCalled == AllRecords(w, tools, rs)
        invariant totalTokens == TotalUsage(rs)
        invariant prompts == Prompts(w, tools, prompt, |rs|)
        invariant executed == AllExecutions(w, tools, rs)
        invariant memory.inner == old(memory.inner)
        decreases maxSteps + 1 - state.Step()
      {
        var step := state.Step();
        if step > maxSteps {
          EndsExhausted(w, tools, prompt, rs, runId);
          return Err(MaxStepsExceeded(maxSteps)), prompts, executed;
        }
        prompts := prompts + [messages];
        var completed := w.complete(step, messages);
        if completed.Err? {
          EndsRefused(w, tools, prompt, rs, maxSteps, runId, completed.error);
          return Err(ProviderError(completed.error)), prompts, executed;
        }
        var response := completed.value;
        totalTokens := totalTokens.Add(response.usage);
        if response.content.Some? {
          messages := messages + [Assistant(response.content.value)];
        }
        match response.stopReason {
          case EndTurn | StopSequence =>
            EndsStopped(w, tools, prompt, rs, response, maxSteps, runId);
            var content := if response.content.Some? then response.content.value else "";
            if w.appendFault.Some? {
              return Err(MemoryError(w.appendFault.value)), prompts, executed;
            }
            memory.Append(runId, Assistant(content));
            return Ok(AgentOutput(content, step, toolsCalled, totalTokens, runId)), prompts, executed;
          case ToolUse =>
            var calling := state.CallTool("batch");
            if calling.Err? {
              return Err(ConfigurationError("call_tool")), prompts, executed;
            }
            state := calling.value;
            ghost var ran;
            messages, toolsCalled, ran := Act(w, response.toolCalls, step, messages, toolsCalled);
            OneMoreRound(w, tools, prompt, rs, response);
            executed := executed + ran;
            var observed := state.ToolDone();
            if observed.Err? {
              return Err(ConfigurationError("tool_done")), prompts, executed;
            }
            var next := observed.value.ContinueReasoning();
            if next.Err? {
              return Err(ConfigurationError("continue_reasoning")), prompts, executed;
            }
            state := next.value;
          case MaxTokens =>
            EndsStopped(w, tools, prompt, rs, response, maxSteps, runId);
            return Err(ContextWindowExceeded), prompts, executed;
        }
        rs := rs + [response];
      }
    }
  }
}
