/** What every run of the reasoning loop satisfies, for every provider, tools and schemas. */
module LoopLaws {
  import opened Common
  import opened Conversation
  import opened Completion
  import opened ReasoningLoop
  import Providers

  // ── Responses and prompts ────────────────────────────────────────────────

  /** `rs` are the answers to consecutive calls: call k+1 gets the initial prompt
      followed by what the first k responses added, and all but the last
      response stopped to use tools. */
  predicate Conversed(w: World, reg: Registry, prompt: seq<Message>, rs: seq<CompletionResponse>) {
    forall k :: 0 <= k < |rs| ==>
      w.complete(k + 1, prompt + Flatten(w, reg, rs[..k])) == Ok(rs[k]) &&
      (k + 1 < |rs| ==> rs[k].stopReason.ToolUse?)
  }

  /** The next call, if the limit `max` allows it, is refused. */
  predicate Refused(w: World, reg: Registry, prompt: seq<Message>, max: nat, rs: seq<CompletionResponse>, e: string) {
    Continues(rs) && |rs| < max && Answer(w, reg, prompt, rs) == Err(e)
  }

  /** A transcript is complete when it ended, used up its calls, or was refused an answer. */
  predicate Complete(w: World, reg: Registry, prompt: seq<Message>, max: nat, rs: seq<CompletionResponse>) {
    Conversed(w, reg, prompt, rs) && |rs| <= max &&
    (!Continues(rs) || |rs| == max || Answer(w, reg, prompt, rs).Err?)
  }

  lemma ConversedExtends(w: World, reg: Registry, prompt: seq<Message>, rs: seq<CompletionResponse>,
                         r: CompletionResponse)
    requires Conversed(w, reg, prompt, rs) && Continues(rs) && Answer(w, reg, prompt, rs) == Ok(r)
    ensures Conversed(w, reg, prompt, rs + [r])
  {
    hide Flatten;
    var longer := rs + [r];
    forall k | 0 <= k < |longer|
      ensures w.complete(k + 1, prompt + Flatten(w, reg, longer[..k])) == Ok(longer[k])
      ensures k + 1 < |longer| ==> longer[k].stopReason.ToolUse?
    {
      if k < |rs| {
        assert longer[..k] == rs[..k];
      } else {
        assert longer[..k] == rs;
      }
    }
  }

  lemma {:induction false} TranscriptIsComplete(w: World, reg: Registry, prompt: seq<Message>, n: nat)
    ensures Complete(w, reg, prompt, n, Transcript(w, reg, prompt, n))
  {
    hide Flatten, Answer, Conversed;
    if n == 0 {
      NothingConversed(w, reg, prompt);
    } else {
      var before := Transcript(w, reg, prompt, n - 1);
      TranscriptIsComplete(w, reg, prompt, n - 1);
      if |before| == n - 1 && Continues(before) && Answer(w, reg, prompt, before).Ok? {
        ConversedExtends(w, reg, prompt, before, Answer(w, reg, prompt, before).value);
      }
    }
  }

  lemma NothingConversed(w: World, reg: Registry, prompt: seq<Message>)
    ensures Conversed(w, reg, prompt, [])
  {
  }

  lemma ConversedPrefix(w: World, reg: Registry, prompt: seq<Message>, rs: seq<CompletionResponse>, n: nat)
    requires Conversed(w, reg, prompt, rs) && n < |rs|
    ensures Conversed(w, reg, prompt, rs[..n]) && Continues(rs[..n])
    ensures Answer(w, reg, prompt, rs[..n]) == Ok(rs[n])
  {
    hide Flatten;
    forall k | 0 <= k < n
      ensures w.complete(k + 1, prompt + Flatten(w, reg, rs[..n][..k])) == Ok(rs[..n][k])
    {
      assert rs[..n][..k] == rs[..k];
    }
  }

  /** There is no other complete transcript. */
  lemma {:induction false} CompleteIsTranscript(w: World, reg: Registry, prompt: seq<Message>, n: nat,
                                                rs: seq<CompletionResponse>)
    requires Complete(w, reg, prompt, n, rs)
    ensures rs == Transcript(w, reg, prompt, n)
    decreases n
  {
    hide Flatten, Answer, Conversed;
    if n > 0 {
      if |rs| == n {
        ConversedPrefix(w, reg, prompt, rs, n - 1);
        CompleteIsTranscript(w, reg, prompt, n - 1, rs[..n - 1]);
        assert rs == rs[..n - 1] + [rs[n - 1]];
      } else {
        CompleteIsTranscript(w, reg, prompt, n - 1, rs);
      }
    }
  }

  lemma {:induction false} PromptsSoFar(w: World, reg: Registry, prompt: seq<Message>, max: nat, k: nat)
    ensures var prompts, rs := Prompts(w, reg, prompt, max), Transcript(w, reg, prompt, max);
            |prompts| == |rs| + (if Continues(rs) && |rs| < max then 1 else 0) &&
            (k < |prompts| ==> k <= |rs| && prompts[k] == prompt + Flatten(w, reg, rs[..k]))
  {
    hide Flatten, Turn;
    if max > 0 {
      var before, rs := Transcript(w, reg, prompt, max - 1), Transcript(w, reg, prompt, max);
      PromptsSoFar(w, reg, prompt, max - 1, k);
      TranscriptLength(w, reg, prompt, max - 1);
      if |before| < max - 1 && Continues(before) {
        TranscriptRefused(w, reg, prompt, max - 1);
      }
      if k <= |before| {
        assert rs[..k] == before[..k];
        if k == |before| {
          assert before[..k] == before;
        }
      }
    }
  }

  lemma FlattenStep(w: World, reg: Registry, rs: seq<CompletionResponse>, k: nat)
    requires 0 < k <= |rs|
    ensures Flatten(w, reg, rs[..k]) == Flatten(w, reg, rs[..k - 1]) + Turn(w, reg, k, rs[k - 1])
  {
    assert rs[..k][..k - 1] == rs[..k - 1];
  }

  /** The prompts of a run are those of its calls, in order: the initial prompt
      and then, each time, the previous prompt extended by one turn. There are at
      most `max` of them, one more than responses exactly when a call fails. */
  lemma PromptsOfRun(w: World, reg: Registry, prompt: seq<Message>, max: nat)
    ensures var prompts, rs := Prompts(w, reg, prompt, max), Transcript(w, reg, prompt, max);
            |prompts| <= max &&
            |prompts| == |rs| + (if Continues(rs) && |rs| < max then 1 else 0) &&
            (prompts != [] ==> prompts[0] == prompt) &&
            (forall k :: 0 <= k < |prompts| ==> k <= |rs| && prompts[k] == prompt + Flatten(w, reg, rs[..k])) &&
            (forall k :: 0 < k < |prompts| ==> prompts[k] == prompts[k - 1] + Turn(w, reg, k, rs[k - 1]))
  {
    var prompts, rs := Prompts(w, reg, prompt, max), Transcript(w, reg, prompt, max);
    hide Turn, Prompts, Transcript;
    TranscriptLength(w, reg, prompt, max);
    PromptsSoFar(w, reg, prompt, max, 0);
    assert Flatten(w, reg, rs[..0]) == [];
    hide Flatten;
    forall k | 0 <= k < |prompts|
      ensures k <= |rs| && prompts[k] == prompt + Flatten(w, reg, rs[..k])
    {
      PromptsSoFar(w, reg, prompt, max, k);
    }
    forall k | 0 < k < |prompts|
      ensures prompts[k] == prompts[k - 1] + Turn(w, reg, k, rs[k - 1])
    {
      PromptsSoFar(w, reg, prompt, max, k - 1);
      PromptsSoFar(w, reg, prompt, max, k);
      FlattenStep(w, reg, rs, k);
    }
  }

  // ── Exactly how a run ends ───────────────────────────────────────────────

  predicate Ends(r: CompletionResponse) {
    r.stopReason.EndTurn? || r.stopReason.StopSequence?
  }

  /** A run succeeds with `out` exactly when memory answers and some s responses,
      1 <= s <= max, were given to s calls, the first s-1 of them to use tools
      and the last one to end; `out` is what those responses amount to. */
  lemma SucceedsExactly(w: World, reg: Registry, stored: Option<ConversationHistory>, input: AgentInput,
                        out: AgentOutput)
    ensures RunResult(w, reg, stored, input) == Ok(out) <==>
            w.loadFault.None? && w.appendFault.None? &&
            exists rs :: Conversed(w, reg, InitialPrompt(stored, input), rs) &&
              1 <= |rs| <= MaxSteps(input) && Ends(rs[|rs| - 1]) && out == OutputOf(w, reg, rs, input.runId)
  {
    hide Flatten, Conversed, Transcript, OutputOf, Answer;
    var prompt, max := InitialPrompt(stored, input), MaxSteps(input);
    TranscriptIsComplete(w, reg, prompt, max);
    if rs :| Conversed(w, reg, prompt, rs) && 1 <= |rs| <= max && Ends(rs[|rs| - 1]) && out == OutputOf(w, reg, rs, input.runId) {
      CompleteIsTranscript(w, reg, prompt, max, rs);
    }
  }

  /** The answer of a successful run is the text of its last response, empty if
      that has none, under the run's own id; memory gets the same text. */
  lemma AnswerIsLastText(w: World, reg: Registry, stored: Option<ConversationHistory>, input: AgentInput)
    requires RunResult(w, reg, stored, input).Ok?
    ensures var rs, out := Transcript(w, reg, InitialPrompt(stored, input), MaxSteps(input)), RunResult(w, reg, stored, input).value;
            rs != [] && out.stepsTaken == |rs| && out.runId == input.runId && out.toolsCalled == AllRecords(w, reg, rs) &&
            out.content == if rs[|rs| - 1].content.Some? then rs[|rs| - 1].content.value else ""
  {
    hide Flatten, Transcript, Answer, AllRecords, TotalUsage;
  }

  /** A run without a limit of its own makes at most ten calls, and the limit it reports is ten. */
  lemma TenStepsByDefault(w: World, reg: Registry, stored: Option<ConversationHistory>, input: AgentInput, m: nat)
    requires input.maxSteps == None
    ensures |Prompts(w, reg, InitialPrompt(stored, input), MaxSteps(input))| <= 10
    ensures RunResult(w, reg, stored, input) == Err(MaxStepsExceeded(m)) ==> m == 10
  {
    hide Flatten, Transcript, Prompts, Answer, OutputOf;
    PromptsOfRun(w, reg, InitialPrompt(stored, input), MaxSteps(input));
  }

  /** The step limit is reported exactly when memory loads and as many calls as
      the limit allows were all answered with a request for tools. */
  lemma MaxStepsExactly(w: World, reg: Registry, stored: Option<ConversationHistory>, input: AgentInput, m: nat)
    ensures RunResult(w, reg, stored, input) == Err(MaxStepsExceeded(m)) <==>
            w.loadFault.None? && m == MaxSteps(input) &&
            exists rs :: Conversed(w, reg, InitialPrompt(stored, input), rs) && |rs| == m && Continues(rs)
  {
    hide Flatten, Conversed, Transcript, OutputOf, Answer;
    var prompt, max := InitialPrompt(stored, input), MaxSteps(input);
    TranscriptIsComplete(w, reg, prompt, max);
    if m == max {
      if rs :| Conversed(w, reg, prompt, rs) && |rs| == m && Continues(rs) {
        CompleteIsTranscript(w, reg, prompt, max, rs);
      }
    }
  }

  /** The error that a run reports behind the responses `rs`. */
  predicate FailsAfter(w: World, reg: Registry, prompt: seq<Message>, max: nat, rs: seq<CompletionResponse>,
                       e: AgentError) {
    match e
    case ProviderError(message) => Refused(w, reg, prompt, max, rs, message)
    case ContextWindowExceeded => rs != [] && rs[|rs| - 1].stopReason.MaxTokens?
    case MemoryError(message) => rs != [] && Ends(rs[|rs| - 1]) && w.appendFault == Some(message)
    case MaxStepsExceeded(m) => Continues(rs) && |rs| == max && m == max
    case ConfigurationError(_) => false
  }

  lemma FailsAfterTranscript(w: World, reg: Registry, prompt: seq<Message>, max: nat, runId: Uuid, e: AgentError)
    ensures Ending(w, reg, prompt, max, runId) == Err(e) <==>
            FailsAfter(w, reg, prompt, max, Transcript(w, reg, prompt, max), e)
  {
    hide Flatten, Transcript, Answer, OutputOf;
    TranscriptLength(w, reg, prompt, max);
    var rs := Transcript(w, reg, prompt, max);
    if Continues(rs) && |rs| < max {
      TranscriptRefused(w, reg, prompt, max);
    }
  }

  lemma FailingIsComplete(w: World, reg: Registry, prompt: seq<Message>, max: nat, rs: seq<CompletionResponse>,
                          e: AgentError)
    requires Conversed(w, reg, prompt, rs) && |rs| <= max && FailsAfter(w, reg, prompt, max, rs, e)
    ensures Complete(w, reg, prompt, max, rs)
  {
    hide Flatten, Answer, Conversed;
  }

  /** A run fails with an error exactly when memory cannot be loaded, or when
      the responses to its calls lead to that error: the step limit is used up
      with requests for tools, the next call is refused, the first response
      that does not use tools was cut off, or the answer cannot be stored. No
      run reports a configuration error. */
  lemma FailsExactly(w: World, reg: Registry, stored: Option<ConversationHistory>, input: AgentInput, e: AgentError)
    ensures RunResult(w, reg, stored, input) == Err(e) <==>
            if w.loadFault.Some? then e == MemoryError(w.loadFault.value)
            else exists rs :: FailsWith(w, reg, InitialPrompt(stored, input), MaxSteps(input), rs, e)
  {
    hide Conversed, FailsAfter, Ending, Transcript, Complete;
    var prompt, max := InitialPrompt(stored, input), MaxSteps(input);
    FailsAfterTranscript(w, reg, prompt, max, input.runId, e);
    CompleteBounds(w, reg, prompt, max, Transcript(w, reg, prompt, max)) by {
      TranscriptIsComplete(w, reg, prompt, max);
    }
    if RunResult(w, reg, stored, input) == Err(e) && w.loadFault.None? {
      assert FailsWith(w, reg, prompt, max, Transcript(w, reg, prompt, max), e);
    }
    if rs :| FailsWith(w, reg, prompt, max, rs, e) {
      FailingIsComplete(w, reg, prompt, max, rs, e);
      CompleteIsTranscript(w, reg, prompt, max, rs);
    }
  }

  lemma CompleteBounds(w: World, reg: Registry, prompt: seq<Message>, max: nat, rs: seq<CompletionResponse>)
    requires Complete(w, reg, prompt, max, rs)
    ensures Conversed(w, reg, prompt, rs) && |rs| <= max
  {
    hide Conversed, Answer;
  }

  predicate FailsWith(w: World, reg: Registry, prompt: seq<Message>, max: nat, rs: seq<CompletionResponse>,
                      e: AgentError) {
    Conversed(w, reg, prompt, rs) && |rs| <= max && FailsAfter(w, reg, prompt, max, rs, e)
  }

  // ── The registry and the audit trail ─────────────────────────────────────

  /** A name is bound to the last tool registered under it, and only to that. */
  lemma {:induction false} LastRegistrationWins(tools: seq<Tool>, name: string)
    ensures name in Register(tools) <==> exists i :: 0 <= i < |tools| && tools[i].name == name
    ensures name in Register(tools) ==>
              exists i :: 0 <= i < |tools| && tools[i].name == name && Register(tools)[name] == tools[i] &&
                forall j :: i < j < |tools| ==> tools[j].name != name
  {
    if tools != [] {
      var init, last := tools[..|tools| - 1], tools[|tools| - 1];
      LastRegistrationWins(init, name);
      assert tools == init + [last];
      if last.name == name {
        assert tools[|init|] == last;
      } else if name in Register(init) {
        var i :| 0 <= i < |init| && init[i].name == name && Register(init)[name] == init[i] &&
          forall j :: i < j < |init| ==> init[j].name != name;
        assert tools[i] == init[i];
      }
    }
  }

  lemma {:induction false} RecordsAt(w: World, reg: Registry, step: nat, calls: seq<ToolCall>, j: nat)
    requires j < |calls|
    ensures |Records(w, reg, step, calls)| == |calls|
    ensures Records(w, reg, step, calls)[j] == RecordOf(calls[j], step, Yield(w, reg, step, j, calls[j]))
  {
    var init := calls[..|calls| - 1];
    if j < |init| {
      RecordsAt(w, reg, step, init, j);
    } else if init != [] {
      RecordsAt(w, reg, step, init, 0);
    }
  }

  /** Where the records of response k start in the audit trail. */
  function Offset(rs: seq<CompletionResponse>, k: nat): nat
    requires k <= |rs|
  {
    if k == 0 then 0 else Offset(rs, k - 1) + |CallsActedOn(rs[k - 1])|
  }

  lemma {:induction false} OffsetPrefix(rs: seq<CompletionResponse>, n: nat, k: nat)
    requires k <= n <= |rs|
    ensures Offset(rs[..n], k) == Offset(rs, k)
  {
    if k > 0 {
      OffsetPrefix(rs, n, k - 1);
    }
  }

  /** What a record says about its call: which call at which step, and either the
      output of the tool body or the error that is due. */
  predicate Faithful(w: World, reg: Registry, step: nat, position: nat, call: ToolCall, record: ToolCallRecord) {
    record.toolName == call.name && record.input == call.input && record.step == step &&
    if call.name !in reg then
      record.output == None && record.error == Some("no tool named '" + call.name + "'")
    else if w.validate(reg[call.name], call.input).Some? then
      record.output == None && record.error == w.validate(reg[call.name], call.input)
    else
      match w.execute(step, position, reg[call.name], call.input)
      case Ok(out) => record.output == Some(out) && record.error == None
      case Err(e) => record.output == None && record.error == Some(e)
  }

  /** The audit trail is the calls of the responses that stopped to use tools, in
      order: the j-th call of response k+1 has its record, stamped k+1, at its
      place, and the record has exactly one of output and error. */
  lemma {:induction false} AuditTrail(w: World, reg: Registry, rs: seq<CompletionResponse>, k: nat, j: nat)
    requires k < |rs| && j < |CallsActedOn(rs[k])|
    ensures |AllRecords(w, reg, rs)| == Offset(rs, |rs|)
    ensures Offset(rs, k) + j < |AllRecords(w, reg, rs)|
    ensures Faithful(w, reg, k + 1, j, CallsActedOn(rs[k])[j], AllRecords(w, reg, rs)[Offset(rs, k) + j])
    decreases |rs|
  {
    hide Records, Yield, CallsActedOn, Faithful, RecordOf;
    var n := |rs| - 1;
    var init := rs[..n];
    AuditLength(w, reg, rs);
    AuditLength(w, reg, init);
    OffsetPrefix(rs, n, n);
    OffsetPrefix(rs, n, k);
    hide Offset;
    if k < n {
      AuditTrail(w, reg, init, k, j);
    } else {
      RecordsAt(w, reg, n + 1, CallsActedOn(rs[n]), j);
      RecordIsFaithful(w, reg, n + 1, j, CallsActedOn(rs[n])[j]);
    }
  }

  lemma RecordIsFaithful(w: World, reg: Registry, step: nat, position: nat, call: ToolCall)
    ensures Faithful(w, reg, step, position, call, RecordOf(call, step, Yield(w, reg, step, position, call)))
  {
  }

  lemma {:induction false} AuditLength(w: World, reg: Registry, rs: seq<CompletionResponse>)
    ensures |AllRecords(w, reg, rs)| == Offset(rs, |rs|)
  {
    if rs != [] {
      var n := |rs| - 1;
      AuditLength(w, reg, rs[..n]);
      OffsetPrefix(rs, n, n);
      if CallsActedOn(rs[n]) != [] {
        RecordsAt(w, reg, n + 1, CallsActedOn(rs[n]), 0);
      }
    }
  }

  // ── What the model is shown ──────────────────────────────────────────────

  /** What the message behind a call must be: the output of the tool body, or why there is none. */
  predicate ToolReply(w: World, reg: Registry, step: nat, position: nat, call: ToolCall, m: Message) {
    m.role == "tool" &&
    if call.name !in reg then m.content == "error: no tool named '" + call.name + "'"
    else
      match w.validate(reg[call.name], call.input)
      case Some(violation) => m.content == "error: " + violation
      case None =>
        match w.execute(step, position, reg[call.name], call.input)
        case Ok(out) => m.content == out
        case Err(e) => m.content == "error: " + e
  }

  /** Whether a response carries text. */
  function Texts(r: CompletionResponse): nat {
    if r.content.Some? then 1 else 0
  }

  /** How many messages the first k responses add to the prompt: their texts, and
      one message for each call of those that stopped to use tools. */
  function Added(rs: seq<CompletionResponse>, k: nat): nat
    requires k <= |rs|
  {
    if k == 0 then 0
    else
      var r := rs[k - 1];
      Added(rs, k - 1) + Texts(r) + if r.stopReason.ToolUse? then |r.toolCalls| else 0
  }

  /** From position `at` on, the messages are the text of the response and a reply to each of its calls. */
  predicate ShowsTurn(w: World, reg: Registry, step: nat, r: CompletionResponse, messages: seq<Message>, at: nat) {
    at + Texts(r) + (if r.stopReason.ToolUse? then |r.toolCalls| else 0) <= |messages| &&
    (r.content.Some? ==> messages[at] == Message("assistant", r.content.value)) &&
    (r.stopReason.ToolUse? ==>
      forall j :: 0 <= j < |r.toolCalls| ==> ToolReply(w, reg, step, j, r.toolCalls[j], messages[at + Texts(r) + j]))
  }

  /** The messages are the prompt and then one turn for each response. */
  predicate Shows(w: World, reg: Registry, prompt: seq<Message>, rs: seq<CompletionResponse>, messages: seq<Message>) {
    prompt <= messages && |messages| == |prompt| + Added(rs, |rs|) &&
    forall k :: 0 <= k < |rs| ==> ShowsTurn(w, reg, k + 1, rs[k], messages, |prompt| + Added(rs, k))
  }

  lemma {:induction false} AddedGrows(rs: seq<CompletionResponse>, n: nat, k: nat)
    requires k <= n <= |rs|
    ensures Added(rs[..n], k) == Added(rs, k) <= Added(rs, n)
    decreases n, k
  {
    if k > 0 {
      AddedGrows(rs, n, k - 1);
    }
    if k < n {
      AddedGrows(rs, n - 1, k);
    }
  }

  lemma {:induction false} RepliesShown(w: World, reg: Registry, step: nat, calls: seq<ToolCall>)
    ensures var observed := Observations(Records(w, reg, step, calls));
            |observed| == |calls| && forall j :: 0 <= j < |calls| ==> ToolReply(w, reg, step, j, calls[j], observed[j])
  {
    if calls != [] {
      RecordsAt(w, reg, step, calls, 0);
    }
    forall j | 0 <= j < |calls|
      ensures |Observations(Records(w, reg, step, calls))| == |calls|
      ensures ToolReply(w, reg, step, j, calls[j], Observations(Records(w, reg, step, calls))[j])
    {
      RecordsAt(w, reg, step, calls, j);
      ReplyShown(w, reg, step, j, calls[j]);
    }
  }

  lemma ReplyShown(w: World, reg: Registry, step: nat, position: nat, call: ToolCall)
    ensures ToolReply(w, reg, step, position, call, Observation(RecordOf(call, step, Yield(w, reg, step, position, call))))
  {
  }

  lemma TurnShown(w: World, reg: Registry, step: nat, r: CompletionResponse, before: seq<Message>)
    ensures |Turn(w, reg, step, r)| == Texts(r) + if r.stopReason.ToolUse? then |r.toolCalls| else 0
    ensures ShowsTurn(w, reg, step, r, before + Turn(w, reg, step, r), |before|)
  {
    hide Records, ToolReply, Observations;
    RepliesShown(w, reg, step, CallsActedOn(r));
  }

  lemma TurnStaysShown(w: World, reg: Registry, step: nat, r: CompletionResponse, messages: seq<Message>, at: nat, more: seq<Message>)
    requires ShowsTurn(w, reg, step, r, messages, at)
    ensures ShowsTurn(w, reg, step, r, messages + more, at)
  {
    hide ToolReply;
  }

  lemma AddedStep(rs: seq<CompletionResponse>, k: nat)
    requires k < |rs|
    ensures Added(rs, k + 1) == Added(rs, k) + Texts(rs[k]) + if rs[k].stopReason.ToolUse? then |rs[k].toolCalls| else 0
  {
  }

  lemma ShowsMore(w: World, reg: Registry, prompt: seq<Message>, rs: seq<CompletionResponse>, n: nat,
                  before: seq<Message>, turn: seq<Message>)
    requires |rs| == n + 1 && Shows(w, reg, prompt, rs[..n], before)
    requires ShowsTurn(w, reg, n + 1, rs[n], before + turn, |before|)
    requires |turn| == Texts(rs[n]) + if rs[n].stopReason.ToolUse? then |rs[n].toolCalls| else 0
    ensures Shows(w, reg, prompt, rs, before + turn)
  {
    hide ShowsTurn, Texts, Added;
    AddedGrows(rs, n, n);
    AddedStep(rs, n);
    forall k | 0 <= k < |rs|
      ensures ShowsTurn(w, reg, k + 1, rs[k], before + turn, |prompt| + Added(rs, k))
    {
      if k < n {
        AddedGrows(rs, n, k);
        TurnStaysShown(w, reg, k + 1, rs[..n][k], before, |prompt| + Added(rs, k), turn);
      }
    }
  }

  /** What the model is shown behind any responses: the prompt, then for each
      response its text and, call by call at the place of the call, the output
      of the tool or `error: ` and the reason why there is none. */
  lemma {:induction false} ResponsesShown(w: World, reg: Registry, prompt: seq<Message>, rs: seq<CompletionResponse>)
    ensures Shows(w, reg, prompt, rs, prompt + Flatten(w, reg, rs))
  {
    hide Shows, ShowsTurn, Turn, Texts;
    if rs == [] {
      NothingShown(w, reg, prompt);
    } else {
      var n := |rs| - 1;
      var before, turn := prompt + Flatten(w, reg, rs[..n]), Turn(w, reg, n + 1, rs[n]);
      ResponsesShown(w, reg, prompt, rs[..n]);
      TurnShown(w, reg, n + 1, rs[n], before);
      ShowsMore(w, reg, prompt, rs, n, before, turn);
      assert prompt + (Flatten(w, reg, rs[..n]) + turn) == before + turn;
    }
  }

  lemma NothingShown(w: World, reg: Registry, prompt: seq<Message>)
    ensures Shows(w, reg, prompt, [], prompt + Flatten(w, reg, []))
  {
  }

  lemma TurnInPrefix(w: World, reg: Registry, step: nat, r: CompletionResponse, messages: seq<Message>, at: nat, n: nat)
    requires ShowsTurn(w, reg, step, r, messages, at)
    requires at + Texts(r) + (if r.stopReason.ToolUse? then |r.toolCalls| else 0) <= n <= |messages|
    ensures ShowsTurn(w, reg, step, r, messages[..n], at)
  {
    hide ToolReply;
  }

  lemma StartStays(prompt: seq<Message>, messages: seq<Message>, n: nat)
    requires prompt <= messages && |prompt| <= n <= |messages|
    ensures prompt <= messages[..n]
  {
  }

  lemma ShownPrefix(w: World, reg: Registry, prompt: seq<Message>, rs: seq<CompletionResponse>, messages: seq<Message>, n: nat)
    requires n < |rs| && Shows(w, reg, prompt, rs, messages)
    ensures |prompt| + Added(rs, n) <= |messages|
    ensures Shows(w, reg, prompt, rs[..n], messages[..|prompt| + Added(rs, n)])
  {
    hide ToolReply, Texts, ShowsTurn, Added;
    var size := |prompt| + Added(rs, n);
    AddedGrows(rs, |rs|, |rs|);
    AddedGrows(rs, |rs|, n);
    assert rs[..|rs|] == rs;
    AddedGrows(rs, n, n);
    StartStays(prompt, messages, size);
    forall k | 0 <= k < n
      ensures ShowsTurn(w, reg, k + 1, rs[..n][k], messages[..size], |prompt| + Added(rs[..n], k))
    {
      AddedGrows(rs, n, k);
      AddedGrows(rs, n, k + 1);
      AddedStep(rs, k);
      TurnInPrefix(w, reg, k + 1, rs[k], messages, |prompt| + Added(rs, k), size);
    }
  }

  lemma TurnDetermined(w: World, reg: Registry, step: nat, r: CompletionResponse, m1: seq<Message>, m2: seq<Message>, at: nat)
    requires ShowsTurn(w, reg, step, r, m1, at) && ShowsTurn(w, reg, step, r, m2, at)
    requires |m1| == |m2| == at + Texts(r) + if r.stopReason.ToolUse? then |r.toolCalls| else 0
    ensures m1[at..] == m2[at..]
  {
    forall i | at <= i < |m1|
      ensures m1[i] == m2[i]
    {
      if i >= at + Texts(r) {
        var j := i - at - Texts(r);
        assert ToolReply(w, reg, step, j, r.toolCalls[j], m1[at + Texts(r) + j]);
        assert ToolReply(w, reg, step, j, r.toolCalls[j], m2[at + Texts(r) + j]);
      }
    }
  }

  lemma LastTurnShown(w: World, reg: Registry, prompt: seq<Message>, rs: seq<CompletionResponse>, messages: seq<Message>)
    requires rs != [] && Shows(w, reg, prompt, rs, messages)
    ensures var n := |rs| - 1;
            var at := |prompt| + Added(rs, n);
            ShowsTurn(w, reg, n + 1, rs[n], messages, at) &&
            |messages| == at + Texts(rs[n]) + if rs[n].stopReason.ToolUse? then |rs[n].toolCalls| else 0
  {
    hide ShowsTurn, Texts, Added;
    AddedStep(rs, |rs| - 1);
  }

  /** Nothing else is shown: the responses determine every message. */
  lemma {:induction false} ShownOnce(w: World, reg: Registry, prompt: seq<Message>, rs: seq<CompletionResponse>,
                                     m1: seq<Message>, m2: seq<Message>)
    requires Shows(w, reg, prompt, rs, m1) && Shows(w, reg, prompt, rs, m2)
    ensures m1 == m2
  {
    hide Shows, ShowsTurn, Added, Texts;
    if rs == [] {
      OnlyPromptShown(w, reg, prompt, m1);
      OnlyPromptShown(w, reg, prompt, m2);
    } else {
      var n := |rs| - 1;
      var at := |prompt| + Added(rs, n);
      LastTurnShown(w, reg, prompt, rs, m1);
      LastTurnShown(w, reg, prompt, rs, m2);
      ShownPrefix(w, reg, prompt, rs, m1, n);
      ShownPrefix(w, reg, prompt, rs, m2, n);
      ShownOnce(w, reg, prompt, rs[..n], m1[..at], m2[..at]);
      TurnDetermined(w, reg, n + 1, rs[n], m1, m2, at);
      assert m1 == m1[..at] + m1[at..] && m2 == m2[..at] + m2[at..];
    }
  }

  lemma OnlyPromptShown(w: World, reg: Registry, prompt: seq<Message>, messages: seq<Message>)
    requires Shows(w, reg, prompt, [], messages)
    ensures messages == prompt
  {
  }

  /** Each prompt of a run shows exactly the responses so far. */
  lemma PromptsShown(w: World, reg: Registry, prompt: seq<Message>, max: nat, p: nat)
    requires p < |Prompts(w, reg, prompt, max)|
    ensures var rs := Transcript(w, reg, prompt, max);
            p <= |rs| && Shows(w, reg, prompt, rs[..p], Prompts(w, reg, prompt, max)[p])
  {
    hide Prompts, Transcript, Flatten, Shows;
    PromptsOfRun(w, reg, prompt, max);
    ResponsesShown(w, reg, prompt, Transcript(w, reg, prompt, max)[..p]);
  }

  /** The first prompt: what memory holds, and the user's words. */
  lemma FirstPrompt(stored: Option<ConversationHistory>, input: AgentInput)
    ensures stored.None? ==> InitialPrompt(stored, input) == [Message("user", input.content)]
    ensures stored.Some? ==> InitialPrompt(stored, input) == stored.value.messages + [Message("user", input.content)]
  {
  }

  function ToolMessages(messages: seq<Message>): seq<Message> {
    if messages == [] then []
    else
      var init, last := ToolMessages(messages[..|messages| - 1]), messages[|messages| - 1];
      if last.role == "tool" then init + [last] else init
  }

  lemma {:induction false} ToolMessagesJoin(a: seq<Message>, b: seq<Message>)
    ensures ToolMessages(a + b) == ToolMessages(a) + ToolMessages(b)
  {
    if b == [] {
      assert a + b == a;
    } else {
      ToolMessagesJoin(a, b[..|b| - 1]);
      assert (a + b)[..|a + b| - 1] == a + b[..|b| - 1];
    }
  }

  lemma {:induction false} ToolMessagesAll(messages: seq<Message>)
    requires forall m :: m in messages ==> m.role == "tool"
    ensures ToolMessages(messages) == messages
  {
    if messages != [] {
      ToolMessagesAll(messages[..|messages| - 1]);
      assert messages[|messages| - 1] in messages;
    }
  }

  /** The tool messages that a run adds to its prompt are, one for one and in
      order, the observations of its audit trail. */
  lemma {:induction false} ObservationsMatchTrail(w: World, reg: Registry, rs: seq<CompletionResponse>)
    ensures var shown, trail := ToolMessages(Flatten(w, reg, rs)), AllRecords(w, reg, rs);
            shown == Observations(trail) && |shown| == |trail| &&
            forall i :: 0 <= i < |trail| ==>
              (trail[i].output.Some? ==> shown[i] == Message("tool", trail[i].output.value)) &&
              (trail[i].output.None? && trail[i].error.Some? ==> shown[i] == Message("tool", "error: " + trail[i].error.value))
  {
    if rs != [] {
      var n := |rs| - 1;
      ObservationsMatchTrail(w, reg, rs[..n]);
      TurnObservations(w, reg, n + 1, rs[n]);
      hide Turn, Records, ToolMessages, CallsActedOn;
      ToolMessagesJoin(Flatten(w, reg, rs[..n]), Turn(w, reg, n + 1, rs[n]));
      ObservationsJoin(AllRecords(w, reg, rs[..n]), Records(w, reg, n + 1, CallsActedOn(rs[n])));
    }
  }

  lemma ObservationsJoin(a: seq<ToolCallRecord>, b: seq<ToolCallRecord>)
    ensures Observations(a + b) == Observations(a) + Observations(b)
  {
    hide Observation;
  }

  lemma TurnObservations(w: World, reg: Registry, step: nat, r: CompletionResponse)
    ensures ToolMessages(Turn(w, reg, step, r)) == Observations(Records(w, reg, step, CallsActedOn(r)))
  {
    hide Records;
    var spoken := if r.content.Some? then [Assistant(r.content.value)] else [];
    var observed := Observations(Records(w, reg, step, CallsActedOn(r)));
    ToolMessagesJoin(spoken, observed);
    ToolMessagesAll(observed);
    assert ToolMessages(spoken) == [];
    assert [] + observed == observed;
  }

  lemma {:induction false} ExecutionsAt(w: World, reg: Registry, step: nat, calls: seq<ToolCall>, e: Execution)
    ensures e in Executions(w, reg, step, calls) <==>
            e.step == step && e.position < |calls| && Runs(w, reg, calls[e.position]) &&
            e.tool == reg[calls[e.position].name] && e.input == calls[e.position].input
  {
    if calls != [] {
      ExecutionsAt(w, reg, step, calls[..|calls| - 1], e);
    }
  }

  /** A tool body ran exactly for the calls acted on whose name is registered and
      whose input satisfies the schema of the registered tool. */
  lemma {:induction false} RanExactly(w: World, reg: Registry, rs: seq<CompletionResponse>, e: Execution)
    ensures e in AllExecutions(w, reg, rs) <==>
            1 <= e.step <= |rs| &&
            var calls := CallsActedOn(rs[e.step - 1]);
            e.position < |calls| && calls[e.position].name in reg &&
            w.validate(reg[calls[e.position].name], calls[e.position].input) == None &&
            e.tool == reg[calls[e.position].name] && e.input == calls[e.position].input
  {
    if rs != [] {
      RanExactly(w, reg, rs[..|rs| - 1], e);
      ExecutionsAt(w, reg, |rs|, CallsActedOn(rs[|rs| - 1]), e);
    }
  }

  /** Earlier step, or the same step and an earlier call of its response. */
  predicate Earlier(a: Execution, b: Execution) {
    a.step < b.step || (a.step == b.step && a.position < b.position)
  }

  predicate InOrder(es: seq<Execution>) {
    forall i, j :: 0 <= i < j < |es| ==> Earlier(es[i], es[j])
  }

  lemma InOrderJoin(a: seq<Execution>, b: seq<Execution>)
    requires InOrder(a) && InOrder(b) && forall x, y :: x in a && y in b ==> Earlier(x, y)
    ensures InOrder(a + b)
  {
    hide Earlier;
  }

  lemma {:induction false} StepRanInOrder(w: World, reg: Registry, step: nat, calls: seq<ToolCall>)
    ensures InOrder(Executions(w, reg, step, calls))
  {
    if calls != [] {
      var n := |calls| - 1;
      var before, last := Executions(w, reg, step, calls[..n]), Executions(w, reg, step, calls)[|Executions(w, reg, step, calls[..n])|..];
      StepRanInOrder(w, reg, step, calls[..n]);
      forall x | x in before
        ensures x.step == step && x.position < n
      {
        ExecutionsAt(w, reg, step, calls[..n], x);
      }
      InOrderJoin(before, last);
    }
  }

  /** Tool bodies ran in the order of the responses and, within one, of its calls;
      with `RanExactly`: exactly once for each call that qualifies. */
  lemma {:induction false} RanInOrder(w: World, reg: Registry, rs: seq<CompletionResponse>)
    ensures InOrder(AllExecutions(w, reg, rs))
  {
    if rs != [] {
      var before, last := AllExecutions(w, reg, rs[..|rs| - 1]), Executions(w, reg, |rs|, CallsActedOn(rs[|rs| - 1]));
      RanInOrder(w, reg, rs[..|rs| - 1]);
      StepRanInOrder(w, reg, |rs|, CallsActedOn(rs[|rs| - 1]));
      forall x | x in before
        ensures x.step < |rs|
      {
        RanExactly(w, reg, rs[..|rs| - 1], x);
      }
      forall y | y in last
        ensures y.step == |rs|
      {
        ExecutionsAt(w, reg, |rs|, CallsActedOn(rs[|rs| - 1]), y);
      }
      InOrderJoin(before, last);
    }
  }

  // ── Calls that were not asked for ────────────────────────────────────────

  /** A response without the tool calls that it did not stop for. */
  function Strip(r: CompletionResponse): CompletionResponse {
    if r.stopReason.ToolUse? then r else r.(toolCalls := [])
  }

  function StripAll(rs: seq<CompletionResponse>): seq<CompletionResponse> {
    seq(|rs|, i requires 0 <= i < |rs| => Strip(rs[i]))
  }

  function StripReply(reply: Result<CompletionResponse, string>): Result<CompletionResponse, string> {
    match reply
    case Ok(r) => Ok(Strip(r))
    case Err(e) => Err(e)
  }

  /** The same world with a provider whose responses carry no such calls. */
  function Stripped(w: World): World {
    w.(complete := (k: nat, messages: seq<Message>) => StripReply(w.complete(k, messages)))
  }

  lemma {:induction false} StrippedRecords(w: World, reg: Registry, step: nat, calls: seq<ToolCall>)
    ensures Records(Stripped(w), reg, step, calls) == Records(w, reg, step, calls)
  {
    if calls != [] {
      StrippedRecords(w, reg, step, calls[..|calls| - 1]);
    }
  }

  lemma {:induction false} StrippedViews(w: World, reg: Registry, rs: seq<CompletionResponse>)
    ensures Flatten(Stripped(w), reg, StripAll(rs)) == Flatten(w, reg, rs)
    ensures AllRecords(Stripped(w), reg, StripAll(rs)) == AllRecords(w, reg, rs)
    ensures TotalUsage(StripAll(rs)) == TotalUsage(rs)
  {
    hide Records, Stripped, Observations;
    if rs != [] {
      var n := |rs| - 1;
      StrippedViews(w, reg, rs[..n]);
      assert StripAll(rs)[..n] == StripAll(rs[..n]);
      StrippedRecords(w, reg, n + 1, CallsActedOn(rs[n]));
    }
  }

  lemma StrippedAnswer(w: World, reg: Registry, prompt: seq<Message>, rs: seq<CompletionResponse>)
    ensures Answer(Stripped(w), reg, prompt, StripAll(rs)) == StripReply(Answer(w, reg, prompt, rs))
    ensures Continues(StripAll(rs)) <==> Continues(rs)
  {
    StrippedViews(w, reg, rs);
    hide Flatten, AllRecords, TotalUsage;
  }

  lemma StripAllMore(rs: seq<CompletionResponse>, r: CompletionResponse)
    ensures StripAll(rs + [r]) == StripAll(rs) + [Strip(r)]
  {
    hide Strip;
  }

  lemma {:induction false} StrippedTranscript(w: World, reg: Registry, prompt: seq<Message>, n: nat)
    ensures Transcript(Stripped(w), reg, prompt, n) == StripAll(Transcript(w, reg, prompt, n))
  {
    hide Answer, Stripped, Strip, Continues;
    if n > 0 {
      var rs := Transcript(w, reg, prompt, n - 1);
      StrippedTranscript(w, reg, prompt, n - 1);
      StrippedAnswer(w, reg, prompt, rs);
      if Answer(w, reg, prompt, rs).Ok? {
        StripAllMore(rs, Answer(w, reg, prompt, rs).value);
      }
    }
  }

  /** Tool calls of a response that did not stop to use tools are dropped: no
      run result depends on them. */
  lemma UnrequestedCallsAreDropped(w: World, reg: Registry, stored: Option<ConversationHistory>, input: AgentInput)
    ensures RunResult(Stripped(w), reg, stored, input) == RunResult(w, reg, stored, input)
  {
    hide Transcript, Flatten, AllRecords, TotalUsage, Answer;
    var prompt, max := InitialPrompt(stored, input), MaxSteps(input);
    var rs := Transcript(w, reg, prompt, max);
    StrippedTranscript(w, reg, prompt, max);
    StrippedViews(w, reg, rs);
    StrippedAnswer(w, reg, prompt, rs);
    TranscriptLength(w, reg, prompt, max);
    if Continues(rs) && |rs| < max {
      TranscriptRefused(w, reg, prompt, max);
    }
  }

  /** The loop acts on a provider's tool calls exactly when the reply carries
      that provider's own marker for tool use, and any other reply drops them
      all; it gives up exactly on that provider's own marker for a cut-off reply. */
  lemma ProviderCallsActedOn(openAi: Providers.OpenAiReply, parse: string -> Option<Json>,
                             cohere: Providers.CohereReply, anthropic: string)
    ensures Providers.AnthropicStop(anthropic).ToolUse? <==> anthropic == "tool_use"
    ensures Providers.AnthropicStop(anthropic).MaxTokens? <==> anthropic == "max_tokens"
    ensures Providers.MapCohere(cohere).stopReason.MaxTokens? <==> cohere.finishReason == "MAX_TOKENS"
    ensures Providers.MapOpenAi(openAi, parse).stopReason.MaxTokens? <==>
            openAi.choices != [] && openAi.choices[0].finishReason == "length"
    ensures CallsActedOn(Providers.MapCohere(cohere)) == if cohere.finishReason == "TOOL_CALL" then cohere.toolCalls else []
    ensures var calls := CallsActedOn(Providers.MapOpenAi(openAi, parse));
            if openAi.choices != [] && openAi.choices[0].finishReason == "tool_calls" then
              |calls| == |openAi.choices[0].toolCalls| &&
              forall i :: 0 <= i < |calls| ==>
                var asked := openAi.choices[0].toolCalls[i];
                calls[i].id == asked.id && calls[i].name == asked.name &&
                (parse(asked.arguments).None? ==> calls[i].input == Null)
            else calls == []
  {
  }

  // ── Tokens ───────────────────────────────────────────────────────────────

  function Sum(counts: seq<int>): int {
    if counts == [] then 0 else Sum(counts[..|counts| - 1]) + counts[|counts| - 1]
  }

  /** One counter of every response. */
  function Counts(rs: seq<CompletionResponse>, counter: TokenUsage -> int): seq<int> {
    seq(|rs|, i requires 0 <= i < |rs| => counter(rs[i].usage))
  }

  lemma {:induction false} TotalsAreSums(rs: seq<CompletionResponse>)
    ensures TotalUsage(rs).input == Sum(Counts(rs, (u: TokenUsage) => u.input))
    ensures TotalUsage(rs).output == Sum(Counts(rs, (u: TokenUsage) => u.output))
    ensures TotalUsage(rs).total == Sum(Counts(rs, (u: TokenUsage) => u.total))
  {
    if rs != [] {
      var n := |rs| - 1;
      TotalsAreSums(rs[..n]);
      assert Counts(rs, (u: TokenUsage) => u.input)[..n] == Counts(rs[..n], (u: TokenUsage) => u.input);
      assert Counts(rs, (u: TokenUsage) => u.output)[..n] == Counts(rs[..n], (u: TokenUsage) => u.output);
      assert Counts(rs, (u: TokenUsage) => u.total)[..n] == Counts(rs[..n], (u: TokenUsage) => u.total);
    }
  }

  lemma {:induction false} TotalsConsistent(rs: seq<CompletionResponse>)
    requires forall r :: r in rs ==> r.usage.Consistent()
    ensures TotalUsage(rs).Consistent()
  {
    if rs != [] {
      assert rs[|rs| - 1] in rs;
      TotalsConsistent(rs[..|rs| - 1]);
    }
  }

  predicate AllConsistent(rs: seq<CompletionResponse>) {
    forall r :: r in rs ==> r.usage.Consistent()
  }

  /** Token conservation, for every provider: a successful run reports the
      component-wise sum of the usages of exactly `steps_taken` responses, and when
      each of them adds up, so does the sum. */
  lemma TokensConserved(w: World, reg: Registry, stored: Option<ConversationHistory>, input: AgentInput)
    requires RunResult(w, reg, stored, input).Ok?
    ensures var out := RunResult(w, reg, stored, input).value;
            var rs := Transcript(w, reg, InitialPrompt(stored, input), MaxSteps(input));
            out.stepsTaken == |rs| && (AllConsistent(rs) ==> out.totalTokens.Consistent()) &&
            out.totalTokens.input == Sum(Counts(rs, (u: TokenUsage) => u.input)) &&
            out.totalTokens.output == Sum(Counts(rs, (u: TokenUsage) => u.output)) &&
            out.totalTokens.total == Sum(Counts(rs, (u: TokenUsage) => u.total))
  {
    hide Flatten, Transcript, AllRecords, Answer, TotalUsage;
    var rs := Transcript(w, reg, InitialPrompt(stored, input), MaxSteps(input));
    if AllConsistent(rs) {
      TotalsConsistent(rs);
    }
    TotalsAreSums(rs);
  }

  lemma TranscriptAnswered(w: World, reg: Registry, prompt: seq<Message>, max: nat, r: CompletionResponse)
    requires r in Transcript(w, reg, prompt, max)
    ensures exists k, messages :: w.complete(k, messages) == Ok(r)
  {
    hide Flatten, Transcript, Answer;
    TranscriptIsComplete(w, reg, prompt, max);
    var rs := Transcript(w, reg, prompt, max);
    var k :| 0 <= k < |rs| && rs[k] == r;
    assert w.complete(k + 1, prompt + Flatten(w, reg, rs[..k])) == Ok(r);
  }

  /** Every completion of this world comes out of a provider mapping whose counters add up within a u32. */
  ghost predicate FromProviders(w: World) {
    forall k, messages :: w.complete(k, messages).Ok? ==>
      exists reply :: Providers.CountedTokens(reply) < U32_LIMIT &&
        w.complete(k, messages).value.usage == Providers.MappedUsage(reply)
  }

  /** End to end, whatever providers answer: the total of a successful run is its input plus its output. */
  lemma ProviderTokensConserved(w: World, reg: Registry, stored: Option<ConversationHistory>, input: AgentInput)
    requires RunResult(w, reg, stored, input).Ok? && FromProviders(w)
    ensures RunResult(w, reg, stored, input).value.totalTokens.Consistent()
  {
    hide RunResult, Transcript;
    var rs := Transcript(w, reg, InitialPrompt(stored, input), MaxSteps(input));
    forall r | r in rs
      ensures r.usage.Consistent()
    {
      TranscriptAnswered(w, reg, InitialPrompt(stored, input), MaxSteps(input), r);
      var k, messages :| w.complete(k, messages) == Ok(r);
      assert w.complete(k, messages).Ok?;
      var reply :| Providers.CountedTokens(reply) < U32_LIMIT && r.usage == Providers.MappedUsage(reply);
      Providers.TotalConsistentExactly(reply);
    }
    TokensConserved(w, reg, stored, input);
  }

  /** A counter of every reply. */
  function ReplyCounts(replies: seq<Providers.ProviderReply>, counter: Providers.ProviderReply -> int): seq<int> {
    seq(|replies|, i requires 0 <= i < |replies| => counter(replies[i]))
  }

  /** End to end: a successful run whose responses are mapped from these replies
      reports the sums of the replies' own input and output counters. */
  lemma RunCountsReplies(w: World, reg: Registry, stored: Option<ConversationHistory>, input: AgentInput,
                         replies: seq<Providers.ProviderReply>, parse: string -> Option<Json>)
    requires RunResult(w, reg, stored, input).Ok?
    requires var rs := Transcript(w, reg, InitialPrompt(stored, input), MaxSteps(input));
             |replies| == |rs| && forall k :: 0 <= k < |rs| ==> rs[k] == Providers.Mapped(replies[k], parse)
    ensures var tokens := RunResult(w, reg, stored, input).value.totalTokens;
            tokens.input == Sum(ReplyCounts(replies, r => Providers.InputTokens(r))) &&
            tokens.output == Sum(ReplyCounts(replies, r => Providers.OutputTokens(r)))
  {
    hide RunResult, Transcript, Providers.Mapped, Sum;
    var rs := Transcript(w, reg, InitialPrompt(stored, input), MaxSteps(input));
    TokensConserved(w, reg, stored, input);
    forall k | 0 <= k < |rs|
      ensures rs[k].usage.input == Providers.InputTokens(replies[k]) && rs[k].usage.output == Providers.OutputTokens(replies[k])
    {
      Providers.CountersKept(replies[k], parse);
    }
    assert Counts(rs, (u: TokenUsage) => u.input) == ReplyCounts(replies, r => Providers.InputTokens(r));
    assert Counts(rs, (u: TokenUsage) => u.output) == ReplyCounts(replies, r => Providers.OutputTokens(r));
  }
}
