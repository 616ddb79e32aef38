/** How provider replies become completions: `map_response` of
    crates/roos-providers/src/anthropic.rs, openai.rs and cohere.rs. */
module Providers {
  import opened Common
  import opened Completion

  /** The sum of two u32 values. */
  function WrappingSum(a: U32, b: U32): U32 {
    (a + b) % U32_LIMIT
  }

  function Usage(input: U32, output: U32): TokenUsage {
    TokenUsage(input, output, WrappingSum(input, output))
  }

  function Concat(parts: seq<string>): string {
    if parts == [] then "" else Concat(parts[..|parts| - 1]) + parts[|parts| - 1]
  }

  /** Joining keeps every part and their order. */
  lemma {:induction false} ConcatJoins(a: seq<string>, b: seq<string>)
    ensures Concat(a + b) == Concat(a) + Concat(b)
  {
    if b == [] {
      assert a + b == a;
    } else {
      ConcatJoins(a, b[..|b| - 1]);
      assert (a + b)[..|a + b| - 1] == a + b[..|b| - 1];
    }
  }

  /** What one part, and none, contributes; with `ConcatJoins` this is the text of any list of parts. */
  lemma ConcatOfOne(part: string)
    ensures Concat([]) == "" && Concat([part]) == part
  {
    assert [part][..0] == [];
    assert "" + part == part;
  }

  // ── Anthropic ────────────────────────────────────────────────────────────

  datatype Block = Text(text: string) | Use(id: string, name: string, input: Json)

  datatype AnthropicReply = AnthropicReply(content: seq<Block>, model: string, stopReason: string, inputTokens: U32, outputTokens: U32)

  function TextsOf(blocks: seq<Block>): seq<string> {
    if blocks == [] then []
    else
      var init, last := TextsOf(blocks[..|blocks| - 1]), blocks[|blocks| - 1];
      if last.Text? then init + [last.text] else init
  }

  function CallsOf(blocks: seq<Block>): seq<ToolCall> {
    if blocks == [] then []
    else
      var init, last := CallsOf(blocks[..|blocks| - 1]), blocks[|blocks| - 1];
      if last.Use? then init + [ToolCall(last.id, last.name, last.input)] else init
  }

  function AnthropicStop(reason: string): StopReason {
    match reason
    case "tool_use" => ToolUse
    case "max_tokens" => MaxTokens
    case "stop_sequence" => StopSequence
    case _ => EndTurn
  }

  function AnthropicCompletion(api: AnthropicReply): CompletionResponse {
    var texts := TextsOf(api.content);
    CompletionResponse(if texts == [] then None else Some(Concat(texts)), CallsOf(api.content),
                       Usage(api.inputTokens, api.outputTokens), api.model, AnthropicStop(api.stopReason))
  }

  method MapAnthropic(api: AnthropicReply) returns (r: CompletionResponse)
    ensures r == AnthropicCompletion(api)
    ensures r.content == if TextsOf(api.content) == [] then None else Some(Concat(TextsOf(api.content)))
    ensures r.toolCalls == CallsOf(api.content) && r.model == api.model
    ensures r.usage.input == api.inputTokens && r.usage.output == api.outputTokens
    ensures r.usage.total == (api.inputTokens + api.outputTokens) % 0x1_0000_0000
    ensures r.stopReason == if api.stopReason == "tool_use" then ToolUse
                            else if api.stopReason == "max_tokens" then MaxTokens
                            else if api.stopReason == "stop_sequence" then StopSequence
                            else EndTurn
  {
    var textParts: seq<string> := [];
    var toolCalls: seq<ToolCall> := [];
    for i := 0 to |api.content|
      invariant textParts == TextsOf(api.content[..i])
      invariant toolCalls == CallsOf(api.content[..i])
    {
      assert api.content[..i + 1][..i] == api.content[..i];
      match api.content[i] {
        case Text(text) => textParts := textParts + [text];
        case Use(id, name, input) => toolCalls := toolCalls + [ToolCall(id, name, input)];
      }
    }
    assert api.content[..|api.content|] == api.content;
    var content := if textParts == [] then None else Some(Concat(textParts));
    r := CompletionResponse(content, toolCalls, Usage(api.inputTokens, api.outputTokens), api.model,
                            AnthropicStop(api.stopReason));
  }

  /** The blocks are split without loss: each is either the next text part or the next tool call. */
  lemma {:induction false} BlocksPartition(blocks: seq<Block>, k: nat)
    requires k < |blocks|
    ensures |TextsOf(blocks)| + |CallsOf(blocks)| == |blocks|
    ensures var before := blocks[..k];
            match blocks[k]
            case Text(text) =>
              |TextsOf(before)| < |TextsOf(blocks)| && TextsOf(blocks)[|TextsOf(before)|] == text
            case Use(id, name, input) =>
              |CallsOf(before)| < |CallsOf(blocks)| && CallsOf(blocks)[|CallsOf(before)|] == ToolCall(id, name, input)
  {
    var init := blocks[..|blocks| - 1];
    if k < |init| {
      BlocksPartition(init, k);
      assert init[..k] == blocks[..k];
    } else if |init| > 0 {
      BlocksPartition(init, 0);
    }
  }

  // ── OpenAI ───────────────────────────────────────────────────────────────

  datatype FunctionCall = FunctionCall(id: string, name: string, arguments: string)

  datatype Choice = Choice(content: Option<string>, toolCalls: seq<FunctionCall>, finishReason: string)

  datatype OpenAiReply = OpenAiReply(choices: seq<Choice>, model: string, promptTokens: U32, completionTokens: U32)

  function OpenAiStop(reason: string): StopReason {
    match reason
    case "tool_calls" => ToolUse
    case "length" => MaxTokens
    case "content_filter" => StopSequence
    case _ => EndTurn
  }

  /** `parse` reads the arguments of a call; text that is not JSON becomes null. */
  function MapOpenAi(api: OpenAiReply, parse: string -> Option<Json>): (r: CompletionResponse)
    ensures r.model == api.model
    ensures api.choices == [] ==>
              r.content == None && r.toolCalls == [] && r.stopReason == EndTurn &&
              r.usage.input == 0 && r.usage.output == 0 && r.usage.total == 0
    ensures api.choices != [] ==>
              var choice := api.choices[0];
              r.content == choice.content && r.usage.input == api.promptTokens && r.usage.output == api.completionTokens &&
              r.usage.total == (api.promptTokens + api.completionTokens) % 0x1_0000_0000 &&
              r.stopReason == (if choice.finishReason == "tool_calls" then ToolUse
                               else if choice.finishReason == "length" then MaxTokens
                               else if choice.finishReason == "content_filter" then StopSequence
                               else EndTurn) &&
              |r.toolCalls| == |choice.toolCalls| &&
              forall i :: 0 <= i < |r.toolCalls| ==>
                r.toolCalls[i].id == choice.toolCalls[i].id && r.toolCalls[i].name == choice.toolCalls[i].name &&
                if parse(choice.toolCalls[i].arguments).Some? then Some(r.toolCalls[i].input) == parse(choice.toolCalls[i].arguments)
                else r.toolCalls[i].input == Null
  {
    if api.choices == [] then CompletionResponse(None, [], NO_TOKENS, api.model, EndTurn)
    else
      var choice := api.choices[0];
      var toolCalls := seq(|choice.toolCalls|, i requires 0 <= i < |choice.toolCalls| =>
        var call := choice.toolCalls[i];
        ToolCall(call.id, call.name, if parse(call.arguments).Some? then parse(call.arguments).value else Null));
      CompletionResponse(choice.content, toolCalls, Usage(api.promptTokens, api.completionTokens), api.model,
                         OpenAiStop(choice.finishReason))
  }

  // ── Cohere ───────────────────────────────────────────────────────────────

  datatype CohereReply = CohereReply(texts: seq<string>, toolCalls: seq<ToolCall>, finishReason: string, inputTokens: U32, outputTokens: U32)

  function CohereStop(reason: string): StopReason {
    match reason
    case "TOOL_CALL" => ToolUse
    case "MAX_TOKENS" => MaxTokens
    case _ => EndTurn
  }

  function MapCohere(api: CohereReply): (r: CompletionResponse)
    ensures r.content == if Concat(api.texts) == "" then None else Some(Concat(api.texts))
    ensures r.toolCalls == api.toolCalls && r.model == ""
    ensures r.usage.input == api.inputTokens && r.usage.output == api.outputTokens
    ensures r.usage.total == (api.inputTokens + api.outputTokens) % 0x1_0000_0000
    ensures r.stopReason == if api.finishReason == "TOOL_CALL" then ToolUse
                            else if api.finishReason == "MAX_TOKENS" then MaxTokens
                            else EndTurn
  {
    var content := Concat(api.texts);
    CompletionResponse(if content == "" then None else Some(content), api.toolCalls,
                       Usage(api.inputTokens, api.outputTokens), "", CohereStop(api.finishReason))
  }

  lemma {:induction false} ConcatEmpty(parts: seq<string>)
    ensures Concat(parts) == "" <==> forall i :: 0 <= i < |parts| ==> parts[i] == ""
  {
    if parts != [] {
      var init, last := parts[..|parts| - 1], parts[|parts| - 1];
      ConcatEmpty(init);
      assert |Concat(parts)| == |Concat(init)| + |last|;
    }
  }

  /** Two providers, two notions of no text: Cohere's content is absent exactly
      when every part is empty, Anthropic's exactly when there is no part. */
  lemma AbsentContent(cohere: CohereReply, blocks: seq<Block>)
    ensures MapCohere(cohere).content == None <==> forall i :: 0 <= i < |cohere.texts| ==> cohere.texts[i] == ""
    ensures TextsOf(blocks) == [] <==> forall i :: 0 <= i < |blocks| ==> blocks[i].Use?
  {
    ConcatEmpty(cohere.texts);
    NoTexts(blocks);
  }

  lemma {:induction false} NoTexts(blocks: seq<Block>)
    ensures TextsOf(blocks) == [] <==> forall i :: 0 <= i < |blocks| ==> blocks[i].Use?
  {
    if blocks != [] {
      NoTexts(blocks[..|blocks| - 1]);
    }
  }

  // ── Totals ───────────────────────────────────────────────────────────────

  datatype ProviderReply =
    | Anthropic(anthropic: AnthropicReply)
    | OpenAi(openAi: OpenAiReply)
    | Cohere(cohere: CohereReply)

  function Mapped(reply: ProviderReply, parse: string -> Option<Json>): CompletionResponse {
    match reply
    case Anthropic(api) => AnthropicCompletion(api)
    case OpenAi(api) => MapOpenAi(api, parse)
    case Cohere(api) => MapCohere(api)
  }

  function MappedUsage(reply: ProviderReply): TokenUsage {
    Mapped(reply, _ => None).usage
  }

  /** The provider's own counter of input tokens; an empty OpenAI reply counts nothing. */
  function InputTokens(reply: ProviderReply): nat {
    match reply
    case Anthropic(api) => api.inputTokens
    case OpenAi(api) => if api.choices == [] then 0 else api.promptTokens
    case Cohere(api) => api.inputTokens
  }

  function OutputTokens(reply: ProviderReply): nat {
    match reply
    case Anthropic(api) => api.outputTokens
    case OpenAi(api) => if api.choices == [] then 0 else api.completionTokens
    case Cohere(api) => api.outputTokens
  }

  /** Every mapping passes both counters on, whatever else the reply holds. */
  lemma CountersKept(reply: ProviderReply, parse: string -> Option<Json>)
    ensures Mapped(reply, parse).usage.input == InputTokens(reply)
    ensures Mapped(reply, parse).usage.output == OutputTokens(reply)
    ensures Mapped(reply, parse).usage.total == (InputTokens(reply) + OutputTokens(reply)) % 0x1_0000_0000
  {
  }

  /** The two counters that are added in u32 arithmetic. */
  function CountedTokens(reply: ProviderReply): nat {
    InputTokens(reply) + OutputTokens(reply)
  }

  /** A mapped total is input + output exactly when the two counters add up within a u32. */
  lemma TotalConsistentExactly(reply: ProviderReply)
    ensures MappedUsage(reply).Consistent() <==> CountedTokens(reply) < U32_LIMIT
  {
  }
}
