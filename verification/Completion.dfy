/** What a provider returns for one completion (crates/roos-core/src/provider.rs and types.rs). */
module Completion {
  import opened Common

  /** A JSON value, by its serialisation. */
  datatype Json = Null | Json(text: string)

  datatype ToolCall = ToolCall(id: string, name: string, input: Json)

  datatype StopReason = EndTurn | ToolUse | MaxTokens | StopSequence

  datatype TokenUsage = TokenUsage(input: nat, output: nat, total: nat) {
    function Add(other: TokenUsage): TokenUsage {
      TokenUsage(input + other.input, output + other.output, total + other.total)
    }

    predicate Consistent() {
      total == input + output
    }
  }

  const NO_TOKENS := TokenUsage(0, 0, 0)

  datatype CompletionResponse = CompletionResponse(
    content: Option<string>,
    toolCalls: seq<ToolCall>,
    usage: TokenUsage,
    model: string,
    stopReason: StopReason)
}
