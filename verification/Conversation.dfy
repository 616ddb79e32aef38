/** Conversation histories and what a memory backend reports (crates/roos-core/src/memory.rs). */
module Conversation {
  import opened Common

  datatype Message = Message(role: string, content: string)

  function User(content: string): Message { Message("user", content) }

  function Assistant(content: string): Message { Message("assistant", content) }

  /** The messages of one run, oldest first. */
  datatype ConversationHistory = ConversationHistory(runId: Uuid, messages: seq<Message>) {
    function Push(message: Message): ConversationHistory {
      this.(messages := messages + [message])
    }
  }

  function NewHistory(runId: Uuid): ConversationHistory {
    ConversationHistory(runId, [])
  }

  /** The one error that the modelled backends construct themselves. */
  datatype MemoryError = Expired(runId: Uuid)

  type Loaded = Result<Option<ConversationHistory>, MemoryError>
}
