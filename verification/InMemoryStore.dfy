/** The ephemeral map store (crates/roos-memory/src/in_memory.rs). Every method runs under one lock. */
module InMemoryStore {
  import opened Common
  import opened Conversation

  type Histories = map<Uuid, ConversationHistory>

  function HistoryOf(inner: Histories, runId: Uuid): ConversationHistory {
    if runId in inner then inner[runId] else NewHistory(runId)
  }

  function AfterAppend(inner: Histories, runId: Uuid, message: Message): Histories {
    inner[runId := HistoryOf(inner, runId).Push(message)]
  }

  function LoadReply(inner: Histories, runId: Uuid): Option<ConversationHistory> {
    if runId in inner then Some(inner[runId]) else None
  }

  class InMemoryStore {
    var inner: Histories

    constructor ()
      ensures inner == map[]
    {
      inner := map[];
    }

    method Store(history: ConversationHistory)
      modifies this
      ensures inner == old(inner)[history.runId := history]
    {
      inner := inner[history.runId := history];
    }

    method Load(runId: Uuid) returns (r: Option<ConversationHistory>)
      ensures r == LoadReply(inner, runId) == if runId in inner then Some(inner[runId]) else None
    {
      r := if runId in inner then Some(inner[runId]) else None;
    }

    method Append(runId: Uuid, message: Message)
      modifies this
      ensures inner == AfterAppend(old(inner), runId, message)
      ensures inner == old(inner)[runId := if runId in old(inner)
                                           then old(inner)[runId].(messages := old(inner)[runId].messages + [message])
                                           else ConversationHistory(runId, [message])]
    {
      assert [] + [message] == [message];
      if runId !in inner {
        inner := inner[runId := NewHistory(runId)];
      }
      inner := inner[runId := inner[runId].Push(message)];
    }

    method Clear(runId: Uuid)
      modifies this
      ensures inner == old(inner) - {runId}
    {
      inner := inner - {runId};
    }
  }
}
