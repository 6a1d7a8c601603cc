/**
 * Chat messages and the per-conversation message list.
 *
 * A message is the record `{"role": ..., "content": ...}` that backend/api/chat.py
 * builds for the user turn, the system prompt and the assistant reply. The list a
 * conversation owns is a mutable Python list shared by reference between the
 * conversation dictionary and the streaming relay, so it is a class here.
 */
module Messages {

  datatype Role = System | User | Assistant

  datatype Message = Message(role: Role, content: string)

  /** A conversation's history: a list object that callers append to in place. */
  class History {
    var messages: seq<Message>

    constructor ()
      ensures messages == []
    {
      messages := [];
    }

    /** `list.append`: the message goes at the end, nothing before it changes. */
    method Append(m: Message)
      modifies this
      ensures messages == old(messages) + [m]
    {
      messages := messages + [m];
    }
  }
}
