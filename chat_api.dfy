/**
 * The conversation dictionary and the two endpoints of backend/api/chat.py that
 * use it: `handle_chat` (get or create the conversation's list, append the user
 * turn, assemble the messages for the API, hand the list to the relay) and
 * `handle_reset` (drop the conversation when it exists).
 *
 * The dictionary maps an id to a list OBJECT: `setdefault` hands back the stored
 * list and the relay appends the reply to that same object when the response is
 * streamed, after `handle_chat` has returned.
 */
module ChatApi {
  import opened Wrappers
  import opened Messages
  import opened RelaySpec
  import StreamingRelay

  /** The text before and after the PDF text in the system prompt, as chat.py writes them. */
  const PromptHead: string :=
    "Eres un asistente experto. Responde preguntas bas\U{e1}ndote \U{fa}nicamente en el siguiente texto:\\n\\n"
  const PromptTail: string :=
    "\\n\\nSi la respuesta no est\U{e1} en el texto, di 'No tengo informaci\U{f3}n sobre eso en el documento.'"

  /** The system message that carries the whole PDF text as the model's only source. */
  function SystemPrompt(pdfContext: string): (m: Message)
    ensures m.role == System
    ensures |PromptHead| + |PromptTail| <= |m.content|
    ensures PromptHead <= m.content && m.content[|m.content| - |PromptTail|..] == PromptTail
    ensures m.content[|PromptHead|..|m.content| - |PromptTail|] == pdfContext
  {
    var content := PromptHead + pdfContext + PromptTail;
    assert content[|PromptHead|..|content| - |PromptTail|] == pdfContext;
    Message(System, content)
  }

  /** Storing twice under one key keeps only the second value. */
  lemma UpdateTwice<K, V>(m: map<K, V>, k: K, a: V, b: V)
    ensures m[k := a][k := b] == m[k := b]
  {
  }

  /** The JSON body `handle_reset` returns. */
  datatype Ack = Ack(status: string, message: string)

  const ResetAck: Ack := Ack("ok", "Conversaci\U{f3}n reiniciada")

  class ConversationStore {
    /** `conversation_histories`: each conversation id with its list. */
    var histories: map<string, History>

    /** Every conversation has a list of its own: `setdefault` only ever stores a new one. */
    ghost predicate Valid()
      reads this
    {
      forall a, b :: a in histories && b in histories && a != b ==> histories[a] != histories[b]
    }

    /** What each conversation holds. */
    ghost function View(): map<string, seq<Message>>
      reads this, histories.Values
    {
      map id | id in histories :: histories[id].messages
    }

    constructor ()
      ensures Valid() && histories == map[] && View() == map[]
    {
      histories := map[];
    }

    /** `conversation_histories.setdefault(id, [])`. */
    method SetDefault(id: string) returns (h: History)
      requires Valid()
      modifies this
      ensures Valid()
      ensures id in histories && h == histories[id]
      ensures id in old(histories) ==> histories == old(histories)
      ensures id !in old(histories) ==> fresh(h) && h.messages == [] && histories == old(histories)[id := h]
      ensures View() == old(View())[id := if id in old(View()) then old(View())[id] else []]
    {
      if id in histories {
        h := histories[id];
      } else {
        h := new History();
        histories := histories[id := h];
      }
    }

    /** `list.append` on the list stored for `id`: no other conversation sees the message. */
    method AppendTo(id: string, h: History, m: Message)
      requires Valid() && id in histories && h == histories[id]
      modifies h
      ensures Valid() && histories == old(histories)
      ensures View() == old(View())[id := old(View())[id] + [m]]
    {
      h.Append(m);
    }

    /**
     * `handle_chat`: the user turn goes at the end of the conversation (a new
     * one starts empty), no other conversation changes, and the API receives
     * the system prompt followed by the whole updated conversation. The list
     * returned is the one the relay will append the reply to.
     */
    method HandleChat(id: string, message: string, pdfContext: string)
      returns (history: History, messagesForApi: seq<Message>)
      requires Valid()
      modifies this, histories.Values
      ensures Valid()
      ensures id in histories && history == histories[id]
      ensures histories.Keys == old(histories.Keys) + {id}
      ensures forall k :: k in old(histories) ==> histories[k] == old(histories[k])
      ensures fresh(histories.Values - old(histories.Values))
      ensures View() == old(View())[id := (if id in old(View()) then old(View())[id] else [])
                                           + [Message(User, message)]]
      ensures messagesForApi == [SystemPrompt(pdfContext)] + View()[id]
    {
      ghost var before := old(View());
      history := SetDefault(id);
      ghost var start := View()[id];
      AppendTo(id, history, Message(User, message));
      UpdateTwice(before, id, start, start + [Message(User, message)]);
      messagesForApi := [SystemPrompt(pdfContext)] + history.messages;
    }

    /**
     * `handle_reset`: the conversation is gone (nothing happens when it was
     * never there), the others are untouched, and the same acknowledgement
     * comes back either way.
     */
    method HandleReset(id: string) returns (ack: Ack)
      requires Valid()
      modifies this
      ensures Valid()
      ensures histories == old(histories) - {id}
      ensures View() == old(View()) - {id}
      ensures ack == ResetAck
    {
      if id in histories {
        histories := histories - {id};
      }
      ack := ResetAck;
    }

    /**
     * The relay streaming into the list stored for `id`: the reply it stores,
     * if any, lands in that conversation and in no other.
     */
    method StreamInto(id: string, h: History, up: Upstream, dec: Decoders)
      returns (events: seq<Event>, raises: bool)
      requires Valid() && id in histories && h == histories[id]
      modifies h
      ensures Valid() && histories == old(histories)
      ensures events == Relay(up, dec).events && raises == Relay(up, dec).raises
      ensures View() == old(View())[id := old(View())[id]
                        + (if Relay(up, dec).appended.Some? then [Relay(up, dec).appended.value] else [])]
    {
      events, raises := StreamingRelay.StreamResponse(up, dec, h);
    }

    /**
     * One `/chat` request whose streamed response is read to the end before
     * anything else touches the store: the user turn and then the reply the
     * relay stores (if any) end up in the conversation.
     */
    method Chat(id: string, message: string, pdfContext: string, up: Upstream, dec: Decoders)
      returns (messagesForApi: seq<Message>, events: seq<Event>, raises: bool)
      requires Valid()
      modifies this, histories.Values
      ensures Valid()
      ensures histories.Keys == old(histories.Keys) + {id}
      ensures fresh(histories.Values - old(histories.Values))
      ensures messagesForApi == [SystemPrompt(pdfContext)] + (if id in old(View()) then old(View())[id] else [])
                                + [Message(User, message)]
      ensures events == Relay(up, dec).events && raises == Relay(up, dec).raises
      ensures View() == old(View())[id := messagesForApi[1..]
                        + (if Relay(up, dec).appended.Some? then [Relay(up, dec).appended.value] else [])]
    {
      var history;
      ghost var before := old(View());
      history, messagesForApi := HandleChat(id, message, pdfContext);
      ghost var turn := View()[id];
      assert messagesForApi[1..] == turn;
      events, raises := StreamInto(id, history, up, dec);
      UpdateTwice(before, id, turn, turn
        + (if Relay(up, dec).appended.Some? then [Relay(up, dec).appended.value] else []));
    }
  }

  /** Two requests on one conversation, then a reset, then a fresh start. */
  method ChatTwiceThenReset(pdfContext: string, up: Upstream, dec: Decoders)
    requires Relay(up, dec).appended == None
  {
    var store := new ConversationStore();
    var api1, events1, raises1 := store.Chat("c", "hola", pdfContext, up, dec);
    var api2, events2, raises2 := store.Chat("c", "adi\U{f3}s", pdfContext, up, dec);
    // The second request already sees both user turns.
    assert api2 == [SystemPrompt(pdfContext), Message(User, "hola"), Message(User, "adi\U{f3}s")];
    var ack := store.HandleReset("c");
    assert store.View() == map[];
    var again := store.HandleReset("c");
    assert again == ack;
    var api3, events3, raises3 := store.Chat("c", "otra vez", pdfContext, up, dec);
    assert store.View()["c"] == [Message(User, "otra vez")];
  }

  /**
   * A reset that arrives after `handle_chat` has returned but before its
   * response is streamed: the reply goes into the list the reset dropped, and
   * the conversation stays gone.
   */
  method ResetBeforeStreaming(pdfContext: string, line: Line, reply: string, dec: Decoders)
    requires Classify(line, dec) == Fragment(reply)
  {
    var store := new ConversationStore();
    var history, api := store.HandleChat("c", "hola", pdfContext);
    var ack := store.HandleReset("c");
    assert Steps([line], dec) == [Fragment(reply)];
    assert Scan([Fragment(reply)], None) == Scanned(Fragments([Fragment(reply)]), Exhausted) by {
      assert [Fragment(reply)][1..] == [];
    }
    var events, raises := StreamingRelay.StreamResponse(Streamed([line], None), dec, history);
    assert "c" !in store.View();
    assert history.messages == [Message(User, "hola"), Message(Assistant, Concat(Fragments([Fragment(reply)])))];
  }
}
