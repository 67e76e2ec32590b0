/** The chat transcript store (`src/lib/stores/chatStore.ts`): the messages shown in
    the chat panel, the prompt being typed and the last error. The clock is an input. */
module ChatStore {
  import opened Types

  datatype MessageType = UserMessage | AssistantMessage | SystemMessage

  datatype ChatMessage = ChatMessage(
    messageType: MessageType,
    text: string,
    timestamp: Timestamp,
    images: Option<seq<string>>)

  /** What `addMessage` may be given: a bare text, or a whole message. */
  datatype MessageInput = Text(text: string) | Whole(message: ChatMessage)

  datatype ChatState = ChatState(messages: seq<ChatMessage>, prompt: string, error: string)

  const Initial: ChatState := ChatState([], "", "")

  /** The message `addMessage(message, type)` would append: a text needs a type to
      become a message; a whole message is taken as given. */
  function NewMessage(message: MessageInput, messageType: Option<MessageType>, now: Timestamp): (r: Option<ChatMessage>)
    ensures message.Whole? ==> r == Some(message.message)
    ensures message.Text? ==> (r.Some? <==> messageType.Some?)
    ensures message.Text? && r.Some? ==>
      r.value == ChatMessage(messageType.value, message.text, now, None)
  {
    match message
    case Text(text) =>
      if messageType.Some? then Some(ChatMessage(messageType.value, text, now, None)) else None
    case Whole(m) => Some(m)
  }

  /** `addMessage`: appends one message, or nothing when the input is not a message. */
  function AddMessage(s: ChatState, message: MessageInput, messageType: Option<MessageType>, now: Timestamp): (r: ChatState)
    ensures NewMessage(message, messageType, now).None? ==> r == s
    ensures NewMessage(message, messageType, now).Some? ==>
      |r.messages| == |s.messages| + 1 && r.messages[..|s.messages|] == s.messages &&
      r.messages[|s.messages|] == NewMessage(message, messageType, now).value
    ensures r.prompt == s.prompt && r.error == s.error
  {
    match NewMessage(message, messageType, now)
    case None => s
    case Some(m) =>
      assert (s.messages + [m])[..|s.messages|] == s.messages;
      s.(messages := s.messages + [m])
  }

  /** `updateLastMessage`: the last message is replaced; an empty transcript stays
      empty. */
  function UpdateLastMessage(s: ChatState, message: ChatMessage): (r: ChatState)
    ensures s.messages == [] ==> r == s
    ensures s.messages != [] ==>
      |r.messages| == |s.messages| && r.messages[|r.messages| - 1] == message &&
      r.messages[..|r.messages| - 1] == s.messages[..|s.messages| - 1]
    ensures r.prompt == s.prompt && r.error == s.error
  {
    if |s.messages| == 0 then s
    else s.(messages := s.messages[|s.messages| - 1 := message])
  }

  /** Replacing the last message twice keeps only the second replacement, and
      replacing it right after appending is appending the replacement. */
  lemma UpdateLastTwice(s: ChatState, m1: ChatMessage, m2: ChatMessage)
    ensures UpdateLastMessage(UpdateLastMessage(s, m1), m2) == UpdateLastMessage(s, m2)
  {
    if s.messages != [] {
      assert UpdateLastMessage(UpdateLastMessage(s, m1), m2).messages == UpdateLastMessage(s, m2).messages;
    }
  }

  lemma UpdateAfterAdd(s: ChatState, m1: ChatMessage, m2: ChatMessage, now: Timestamp)
    ensures UpdateLastMessage(AddMessage(s, Whole(m1), None, now), m2) == AddMessage(s, Whole(m2), None, now)
  {
    assert UpdateLastMessage(AddMessage(s, Whole(m1), None, now), m2).messages == s.messages + [m2];
  }

  /** The writable chat state and its actions. */
  class ChatStoreCell {
    var state: ChatState

    constructor()
      ensures state == Initial
    {
      state := Initial;
    }

    method Add(message: MessageInput, messageType: Option<MessageType>, now: Timestamp)
      modifies this
      ensures state == AddMessage(old(state), message, messageType, now)
    {
      var m := NewMessage(message, messageType, now);
      if m.None? {
        return;
      }
      state := state.(messages := state.messages + [m.value]);
    }

    /** `updateLastMessage`: assigns the last slot of a copy of the transcript. */
    method UpdateLast(message: ChatMessage)
      modifies this
      ensures state == UpdateLastMessage(old(state), message)
    {
      if |state.messages| == 0 {
        return;
      }
      var messages := state.messages;
      messages := messages[|messages| - 1 := message];
      state := state.(messages := messages);
    }

    method ClearMessages()
      modifies this
      ensures state == old(state).(messages := [])
    {
      state := state.(messages := []);
    }

    method SetPrompt(prompt: string)
      modifies this
      ensures state == old(state).(prompt := prompt)
    {
      state := state.(prompt := prompt);
    }

    method ClearPrompt()
      modifies this
      ensures state == old(state).(prompt := "")
    {
      state := state.(prompt := "");
    }

    method SetError(error: string)
      modifies this
      ensures state == old(state).(error := error)
    {
      state := state.(error := error);
    }
  }
}
