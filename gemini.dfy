/** The browser-side Gemini service (`src/lib/services/api/gemini.ts`): it reads the
    user's key from `localStorage`, asks the model, and splits the reply's parts into
    texts and images; it also turns the chat transcript into the API's history format.
    The model's reply (or the error the SDK throws) is an input; each call returns the
    request it would send, or `None` when it stops before sending anything. */
module GeminiClient {
  import opened Types
  import opened WebStorage
  import opened ChatStore
  import opened GeminiProtocol

  const ApiKeyStorageKey: string := "gemini_api_key"
  const MissingKeyError: string := "No API key found. Please add your Gemini API key in settings."
  const NoContentError: string := "No content was generated. Please try a different prompt."
  const ImageGenerationModel: string := "gemini-2.0-flash-exp-image-generation"
  const ConversationModel: string := "models/gemini-2.0-flash-exp"

  datatype GeminiResponse = GeminiResponse(text: seq<string>, images: seq<string>)

  /** A request to the model: a one-shot `generateContent` (with the model name, which
      may be undefined) or a chat turn sent after a history. */
  datatype ModelRequest =
    | Generate(model: Option<string>, contents: seq<Part>)
    | ChatTurn(chatModel: string, history: seq<Content>, message: string)

  /** The callbacks `generateContent` makes, in order. */
  datatype Event = TextToken(text: string) | ImageToken(data: string) | Complete

  /** `getUserApiKey`: `null` outside the browser. */
  function UserApiKey(ls: LocalStorage): (r: Option<string>)
    reads ls
    ensures r.Some? ==> ls.inBrowser && ApiKeyStorageKey in ls.items && r.value == ls.items[ApiKeyStorageKey]
  {
    if ls.inBrowser then ls.GetItem(ApiKeyStorageKey) else None
  }

  // ---------------------------------------------------------------------------
  // formatChatHistoryForGemini

  /** `'user'` for the user's messages; the assistant's and system messages are the
      model's. */
  function RoleOf(t: MessageType): (role: string)
    ensures role == "user" <==> t == UserMessage
    ensures role == "user" || role == "model"
  {
    if t == UserMessage then "user" else "model"
  }

  /** One turn per message, in order, each with the message text as its only part;
      attached images are not sent. */
  function FormatChatHistory(messages: seq<ChatMessage>): (r: seq<Content>)
    ensures |r| == |messages|
    ensures forall i :: 0 <= i < |messages| ==>
      (r[i].role == "user" <==> messages[i].messageType == UserMessage) &&
      (messages[i].messageType != UserMessage ==> r[i].role == "model") &&
      r[i].parts == [TextPart(messages[i].text)]
  {
    seq(|messages|, i requires 0 <= i < |messages| => Content(RoleOf(messages[i].messageType), [TextPart(messages[i].text)]))
  }

  /** Formatting follows concatenation: a transcript can be formatted in pieces. */
  lemma FormatAppend(a: seq<ChatMessage>, b: seq<ChatMessage>)
    ensures FormatChatHistory(a + b) == FormatChatHistory(a) + FormatChatHistory(b)
  {
    var l := FormatChatHistory(a + b);
    var r := FormatChatHistory(a) + FormatChatHistory(b);
    assert |l| == |r|;
    forall i | 0 <= i < |l|
      ensures l[i] == r[i]
    {
      if i < |a| {
        assert (a + b)[i] == a[i];
      } else {
        assert (a + b)[i] == b[i - |a|];
      }
    }
  }

  // ---------------------------------------------------------------------------
  // generateContent's callbacks

  /** The callback for each part, in part order. */
  function EventsOf(parts: seq<Part>): seq<Event> {
    if parts == [] then []
    else
      var last := parts[|parts| - 1];
      EventsOf(parts[..|parts| - 1]) +
        (if IsTextPart(last) then [TextToken(last.text.value)]
         else if last.inlineData.Some? then [ImageToken(last.inlineData.value.data)]
         else [])
  }

  function TokensOf(events: seq<Event>): seq<string> {
    if events == [] then []
    else TokensOf(events[..|events| - 1]) + (if events[|events| - 1].TextToken? then [events[|events| - 1].text] else [])
  }

  function ImagesShown(events: seq<Event>): seq<string> {
    if events == [] then []
    else ImagesShown(events[..|events| - 1]) + (if events[|events| - 1].ImageToken? then [events[|events| - 1].data] else [])
  }

  lemma {:induction false} EventsAppend(a: seq<Event>, b: seq<Event>)
    ensures TokensOf(a + b) == TokensOf(a) + TokensOf(b)
    ensures ImagesShown(a + b) == ImagesShown(a) + ImagesShown(b)
  {
    if b != [] {
      assert (a + b)[..|a + b| - 1] == a + b[..|b| - 1];
      EventsAppend(a, b[..|b| - 1]);
    } else {
      assert a + b == a;
    }
  }

  /** The text callbacks receive exactly the collected texts and the image callbacks
      exactly the collected images, in the same order, and completion is never signalled
      while parts are processed. */
  lemma {:induction false} EventsMatchSplit(parts: seq<Part>)
    ensures TokensOf(EventsOf(parts)) == TextsOf(parts)
    ensures ImagesShown(EventsOf(parts)) == ImagesOf(parts)
    ensures Complete !in EventsOf(parts)
  {
    if parts != [] {
      var init := parts[..|parts| - 1];
      var last := parts[|parts| - 1];
      EventsMatchSplit(init);
      var tail := if IsTextPart(last) then [TextToken(last.text.value)]
                  else if last.inlineData.Some? then [ImageToken(last.inlineData.value.data)]
                  else [];
      EventsAppend(EventsOf(init), tail);
      assert TokensOf(tail) == (if IsTextPart(last) then [last.text.value] else []) by {
        if tail != [] {
          assert tail[..0] == [];
        }
      }
      assert ImagesShown(tail) == (if IsImagePart(last) then [last.inlineData.value.data] else []) by {
        if tail != [] {
          assert tail[..0] == [];
        }
      }
    }
  }

  // ---------------------------------------------------------------------------
  // The three calls

  /** `generateContent(prompt, callbacks)`: one callback per collected part, then the
      completion callback. */
  method GenerateContent(ls: LocalStorage, prompt: string, reply: Result<ModelReply>)
    returns (r: Result<GeminiResponse>, request: Option<ModelRequest>, events: seq<Event>)
    ensures !Truthy(UserApiKey(ls)) ==> r == Failure(MissingKeyError) && request == None && events == []
    ensures Truthy(UserApiKey(ls)) ==> request == Some(Generate(Some(ImageGenerationModel), [TextPart(prompt)]))
    ensures Truthy(UserApiKey(ls)) && reply.Failure? ==> r == Failure(reply.error) && events == []
    ensures Truthy(UserApiKey(ls)) && reply.Success? ==>
      var parts := FirstCandidateParts(reply.value.candidates);
      r == Success(GeminiResponse(TextsOf(parts), ImagesOf(parts))) && events == EventsOf(parts) + [Complete]
  {
    var apiKey := UserApiKey(ls);
    if apiKey.None? || apiKey.value == "" {
      return Failure(MissingKeyError), None, [];
    }
    request := Some(Generate(Some(ImageGenerationModel), [TextPart(prompt)]));
    if reply.Failure? {
      return Failure(reply.error), request, [];
    }
    var parts := FirstCandidateParts(reply.value.candidates);
    var texts, images := [], [];
    events := [];
    var i := 0;
    while i < |parts|
      invariant 0 <= i <= |parts|
      invariant texts == TextsOf(parts[..i]) && images == ImagesOf(parts[..i])
      invariant events == EventsOf(parts[..i])
    {
      var part := parts[i];
      if part.text.Some? && part.text.value != "" {
        texts := texts + [part.text.value];
        events := events + [TextToken(part.text.value)];
      } else if part.inlineData.Some? {
        images := images + [part.inlineData.value.data];
        events := events + [ImageToken(part.inlineData.value.data)];
      }
      assert parts[..i + 1][..i] == parts[..i];
      i := i + 1;
    }
    assert parts[..|parts|] == parts;
    events := events + [Complete];
    r := Success(GeminiResponse(texts, images));
  }

  /** `editImage(imageData, editInstructions)`: the picture goes first as JPEG inline
      data, then the instructions; a reply without candidates is an error. The model name
      is read from the UI store. */
  method EditImage(ls: LocalStorage, imageData: string, editInstructions: string,
                   selectedModel: Option<string>, reply: Result<ModelReply>)
    returns (r: Result<GeminiResponse>, request: Option<ModelRequest>)
    ensures !Truthy(UserApiKey(ls)) ==> r == Failure(MissingKeyError) && request == None
    ensures Truthy(UserApiKey(ls)) ==> request == Some(Generate(selectedModel,
      [Part(None, Some(InlineData("image/jpeg", imageData))), TextPart(editInstructions)]))
    ensures Truthy(UserApiKey(ls)) && reply.Failure? ==> r == Failure(reply.error)
    ensures Truthy(UserApiKey(ls)) && reply.Success? ==>
      var cands := reply.value.candidates;
      if cands.None? || |cands.value| == 0 then r == Failure(NoContentError)
      else
        var parts := FirstCandidateParts(cands);
        r == Success(GeminiResponse(TextsOf(parts), ImagesOf(parts)))
  {
    var apiKey := UserApiKey(ls);
    if apiKey.None? || apiKey.value == "" {
      return Failure(MissingKeyError), None;
    }
    request := Some(Generate(selectedModel,
      [Part(None, Some(InlineData("image/jpeg", imageData))), TextPart(editInstructions)]));
    if reply.Failure? {
      return Failure(reply.error), request;
    }
    var candidates := if reply.value.candidates.Some? then reply.value.candidates.value else [];
    if |candidates| == 0 {
      return Failure(NoContentError), request;
    }
    var texts, images := Partition(FirstCandidateParts(reply.value.candidates));
    r := Success(GeminiResponse(texts, images));
  }

  /** `continueImageEditing(conversationHistory, newInstruction)`: a chat turn after the
      given history. */
  method ContinueImageEditing(ls: LocalStorage, conversationHistory: seq<Content>, newInstruction: string,
                              reply: Result<ModelReply>)
    returns (r: Result<GeminiResponse>, request: Option<ModelRequest>)
    ensures !Truthy(UserApiKey(ls)) ==> r == Failure(MissingKeyError) && request == None
    ensures Truthy(UserApiKey(ls)) ==> request == Some(ChatTurn(ConversationModel, conversationHistory, newInstruction))
    ensures Truthy(UserApiKey(ls)) && reply.Failure? ==> r == Failure(reply.error)
    ensures Truthy(UserApiKey(ls)) && reply.Success? ==>
      var parts := FirstCandidateParts(reply.value.candidates);
      r == Success(GeminiResponse(TextsOf(parts), ImagesOf(parts)))
  {
    var apiKey := UserApiKey(ls);
    if apiKey.None? || apiKey.value == "" {
      return Failure(MissingKeyError), None;
    }
    request := Some(ChatTurn(ConversationModel, conversationHistory, newInstruction));
    if reply.Failure? {
      return Failure(reply.error), request;
    }
    var texts, images := Partition(FirstCandidateParts(reply.value.candidates));
    r := Success(GeminiResponse(texts, images));
  }
}
