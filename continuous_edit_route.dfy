/** The server route for multi-turn editing (`src/routes/api/gemini/continuous-edit/+server.ts`):
    it checks the request, sends the prompt after the given history, and answers with
    the reply's texts and images and the history extended by this turn. The parsed
    request body (or the error parsing threw) and the model's reply (or the error the SDK
    threw) are inputs. */
module ContinuousEditRoute {
  import opened Types
  import opened GeminiProtocol

  const ApiKeyRequired: string := "API key is required"
  const HistoryRequired: string := "Valid conversation history is required"
  const EditFailed: string := "Failed to process continuous edit"

  /** The request's `conversationHistory`: missing (or another falsy value), present but
      not an array, or an array of turns. */
  datatype HistoryField = Missing | NotAnArray | Turns(turns: seq<Content>)

  datatype EditRequest = EditRequest(prompt: string, apiKey: Option<string>, conversationHistory: HistoryField)

  /** A history the route accepts: an array with at least one turn. */
  predicate ValidHistory(h: HistoryField) {
    h.Turns? && |h.turns| > 0
  }

  /** How a reply part is recorded in the model's turn: a text part keeps only its text,
      an inline-data part only its inline data, and anything else is kept as it is. */
  function HistoryPart(p: Part): (q: Part)
    ensures IsTextPart(p) ==> q == TextPart(p.text.value)
    ensures IsImagePart(p) ==> q == Part(None, p.inlineData)
    ensures !IsTextPart(p) && !IsImagePart(p) ==> q == p
  {
    if IsTextPart(p) then TextPart(p.text.value)
    else if p.inlineData.Some? then Part(None, Some(InlineData(p.inlineData.value.mimeType, p.inlineData.value.data)))
    else p
  }

  function HistoryParts(parts: seq<Part>): (r: seq<Part>)
    ensures |r| == |parts|
    ensures forall i :: 0 <= i < |parts| ==> r[i] == HistoryPart(parts[i])
  {
    seq(|parts|, i requires 0 <= i < |parts| => HistoryPart(parts[i]))
  }

  /** The recorded model turn carries the same texts and images, in the same order, as
      the answer built from the reply. */
  lemma {:induction false} HistoryPartsKeepSplit(parts: seq<Part>)
    ensures TextsOf(HistoryParts(parts)) == TextsOf(parts)
    ensures ImagesOf(HistoryParts(parts)) == ImagesOf(parts)
  {
    if parts != [] {
      var init := parts[..|parts| - 1];
      assert HistoryParts(parts)[..|parts| - 1] == HistoryParts(init);
      HistoryPartsKeepSplit(init);
    }
  }

  /** `[...conversationHistory, {role: 'user', parts: [{text: prompt}]}, {role: 'model', parts: …}]`. */
  function UpdatedHistory(history: seq<Content>, prompt: string, parts: seq<Part>): (r: seq<Content>)
    ensures |r| == |history| + 2 && r[..|history|] == history
    ensures r[|history|] == Content("user", [TextPart(prompt)])
    ensures r[|history| + 1].role == "model" && r[|history| + 1].parts == HistoryParts(parts)
  {
    var r := history + [Content("user", [TextPart(prompt)]), Content("model", HistoryParts(parts))];
    assert r[..|history|] == history;
    r
  }

  /** The `POST` handler. `sent` is the history and prompt given to the chat session, or
      `None` when the request is turned away first. */
  method Post(body: Result<EditRequest>, reply: Result<ModelReply>)
    returns (response: HttpReply, sent: Option<(seq<Content>, string)>)
    ensures body.Failure? ==> response == HttpReply(500, ErrorBody(EditFailed, Some(body.error))) && sent == None
    ensures body.Success? && !Truthy(body.value.apiKey) ==>
      response == HttpReply(400, ErrorBody(ApiKeyRequired, None)) && sent == None
    ensures body.Success? && Truthy(body.value.apiKey) && !ValidHistory(body.value.conversationHistory) ==>
      response == HttpReply(400, ErrorBody(HistoryRequired, None)) && sent == None
    ensures body.Success? && Truthy(body.value.apiKey) && ValidHistory(body.value.conversationHistory) ==>
      sent == Some((body.value.conversationHistory.turns, body.value.prompt))
    ensures sent.Some? && reply.Failure? ==> response == HttpReply(500, ErrorBody(EditFailed, Some(reply.error)))
    ensures sent.Some? && reply.Success? ==>
      var parts := FirstCandidateParts(reply.value.candidates);
      response == HttpReply(200, ContentBody(
        WithAggregate(TextsOf(parts), reply.value.text),
        ImagesOf(parts),
        Some(UpdatedHistory(sent.value.0, sent.value.1, parts))))
  {
    if body.Failure? {
      return HttpReply(500, ErrorBody(EditFailed, Some(body.error))), None;
    }
    var request := body.value;
    if request.apiKey.None? || request.apiKey.value == "" {
      return HttpReply(400, ErrorBody(ApiKeyRequired, None)), None;
    }
    if !request.conversationHistory.Turns? || |request.conversationHistory.turns| == 0 {
      return HttpReply(400, ErrorBody(HistoryRequired, None)), None;
    }
    var history := request.conversationHistory.turns;
    sent := Some((history, request.prompt));
    if reply.Failure? {
      return HttpReply(500, ErrorBody(EditFailed, Some(reply.error))), sent;
    }
    var parts := FirstCandidateParts(reply.value.candidates);
    var texts, images := Partition(parts);
    var aggregate := reply.value.text;
    if aggregate.Some? && aggregate.value != "" && aggregate.value !in texts {
      texts := texts + [aggregate.value];
    }
    var updatedHistory := UpdatedHistory(history, request.prompt, parts);
    response := HttpReply(200, ContentBody(texts, images, Some(updatedHistory)));
  }
}
