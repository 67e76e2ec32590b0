/** The server route for image generation (`src/routes/api/gemini/+server.ts`): it
    checks for a key, sends the prompt to a fresh chat session, and answers with the
    reply's texts and images. The parsed request body (or the error parsing threw) and
    the model's reply (or the error the SDK threw) are inputs. */
module GenerationRoute {
  import opened Types
  import opened GeminiProtocol

  const ApiKeyRequired: string := "API key is required"
  const GenerationFailed: string := "Failed to generate content"

  datatype GenerateRequest = GenerateRequest(prompt: string, apiKey: Option<string>)

  /** The `POST` handler. `sent` is the prompt given to the chat session, or `None` when
      the request is turned away first. The answer body has the texts and images and
      nothing else. */
  method Post(body: Result<GenerateRequest>, reply: Result<ModelReply>)
    returns (response: HttpReply, sent: Option<string>)
    ensures body.Failure? ==> response == HttpReply(500, ErrorBody(GenerationFailed, Some(body.error))) && sent == None
    ensures body.Success? && !Truthy(body.value.apiKey) ==>
      response == HttpReply(400, ErrorBody(ApiKeyRequired, None)) && sent == None
    ensures body.Success? && Truthy(body.value.apiKey) ==> sent == Some(body.value.prompt)
    ensures sent.Some? && reply.Failure? ==> response == HttpReply(500, ErrorBody(GenerationFailed, Some(reply.error)))
    ensures sent.Some? && reply.Success? ==>
      var parts := FirstCandidateParts(reply.value.candidates);
      response == HttpReply(200, ContentBody(WithAggregate(TextsOf(parts), reply.value.text), ImagesOf(parts), None))
  {
    if body.Failure? {
      return HttpReply(500, ErrorBody(GenerationFailed, Some(body.error))), None;
    }
    var request := body.value;
    if request.apiKey.None? || request.apiKey.value == "" {
      return HttpReply(400, ErrorBody(ApiKeyRequired, None)), None;
    }
    sent := Some(request.prompt);
    if reply.Failure? {
      return HttpReply(500, ErrorBody(GenerationFailed, Some(reply.error))), sent;
    }
    var texts, images := Partition(FirstCandidateParts(reply.value.candidates));
    var aggregate := reply.value.text;
    if aggregate.Some? && aggregate.value != "" && aggregate.value !in texts {
      texts := texts + [aggregate.value];
    }
    response := HttpReply(200, ContentBody(texts, images, None));
  }
}
