/** The parts of the Gemini API the client and the server routes handle: a reply's
    first candidate holds a list of parts; a part may carry text and may carry inline
    (base64) data. Every caller splits the parts the same way: a part with non-empty
    text is text, otherwise a part with inline data is an image, anything else is
    dropped. */
module GeminiProtocol {
  import opened Types

  datatype InlineData = InlineData(mimeType: string, data: string)

  datatype Part = Part(text: Option<string>, inlineData: Option<InlineData>)

  /** One turn of a conversation history: `{role, parts}`. */
  datatype Content = Content(role: string, parts: seq<Part>)

  /** A candidate whose `content` or `content.parts` may be missing. */
  datatype Candidate = Candidate(content: Option<Option<seq<Part>>>)

  /** The model's reply: its candidates (possibly missing) and what `response.text()`
      gives (`None` for undefined). */
  datatype ModelReply = ModelReply(candidates: Option<seq<Candidate>>, text: Option<string>)

  /** A JavaScript string is truthy when it is present and not empty. */
  predicate Truthy(s: Option<string>) {
    s.Some? && s.value != ""
  }

  function TextPart(text: string): (p: Part)
    ensures Truthy(p.text) <==> text != ""
  {
    Part(Some(text), None)
  }

  /** `candidates?.[0]?.content?.parts || []`. */
  function FirstCandidateParts(candidates: Option<seq<Candidate>>): seq<Part> {
    if candidates.None? || |candidates.value| == 0 then []
    else
      match candidates.value[0].content
      case Some(Some(parts)) => parts
      case _ => []
  }

  // ---------------------------------------------------------------------------
  // The split of a reply's parts

  predicate IsTextPart(p: Part) {
    Truthy(p.text)
  }

  predicate IsImagePart(p: Part) {
    !IsTextPart(p) && p.inlineData.Some?
  }

  /** The texts of the text parts, in part order. */
  function TextsOf(parts: seq<Part>): seq<string> {
    if parts == [] then []
    else
      var last := parts[|parts| - 1];
      TextsOf(parts[..|parts| - 1]) + (if IsTextPart(last) then [last.text.value] else [])
  }

  /** The data of the image parts, in part order. */
  function ImagesOf(parts: seq<Part>): seq<string> {
    if parts == [] then []
    else
      var last := parts[|parts| - 1];
      ImagesOf(parts[..|parts| - 1]) + (if IsImagePart(last) then [last.inlineData.value.data] else [])
  }

  /** The two lists follow concatenation, so each keeps the relative order of the parts
      it takes. */
  lemma {:induction false} SplitAppend(a: seq<Part>, b: seq<Part>)
    ensures TextsOf(a + b) == TextsOf(a) + TextsOf(b)
    ensures ImagesOf(a + b) == ImagesOf(a) + ImagesOf(b)
  {
    if b != [] {
      var init := b[..|b| - 1];
      assert (a + b)[..|a + b| - 1] == a + init;
      SplitAppend(a, init);
    } else {
      assert a + b == a;
    }
  }

  /** A text is collected exactly when some text part carries it; an image exactly when
      some part without text carries its data. */
  lemma {:induction false} SplitMembers(parts: seq<Part>)
    ensures forall t :: t in TextsOf(parts) <==> exists p :: p in parts && IsTextPart(p) && p.text.value == t
    ensures forall d :: d in ImagesOf(parts) <==> exists p :: p in parts && IsImagePart(p) && p.inlineData.value.data == d
  {
    if parts != [] {
      var init := parts[..|parts| - 1];
      var last := parts[|parts| - 1];
      SplitMembers(init);
      assert parts == init + [last];
      assert forall p :: p in parts <==> p in init || p == last;
    }
  }

  /** Each part goes to at most one list: no text is ever empty, and the two lists
      together are no longer than the parts. */
  lemma {:induction false} SplitCounts(parts: seq<Part>)
    ensures |TextsOf(parts)| + |ImagesOf(parts)| <= |parts|
    ensures forall t :: t in TextsOf(parts) ==> t != ""
  {
    if parts != [] {
      SplitCounts(parts[..|parts| - 1]);
    }
  }

  /** The loop `for (const part of parts) { if (part.text) … else if (part.inlineData) … }`. */
  method Partition(parts: seq<Part>) returns (texts: seq<string>, images: seq<string>)
    ensures texts == TextsOf(parts) && images == ImagesOf(parts)
  {
    texts, images := [], [];
    var i := 0;
    while i < |parts|
      invariant 0 <= i <= |parts|
      invariant texts == TextsOf(parts[..i]) && images == ImagesOf(parts[..i])
    {
      var part := parts[i];
      if part.text.Some? && part.text.value != "" {
        texts := texts + [part.text.value];
      } else if part.inlineData.Some? {
        images := images + [part.inlineData.value.data];
      }
      assert parts[..i + 1][..i] == parts[..i];
      i := i + 1;
    }
    assert parts[..|parts|] == parts;
  }

  // ---------------------------------------------------------------------------
  // The routes' aggregate text

  /** `if (textResponse && !text.includes(textResponse)) text.push(textResponse)`. */
  function WithAggregate(texts: seq<string>, aggregate: Option<string>): seq<string> {
    if Truthy(aggregate) && aggregate.value !in texts then texts + [aggregate.value] else texts
  }

  /** The aggregate adds at most one entry after the collected ones, never a duplicate
      of one already there, and afterwards a non-empty aggregate is always in the list. */
  lemma AggregateAddsAtMostOne(texts: seq<string>, aggregate: Option<string>)
    ensures var r := WithAggregate(texts, aggregate);
      |texts| <= |r| <= |texts| + 1 && r[..|texts|] == texts &&
      (Truthy(aggregate) ==> aggregate.value in r) &&
      (|r| == |texts| + 1 ==> r[|texts|] !in texts)
  {
    var r := WithAggregate(texts, aggregate);
    assert r[..|texts|] == texts;
  }

  // ---------------------------------------------------------------------------
  // What the routes answer

  /** A JSON answer body: an error with optional details, or the collected texts and
      images, with the updated history when the route sends one back. */
  datatype ReplyBody =
    | ErrorBody(error: string, details: Option<string>)
    | ContentBody(text: seq<string>, images: seq<string>, updatedHistory: Option<seq<Content>>)

  datatype HttpReply = HttpReply(status: int, body: ReplyBody)
}
