/**
 * The wrapper around the text/image generation service: the "Error: "
 * convention of `generate_text` and `generate_with_image`, the data-URL
 * prefix removed from an image before it is sent, and subject detection.
 * The HTTP call itself is a `Provider`, an oracle from request to reply.
 */
module GeminiApi {
  import opened Util
  import opened PyText
  import opened JsonValue
  import opened ResponseExtractor

  /**
   * The prompts the backend sends, as their variable parts; the fixed
   * instruction prose around these parts is not modelled. Subject fields are
   * whatever `detect_subject` produced, formatted by Python's `str()`.
   */
  datatype Prompt =
    | SubjectPrompt(content: string)
    | InitialQuestionsPrompt(subject: Json, topic: Json, level: Json, preview: string)
    | FollowUpPrompt(subject: Json, topic: Json, recent: string)
    | TutorPrompt(subject: Json, topic: Json, level: Json, concepts: string,
                  tutorial: string, conversation: string, message: string)

  datatype Request = TextRequest(prompt: Prompt) | ImageRequest(prompt: Prompt, imageData: string)

  /** What the service call yields: generated text, or the message of the exception it raised. */
  datatype Reply = Generated(text: string) | Failed(message: string)

  type Provider = Request -> Reply

  const ErrorPrefix := "Error: "
  const DataUrlMarker := "base64,"
  const SubjectExcerptLength := 2000

  /** Neither generator raises: a failure becomes the text "Error: " followed by its message. */
  function ReplyText(reply: Reply): (r: string)
    ensures reply.Generated? ==> r == reply.text
    ensures reply.Failed? ==> StartsWith(r, ErrorPrefix) && r[|ErrorPrefix|..] == reply.message
  {
    match reply
    case Generated(text) => text
    case Failed(message) => ErrorPrefix + message
  }

  /** `generate_text`: the generated text, or "Error: " and the failure's message; it never raises. */
  function GenerateText(provider: Provider, prompt: Prompt): (r: string)
    ensures provider(TextRequest(prompt)).Generated? ==> r == provider(TextRequest(prompt)).text
    ensures provider(TextRequest(prompt)).Failed? ==>
      StartsWith(r, ErrorPrefix) && r[|ErrorPrefix|..] == provider(TextRequest(prompt)).message
  {
    ReplyText(provider(TextRequest(prompt)))
  }

  /**
   * The image data actually sent: with a data-URL prefix, the text after
   * the first "base64," up to the next one or the end; otherwise the input.
   */
  function StripDataUrl(image: string): (r: string)
    ensures !Contains(image, DataUrlMarker) ==> r == image
    ensures Contains(image, DataUrlMarker) ==>
      var start := FindFrom(image, DataUrlMarker, 0).value + |DataUrlMarker|;
      && start + |r| <= |image| && r == image[start..start + |r|]
      && (start + |r| == |image| || OccursAt(image, DataUrlMarker, start + |r|))
      && !Contains(r, DataUrlMarker)
  {
    if Contains(image, DataUrlMarker) then
      SplitSecondFree(image, DataUrlMarker);
      SplitSecond(image, DataUrlMarker)
    else
      image
  }

  /**
   * `generate_with_image`: the service sees the stripped image data; the
   * result is the generated text, or "Error: " and the failure's message.
   */
  function GenerateWithImage(provider: Provider, prompt: Prompt, image: string): (r: string)
    ensures var reply := provider(ImageRequest(prompt, StripDataUrl(image)));
      && (reply.Generated? ==> r == reply.text)
      && (reply.Failed? ==> StartsWith(r, ErrorPrefix) && r[|ErrorPrefix|..] == reply.message)
  {
    ReplyText(provider(ImageRequest(prompt, StripDataUrl(image))))
  }

  /** In "<header>base64,<payload>" with no marker in the header, the first marker follows the header. */
  lemma FirstMarkerAfterHeader(header: string, payload: string)
    requires !Contains(header, DataUrlMarker)
    ensures FindFrom(header + DataUrlMarker + payload, DataUrlMarker, 0) == Some(|header|)
  {
    var image := header + DataUrlMarker + payload;
    var at := |header|;
    assert image[at..at + 7] == DataUrlMarker;
    assert OccursAt(image, DataUrlMarker, at);
    forall j: nat | j < at
      ensures !OccursAt(image, DataUrlMarker, j)
    {
      if j + 7 <= at {
        // An occurrence ending inside the header would be one in the header.
        OccursInInfix(image, DataUrlMarker, 0, at, j);
        assert image[0..at] == header;
        assert !OccursAt(header, DataUrlMarker, j);
      } else {
        // An occurrence overlapping the marker would need a 'b' past index 0 of "base64,".
        assert forall d :: 0 < d < |DataUrlMarker| ==> DataUrlMarker[d] != 'b';
        assert image[j..j + 7][at - j] == image[at] == 'b';
      }
    }
  }

  /** A data URL such as "data:image/png;base64,<payload>" sends exactly its payload. */
  lemma DataUrlPayloadSent(provider: Provider, prompt: Prompt, header: string, payload: string)
    requires !Contains(header, DataUrlMarker)
    requires !Contains(payload, DataUrlMarker)
    ensures StripDataUrl(header + DataUrlMarker + payload) == payload
    ensures GenerateWithImage(provider, prompt, header + DataUrlMarker + payload)
         == ReplyText(provider(ImageRequest(prompt, payload)))
  {
    var image := header + DataUrlMarker + payload;
    FirstMarkerAfterHeader(header, payload);
    assert image[|header| + 7..] == payload;
    SplitSecondTail(image, DataUrlMarker, |header|);
  }

  /** A WebP data URL, whose header holds a 'b', sends exactly its payload. */
  lemma WebpDataUrlExample(provider: Provider, prompt: Prompt)
    ensures StripDataUrl("data:image/webp;base64,AAAA") == "AAAA"
    ensures GenerateWithImage(provider, prompt, "data:image/webp;base64,AAAA")
         == ReplyText(provider(ImageRequest(prompt, "AAAA")))
  {
    var header := "data:image/webp;";
    forall i: nat | i <= |header|
      ensures !OccursAt(header, DataUrlMarker, i)
    {
      if i + |DataUrlMarker| <= |header| {
        assert header[i..i + 7][0] == header[i];
      }
    }
    assert header + DataUrlMarker + "AAAA" == "data:image/webp;base64,AAAA";
    DataUrlPayloadSent(provider, prompt, header, "AAAA");
  }

  /** The prompt for subject detection embeds the first 2000 characters of the content. */
  function SubjectPromptFor(content: string): (p: Prompt)
    ensures p.SubjectPrompt?
    ensures |p.content| == Min(SubjectExcerptLength, |content|)
    ensures p.content == content[..|p.content|]
  {
    SubjectPrompt(Take(content, SubjectExcerptLength))
  }

  /** The record returned when the reply cannot be parsed; `reason` is the parser's message. */
  function UnknownSubject(reason: string): (j: Json)
    ensures Get(j, "subject") == Some(JString("unknown"))
    ensures Get(j, "topic") == Some(JString(reason))
    ensures Get(j, "level") == Some(JString("unknown"))
    ensures Get(j, "concepts") == Some(JArray([]))
    ensures j.JObject? && Keys(j.members) == ["subject", "topic", "level", "concepts"]
  {
    var members := [("subject", JString("unknown")), ("topic", JString(reason)),
                    ("level", JString("unknown")), ("concepts", JArray([]))];
    assert Keys(members) == ["subject", "topic", "level", "concepts"];
    assert Lookup(members[3..], "concepts") == Some(JArray([]));
    assert Lookup(members[2..], "level") == Some(JString("unknown"));
    assert Lookup(members[2..], "concepts") == Some(JArray([]));
    assert Lookup(members[1..], "topic") == Some(JString(reason));
    assert Lookup(members[1..], "level") == Some(JString("unknown"));
    assert Lookup(members[1..], "concepts") == Some(JArray([]));
    JObject(members)
  }

  /**
   * `detect_subject`: whatever the parser returns for the cleaned reply,
   * with no check of its shape; on a parse failure, the fully populated
   * "unknown" record carrying the parser's message.
   */
  function DetectSubject(content: string, provider: Provider, parse: Parser): (r: Json)
    ensures var outcome := Extract(GenerateText(provider, SubjectPromptFor(content)), parse);
      && (outcome.Parsed? ==> r == outcome.value)
      && (outcome.ParseError? ==>
            && Get(r, "subject") == Some(JString("unknown"))
            && Get(r, "topic") == Some(JString(outcome.message))
            && Get(r, "level") == Some(JString("unknown"))
            && Get(r, "concepts") == Some(JArray([])))
  {
    match Extract(GenerateText(provider, SubjectPromptFor(content)), parse)
    case Parsed(value) => value
    case ParseError(message) => UnknownSubject(message)
  }

  /** A failed detection call hands the parser the stripped error text, never a fenced block. */
  lemma FailedCallReachesParser(provider: Provider, prompt: Prompt, message: string)
    requires provider(TextRequest(prompt)) == Failed(message)
    ensures CleanResponse(GenerateText(provider, prompt)) == Strip(ErrorPrefix + message)
  {
    var t := ErrorPrefix + message;
    assert GenerateText(provider, prompt) == t;
    assert t[0] == 'E';
    assert LeadingSpace(t) == 0;
    var r := Strip(t);
    assert !AllSpace(t);
    assert r[0] == 'E';
    assert !StartsWith(r, Fence);
  }
}
