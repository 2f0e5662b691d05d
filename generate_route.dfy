/** The `POST /api/generate` handler: request validation, prompt enhancement, the call to the
    image service (its outcome is a parameter), image-URL extraction from the service's reply
    and the choice of status and envelope. */
module GenerateRoute {
  import opened Wrappers
  import opened Js
  import opened ImageTypes
  import opened UrlScanners

  // ---------------------------------------------------------------------------
  // The decoded request and the service's reply

  /** `await request.json()`: either the decoded body or the message of the exception it threw
      (text that is not JSON, or a `null` body whose destructuring fails). */
  datatype RequestBody = Malformed(message: string) | Parsed(request: GenerationRequest)

  /** `choices[i].message`; `content` is `None` unless it is a string. */
  datatype Message = Message(content: Option<string>)

  /** `choices[i]`; `message` is `None` when it is absent or falsy. */
  datatype Choice = Choice(message: Option<Message>)

  /** The top-level `output` field: absent or falsy, a string, an array (an entry is `None`
      unless it is a string), or some other value. */
  datatype Output = NoOutput | OutputText(text: string) | OutputList(items: seq<Option<string>>) | OutputOther

  /** The decoded JSON reply of the service. An object (or array) exposes `choices` (an absent
      field reads as the empty array, whose first entry is equally missing), `url` and `output`;
      `null` makes the first field access throw with `accessError`; any other primitive value has
      none of the fields. */
  datatype Upstream =
    | ObjectBody(choices: seq<Option<Choice>>, url: Option<string>, output: Output)
    | NullBody(accessError: string)
    | PrimitiveBody

  /** The service's reply body: decoded; readable as text but not JSON, so that `json()` throws
      with `message`; or not readable at all, so that `text()` and `json()` both reject with
      `message`. */
  datatype ReplyBody = Decoded(value: Upstream) | Undecodable(message: string) | Unreadable(message: string)

  /** The outcome of the outbound `fetch`: it rejected with a message, or it answered. */
  datatype UpstreamReply = NetworkFailure(message: string) | HttpReply(status: nat, body: ReplyBody)

  /** A response: the HTTP status and the JSON envelope. */
  datatype Reply = Reply(status: nat, envelope: GenerationResponse)

  // ---------------------------------------------------------------------------
  // Prompt enhancement

  /** The suffix naming a style. */
  function StyleSuffix(style: string): string {
    ", " + style + " style"
  }

  const QualitySuffix := ", high quality, detailed"

  /** The style suffix is added for a non-empty style other than `realistic`. */
  predicate AddsStyle(style: Option<string>) {
    Truthy(style) && style.value != "realistic"
  }

  /** The prompt forwarded to the service: the prompt, then the style suffix when the style
      asks for it, then the quality suffix when dimensions were given. */
  function ServerPrompt(prompt: string, style: Option<string>, dimensions: Option<string>): (r: string)
    ensures |r| >= |prompt| && r[..|prompt|] == prompt
    ensures r == prompt <==> !AddsStyle(style) && !Truthy(dimensions)
  {
    var styled := if AddsStyle(style) then prompt + StyleSuffix(style.value) else prompt;
    if Truthy(dimensions) then styled + QualitySuffix else styled
  }

  /** Builds the enhanced prompt by appending to it in place. */
  method EnhancePrompt(prompt: string, style: Option<string>, dimensions: Option<string>)
    returns (enhanced: string)
    ensures enhanced == ServerPrompt(prompt, style, dimensions)
  {
    enhanced := prompt;
    if Truthy(style) && style.value != "realistic" {
      enhanced := enhanced + StyleSuffix(style.value);
    }
    if Truthy(dimensions) {
      enhanced := enhanced + QualitySuffix;
    }
  }

  /** What follows the unchanged prompt, in each of the four cases: the suffixes that apply,
      the style's first, and nothing else. */
  lemma ServerPromptCases(prompt: string, style: Option<string>, dimensions: Option<string>)
    ensures var r := ServerPrompt(prompt, style, dimensions);
            && (AddsStyle(style) && Truthy(dimensions) ==> r[|prompt|..] == StyleSuffix(style.value) + QualitySuffix)
            && (AddsStyle(style) && !Truthy(dimensions) ==> r[|prompt|..] == StyleSuffix(style.value))
            && (!AddsStyle(style) && Truthy(dimensions) ==> r[|prompt|..] == QualitySuffix)
            && (!AddsStyle(style) && !Truthy(dimensions) ==> r[|prompt|..] == "")
  {
    var r := ServerPrompt(prompt, style, dimensions);
    if AddsStyle(style) && Truthy(dimensions) {
      assert r == prompt + (StyleSuffix(style.value) + QualitySuffix);
    }
  }

  // ---------------------------------------------------------------------------
  // Image-URL extraction

  /** The two scanners, in the order they are tried. */
  const UrlPatterns: seq<Pattern> := [ImagePattern, BarePattern]

  /** The content of the first choice's message, when it is a string. */
  function FirstContent(body: Upstream): (r: Option<string>)
    ensures r.Some? ==> body.ObjectBody? && |body.choices| > 0 && body.choices[0] == Some(Choice(Some(Message(r))))
    ensures body.ObjectBody? && |body.choices| > 0 && body.choices[0].Some? && body.choices[0].value.message.Some? ==>
            r == body.choices[0].value.message.value.content
  {
    if body.ObjectBody? && |body.choices| > 0 && body.choices[0].Some?
       && body.choices[0].value.message.Some?
    then body.choices[0].value.message.value.content
    else None
  }

  /** The URL the scanners find in the first choice's content: the image pattern's leftmost
      match, or else the bare pattern's. */
  function ContentUrl(body: Upstream): (r: Option<string>)
    ensures r.Some? ==> FirstContent(body).Some? && |r.value| > 7
    ensures r.None? <==> (FirstContent(body).None? || FirstMatch(FirstContent(body).value, BarePattern).None?)
    ensures FirstContent(body).Some? && FirstMatch(FirstContent(body).value, ImagePattern).Some? ==>
            r == FirstMatch(FirstContent(body).value, ImagePattern)
    ensures FirstContent(body).Some? && FirstMatch(FirstContent(body).value, ImagePattern).None? ==>
            r == FirstMatch(FirstContent(body).value, BarePattern)
  {
    var content := FirstContent(body);
    if content.None? then None
    else
      var image := FirstMatch(content.value, ImagePattern);
      if image.Some? then
        NoBareWhenImage(content.value);
        image
      else FirstMatch(content.value, BarePattern)
  }

  /** The bare pattern matches wherever the image pattern does. */
  lemma NoBareWhenImage(s: string)
    requires FirstMatch(s, ImagePattern).Some?
    ensures FirstMatch(s, BarePattern).Some?
  {
    if FirstMatch(s, BarePattern).None? {
      NoBareMatchNoImageMatch(s);
    }
  }

  /** What the extraction ends with. */
  datatype Extraction = Found(url: string) | NotFound | Threw(message: string)

  /** The extraction: the scanned content first, then `url`, then `output` as a non-empty string,
      then a truthy `output[0]`; a `null` reply throws at the first field access. */
  function ExtractionSpec(body: Upstream): (r: Extraction)
    ensures r.Found? ==> r.url != ""
    ensures r.Threw? <==> body.NullBody?
    ensures !body.NullBody? && ContentUrl(body).Some? ==> r == Found(ContentUrl(body).value)
  {
    if body.NullBody? then Threw(body.accessError)
    else
      var fromContent := ContentUrl(body);
      if fromContent.Some? then Found(fromContent.value)
      else if body.PrimitiveBody? then NotFound
      else if Truthy(body.url) then Found(body.url.value)
      else if body.output.OutputText? && body.output.text != "" then Found(body.output.text)
      else if body.output.OutputList? && |body.output.items| > 0 && Truthy(body.output.items[0])
      then Found(body.output.items[0].value)
      else NotFound
  }

  /** Runs the scanners over the content, stopping at the first that matches, then tries the
      fallback fields of the reply in turn. */
  method ExtractImageUrl(body: Upstream) returns (r: Extraction)
    ensures r == ExtractionSpec(body)
  {
    if body.NullBody? {
      return Threw(body.accessError);
    }
    var imageUrl: Option<string> := None;
    var content := FirstContent(body);
    if content.Some? {
      var i := 0;
      while i < |UrlPatterns|
        invariant 0 <= i <= |UrlPatterns|
        invariant imageUrl.None?
        invariant i >= 1 ==> FirstMatch(content.value, ImagePattern).None?
        invariant i >= 2 ==> FirstMatch(content.value, BarePattern).None?
      {
        var pattern := UrlPatterns[i];
        assert pattern == if i == 0 then ImagePattern else BarePattern;
        var matches := FirstMatch(content.value, pattern);
        if matches.Some? && matches.value != "" {
          imageUrl := matches;
          break;
        }
        i := i + 1;
      }
      assert imageUrl == ContentUrl(body);
    }
    if !Truthy(imageUrl) && body.ObjectBody? {
      if Truthy(body.url) {
        imageUrl := body.url;
      } else if body.output.OutputText? && body.output.text != "" {
        imageUrl := Some(body.output.text);
      } else if body.output.OutputList? && |body.output.items| > 0 && Truthy(body.output.items[0]) {
        imageUrl := body.output.items[0];
      }
    }
    if !Truthy(imageUrl) {
      return NotFound;
    }
    return Found(imageUrl.value);
  }

  /** A URL of the image pattern anywhere in the content wins over the bare pattern, even over
      a bare URL that starts earlier in the text, and over every fallback field. */
  lemma ImageUrlWins(body: Upstream)
    requires FirstContent(body).Some? && FirstMatch(FirstContent(body).value, ImagePattern).Some?
    ensures ExtractionSpec(body) == Found(FirstMatch(FirstContent(body).value, ImagePattern).value)
  {
  }

  /** Without a URL in the content, the fallbacks are tried in order: `url`, a string `output`,
      then `output[0]`. */
  lemma FallbackOrder(choices: seq<Option<Choice>>, url: Option<string>, output: Output)
    requires ContentUrl(ObjectBody(choices, url, output)).None?
    ensures var r := ExtractionSpec(ObjectBody(choices, url, output));
            && (Truthy(url) ==> r == Found(url.value))
            && (!Truthy(url) && output.OutputText? ==> r == (if output.text != "" then Found(output.text) else NotFound))
            && (!Truthy(url) && output.OutputList? ==>
                  r == (if |output.items| > 0 && Truthy(output.items[0]) then Found(output.items[0].value) else NotFound))
            && (!Truthy(url) && (output.NoOutput? || output.OutputOther?) ==> r == NotFound)
  {
  }

  // ---------------------------------------------------------------------------
  // The handler

  const PromptRequired := "Prompt is required"
  const NoValidUrl := "Failed to generate image. The AI service did not return a valid image URL."

  /** The message of a non-ok reply from the service. */
  function ServiceError(status: nat): string {
    "AI service error: " + ToDecimal(status) + ". Please try again."
  }

  /** The two shapes a reply takes: 200 with a non-empty image URL and no error, or 400/500
      with an error and no image URL. */
  predicate WellFormedReply(r: Reply) {
    if r.envelope.success then
      r.status == 200 && r.envelope.imageUrl.Some? && r.envelope.imageUrl.value != "" && r.envelope.error.None?
    else
      (r.status == 400 || r.status == 500) && r.envelope.imageUrl.None? && r.envelope.error.Some?
  }

  /** Handles one generation request. `upstream` is what the service call yields; `sent` is the
      prompt the handler forwards to the service, `None` when it makes no call. */
  method Post(body: RequestBody, upstream: UpstreamReply) returns (reply: Reply, sent: Option<string>)
    ensures body.Malformed? ==> reply == Reply(500, Failure(body.message)) && sent.None?
    ensures body.Parsed? && !Truthy(body.request.prompt) ==>
            reply == Reply(400, Failure(PromptRequired)) && sent.None?
    ensures body.Parsed? && Truthy(body.request.prompt) ==>
            sent == Some(ServerPrompt(body.request.prompt.value, body.request.style, body.request.dimensions))
    ensures sent.Some? && upstream.NetworkFailure? ==> reply == Reply(500, Failure(upstream.message))
    ensures sent.Some? && upstream.HttpReply? && !IsOkStatus(upstream.status) && !upstream.body.Unreadable? ==>
            reply == Reply(500, Failure(ServiceError(upstream.status)))
    ensures sent.Some? && upstream.HttpReply? && !IsOkStatus(upstream.status) && upstream.body.Unreadable? ==>
            reply == Reply(500, Failure(upstream.body.message))
    ensures sent.Some? && upstream.HttpReply? && IsOkStatus(upstream.status) && !upstream.body.Decoded? ==>
            reply == Reply(500, Failure(upstream.body.message))
    ensures sent.Some? && upstream.HttpReply? && IsOkStatus(upstream.status) && upstream.body.Decoded? ==>
            match ExtractionSpec(upstream.body.value)
            case Found(url) => reply == Reply(200, GenerationResponse(true, Some(url), None))
            case NotFound => reply == Reply(500, Failure(NoValidUrl))
            case Threw(m) => reply == Reply(500, Failure(m))
    ensures WellFormedReply(reply)
  {
    sent := None;
    if body.Malformed? {
      return Reply(500, Failure(body.message)), sent;
    }
    var request := body.request;
    if !Truthy(request.prompt) {
      return Reply(400, Failure(PromptRequired)), sent;
    }
    var enhanced := EnhancePrompt(request.prompt.value, request.style, request.dimensions);
    sent := Some(enhanced);
    if upstream.NetworkFailure? {
      return Reply(500, Failure(upstream.message)), sent;
    }
    if !IsOkStatus(upstream.status) {
      if upstream.body.Unreadable? {
        return Reply(500, Failure(upstream.body.message)), sent;
      }
      return Reply(500, Failure(ServiceError(upstream.status))), sent;
    }
    if !upstream.body.Decoded? {
      return Reply(500, Failure(upstream.body.message)), sent;
    }
    var extracted := ExtractImageUrl(upstream.body.value);
    match extracted
    case Threw(m) =>
      reply := Reply(500, Failure(m));
    case NotFound =>
      reply := Reply(500, Failure(NoValidUrl));
    case Found(url) =>
      reply := Reply(200, GenerationResponse(true, Some(url), None));
  }

  /** A reply whose only output is an array starting with a URL yields that URL. */
  lemma OutputListExample()
    ensures var r := ExtractionSpec(ObjectBody([], None, OutputList([Some("https://x.com/c.jpg")])));
            r == Found("https://x.com/c.jpg")
  {
  }
}
