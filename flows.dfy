/** Properties of the components taken together: what the browser sees of the server's reply,
    the prompt that reaches the image service, and the dimension options as parsed. */
module Flows {
  import opened Wrappers
  import opened Js
  import opened ImageTypes
  import opened ClientApi
  import GenerateRoute
  import Generator
  import Prompt

  /** The browser hands on a successful reply of the generation endpoint unchanged, and turns a
      failed one into a failure with the same message (or the status, for an empty message). */
  lemma ClientSeesRouteReply(r: GenerateRoute.Reply)
    requires GenerateRoute.WellFormedReply(r)
    ensures var result := GenerateImageResult(HttpResponse(r.status, JsonBody(r.envelope)));
            && (r.status == 200 ==> result == r.envelope && result.success && Truthy(result.imageUrl))
            && (r.status != 200 ==>
                  result == Failure(if r.envelope.error.value != "" then r.envelope.error.value
                                    else HttpErrorMessage(r.status)))
  {
  }

  /** A style other than `realistic` is named twice in the prompt sent to the image service:
      once by the client and once more by the server. */
  lemma StyleAppearsTwice(prompt: string, style: string, dimensions: string)
    requires style != "" && style != "realistic"
    ensures GenerateRoute.ServerPrompt(Generator.ClientPrompt(prompt, style), Some(style), Some(dimensions))
            == prompt + GenerateRoute.StyleSuffix(style) + GenerateRoute.StyleSuffix(style)
               + (if dimensions != "" then GenerateRoute.QualitySuffix else "")
  {
    assert Generator.ClientPrompt(prompt, style) == prompt + GenerateRoute.StyleSuffix(style);
  }

  /** The styles the form offers: the first is the default, `realistic`, which adds nothing,
      and each of the others is non-empty, so the prompt names it twice. */
  lemma OfferedStyles(prompt: string, dimensions: string)
    ensures Prompt.Styles[0].value == Prompt.DefaultStyle
    ensures GenerateRoute.ServerPrompt(Generator.ClientPrompt(prompt, Prompt.Styles[0].value),
                                       Some(Prompt.Styles[0].value), Some(dimensions))
            == prompt + (if dimensions != "" then GenerateRoute.QualitySuffix else "")
    ensures forall k | 1 <= k < |Prompt.Styles| ::
              var style := Prompt.Styles[k].value;
              GenerateRoute.ServerPrompt(Generator.ClientPrompt(prompt, style), Some(style), Some(dimensions))
              == prompt + GenerateRoute.StyleSuffix(style) + GenerateRoute.StyleSuffix(style)
                 + (if dimensions != "" then GenerateRoute.QualitySuffix else "")
  {
    RealisticAddsNothing(prompt, dimensions);
    forall k | 1 <= k < |Prompt.Styles|
      ensures var style := Prompt.Styles[k].value;
              GenerateRoute.ServerPrompt(Generator.ClientPrompt(prompt, style), Some(style), Some(dimensions))
              == prompt + GenerateRoute.StyleSuffix(style) + GenerateRoute.StyleSuffix(style)
                 + (if dimensions != "" then GenerateRoute.QualitySuffix else "")
    {
      StyleAppearsTwice(prompt, Prompt.Styles[k].value, dimensions);
    }
  }

  /** An empty style is not `realistic` for the client, which adds `,  style`, but is falsy for
      the server, which adds nothing. */
  lemma EmptyStyleOnlyOnClient(prompt: string, dimensions: string)
    ensures GenerateRoute.ServerPrompt(Generator.ClientPrompt(prompt, ""), Some(""), Some(dimensions))
            == prompt + ",  style" + (if dimensions != "" then GenerateRoute.QualitySuffix else "")
  {
  }

  /** The realistic style adds nothing on either side. */
  lemma RealisticAddsNothing(prompt: string, dimensions: string)
    ensures GenerateRoute.ServerPrompt(Generator.ClientPrompt(prompt, "realistic"), Some("realistic"), Some(dimensions))
            == prompt + (if dimensions != "" then GenerateRoute.QualitySuffix else "")
  {
  }

  /** What the form submits passes the server's prompt check, so the generation endpoint never
      answers "Prompt is required" to it. */
  lemma SubmittedPromptIsAccepted(prompt: string, style: string, dimensions: string)
    requires Prompt.SubmitCall(prompt, style, dimensions).Some?
    ensures var call := Prompt.SubmitCall(prompt, style, dimensions).value;
            Truthy(Some(Generator.ClientPrompt(call.prompt, call.style)))
  {
  }

  /** Every dimension option parses to a positive finite width and height. */
  lemma DimensionOptionsParse()
    ensures forall k | 0 <= k < |Prompt.DimensionOptions| ::
              var d := Generator.ParseDimensions(Prompt.DimensionOptions[k].value);
              d.width.Finite? && d.width.value > 0 && d.height.Finite? && d.height.value > 0
  {
    Prompt.DimensionOptionsWellFormed();
    forall k | 0 <= k < |Prompt.DimensionOptions|
      ensures var d := Generator.ParseDimensions(Prompt.DimensionOptions[k].value);
              d.width.Finite? && d.width.value > 0 && d.height.Finite? && d.height.value > 0
    {
      var w: nat, h: nat :| w > 0 && h > 0 && Prompt.DimensionOptions[k].value == Prompt.DimensionValue(w, h);
      Generator.ParseDimensionValue(w, h);
    }
  }
}
