/** The prompt form: its three state fields, the option tables it offers, the submit guard
    and the condition that disables the submit button. */
module Prompt {
  import opened Wrappers
  import opened Js

  /** An entry of a select box: the value it sets and the label it shows. */
  datatype SelectOption = SelectOption(value: string, title: string)

  const PromptSuggestions: seq<string> := [
    "A futuristic cityscape at sunset with flying cars",
    "A magical forest with glowing mushrooms and fireflies",
    "A serene mountain lake reflecting snow-capped peaks",
    "A cyberpunk street scene with neon lights",
    "A cozy cottage in a flower-filled meadow",
    "An underwater city with coral architecture"
  ]

  const Styles: seq<SelectOption> := [
    SelectOption("realistic", "Realistic"),
    SelectOption("artistic", "Artistic"),
    SelectOption("cartoon", "Cartoon"),
    SelectOption("sci-fi", "Sci-Fi"),
    SelectOption("fantasy", "Fantasy"),
    SelectOption("minimalist", "Minimalist")
  ]

  const DimensionOptions: seq<SelectOption> := [
    SelectOption("1024x1024", "Square (1024×1024)"),
    SelectOption("1024x768", "Landscape (1024×768)"),
    SelectOption("768x1024", "Portrait (768×1024)"),
    SelectOption("1152x896", "Wide (1152×896)"),
    SelectOption("896x1152", "Tall (896×1152)")
  ]

  const DefaultStyle := "realistic"
  const DefaultDimensions := "1024x1024"

  /** The dimension value `<w>x<h>` for a width and a height. */
  function DimensionValue(width: nat, height: nat): (v: string)
    ensures |v| >= 3 && 'x' in v
  {
    ToDecimal(width) + "x" + ToDecimal(height)
  }

  lemma Decimal1024() ensures ToDecimal(1024) == "1024" {}
  lemma Decimal768() ensures ToDecimal(768) == "768" {}
  lemma Decimal1152() ensures ToDecimal(1152) == "1152" {}
  lemma Decimal896() ensures ToDecimal(896) == "896" {}

  lemma SquareOption() ensures DimensionOptions[0].value == DimensionValue(1024, 1024) { Decimal1024(); }
  lemma LandscapeOption() ensures DimensionOptions[1].value == DimensionValue(1024, 768) { Decimal1024(); Decimal768(); }
  lemma PortraitOption() ensures DimensionOptions[2].value == DimensionValue(768, 1024) { Decimal1024(); Decimal768(); }
  lemma WideOption() ensures DimensionOptions[3].value == DimensionValue(1152, 896) { Decimal1152(); Decimal896(); }
  lemma TallOption() ensures DimensionOptions[4].value == DimensionValue(896, 1152) { Decimal1152(); Decimal896(); }

  /** Every dimension option, the default among them, is `<w>x<h>` with positive decimal
      numbers. */
  lemma DimensionOptionsWellFormed()
    ensures forall k | 0 <= k < |DimensionOptions| :: exists w: nat, h: nat | w > 0 && h > 0 ::
              DimensionOptions[k].value == DimensionValue(w, h)
    ensures DimensionOptions[0].value == DefaultDimensions
  {
    SquareOption();
    LandscapeOption();
    PortraitOption();
    WideOption();
    TallOption();
    forall k | 0 <= k < |DimensionOptions|
      ensures exists w: nat, h: nat | w > 0 && h > 0 :: DimensionOptions[k].value == DimensionValue(w, h)
    {
      if k == 0 { assert DimensionOptions[k].value == DimensionValue(1024, 1024); }
      else if k == 1 { assert DimensionOptions[k].value == DimensionValue(1024, 768); }
      else if k == 2 { assert DimensionOptions[k].value == DimensionValue(768, 1024); }
      else if k == 3 { assert DimensionOptions[k].value == DimensionValue(1152, 896); }
      else { assert DimensionOptions[k].value == DimensionValue(896, 1152); }
    }
  }

  // ---------------------------------------------------------------------------
  // The form state and its handlers

  /** The arguments `onGenerate` is called with. */
  datatype GenerateCall = GenerateCall(prompt: string, style: string, dimensions: string)

  /** What a submit does: call `onGenerate` with the trimmed prompt, the style and the
      dimensions, unless the trimmed prompt is empty. */
  function SubmitCall(prompt: string, style: string, dimensions: string): (r: Option<GenerateCall>)
    ensures r.Some? <==> !AllWhitespaceIn(prompt, 0, |prompt|)
    ensures r.Some? ==> r.value.prompt == Trim(prompt) && r.value.prompt != ""
    ensures r.Some? ==> r.value.style == style && r.value.dimensions == dimensions
  {
    var trimmed := Trim(prompt);
    if trimmed != "" then Some(GenerateCall(trimmed, style, dimensions)) else None
  }

  /** The submit button is disabled while the trimmed prompt is empty or a generation runs. */
  predicate SubmitDisabled(prompt: string, isGenerating: bool)
    ensures SubmitDisabled(prompt, isGenerating) <==> isGenerating || AllWhitespaceIn(prompt, 0, |prompt|)
  {
    Trim(prompt) == "" || isGenerating
  }

  /** An enabled button submits: the prompt it sends is non-empty and has no surrounding
      whitespace. A disabled button with no generation running means the prompt is blank. */
  lemma EnabledButtonSubmits(prompt: string, style: string, dimensions: string, isGenerating: bool)
    ensures !SubmitDisabled(prompt, isGenerating) ==>
            && SubmitCall(prompt, style, dimensions).Some?
            && var sent := SubmitCall(prompt, style, dimensions).value.prompt;
               !IsJsWhitespace(sent[0]) && !IsJsWhitespace(sent[|sent| - 1])
    ensures SubmitDisabled(prompt, false) ==> SubmitCall(prompt, style, dimensions).None?
  {
  }

  /** Clicking a suggestion and submitting always calls `onGenerate`: every suggestion ends
      with a letter, so none of them is blank. */
  lemma SuggestionsSubmit(style: string, dimensions: string)
    ensures forall k | 0 <= k < |PromptSuggestions| ::
              && SubmitCall(PromptSuggestions[k], style, dimensions).Some?
              && SubmitCall(PromptSuggestions[k], style, dimensions).value.prompt != ""
  {
    forall k | 0 <= k < |PromptSuggestions|
      ensures SubmitCall(PromptSuggestions[k], style, dimensions).Some?
    {
      var suggestion := PromptSuggestions[k];
      assert suggestion[|suggestion| - 1] in "swe";
      assert !AllWhitespaceIn(suggestion, 0, |suggestion|);
    }
  }

  class PromptInput {
    var prompt: string
    var style: string
    var dimensions: string

    /** The initial form: an empty prompt, the realistic style and square dimensions. */
    constructor()
      ensures prompt == "" && style == DefaultStyle && dimensions == DefaultDimensions
    {
      prompt := "";
      style := DefaultStyle;
      dimensions := DefaultDimensions;
    }

    /** Typing in the text area. */
    method SetPrompt(value: string)
      modifies this
      ensures prompt == value && style == old(style) && dimensions == old(dimensions)
    {
      prompt := value;
    }

    /** Choosing a style. */
    method SetStyle(value: string)
      modifies this
      ensures style == value && prompt == old(prompt) && dimensions == old(dimensions)
    {
      style := value;
    }

    /** Choosing dimensions. */
    method SetDimensions(value: string)
      modifies this
      ensures dimensions == value && prompt == old(prompt) && style == old(style)
    {
      dimensions := value;
    }

    /** Clicking a suggestion replaces the prompt with it verbatim. */
    method HandleSuggestionClick(suggestion: string)
      modifies this
      ensures prompt == suggestion && style == old(style) && dimensions == old(dimensions)
    {
      prompt := suggestion;
    }

    /** Submitting the form; the result is the `onGenerate` call made, if any. */
    method HandleSubmit() returns (call: Option<GenerateCall>)
      ensures call == SubmitCall(prompt, style, dimensions)
    {
      call := SubmitCall(prompt, style, dimensions);
    }
  }
}
