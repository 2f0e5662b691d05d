/** The generator component: the prompt it sends, the parse of the dimension string, and the
    state it moves through while one generation runs. */
module Generator {
  import opened Wrappers
  import opened Js
  import opened ImageTypes
  import opened ClientApi

  /** The prompt the client sends: the user's prompt, with `, <style> style` added unless the
      style is exactly `realistic`. */
  function ClientPrompt(prompt: string, style: string): (r: string)
    ensures |r| >= |prompt| && r[..|prompt|] == prompt
    ensures r == prompt <==> style == "realistic"
  {
    if style != "realistic" then prompt + ", " + style + " style" else prompt
  }

  /** `dimensions.split('x').map(Number)` taken apart as `[width, height]`: the height is
      `undefined` when there is no `x`, and pieces after a second `x` are ignored. */
  function ParseDimensions(dimensions: string): (r: Dimensions)
    ensures r.width != Undefined
    ensures r.height == Undefined <==> 'x' !in dimensions
  {
    var parts := Split(dimensions, 'x');
    if |parts| == 1 then
      SplitWithoutSeparatorOnly(dimensions);
      Dimensions(ToNumber(parts[0]), Undefined)
    else
      assert 'x' in dimensions by {
        if 'x' !in dimensions {
          SplitWithoutSeparator(dimensions, 'x');
        }
      }
      Dimensions(ToNumber(parts[0]), ToNumber(parts[1]))
  }

  /** A string splits into one piece only when it does not hold the separator. */
  lemma SplitWithoutSeparatorOnly(s: string)
    requires |Split(s, 'x')| == 1
    ensures 'x' !in s
  {
    JoinSplit(s, 'x');
  }

  /** `<w>x<h>` parses back to the width `w` and the height `h`. */
  lemma ParseDimensionValue(width: nat, height: nat)
    ensures ParseDimensions(ToDecimal(width) + "x" + ToDecimal(height))
            == Dimensions(Finite(width), Finite(height))
  {
    var w, h := ToDecimal(width), ToDecimal(height);
    assert 'x' !in w && 'x' !in h by {
      assert forall k | 0 <= k < |w| :: IsDigit(w[k]);
      assert forall k | 0 <= k < |h| :: IsDigit(h[k]);
    }
    SplitAtFirst(w, 'x', h);
    SplitWithoutSeparator(h, 'x');
    ToNumberOfDecimal(width);
    ToNumberOfDecimal(height);
  }

  const DefaultError := "Failed to generate image. Please try again."

  class ImageGenerator {
    var isGenerating: bool
    var error: Option<string>
    var currentImage: Option<GeneratedImage>
    /** Seconds the last generation took. */
    var generationTime: Option<real>
    const store: HistorySlot

    constructor(store: HistorySlot)
      ensures !isGenerating && error.None? && currentImage.None? && generationTime.None?
      ensures this.store == store
    {
      isGenerating := false;
      error := None;
      currentImage := None;
      generationTime := None;
      this.store := store;
    }

    /** The start of a generation: busy, with the previous error, image and time cleared. */
    method BeginGenerate()
      modifies this
      ensures isGenerating && error.None? && currentImage.None? && generationTime.None?
    {
      isGenerating := true;
      error := None;
      currentImage := None;
      generationTime := None;
    }

    /** The end of a generation, given the envelope it produced. A success with an image URL
        becomes a record, saved to the history and then shown; anything else becomes the
        envelope's error or the default message. Either way the component is no longer busy. */
    method FinishGenerate(prompt: string, style: string, dimensions: string, result: GenerationResponse,
                          id: string, timestamp: int, elapsedMs: nat, readFails: bool, writeFails: bool)
      modifies this, store
      ensures !isGenerating && generationTime == Some(elapsedMs as real / 1000.0)
      ensures result.success && Truthy(result.imageUrl) ==>
              var image := GeneratedImage(id, result.imageUrl.value, prompt, timestamp,
                                          Some(ParseDimensions(dimensions)), Some(style));
              && currentImage == Some(image)
              && error == old(error)
              && store.item == (if writeFails then old(store.item)
                                else Stored(SaveUpdate(image, if readFails then [] else StoredHistory(old(store.item)))))
      ensures !(result.success && Truthy(result.imageUrl)) ==>
              && error == Some(if Truthy(result.error) then result.error.value else DefaultError)
              && currentImage == old(currentImage)
              && store.item == old(store.item)
    {
      generationTime := Some(elapsedMs as real / 1000.0);
      if result.success && Truthy(result.imageUrl) {
        var size := ParseDimensions(dimensions);
        var newImage := GeneratedImage(id, result.imageUrl.value, prompt, timestamp, Some(size), Some(style));
        SaveImageToHistory(store, newImage, readFails, writeFails);
        currentImage := Some(newImage);
      } else {
        error := Some(if Truthy(result.error) then result.error.value else DefaultError);
      }
      isGenerating := false;
    }

    /** One generation, with the outcome of the call to the server given. The request carries
        the client prompt, the style and the dimensions; the record keeps the user's own prompt. */
    method HandleGenerate(prompt: string, style: string, dimensions: string, outcome: FetchOutcome,
                          id: string, timestamp: int, elapsedMs: nat, readFails: bool, writeFails: bool)
      returns (request: GenerationRequest)
      modifies this, store
      ensures request == GenerationRequest(Some(ClientPrompt(prompt, style)), Some(style), Some(dimensions))
      ensures !isGenerating && generationTime == Some(elapsedMs as real / 1000.0)
      ensures var result := GenerateImageResult(outcome);
              if result.success && Truthy(result.imageUrl) then
                && error.None?
                && currentImage == Some(GeneratedImage(id, result.imageUrl.value, prompt, timestamp,
                                                       Some(ParseDimensions(dimensions)), Some(style)))
                && store.item == (if writeFails then old(store.item)
                                  else Stored(SaveUpdate(currentImage.value,
                                                         if readFails then [] else StoredHistory(old(store.item)))))
              else
                && error == Some(if Truthy(result.error) then result.error.value else DefaultError)
                && currentImage.None?
                && store.item == old(store.item)
    {
      BeginGenerate();
      request := GenerationRequest(Some(ClientPrompt(prompt, style)), Some(style), Some(dimensions));
      var result := GenerateImageResult(outcome);
      FinishGenerate(prompt, style, dimensions, result, id, timestamp, elapsedMs, readFails, writeFails);
    }
  }
}
