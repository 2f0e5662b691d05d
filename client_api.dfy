/** The browser-side API helpers: the history kept in the `imageHistory` storage slot, and the
    mapping from the outcome of the call to `/api/generate` to the envelope handed to the UI. */
module ClientApi {
  import opened Wrappers
  import opened Js
  import opened ImageTypes

  // ---------------------------------------------------------------------------
  // The history slot

  /** The content of the `imageHistory` slot: missing (or empty text), text that does not
      decode, or a decoded list of images. */
  datatype Slot = Absent | Corrupt | Stored(images: seq<GeneratedImage>)

  /** The `imageHistory` entry of the browser's storage. */
  class HistorySlot {
    var item: Slot

    constructor(initial: Slot)
      ensures item == initial
    {
      item := initial;
    }
  }

  /** The most images the history keeps. */
  const HistoryCapacity: nat := 50

  /** The list a read of the slot yields: the stored list, or the empty list when the slot is
      missing or does not decode. */
  function StoredHistory(item: Slot): (history: seq<GeneratedImage>)
    ensures item.Stored? ==> history == item.images
    ensures !item.Stored? ==> history == []
  {
    if item.Stored? then item.images else []
  }

  /** The list saved after `image`: the image in front of the previous list, cut to the first
      `HistoryCapacity` entries. */
  function SaveUpdate(image: GeneratedImage, history: seq<GeneratedImage>): (r: seq<GeneratedImage>)
    ensures |r| == if |history| + 1 <= HistoryCapacity then |history| + 1 else HistoryCapacity
    ensures r[0] == image
    ensures r[1..] == history[..|r| - 1]
  {
    var all := [image] + history;
    if |all| <= HistoryCapacity then all else all[..HistoryCapacity]
  }

  /** Reads the history; a failing read of the storage yields the empty list. */
  method GetImageHistory(store: HistorySlot, readFails: bool) returns (history: seq<GeneratedImage>)
    ensures history == if readFails then [] else StoredHistory(store.item)
  {
    if readFails {
      return [];
    }
    match store.item
    case Absent => history := [];
    case Corrupt => history := [];
    case Stored(images) => history := images;
  }

  /** Saves `image` in front of the history read from the slot. A failing write leaves the slot
      as it was; a failing read counts as an empty history. */
  method SaveImageToHistory(store: HistorySlot, image: GeneratedImage, readFails: bool, writeFails: bool)
    modifies store
    ensures store.item == if writeFails then old(store.item)
                          else Stored(SaveUpdate(image, if readFails then [] else StoredHistory(old(store.item))))
  {
    var history := GetImageHistory(store, readFails);
    var updated := [image] + history;
    if |updated| > HistoryCapacity {
      updated := updated[..HistoryCapacity];
    }
    if !writeFails {
      store.item := Stored(updated);
    }
  }

  /** Removes the slot; a failing removal leaves it as it was. */
  method ClearImageHistory(store: HistorySlot, removeFails: bool)
    modifies store
    ensures store.item == if removeFails then old(store.item) else Absent
  {
    if !removeFails {
      store.item := Absent;
    }
  }

  /** Saving to a missing, undecodable or unreadable slot stores the new image alone. */
  lemma SaveOnEmpty(image: GeneratedImage)
    ensures SaveUpdate(image, StoredHistory(Absent)) == [image]
    ensures SaveUpdate(image, StoredHistory(Corrupt)) == [image]
  {
  }

  /** Saving does not look for the image's id: an image whose id is already among the first 49
      entries ends up stored twice, at the front and one place after its old position. */
  lemma SaveKeepsDuplicates(image: GeneratedImage, history: seq<GeneratedImage>, k: nat)
    requires k < |history| && k < HistoryCapacity - 1 && history[k].id == image.id
    ensures var r := SaveUpdate(image, history);
            k + 1 < |r| && r[0].id == image.id && r[k + 1].id == image.id
  {
    var r := SaveUpdate(image, history);
    assert r[1..][k] == history[k];
  }

  /** The history after saving `images` one after the other, the first saved first. */
  function SaveAll(images: seq<GeneratedImage>, history: seq<GeneratedImage>): seq<GeneratedImage>
    decreases |images|
  {
    if images == [] then history
    else SaveUpdate(images[|images| - 1], SaveAll(images[..|images| - 1], history))
  }

  /** `xs` in reverse order. */
  function Reversed<T>(xs: seq<T>): (r: seq<T>)
    ensures |r| == |xs|
  {
    if xs == [] then [] else [xs[|xs| - 1]] + Reversed(xs[..|xs| - 1])
  }

  /** The first `HistoryCapacity` entries of `xs`. */
  function Capped<T>(xs: seq<T>): (r: seq<T>)
    ensures |r| <= HistoryCapacity && |r| <= |xs| && r == xs[..|r|]
    ensures |xs| <= HistoryCapacity ==> r == xs
  {
    if |xs| <= HistoryCapacity then xs else xs[..HistoryCapacity]
  }

  /** A series of saves keeps the newest `HistoryCapacity` images, newest first, followed by
      what was there before while room remains. A history longer than the cap (the gallery
      writes its list back uncapped) is cut by the first save. */
  lemma {:induction false} SaveAllKeepsNewest(images: seq<GeneratedImage>, history: seq<GeneratedImage>)
    requires images != [] || |history| <= HistoryCapacity
    ensures SaveAll(images, history) == Capped(Reversed(images) + history)
    decreases |images|
  {
    if images != [] {
      var init, last := images[..|images| - 1], images[|images| - 1];
      if init == [] && |history| > HistoryCapacity {
        assert Reversed(images) == [last];
        SaveUpdateIsCapped(last, history);
        return;
      }
      SaveAllKeepsNewest(init, history);
      var before := Reversed(init) + history;
      SaveUpdateIsCapped(last, Capped(before));
      CappedAfter([last], before);
      assert [last] + before == Reversed(images) + history;
    }
  }

  /** A save is the capped list with the image in front. */
  lemma SaveUpdateIsCapped(image: GeneratedImage, history: seq<GeneratedImage>)
    ensures SaveUpdate(image, history) == Capped([image] + history)
  {
  }

  /** Cutting the tail of a list first does not change its first `HistoryCapacity` entries. */
  lemma CappedAfter<T>(front: seq<T>, xs: seq<T>)
    ensures Capped(front + Capped(xs)) == Capped(front + xs)
  {
    if |xs| > HistoryCapacity {
      assert (front + Capped(xs))[..HistoryCapacity] == (front + xs)[..HistoryCapacity];
    }
  }

  /** With a full history, a save evicts exactly the oldest entry. */
  lemma SaveOnFullHistory(image: GeneratedImage, history: seq<GeneratedImage>)
    requires |history| == HistoryCapacity
    ensures SaveUpdate(image, history) == [image] + history[..HistoryCapacity - 1]
  {
    var r := SaveUpdate(image, history);
    assert r == [r[0]] + r[1..];
  }

  // ---------------------------------------------------------------------------
  // generateImage

  /** The body of a response from `/api/generate`: a decoded envelope, or the message of the
      exception `json()` threw. */
  datatype ResponseBody = JsonBody(envelope: GenerationResponse) | NotJson(message: string)

  /** The outcome of the call to `/api/generate`: rejected with a message, or answered. */
  datatype FetchOutcome = FetchRejected(message: string) | HttpResponse(status: nat, body: ResponseBody)

  /** The message used for a non-ok response without an error of its own. */
  function HttpErrorMessage(status: nat): string {
    "HTTP error! status: " + ToDecimal(status)
  }

  /** What `generateImage` resolves to; it never rejects. An ok response hands on its envelope
      unchanged; a non-ok response becomes a failure carrying the body's error, or the status
      when the body has none; a rejected call or an undecodable ok body becomes a failure
      carrying the exception's message. */
  function GenerateImageResult(outcome: FetchOutcome): (r: GenerationResponse)
    ensures outcome.HttpResponse? && IsOkStatus(outcome.status) && outcome.body.JsonBody? ==>
            r == outcome.body.envelope
    ensures outcome.HttpResponse? && !IsOkStatus(outcome.status) ==>
            r == Failure(if outcome.body.JsonBody? && Truthy(outcome.body.envelope.error)
                         then outcome.body.envelope.error.value
                         else HttpErrorMessage(outcome.status))
    ensures outcome.FetchRejected? ==> r == Failure(outcome.message)
    ensures outcome.HttpResponse? && IsOkStatus(outcome.status) && outcome.body.NotJson? ==>
            r == Failure(outcome.body.message)
  {
    match outcome
    case FetchRejected(message) => Failure(message)
    case HttpResponse(status, body) =>
      if !IsOkStatus(status) then
        var errorData := if body.JsonBody? then body.envelope.error else None;
        Failure(if Truthy(errorData) then errorData.value else HttpErrorMessage(status))
      else if body.NotJson? then Failure(body.message)
      else body.envelope
  }

  /** A failure never comes back as a success: only an ok response can carry `success`. */
  lemma OnlyOkSucceeds(outcome: FetchOutcome)
    requires GenerateImageResult(outcome).success
    ensures outcome.HttpResponse? && IsOkStatus(outcome.status) && outcome.body.JsonBody?
    ensures GenerateImageResult(outcome) == outcome.body.envelope
  {
  }

  /** A non-ok response always yields a non-empty error message. */
  lemma NonOkHasMessage(status: nat, body: ResponseBody)
    requires !IsOkStatus(status)
    ensures var r := GenerateImageResult(HttpResponse(status, body));
            !r.success && r.error.Some? && r.error.value != ""
  {
  }
}
