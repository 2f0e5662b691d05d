/** The gallery component's state: the in-memory list of images and the loading flag, and the
    handlers that load, prepend, delete and clear. */
module Gallery {
  import opened Wrappers
  import opened ImageTypes
  import opened ClientApi

  /** `images` without the entries whose id is `id`, the rest in their order. */
  function WithoutId(images: seq<GeneratedImage>, id: string): (r: seq<GeneratedImage>)
    ensures |r| <= |images|
    ensures forall x :: x in r <==> x in images && x.id != id
  {
    if images == [] then []
    else if images[0].id == id then WithoutId(images[1..], id)
    else [images[0]] + WithoutId(images[1..], id)
  }

  /** Filtering a concatenation filters each part in place, so the kept entries keep their order. */
  lemma {:induction false} WithoutIdConcat(xs: seq<GeneratedImage>, ys: seq<GeneratedImage>, id: string)
    ensures WithoutId(xs + ys, id) == WithoutId(xs, id) + WithoutId(ys, id)
    decreases |xs|
  {
    if xs == [] {
      assert xs + ys == ys;
    } else {
      assert (xs + ys)[1..] == xs[1..] + ys;
      assert (xs + ys)[0] == xs[0];
      WithoutIdConcat(xs[1..], ys, id);
      if xs[0].id != id {
        assert [xs[0]] + (WithoutId(xs[1..], id) + WithoutId(ys, id))
            == ([xs[0]] + WithoutId(xs[1..], id)) + WithoutId(ys, id);
      }
    }
  }

  /** Deleting an id that no entry has leaves the list as it is. */
  lemma {:induction false} WithoutUnknownId(images: seq<GeneratedImage>, id: string)
    requires forall k | 0 <= k < |images| :: images[k].id != id
    ensures WithoutId(images, id) == images
    decreases |images|
  {
    if images != [] {
      WithoutUnknownId(images[1..], id);
      assert [images[0]] + images[1..] == images;
    }
  }

  /** Deleting twice is deleting once. */
  lemma WithoutIdIdempotent(images: seq<GeneratedImage>, id: string)
    ensures WithoutId(WithoutId(images, id), id) == WithoutId(images, id)
  {
    var r := WithoutId(images, id);
    forall k | 0 <= k < |r| ensures r[k].id != id {
      assert r[k] in r;
    }
    WithoutUnknownId(r, id);
  }

  class ImageGallery {
    var images: seq<GeneratedImage>
    var isLoading: bool
    const store: HistorySlot

    /** The first render: no images yet, loading. */
    constructor(store: HistorySlot)
      ensures images == [] && isLoading && this.store == store
    {
      images := [];
      isLoading := true;
      this.store := store;
    }

    /** Replaces the list with the stored history and ends loading. */
    method LoadImages(readFails: bool)
      modifies this
      ensures images == (if readFails then [] else StoredHistory(store.item)) && !isLoading
      ensures unchanged(store)
    {
      isLoading := true;
      var history := GetImageHistory(store, readFails);
      images := history;
      isLoading := false;
    }

    /** The effect run when a new image arrives: a non-null image goes in front, with no cap. */
    method ReceiveNewImage(newImage: Option<GeneratedImage>)
      modifies this
      ensures images == if newImage.Some? then [newImage.value] + old(images) else old(images)
      ensures isLoading == old(isLoading)
    {
      if newImage.Some? {
        images := [newImage.value] + images;
      }
    }

    /** Removes every image with `imageId` and writes the remaining list to the slot as it is;
        a failing write is ignored and the list is filtered all the same. */
    method HandleDeleteImage(imageId: string, writeFails: bool)
      modifies this, store
      ensures images == WithoutId(old(images), imageId)
      ensures store.item == if writeFails then old(store.item) else Stored(images)
      ensures isLoading == old(isLoading)
    {
      var filtered := WithoutId(images, imageId);
      if !writeFails {
        store.item := Stored(filtered);
      }
      images := filtered;
    }

    /** After confirmation, removes the slot and empties the list; without it, does nothing. */
    method HandleClearAll(confirmed: bool, removeFails: bool)
      modifies this, store
      ensures confirmed ==> images == [] && store.item == (if removeFails then old(store.item) else Absent)
      ensures !confirmed ==> images == old(images) && store.item == old(store.item)
      ensures isLoading == old(isLoading)
    {
      if confirmed {
        ClearImageHistory(store, removeFails);
        images := [];
      }
    }
  }

  /** The cap of 50 applies only when saving through the history helper: a gallery that loaded
      a full history, received one more image and then deleted an id nobody has writes all 51
      images back to the slot. */
  method PersistedHistoryExceedsCap(history: seq<GeneratedImage>, image: GeneratedImage, unknownId: string)
    returns (persisted: seq<GeneratedImage>)
    requires |history| == HistoryCapacity
    requires image.id != unknownId && forall k | 0 <= k < |history| :: history[k].id != unknownId
    ensures persisted == [image] + history && |persisted| == HistoryCapacity + 1
  {
    var store := new HistorySlot(Stored(history));
    var gallery := new ImageGallery(store);
    gallery.LoadImages(false);
    gallery.ReceiveNewImage(Some(image));
    WithoutUnknownId([image] + history, unknownId);
    gallery.HandleDeleteImage(unknownId, false);
    persisted := StoredHistory(store.item);
  }
}
