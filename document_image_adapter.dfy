/**
 * The attachment grid of the form screens (adapters/DocumentImageAdapter.kt): a list of
 * document images, each either picked on the device (it has a uri) or already stored (it has
 * a download url). A uri is modelled by its text.
 */
module DocumentImageAdapter {
  import opened Wrappers

  /** `DocumentImage(name, uri, url, type)`. */
  datatype DocumentImage = DocumentImage(name: string, uri: Option<string>, url: string, imageType: string)

  /** What a cell shows: the local file, else the stored file, else the placeholder. */
  datatype ImageSource = FromUri(uri: string) | FromUrl(url: string) | Placeholder

  /** The `when` of `onBindViewHolder`. */
  function SourceOf(image: DocumentImage): (r: ImageSource)
    ensures r.Placeholder? <==> image.uri.None? && image.url == ""
    ensures r.FromUri? <==> image.uri.Some?
    ensures r.FromUri? ==> r.uri == image.uri.value
    ensures r.FromUrl? ==> r.url == image.url && r.url != ""
  {
    if image.uri.Some? then FromUri(image.uri.value)
    else if image.url != "" then FromUrl(image.url)
    else Placeholder
  }

  /** `removeAt(p)`: element p is gone and the others keep their order. */
  function RemovedAt<T>(xs: seq<T>, p: nat): (r: seq<T>)
    requires p < |xs|
    ensures |r| == |xs| - 1
    ensures forall i :: 0 <= i < p ==> r[i] == xs[i]
    ensures forall i :: p <= i < |r| ==> r[i] == xs[i + 1]
  {
    xs[..p] + xs[p + 1..]
  }

  /** Removing an element takes exactly one copy of it out of the list. */
  lemma RemovedAtMultiset<T>(xs: seq<T>, p: nat)
    requires p < |xs|
    ensures multiset(xs) == multiset(RemovedAt(xs, p)) + multiset{xs[p]}
  {
    assert xs == xs[..p] + [xs[p]] + xs[p + 1..];
  }

  class ImageAdapter {
    var images: seq<DocumentImage>
    const canDelete: bool

    constructor(images: seq<DocumentImage>, canDelete: bool)
      ensures this.images == images && this.canDelete == canDelete
    {
      this.images := images;
      this.canDelete := canDelete;
    }

    /** `getItemCount()`. */
    function ItemCount(): nat
      reads this`images
    {
      |images|
    }

    /** `updateImages`: the list is replaced wholesale. */
    method UpdateImages(newImages: seq<DocumentImage>)
      modifies this`images
      ensures images == newImages
      ensures ItemCount() == |newImages|
    {
      images := newImages;
    }

    /** `removeImage`: a position inside the list removes that element; any other is ignored. */
    method RemoveImage(position: nat)
      modifies this`images
      ensures position < |old(images)| ==> images == RemovedAt(old(images), position)
      ensures position >= |old(images)| ==> images == old(images)
    {
      if position < |images| {
        images := images[..position] + images[position + 1..];
      }
    }

    /** `addImage`: the image goes at the end. */
    method AddImage(image: DocumentImage)
      modifies this`images
      ensures images == old(images) + [image]
      ensures ItemCount() == old(ItemCount()) + 1
    {
      images := images + [image];
    }

    /** `getImage`: the image at a position inside the list, else null. */
    method GetImage(position: nat) returns (r: Option<DocumentImage>)
      ensures r.Some? <==> position < |images|
      ensures r.Some? ==> r.value == images[position]
    {
      if position < |images| {
        r := Some(images[position]);
      } else {
        r := None;
      }
    }
  }
}
