/** The quote edit form: its initial image state, the gallery handlers that
    select, deselect and add images, the automatic slug, and the PATCH payload
    built from the form state on submit. */
module EditQuoteForm {
  import opened Common
  import QuoteSchema

  /** A gallery record as the quote's links carry it. */
  datatype GalleryRecord = GalleryRecord(id: string, url: string, publicId: string)

  /** A gallery image in the form's state, with its two flags. */
  datatype GalleryItem = GalleryItem(id: string, url: string, publicId: string, isActive: bool, isBackground: bool)

  datatype QuoteLink = QuoteLink(gallery: GalleryRecord, isActive: bool)

  datatype TagRef = TagRef(id: string, name: string)

  datatype SelectedImage = SelectedImage(imageUrl: Option<string>, publicId: Option<string>, isBackground: bool)

  /** The quote the form edits, with its gallery links and tags. */
  datatype EditedQuote = EditedQuote(
    content: string,
    slug: string,
    categoryId: string,
    authorProfileId: string,
    featured: bool,
    backgroundImage: Option<string>,
    gallery: seq<QuoteLink>,
    tags: seq<TagRef>)

  // ---------------------------------------------------------------------
  // The initial state

  /** The position of the first active link, or -1. */
  function FirstActiveLink(links: seq<QuoteLink>): (i: int)
    ensures -1 <= i < |links|
    ensures i == -1 <==> forall k :: 0 <= k < |links| ==> !links[k].isActive
    ensures i >= 0 ==> links[i].isActive && forall k :: 0 <= k < i ==> !links[k].isActive
  {
    if links == [] then -1
    else if links[0].isActive then 0
    else
      var j := FirstActiveLink(links[1..]);
      if j == -1 then -1 else j + 1
  }

  /** The selection the form starts with: the quote's background image, the
      first active link's public id (`|| null`), and the background flag set
      exactly when the quote has a non-empty background image. */
  function InitialSelection(q: EditedQuote): (s: SelectedImage)
    ensures s.imageUrl == q.backgroundImage
    ensures s.isBackground <==> Truthy(q.backgroundImage)
    ensures s.publicId.Some? <==>
      FirstActiveLink(q.gallery) >= 0 && q.gallery[FirstActiveLink(q.gallery)].gallery.publicId != ""
    ensures s.publicId.Some? ==> s.publicId.value == q.gallery[FirstActiveLink(q.gallery)].gallery.publicId
  {
    var i := FirstActiveLink(q.gallery);
    var publicId := if i >= 0 && q.gallery[i].gallery.publicId != "" then Some(q.gallery[i].gallery.publicId) else None;
    SelectedImage(q.backgroundImage, publicId, Truthy(q.backgroundImage))
  }

  function ItemOf(link: QuoteLink, backgroundImage: Option<string>): GalleryItem {
    GalleryItem(link.gallery.id, link.gallery.url, link.gallery.publicId, link.isActive,
                backgroundImage == Some(link.gallery.url))
  }

  /** The gallery the form starts with: one item per link, in order, keeping
      `isActive`, and the background exactly when its url is the quote's
      background image. */
  function InitialGallery(q: EditedQuote): (items: seq<GalleryItem>)
    ensures |items| == |q.gallery|
    ensures forall k :: 0 <= k < |items| ==>
      && items[k].id == q.gallery[k].gallery.id && items[k].url == q.gallery[k].gallery.url
      && items[k].publicId == q.gallery[k].gallery.publicId
      && items[k].isActive == q.gallery[k].isActive
      && (items[k].isBackground <==> q.backgroundImage == Some(q.gallery[k].gallery.url))
  {
    Map(q.gallery, (l: QuoteLink) => ItemOf(l, q.backgroundImage))
  }

  // ---------------------------------------------------------------------
  // The gallery handlers, as functions of the list

  /** The list after selecting `image`: same images in the same order, active
      exactly where the id is the image's, background exactly where the url is. */
  function ImageSelected(items: seq<GalleryItem>, image: GalleryItem): (r: seq<GalleryItem>)
    ensures |r| == |items|
    ensures forall k :: 0 <= k < |r| ==>
      && r[k].id == items[k].id && r[k].url == items[k].url && r[k].publicId == items[k].publicId
      && (r[k].isActive <==> items[k].id == image.id)
      && (r[k].isBackground <==> items[k].url == image.url)
  {
    Map(items, (x: GalleryItem) => x.(isActive := x.id == image.id, isBackground := x.url == image.url))
  }

  /** The position of the first item with `id`, or -1. */
  function FindId(items: seq<GalleryItem>, id: string): (i: int)
    ensures -1 <= i < |items|
    ensures i == -1 <==> forall k :: 0 <= k < |items| ==> items[k].id != id
    ensures i >= 0 ==> items[i].id == id && forall k :: 0 <= k < i ==> items[k].id != id
  {
    if items == [] then -1
    else if items[0].id == id then 0
    else
      var j := FindId(items[1..], id);
      if j == -1 then -1 else j + 1
  }

  /** The list without the items of `id`. */
  function WithoutId(items: seq<GalleryItem>, id: string): (r: seq<GalleryItem>)
    ensures |r| <= |items|
    ensures forall k :: 0 <= k < |r| ==> r[k].id != id && r[k] in items
    ensures forall k :: 0 <= k < |items| && items[k].id != id ==> items[k] in r
    ensures (forall k :: 0 <= k < |items| ==> items[k].id != id) ==> r == items
  {
    if items == [] then []
    else
      var rest := WithoutId(items[1..], id);
      assert forall k :: 1 <= k < |items| ==> items[k] == items[1..][k - 1];
      if items[0].id != id then [items[0]] + rest else rest
  }

  /** Removal keeps the order of what remains: it distributes over concatenation. */
  lemma {:induction false} WithoutIdAppend(a: seq<GalleryItem>, b: seq<GalleryItem>, id: string)
    ensures WithoutId(a + b, id) == WithoutId(a, id) + WithoutId(b, id)
  {
    if a == [] {
      assert a + b == b;
    } else {
      assert (a + b)[1..] == a[1..] + b;
      WithoutIdAppend(a[1..], b, id);
    }
  }

  predicate HasId(items: seq<GalleryItem>, id: string) {
    exists k :: 0 <= k < |items| && items[k].id == id
  }

  /** The `filter` condition: the image's id is not yet in the list. */
  function NotListed(items: seq<GalleryItem>): GalleryItem -> bool {
    (x: GalleryItem) => !HasId(items, x.id)
  }

  /** The chosen images whose id is not yet in the list, in the order chosen. */
  function NewSelections(items: seq<GalleryItem>, chosen: seq<GalleryItem>): (r: seq<GalleryItem>)
    ensures |r| <= |chosen|
    ensures forall k :: 0 <= k < |r| ==> r[k] in chosen && !HasId(items, r[k].id)
    ensures forall k :: 0 <= k < |chosen| && !HasId(items, chosen[k].id) ==> chosen[k] in r
  {
    Filter(chosen, NotListed(items))
  }

  /** The filter decides image by image: a chosen image not yet listed is
      kept once, in its place, and a listed one is dropped; so the selection
      is exactly the unlisted chosen images, in the order chosen. */
  lemma {:induction false} NewSelectionsAppend(items: seq<GalleryItem>, a: seq<GalleryItem>, b: seq<GalleryItem>,
                                               x: GalleryItem)
    ensures NewSelections(items, a + b) == NewSelections(items, a) + NewSelections(items, b)
    ensures NewSelections(items, [x]) == if HasId(items, x.id) then [] else [x]
    ensures NewSelections(items, []) == []
  {
    FilterAppend(a, b, NotListed(items));
    assert [x][1..] == [];
  }

  /** An added image: neither active nor background. */
  function Unflagged(x: GalleryItem): (y: GalleryItem)
    ensures !y.isActive && !y.isBackground
    ensures y.id == x.id && y.url == x.url && y.publicId == x.publicId
  {
    x.(isActive := false, isBackground := false)
  }

  // ---------------------------------------------------------------------
  // The submit payload

  /** The `galleryImages` of the payload: one entry per item, in order, both
      flags set exactly when the item's url is the selected url. */
  function PayloadGallery(items: seq<GalleryItem>, selectedUrl: Option<string>): (r: seq<QuoteSchema.GalleryImageState>)
    ensures |r| == |items|
    ensures forall k :: 0 <= k < |r| ==>
      && r[k].id == items[k].id
      && r[k].isActive == r[k].isBackground
      && (r[k].isActive <==> selectedUrl == Some(items[k].url))
  {
    Map(items, (x: GalleryItem) =>
      QuoteSchema.GalleryImageState(x.id, selectedUrl == Some(x.url), selectedUrl == Some(x.url)))
  }

  function TagIds(tags: seq<TagRef>): (r: seq<string>)
    ensures |r| == |tags|
    ensures forall k :: 0 <= k < |r| ==> r[k] == tags[k].id
  {
    Map(tags, (t: TagRef) => t.id)
  }

  /** `tags.disconnect`: the original tags no longer selected, in their order. */
  function Disconnected(original: seq<TagRef>, selected: seq<TagRef>): (r: seq<string>)
    ensures forall k :: 0 <= k < |r| ==> r[k] in TagIds(original) && r[k] !in TagIds(selected)
    ensures forall k :: 0 <= k < |original| && original[k].id !in TagIds(selected) ==> original[k].id in r
  {
    if original == [] then []
    else
      var rest := Disconnected(original[1..], selected);
      assert forall k :: 1 <= k < |original| ==> original[k] == original[1..][k - 1];
      assert TagIds(original)[1..] == TagIds(original[1..]);
      if original[0].id !in TagIds(selected) then [original[0].id] + rest else rest
  }

  /** The PATCH body: the form data with the selected background, the gallery
      flags and the tag changes. Connected and disconnected ids never overlap,
      and every dropped original tag is disconnected. */
  function SubmitPayload(data: QuoteSchema.UpdateQuoteInput, selection: SelectedImage, items: seq<GalleryItem>,
                         selected: seq<TagRef>, original: seq<TagRef>): (p: QuoteSchema.UpdateQuoteInput)
    ensures p.content == data.content && p.slug == data.slug && p.categoryId == data.categoryId
    ensures p.authorProfileId == data.authorProfileId && p.featured == data.featured
    ensures p.backgroundImage == Some(selection.imageUrl)
    ensures p.galleryImages == Some(PayloadGallery(items, selection.imageUrl))
    ensures p.tagsConnect == Some(Some(TagIds(selected)))
    ensures p.tagsDisconnect.Some? && p.tagsDisconnect.value.Some?
    ensures forall x :: x in p.tagsDisconnect.value.value ==> x !in TagIds(selected) && x in TagIds(original)
    ensures forall k :: 0 <= k < |original| && original[k].id !in TagIds(selected) ==>
              original[k].id in p.tagsDisconnect.value.value
  {
    data.(backgroundImage := Some(selection.imageUrl),
          galleryImages := Some(PayloadGallery(items, selection.imageUrl)),
          tagsConnect := Some(Some(TagIds(selected))),
          tagsDisconnect := Some(Some(Disconnected(original, selected))))
  }

  // ---------------------------------------------------------------------
  // The form's state

  class EditForm {
    const quote: EditedQuote
    /** The form's `content`, `slug` and `backgroundImage` values; the last is
        unset until a handler sets it. */
    var content: string
    var slug: string
    var backgroundImage: Option<Option<string>>
    var selectedImage: SelectedImage
    var galleryImages: seq<GalleryItem>
    var selectedTags: seq<TagRef>

    constructor (quote: EditedQuote)
      ensures this.quote == quote
      ensures content == quote.content && slug == quote.slug && backgroundImage == None
      ensures selectedImage == InitialSelection(quote)
      ensures galleryImages == InitialGallery(quote)
      ensures selectedTags == quote.tags
    {
      this.quote := quote;
      content := quote.content;
      slug := quote.slug;
      backgroundImage := None;
      selectedImage := InitialSelection(quote);
      galleryImages := InitialGallery(quote);
      selectedTags := quote.tags;
    }

    /** `handleAutoGenerateSlug`: with empty content nothing changes (only a
        toast is shown); otherwise the slug becomes `slugify` of the first 50
        characters. */
    method HandleAutoGenerateSlug(slugify: string -> string)
      modifies this
      ensures content == "" ==> slug == old(slug)
      ensures content != "" ==> slug == slugify(content[..if |content| < 50 then |content| else 50])
      ensures content == old(content) && backgroundImage == old(backgroundImage)
      ensures selectedImage == old(selectedImage) && galleryImages == old(galleryImages)
      ensures selectedTags == old(selectedTags)
    {
      if content != "" {
        slug := slugify(content[..if |content| < 50 then |content| else 50]);
      }
    }

    /** `handleImageSelect`: the image becomes the selection and the form's
        background, and the list is reflagged by `ImageSelected`. */
    method HandleImageSelect(image: GalleryItem)
      modifies this
      ensures selectedImage == SelectedImage(Some(image.url), Some(image.publicId), true)
      ensures backgroundImage == Some(Some(image.url))
      ensures galleryImages == ImageSelected(old(galleryImages), image)
      ensures content == old(content) && slug == old(slug) && selectedTags == old(selectedTags)
    {
      selectedImage := SelectedImage(Some(image.url), Some(image.publicId), true);
      backgroundImage := Some(Some(image.url));
      galleryImages := ImageSelected(galleryImages, image);
    }

    /** `handleImageDeselect`: an unknown id changes nothing; otherwise every
        item with the id is removed, and the selection and the form's
        background are cleared exactly when the first such item's url was the
        selected url. */
    method HandleImageDeselect(imageId: string)
      modifies this
      ensures FindId(old(galleryImages), imageId) == -1 ==>
        && galleryImages == old(galleryImages) && selectedImage == old(selectedImage)
        && backgroundImage == old(backgroundImage)
      ensures FindId(old(galleryImages), imageId) >= 0 ==>
        var image := old(galleryImages)[FindId(old(galleryImages), imageId)];
        && galleryImages == WithoutId(old(galleryImages), imageId)
        && (if old(selectedImage).imageUrl == Some(image.url)
            then selectedImage == SelectedImage(None, None, false) && backgroundImage == Some(None)
            else selectedImage == old(selectedImage) && backgroundImage == old(backgroundImage))
      ensures content == old(content) && slug == old(slug) && selectedTags == old(selectedTags)
    {
      var i := FindId(galleryImages, imageId);
      if i == -1 {
        return;
      }
      if selectedImage.imageUrl == Some(galleryImages[i].url) {
        selectedImage := SelectedImage(None, None, false);
        backgroundImage := Some(None);
      }
      galleryImages := WithoutId(galleryImages, imageId);
    }

    /** `handleGallerySelect`: the existing items stay in place and the chosen
        images not yet present are appended, in order, unflagged. */
    method HandleGallerySelect(chosen: seq<GalleryItem>)
      modifies this
      ensures galleryImages == old(galleryImages) + Map(NewSelections(old(galleryImages), chosen), Unflagged)
      ensures selectedImage == old(selectedImage) && backgroundImage == old(backgroundImage)
      ensures content == old(content) && slug == old(slug) && selectedTags == old(selectedTags)
    {
      var newImages := NewSelections(galleryImages, chosen);
      var updated := galleryImages;
      var i := 0;
      while i < |newImages|
        invariant 0 <= i <= |newImages|
        invariant updated == old(galleryImages) + Map(newImages[..i], Unflagged)
      {
        assert newImages[..i + 1] == newImages[..i] + [newImages[i]];
        updated := updated + [Unflagged(newImages[i])];
        i := i + 1;
      }
      assert newImages[..i] == newImages;
      galleryImages := updated;
    }

    /** The body `onSubmit` sends for the validated form data `data`. */
    function Payload(data: QuoteSchema.UpdateQuoteInput): (p: QuoteSchema.UpdateQuoteInput)
      reads this
    {
      SubmitPayload(data, selectedImage, galleryImages, selectedTags, quote.tags)
    }
  }
}
