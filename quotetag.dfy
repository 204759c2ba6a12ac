/** The quotes-by-tag service: the tag lookup by slug and the paginated page
    of a tag's quotes, with the gallery's background flag derived from the
    quote's background image and the like and bookmark flags of a signed-in
    user. */
module QuoteTagService {
  import opened Common
  import TagService
  import QuoteDisplayService

  /** `getTagBySlug`: the tag lookup of the tag service, NOT_FOUND when no tag has the slug. */
  function GetTagBySlug(tags: seq<TagService.Tag>, slug: string): (r: Result<TagService.Tag>)
    ensures r.Err? <==> forall k :: 0 <= k < |tags| ==> tags[k].slug != slug
    ensures r.Err? ==> r == Fail(NotFound)
    ensures r.Ok? ==> r.value in tags && r.value.slug == slug
  {
    TagService.GetBySlug(tags, slug)
  }

  datatype QuoteOrder = LikesDesc | ContentAsc | CreatedAtDesc

  /** The `orderBy` of `getQuotesByTag`; `sortBy` defaults to `recent`. */
  function QuoteOrderOf(sortBy: Option<string>): (o: QuoteOrder)
    ensures o == LikesDesc <==> sortBy == Some("popular")
    ensures o == ContentAsc <==> sortBy == Some("alphabetical")
    ensures o == CreatedAtDesc <==> sortBy != Some("popular") && sortBy != Some("alphabetical")
  {
    var s := sortBy.GetOr("recent");
    if s == "popular" then LikesDesc else if s == "alphabetical" then ContentAsc else CreatedAtDesc
  }

  /** A quote row with what the query includes: the author's image urls and
      quote count, and the stored gallery links. */
  datatype TaggedQuote = TaggedQuote(
    id: string,
    content: string,
    backgroundImage: Option<string>,
    authorImageUrls: seq<string>,
    authorQuoteCount: nat,
    gallery: seq<QuoteDisplayService.GalleryEntry>)

  datatype TagQuoteView = TagQuoteView(
    quote: TaggedQuote,
    authorImage: Option<string>,
    quoteCount: nat,
    gallery: seq<QuoteDisplayService.GalleryEntry>,
    isLiked: bool,
    isBookmarked: bool)

  datatype QuoteByTagResult = QuoteByTagResult(
    quotes: seq<TagQuoteView>,
    total: nat,
    hasMore: bool,
    page: int,
    limit: int,
    tagName: string,
    tagSlug: string)

  /** The gallery as returned: each link keeps its image and `isActive`, and is
      the background exactly when it is active and its url is the quote's
      background image. */
  function GalleryView(q: TaggedQuote): (g: seq<QuoteDisplayService.GalleryEntry>)
    ensures |g| == |q.gallery|
    ensures forall k :: 0 <= k < |g| ==>
      && g[k].gallery == q.gallery[k].gallery
      && g[k].isActive == q.gallery[k].isActive
      && (g[k].isBackground <==> q.gallery[k].isActive && q.backgroundImage == Some(q.gallery[k].gallery.url))
  {
    Map(q.gallery, (e: QuoteDisplayService.GalleryEntry) =>
      e.(isBackground := e.isActive && q.backgroundImage == Some(e.gallery.url)))
  }

  /** The `map` transform, with both flags false. */
  function View(q: TaggedQuote): (v: TagQuoteView)
    ensures v.quote == q && v.quoteCount == q.authorQuoteCount
    ensures v.authorImage == QuoteDisplayService.FirstImage(q.authorImageUrls)
    ensures v.gallery == GalleryView(q) && !v.isLiked && !v.isBookmarked
  {
    TagQuoteView(q, QuoteDisplayService.FirstImage(q.authorImageUrls), q.authorQuoteCount, GalleryView(q), false, false)
  }

  function CarriesTag(tag: TagService.Tag): TaggedQuote -> bool {
    (q: TaggedQuote) => q.id in tag.quoteIds
  }

  /** The quotes carrying the tag, in the order given. */
  function WithTag(ordered: seq<TaggedQuote>, tag: TagService.Tag): (r: seq<TaggedQuote>)
    ensures |r| <= |ordered|
    ensures forall k :: 0 <= k < |r| ==> r[k].id in tag.quoteIds && r[k] in ordered
    ensures forall k :: 0 <= k < |ordered| && ordered[k].id in tag.quoteIds ==> ordered[k] in r
  {
    Filter(ordered, CarriesTag(tag))
  }

  /** The tag filter decides quote by quote: a quote with the tag is kept
      once, in its place, so the tag's quotes keep the requested sort order. */
  lemma {:induction false} WithTagAppend(a: seq<TaggedQuote>, b: seq<TaggedQuote>, q: TaggedQuote, tag: TagService.Tag)
    ensures WithTag(a + b, tag) == WithTag(a, tag) + WithTag(b, tag)
    ensures WithTag([q], tag) == if q.id in tag.quoteIds then [q] else []
    ensures WithTag([], tag) == []
  {
    FilterAppend(a, b, CarriesTag(tag));
    assert [q][1..] == [];
  }

  /** The page's views, with the flags looked up only for a truthy `userId`
      and a non-empty page. */
  function Flagged(views: seq<TagQuoteView>, userId: Option<string>,
                   liked: set<(string, string)>, bookmarked: set<(string, string)>): (r: seq<TagQuoteView>)
    requires forall k :: 0 <= k < |views| ==> !views[k].isLiked && !views[k].isBookmarked
    ensures |r| == |views|
    ensures forall k :: 0 <= k < |r| ==>
      && r[k] == views[k].(isLiked := r[k].isLiked, isBookmarked := r[k].isBookmarked)
      && (r[k].isLiked <==> Truthy(userId) && (userId.value, views[k].quote.id) in liked)
      && (r[k].isBookmarked <==> Truthy(userId) && (userId.value, views[k].quote.id) in bookmarked)
  {
    if Truthy(userId) && |views| > 0 then
      Map(views, (v: TagQuoteView) =>
        v.(isLiked := (userId.value, v.quote.id) in liked, isBookmarked := (userId.value, v.quote.id) in bookmarked))
    else views
  }

  /** `getQuotesByTag`. `ordered` is every quote in the order of
      `QuoteOrderOf(sortBy)`. BAD_REQUEST for an empty slug before any lookup,
      NOT_FOUND for an unknown tag; otherwise the page of the tag's quotes with
      the offset from the raw limit (default 12) and the page size clamped to
      1..50. */
  function GetQuotesByTag(tags: seq<TagService.Tag>, ordered: seq<TaggedQuote>, slug: string,
                          page: Option<int>, limit: Option<int>, userId: Option<string>,
                          liked: set<(string, string)>, bookmarked: set<(string, string)>): (r: Result<QuoteByTagResult>)
    ensures slug == "" ==> r == Fail(BadRequest)
    ensures slug != "" && GetTagBySlug(tags, slug).Err? ==> r == Fail(NotFound)
    ensures r.Ok? ==>
      && slug != "" && GetTagBySlug(tags, slug).Ok?
      && var tag := GetTagBySlug(tags, slug).value;
         var all := WithTag(ordered, tag);
         var res := r.value;
         var w := Window(all, Skip(Default(page, 1), Default(limit, 12)), res.limit);
         && res.tagName == tag.name && res.tagSlug == tag.slug == slug
         && res.page == Default(page, 1)
         && res.limit == Clamp(Default(limit, 12), 1, 50)
         && res.total == |all|
         && (res.hasMore <==> HasMore(res.total, Skip(res.page, Default(limit, 12)), |res.quotes|))
         && |res.quotes| == |w|
         && forall k :: 0 <= k < |w| ==>
              && res.quotes[k].quote == w[k]
              && w[k].id in tag.quoteIds
              && res.quotes[k].gallery == GalleryView(w[k])
              && res.quotes[k].authorImage == QuoteDisplayService.FirstImage(w[k].authorImageUrls)
              && res.quotes[k].quoteCount == w[k].authorQuoteCount
              && (res.quotes[k].isLiked <==> Truthy(userId) && (userId.value, w[k].id) in liked)
              && (res.quotes[k].isBookmarked <==> Truthy(userId) && (userId.value, w[k].id) in bookmarked)
    ensures slug != "" && GetTagBySlug(tags, slug).Ok? ==> r.Ok?
  {
    if slug == "" then Fail(BadRequest)
    else
      var p := Default(page, 1);
      var l := Default(limit, 12);
      var skip := Skip(p, l);
      var take := Clamp(l, 1, 50);
      var found := GetTagBySlug(tags, slug);
      if found.Err? then Fail(NotFound)
      else
        var tag := found.value;
        var all := WithTag(ordered, tag);
        var w := Window(all, skip, take);
        var views := Map(w, View);
        var flagged := Flagged(views, userId, liked, bookmarked);
        Ok(QuoteByTagResult(flagged, |all|, |all| > skip + |w|, p, take, tag.name, tag.slug))
  }
}
