/** The public quote service: the paginated quote list with `||` defaults and
    no clamping, and the single quote by slug, which is null rather than an
    error when missing and reduces the author to a five-field summary. */
module PublicQuoteService {
  import opened Common
  import QuoteDisplayService

  /** `sortBy || 'recent'`, the key handed to the sort utilities. */
  function SortKeyOf(sortBy: Option<string>): (s: string)
    ensures Truthy(sortBy) ==> s == sortBy.value
    ensures !Truthy(sortBy) ==> s == "recent"
  {
    if Truthy(sortBy) then sortBy.value else "recent"
  }

  datatype ListQuotesResult<T> = ListQuotesResult(items: seq<T>, total: nat, hasMore: bool, page: int, limit: int)

  /** `list`. `matching` is the quotes the filter utilities' `where` selects,
      in the order the sort utilities select for `SortKeyOf(sortBy)`. */
  function List<T>(matching: seq<T>, page: Option<int>, limit: Option<int>): (r: ListQuotesResult<T>)
    ensures r.page == Or(page, 1) && r.limit == Or(limit, 12)
    ensures r.total == |matching|
    ensures r.items == Window(matching, Skip(r.page, r.limit), r.limit)
    ensures r.limit >= 0 ==> |r.items| <= r.limit
    ensures r.hasMore <==> HasMore(r.total, Skip(r.page, r.limit), |r.items|)
  {
    var p := Or(page, 1);
    var l := Or(limit, 12);
    var skip := Skip(p, l);
    var items := Window(matching, skip, l);
    ListQuotesResult(items, |matching|, |matching| > skip + |items|, p, l)
  }

  /** No clamping: a limit of 100 gives pages of up to 100 quotes. */
  lemma ListLimitUnclamped<T>(matching: seq<T>)
    requires |matching| >= 200
    ensures var r := List(matching, Some(2), Some(100));
      r.limit == 100 && r.items == matching[100..200] && r.hasMore == (|matching| > 200)
  { }

  /** The author profile as the query selects it. */
  datatype AuthorProfile = AuthorProfile(id: string, name: string, slug: string, imageUrls: seq<string>, bio: Option<string>)

  /** The author as returned: exactly these five fields. */
  datatype AuthorSummary = AuthorSummary(id: string, name: string, slug: string, image: Option<string>, bio: Option<string>)

  datatype PublicQuoteRow = PublicQuoteRow(
    id: string,
    slug: string,
    content: string,
    backgroundImage: Option<string>,
    author: AuthorProfile,
    gallery: seq<QuoteDisplayService.GalleryEntry>,
    tagIds: seq<string>)

  datatype QuoteDisplayData = QuoteDisplayData(
    quote: PublicQuoteRow,
    author: AuthorSummary,
    gallery: seq<QuoteDisplayService.GalleryEntry>)

  function Summary(a: AuthorProfile): (s: AuthorSummary)
    ensures s.id == a.id && s.name == a.name && s.slug == a.slug && s.bio == a.bio
    ensures s.image == QuoteDisplayService.FirstImage(a.imageUrls)
  {
    AuthorSummary(a.id, a.name, a.slug, QuoteDisplayService.FirstImage(a.imageUrls), a.bio)
  }

  function FindSlug(rows: seq<PublicQuoteRow>, slug: string): (i: int)
    ensures -1 <= i < |rows|
    ensures i == -1 <==> forall k :: 0 <= k < |rows| ==> rows[k].slug != slug
    ensures i >= 0 ==> rows[i].slug == slug
  {
    LastWhere(rows, (q: PublicQuoteRow) => q.slug == slug)
  }

  /** `getQuoteBySlug`: null for an unknown slug; otherwise the quote with the
      author summary and the gallery links' flags exactly as stored. */
  function GetQuoteBySlug(rows: seq<PublicQuoteRow>, slug: string): (r: Option<QuoteDisplayData>)
    ensures r.None? <==> forall k :: 0 <= k < |rows| ==> rows[k].slug != slug
    ensures r.Some? ==>
      && r.value.quote in rows && r.value.quote.slug == slug
      && r.value.author == Summary(r.value.quote.author)
      && |r.value.gallery| == |r.value.quote.gallery|
      && forall k :: 0 <= k < |r.value.gallery| ==>
           && r.value.gallery[k].gallery == r.value.quote.gallery[k].gallery
           && r.value.gallery[k].isActive == r.value.quote.gallery[k].isActive
           && r.value.gallery[k].isBackground == r.value.quote.gallery[k].isBackground
  {
    var i := FindSlug(rows, slug);
    if i == -1 then None
    else
      var q := rows[i];
      var gallery := Map(q.gallery, (g: QuoteDisplayService.GalleryEntry) =>
        QuoteDisplayService.GalleryEntry(g.gallery, g.isActive, g.isBackground));
      Some(QuoteDisplayData(q, Summary(q.author), gallery))
  }
}
