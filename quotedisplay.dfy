/** The quote display service: font size and canvas configuration, the
    background candidates of a quote (its own large-enough gallery images and
    the global ones, deduplicated by id), switching the active background,
    the author's quote list and the single-quote view with its user flags. */
module QuoteDisplayService {
  import opened Common
  import OrderedMap

  // ---------------------------------------------------------------------
  // Rendering configuration

  /** `getFontSize`. */
  function FontSize(textLength: int): (size: int)
    ensures 30 <= size <= 45
    ensures textLength <= 100 ==> size == 45
    ensures textLength > 600 ==> size == 30
  {
    if textLength <= 100 then 45
    else if textLength <= 240 then 41
    else if textLength <= 300 then 40
    else if textLength <= 350 then 39
    else if textLength <= 400 then 38
    else if textLength <= 450 then 36
    else if textLength <= 500 then 35
    else if textLength <= 550 then 33
    else if textLength <= 600 then 31
    else 30
  }

  /** Longer text never gets a larger font. */
  lemma FontSizeNonIncreasing(a: int, b: int)
    requires a <= b
    ensures FontSize(a) >= FontSize(b)
  { }

  datatype Dimensions = Dimensions(width: int, height: int, padding: int)

  /** `getCanvasDimensions`: a square 1080 canvas with padding 40. */
  function CanvasDimensions(): (d: Dimensions)
    ensures d.width == d.height == 1080 && d.padding == 40
  {
    Dimensions(1080, 1080, 40)
  }

  datatype Gallery = Gallery(id: string, url: string, width: int, height: int, isGlobal: bool)

  /** A quote's gallery entry as the display data carries it. */
  datatype GalleryEntry = GalleryEntry(gallery: Gallery, isActive: bool, isBackground: bool)

  datatype DisplayConfig = DisplayConfig(dimensions: Dimensions, fontSize: int, padding: int,
                                         backgroundImage: Option<string>)

  /** The position of the first active entry (`find(g => g.isActive)`), or -1. */
  function FirstActive(gallery: seq<GalleryEntry>): (i: int)
    ensures -1 <= i < |gallery|
    ensures i == -1 <==> forall k :: 0 <= k < |gallery| ==> !gallery[k].isActive
    ensures i >= 0 ==> gallery[i].isActive && forall k :: 0 <= k < i ==> !gallery[k].isActive
  {
    if gallery == [] then -1
    else if gallery[0].isActive then 0
    else
      var i := FirstActive(gallery[1..]);
      if i == -1 then -1 else i + 1
  }

  /** `getDisplayConfig`: the background is the first active entry's url,
      null when no entry is active or that url is empty. */
  function GetDisplayConfig(content: string, gallery: seq<GalleryEntry>): (c: DisplayConfig)
    ensures c.dimensions == CanvasDimensions() && c.padding == 40
    ensures c.fontSize == FontSize(|content|)
    ensures c.backgroundImage.Some? ==>
      exists i :: 0 <= i < |gallery| && gallery[i].isActive && gallery[i].gallery.url == c.backgroundImage.value
                  && c.backgroundImage.value != "" && forall k :: 0 <= k < i ==> !gallery[k].isActive
    ensures c.backgroundImage.None? <==>
      (forall k :: 0 <= k < |gallery| ==> !gallery[k].isActive) || gallery[FirstActive(gallery)].gallery.url == ""
  {
    var i := FirstActive(gallery);
    var bg := if i == -1 || gallery[i].gallery.url == "" then None else Some(gallery[i].gallery.url);
    DisplayConfig(CanvasDimensions(), FontSize(|content|), 40, bg)
  }

  // ---------------------------------------------------------------------
  // Background candidates

  /** Large enough to serve as a background: at least 800 by 500. */
  predicate BackgroundSized(g: Gallery) {
    g.width >= 800 && g.height >= 500
  }

  /** A QuoteToGallery link joined with its gallery row. */
  datatype LinkedGallery = LinkedGallery(quoteId: string, gallery: Gallery)

  /** The quote's own large-enough images, in link order. */
  function OwnBackgrounds(links: seq<LinkedGallery>, quoteId: string): (r: seq<Gallery>)
    ensures forall k :: 0 <= k < |r| ==> BackgroundSized(r[k])
    ensures forall k :: 0 <= k < |r| ==> exists j :: 0 <= j < |links| && links[j].quoteId == quoteId && links[j].gallery == r[k]
    ensures forall j :: 0 <= j < |links| && links[j].quoteId == quoteId && BackgroundSized(links[j].gallery) ==>
      links[j].gallery in r
  {
    if links == [] then []
    else
      var rest := OwnBackgrounds(links[1..], quoteId);
      assert forall j :: 1 <= j < |links| ==> links[j] == links[1..][j - 1];
      if links[0].quoteId == quoteId && BackgroundSized(links[0].gallery) then [links[0].gallery] + rest else rest
  }

  predicate LinkedTo(links: seq<LinkedGallery>, quoteId: string, galleryId: string) {
    exists j :: 0 <= j < |links| && links[j].quoteId == quoteId && links[j].gallery.id == galleryId
  }

  /** The global large-enough images not linked to the quote, in table order. */
  function GlobalBackgrounds(galleries: seq<Gallery>, links: seq<LinkedGallery>, quoteId: string): (r: seq<Gallery>)
    ensures forall k :: 0 <= k < |r| ==> BackgroundSized(r[k]) && r[k].isGlobal && r[k] in galleries
                                         && !LinkedTo(links, quoteId, r[k].id)
    ensures forall j :: (0 <= j < |galleries| && galleries[j].isGlobal && BackgroundSized(galleries[j]) &&
                         !LinkedTo(links, quoteId, galleries[j].id)) ==> galleries[j] in r
  {
    if galleries == [] then []
    else
      var rest := GlobalBackgrounds(galleries[1..], links, quoteId);
      assert forall j :: 1 <= j < |galleries| ==> galleries[j] == galleries[1..][j - 1];
      var g := galleries[0];
      if g.isGlobal && BackgroundSized(g) && !LinkedTo(links, quoteId, g.id) then [g] + rest else rest
  }

  function ById(s: seq<Gallery>): (e: seq<OrderedMap.Entry<string, Gallery>>)
    ensures |e| == |s|
    ensures forall k :: 0 <= k < |s| ==> e[k] == OrderedMap.Entry(s[k].id, s[k])
  {
    seq(|s|, k requires 0 <= k < |s| => OrderedMap.Entry(s[k].id, s[k]))
  }

  /** `getQuoteBackgrounds`: both sources, deduplicated by id through a `Map`.
      The backgrounds carry distinct ids, each large enough; they come from
      the two sources, and every id of either source is present. */
  function GetQuoteBackgrounds(galleries: seq<Gallery>, links: seq<LinkedGallery>, quoteId: string): (r: seq<Gallery>)
    ensures forall i, j :: 0 <= i < j < |r| ==> r[i].id != r[j].id
    ensures forall k :: 0 <= k < |r| ==> r[k] in Candidates(galleries, links, quoteId) && BackgroundSized(r[k])
    ensures Ids(r) == Ids(Candidates(galleries, links, quoteId))
  {
    var candidates := Candidates(galleries, links, quoteId);
    BackgroundsFrom(candidates);
    BackgroundIds(candidates);
    OrderedMap.Values(OrderedMap.SetAll([], ById(candidates)))
  }

  function Ids(s: seq<Gallery>): set<string> {
    set k | 0 <= k < |s| :: s[k].id
  }

  function Candidates(galleries: seq<Gallery>, links: seq<LinkedGallery>, quoteId: string): seq<Gallery> {
    OwnBackgrounds(links, quoteId) + GlobalBackgrounds(galleries, links, quoteId)
  }

  lemma BackgroundsFrom(candidates: seq<Gallery>)
    ensures var m := OrderedMap.SetAll([], ById(candidates));
      var r := OrderedMap.Values(m);
      forall k :: 0 <= k < |r| ==> r[k].id == m[k].key && r[k] in candidates
  {
    var entries := ById(candidates);
    var m := OrderedMap.SetAll([], entries);
    var r := OrderedMap.Values(m);
    forall k | 0 <= k < |r| ensures r[k].id == m[k].key && r[k] in candidates {
      OrderedMap.SetAllValues([], entries, k);
      var t :| 0 <= t < |entries| && entries[t] == m[k];
    }
  }

  lemma BackgroundIds(candidates: seq<Gallery>)
    requires var m := OrderedMap.SetAll([], ById(candidates));
      var r := OrderedMap.Values(m);
      forall k :: 0 <= k < |r| ==> r[k].id == m[k].key && r[k] in candidates
    ensures Ids(OrderedMap.Values(OrderedMap.SetAll([], ById(candidates)))) == Ids(candidates)
  {
    var entries := ById(candidates);
    var m := OrderedMap.SetAll([], entries);
    var r := OrderedMap.Values(m);
    forall id | id in Ids(candidates) ensures id in Ids(r) {
      OrderedMap.SetAllKeys([], entries, id);
      var t :| 0 <= t < |candidates| && candidates[t].id == id;
      assert entries[t].key == id;
      var k := OrderedMap.Find(m, id);
      assert r[k].id == id;
    }
    forall id | id in Ids(r) ensures id in Ids(candidates) {
      var k :| 0 <= k < |r| && r[k].id == id;
      var t :| 0 <= t < |candidates| && candidates[t] == r[k];
    }
  }

  // ---------------------------------------------------------------------
  // The active background

  /** A QuoteToGallery row; `(quoteId, galleryId)` is its key. */
  datatype Link = Link(quoteId: string, galleryId: string, isActive: bool, isBackground: bool)

  /** `updateMany({ where: { quoteId, isBackground: true }, data: { isActive: false } })`. */
  function ResetBackgrounds(links: seq<Link>, quoteId: string): (r: seq<Link>)
    ensures |r| == |links|
  {
    if links == [] then []
    else
      var last := links[|links| - 1];
      ResetBackgrounds(links[..|links| - 1], quoteId)
        + [if last.quoteId == quoteId && last.isBackground then last.(isActive := false) else last]
  }

  /** After the reset, every background link of the quote is inactive and
      every other link is as it was. */
  lemma {:induction false} ResetBackgroundsEffect(links: seq<Link>, quoteId: string)
    ensures var r := ResetBackgrounds(links, quoteId);
      forall k :: 0 <= k < |links| ==>
        r[k] == if links[k].quoteId == quoteId && links[k].isBackground then links[k].(isActive := false) else links[k]
  {
    if links != [] {
      ResetBackgroundsEffect(links[..|links| - 1], quoteId);
      var r := ResetBackgrounds(links, quoteId);
      assert r[..|r| - 1] == ResetBackgrounds(links[..|links| - 1], quoteId);
    }
  }

  function FindLink(links: seq<Link>, quoteId: string, galleryId: string): (i: int)
    ensures -1 <= i < |links|
    ensures i == -1 <==> forall k :: 0 <= k < |links| ==> !(links[k].quoteId == quoteId && links[k].galleryId == galleryId)
    ensures i >= 0 ==> links[i].quoteId == quoteId && links[i].galleryId == galleryId
  {
    if links == [] then -1
    else if links[|links| - 1].quoteId == quoteId && links[|links| - 1].galleryId == galleryId then |links| - 1
    else FindLink(links[..|links| - 1], quoteId, galleryId)
  }

  /** The table after `updateActiveBackground`: the reset, then the chosen
      link made active when it exists. */
  function ActiveBackground(links: seq<Link>, quoteId: string, galleryId: string): (r: seq<Link>)
    ensures |r| == |links|
  {
    var reset := ResetBackgrounds(links, quoteId);
    var i := FindLink(links, quoteId, galleryId);
    if i == -1 then reset else reset[i := links[i].(isActive := true)]
  }

  /** Links with the same keys, position by position, have the same position
      for a key. */
  lemma {:induction false} FindLinkSameKeys(a: seq<Link>, b: seq<Link>, quoteId: string, galleryId: string)
    requires |a| == |b|
    requires forall k :: 0 <= k < |a| ==> a[k].quoteId == b[k].quoteId && a[k].galleryId == b[k].galleryId
    ensures FindLink(a, quoteId, galleryId) == FindLink(b, quoteId, galleryId)
  {
    if a != [] {
      FindLinkSameKeys(a[..|a| - 1], b[..|b| - 1], quoteId, galleryId);
    }
  }

  /** The update keeps every link's key and background flag, leaves the links
      of other quotes and the quote's non-background links alone (except the
      chosen one), leaves exactly the chosen background of the quote active,
      and makes the chosen link active whether or not it is a background. */
  lemma {:induction false} ActiveBackgroundEffect(links: seq<Link>, quoteId: string, galleryId: string)
    requires UniqueLinks(links)
    ensures UniqueLinks(ActiveBackground(links, quoteId, galleryId))
    ensures var r := ActiveBackground(links, quoteId, galleryId);
      && (forall k :: 0 <= k < |r| ==>
            && r[k].quoteId == links[k].quoteId
            && r[k].galleryId == links[k].galleryId
            && r[k].isBackground == links[k].isBackground)
      && (forall k :: (0 <= k < |r| && (links[k].quoteId != quoteId || !links[k].isBackground) &&
            !(links[k].quoteId == quoteId && links[k].galleryId == galleryId)) ==> r[k] == links[k])
      && (forall k :: 0 <= k < |r| && r[k].quoteId == quoteId && r[k].isBackground ==>
            (r[k].isActive <==> r[k].galleryId == galleryId))
      && (FindLink(links, quoteId, galleryId) >= 0 ==>
            r[FindLink(links, quoteId, galleryId)] == links[FindLink(links, quoteId, galleryId)].(isActive := true))
  {
    ResetBackgroundsEffect(links, quoteId);
  }

  /** The pair `(quoteId, galleryId)` is unique. */
  ghost predicate UniqueLinks(links: seq<Link>) {
    forall i, j :: 0 <= i < j < |links| ==>
      !(links[i].quoteId == links[j].quoteId && links[i].galleryId == links[j].galleryId)
  }

  class LinkTable {
    var links: seq<Link>

    ghost predicate Valid()
      reads this
    {
      UniqueLinks(links)
    }

    constructor (links: seq<Link>)
      requires UniqueLinks(links)
      ensures Valid() && this.links == links
    {
      this.links := links;
    }

    /** `updateActiveBackground`: every background link of the quote is made
        inactive, then the chosen link active. A missing link makes the second
        write fail (INTERNAL_ERROR) after the reset has already happened. */
    method UpdateActiveBackground(quoteId: string, galleryId: string) returns (r: Result<()>)
      requires Valid()
      modifies this
      ensures Valid()
      ensures links == ActiveBackground(old(links), quoteId, galleryId)
      ensures r == if FindLink(old(links), quoteId, galleryId) == -1 then Fail(InternalError) else Ok(())
    {
      ResetBackgroundsEffect(links, quoteId);
      FindLinkSameKeys(ResetBackgrounds(links, quoteId), links, quoteId, galleryId);
      ActiveBackgroundEffect(links, quoteId, galleryId);
      ghost var before := links;
      links := ResetBackgrounds(links, quoteId);
      var j := FindLink(links, quoteId, galleryId);
      if j == -1 {
        return Fail(InternalError);
      }
      links := links[j := links[j].(isActive := true)];
      assert links == ActiveBackground(before, quoteId, galleryId);
      r := Ok(());
    }
  }

  // ---------------------------------------------------------------------
  // The author's quotes

  datatype SortKey = CreatedAtDesc | DownloadCountDesc | LikesDesc

  /** `options.sortBy || 'recent'` and the `orderBy` it selects. */
  function SortKeyOf(sortBy: Option<string>): (k: SortKey)
    ensures k == DownloadCountDesc <==> sortBy == Some("popular")
    ensures k == LikesDesc <==> sortBy == Some("likes")
    ensures sortBy.None? || sortBy == Some("") || sortBy == Some("recent") ==> k == CreatedAtDesc
  {
    var s := if Truthy(sortBy) then sortBy.value else "recent";
    if s == "popular" then DownloadCountDesc else if s == "likes" then LikesDesc else CreatedAtDesc
  }

  /** A quote row of the author's list, with what its relations contribute. */
  datatype AuthorQuote = AuthorQuote(
    id: string,
    authorProfileId: string,
    createdAt: int,
    downloadCount: int,
    likes: int,
    authorImageUrls: seq<string>,
    authorQuoteCount: nat)

  function SortValue(q: AuthorQuote, key: SortKey): int {
    match key
    case CreatedAtDesc => q.createdAt
    case DownloadCountDesc => q.downloadCount
    case LikesDesc => q.likes
  }

  ghost predicate SortedBy(s: seq<AuthorQuote>, key: SortKey) {
    forall i, j :: 0 <= i < j < |s| ==> SortValue(s[i], key) >= SortValue(s[j], key)
  }

  /** `images[0]?.url || null`: the first image url, null when there is none or it is empty. */
  function FirstImage(urls: seq<string>): (r: Option<string>)
    ensures r.Some? <==> |urls| > 0 && urls[0] != ""
    ensures r.Some? ==> r.value == urls[0]
  {
    if |urls| > 0 && urls[0] != "" then Some(urls[0]) else None
  }

  datatype AuthorQuoteView = AuthorQuoteView(
    quote: AuthorQuote,
    authorImage: Option<string>,
    quoteCount: nat,
    isLiked: bool,
    isBookmarked: bool)

  datatype AuthorQuotesPage = AuthorQuotesPage(
    quotes: seq<AuthorQuoteView>,
    total: nat,
    hasMore: bool,
    page: int,
    limit: int)

  /** `getQuotesByAuthorId`. `ordered` is the author's quotes as the database
      returns them under the selected `orderBy`; `liked` and `bookmarked` are
      the (user, quote) pairs the like and bookmark services answer with. */
  function GetQuotesByAuthorId(ordered: seq<AuthorQuote>, page: Option<int>, limit: Option<int>,
                               sortBy: Option<string>, userId: Option<string>,
                               liked: set<(string, string)>, bookmarked: set<(string, string)>): (r: AuthorQuotesPage)
    requires SortedBy(ordered, SortKeyOf(sortBy))
    ensures r.page >= 1 && 1 <= r.limit <= 50
    ensures r.page == (if Or(page, 1) < 1 then 1 else Or(page, 1))
    ensures r.limit == Clamp(Or(limit, 10), 1, 50)
    ensures r.total == |ordered| && |r.quotes| <= r.limit
    ensures r.hasMore <==> HasMore(r.total, Skip(r.page, r.limit), |r.quotes|)
    ensures var w := Window(ordered, Skip(r.page, r.limit), r.limit);
      && |r.quotes| == |w|
      && forall k :: 0 <= k < |w| ==>
           && r.quotes[k].quote == w[k]
           && r.quotes[k].authorImage == FirstImage(w[k].authorImageUrls)
           && r.quotes[k].quoteCount == w[k].authorQuoteCount
           && (r.quotes[k].isLiked <==> Truthy(userId) && (userId.value, w[k].id) in liked)
           && (r.quotes[k].isBookmarked <==> Truthy(userId) && (userId.value, w[k].id) in bookmarked)
    ensures SortedBy(seq(|r.quotes|, k requires 0 <= k < |r.quotes| => r.quotes[k].quote), SortKeyOf(sortBy))
  {
    var p := if Or(page, 1) < 1 then 1 else Or(page, 1);
    var l := Clamp(Or(limit, 10), 1, 50);
    var skip := Skip(p, l);
    var w := Window(ordered, skip, l);
    var u := if Truthy(userId) then userId.value else "";
    var views := seq(|w|, k requires 0 <= k < |w| =>
      AuthorQuoteView(w[k], FirstImage(w[k].authorImageUrls), w[k].authorQuoteCount,
                      Truthy(userId) && (u, w[k].id) in liked, Truthy(userId) && (u, w[k].id) in bookmarked));
    AuthorQuotesPage(views, |ordered|, |ordered| > skip + |w|, p, l)
  }

  // ---------------------------------------------------------------------
  // One quote by slug

  /** A quote row with what `getQuoteBySlug` includes. */
  datatype DetailRow = DetailRow(
    id: string,
    slug: string,
    content: string,
    authorProfileId: string,
    authorImageUrls: seq<string>,
    authorQuoteCount: nat,
    gallery: seq<GalleryEntry>)

  datatype QuoteDetail = QuoteDetail(
    quote: DetailRow,
    authorImage: Option<string>,
    quoteCount: nat,
    isFollowed: bool,
    isLiked: bool,
    isBookmarked: bool)

  function FindBySlug(rows: seq<DetailRow>, slug: string): (i: int)
    ensures -1 <= i < |rows|
    ensures i == -1 <==> forall k :: 0 <= k < |rows| ==> rows[k].slug != slug
    ensures i >= 0 ==> rows[i].slug == slug
  {
    LastWhere(rows, (q: DetailRow) => q.slug == slug)
  }

  /** `getQuoteBySlug`: NOT_FOUND for an unknown slug; the three flags start
      false and are looked up only for a truthy `userId`. `follows` holds the
      (author profile, user) pairs of the follow service. */
  method GetQuoteBySlug(rows: seq<DetailRow>, slug: string, userId: Option<string>,
                        liked: set<(string, string)>, bookmarked: set<(string, string)>,
                        follows: set<(string, string)>) returns (r: Result<QuoteDetail>)
    ensures FindBySlug(rows, slug) == -1 <==> r == Fail(NotFound)
    ensures r.Ok? ==>
      var q := rows[FindBySlug(rows, slug)];
      && r.value.quote == q
      && r.value.authorImage == FirstImage(q.authorImageUrls)
      && r.value.quoteCount == q.authorQuoteCount
      && (r.value.isLiked <==> Truthy(userId) && (userId.value, q.id) in liked)
      && (r.value.isBookmarked <==> Truthy(userId) && (userId.value, q.id) in bookmarked)
      && (r.value.isFollowed <==> Truthy(userId) && (q.authorProfileId, userId.value) in follows)
  {
    var i := FindBySlug(rows, slug);
    if i == -1 {
      return Fail(NotFound);
    }
    var q := rows[i];
    var isLiked := false;
    var isBookmarked := false;
    var isFollowed := false;
    if Truthy(userId) {
      isLiked := (userId.value, q.id) in liked;
      isBookmarked := (userId.value, q.id) in bookmarked;
      isFollowed := (q.authorProfileId, userId.value) in follows;
    }
    r := Ok(QuoteDetail(q, FirstImage(q.authorImageUrls), q.authorQuoteCount, isFollowed, isLiked, isBookmarked));
  }
}
