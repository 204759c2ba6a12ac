/** The tag service: lookup by slug or id, the paginated and sorted list with
    its optional name-or-description search, related tags by shared quotes,
    popular tags, and search falling back to popular tags. Rows are taken in
    the order the database returns them under the `orderBy` each query selects. */
module TagService {
  import opened Common
  import JsText

  /** A tag with the ids of the quotes it labels (`_count.quotes` is their number). */
  datatype Tag = Tag(
    id: string,
    name: string,
    slug: string,
    description: Option<string>,
    createdAt: int,
    quoteIds: set<string>)

  function QuoteCount(t: Tag): nat {
    |t.quoteIds|
  }

  datatype Direction = Asc | Desc

  datatype TagSortField = ByName | ByCreatedAt | ByQuoteCount

  datatype TagOrder = TagOrder(field: TagSortField, direction: Direction)

  /** The `orderBy` of `list`: `name`, `recent`, and quote count for anything
      else, always in the requested direction (default `desc`). */
  function TagOrderOf(sortBy: Option<string>, order: Option<Direction>): (o: TagOrder)
    ensures o.direction == order.GetOr(Desc)
    ensures o.field == ByName <==> sortBy == Some("name")
    ensures o.field == ByCreatedAt <==> sortBy == Some("recent")
    ensures o.field == ByQuoteCount <==> sortBy != Some("name") && sortBy != Some("recent")
  {
    var s := sortBy.GetOr("popular");
    var d := order.GetOr(Desc);
    if s == "name" then TagOrder(ByName, d)
    else if s == "recent" then TagOrder(ByCreatedAt, d)
    else TagOrder(ByQuoteCount, d)
  }

  /** `OR: [{ name: { contains } }, { description: { contains } }]`; `contains`
      is the database's case-insensitive containment, and a null description
      matches nothing. */
  predicate SearchMatches(t: Tag, search: string, contains: (string, string) -> bool) {
    contains(t.name, search) || (t.description.Some? && contains(t.description.value, search))
  }

  /** The search condition as a filter. */
  function SearchFilter(search: string, contains: (string, string) -> bool): Tag -> bool {
    (t: Tag) => SearchMatches(t, search, contains)
  }

  /** The tags the search condition admits, in the order given. */
  function Matching(tags: seq<Tag>, search: string, contains: (string, string) -> bool): (r: seq<Tag>)
    ensures |r| <= |tags|
    ensures forall k :: 0 <= k < |r| ==> SearchMatches(r[k], search, contains) && r[k] in tags
    ensures forall k :: 0 <= k < |tags| && SearchMatches(tags[k], search, contains) ==> tags[k] in r
  {
    Filter(tags, SearchFilter(search, contains))
  }

  /** The search decides tag by tag: a matching tag is kept once, in its
      place, and any other is skipped, so the matches keep the query's order. */
  lemma {:induction false} MatchingAppend(a: seq<Tag>, b: seq<Tag>, t: Tag, search: string,
                                          contains: (string, string) -> bool)
    ensures Matching(a + b, search, contains) == Matching(a, search, contains) + Matching(b, search, contains)
    ensures Matching([t], search, contains) == if SearchMatches(t, search, contains) then [t] else []
    ensures Matching([], search, contains) == []
  {
    FilterAppend(a, b, SearchFilter(search, contains));
    assert [t][1..] == [];
  }

  function FindBy(tags: seq<Tag>, key: string, bySlug: bool): (i: int)
    ensures -1 <= i < |tags|
    ensures i == -1 <==> forall k :: 0 <= k < |tags| ==> (if bySlug then tags[k].slug else tags[k].id) != key
    ensures i >= 0 ==> (if bySlug then tags[i].slug else tags[i].id) == key
  {
    if tags == [] then -1
    else if (if bySlug then tags[|tags| - 1].slug else tags[|tags| - 1].id) == key then |tags| - 1
    else FindBy(tags[..|tags| - 1], key, bySlug)
  }

  /** `getBySlug`: NOT_FOUND when no tag has the slug. */
  function GetBySlug(tags: seq<Tag>, slug: string): (r: Result<Tag>)
    ensures r.Err? <==> forall k :: 0 <= k < |tags| ==> tags[k].slug != slug
    ensures r.Err? ==> r == Fail(NotFound)
    ensures r.Ok? ==> r.value in tags && r.value.slug == slug
  {
    var i := FindBy(tags, slug, true);
    if i == -1 then Fail(NotFound) else Ok(tags[i])
  }

  /** `getById`: NOT_FOUND when no tag has the id. */
  function GetById(tags: seq<Tag>, id: string): (r: Result<Tag>)
    ensures r.Err? <==> forall k :: 0 <= k < |tags| ==> tags[k].id != id
    ensures r.Err? ==> r == Fail(NotFound)
    ensures r.Ok? ==> r.value in tags && r.value.id == id
  {
    var i := FindBy(tags, id, false);
    if i == -1 then Fail(NotFound) else Ok(tags[i])
  }

  datatype TagListResult = TagListResult(items: seq<Tag>, total: nat, hasMore: bool, page: int, limit: int)

  /** The `where` of `list`: the search filter only when `search` is truthy. */
  function ListWhere(tags: seq<Tag>, search: Option<string>, contains: (string, string) -> bool): (r: seq<Tag>)
    ensures !Truthy(search) ==> r == tags
    ensures Truthy(search) ==> r == Matching(tags, search.value, contains)
  {
    if Truthy(search) then Matching(tags, search.value, contains) else tags
  }

  /** `list`. `ordered` is every tag in the order of `TagOrderOf(sortBy, order)`.
      The offset uses the raw limit (default 20), the page size is that limit
      clamped to 1..50, and the reported limit is the page size. */
  function List(ordered: seq<Tag>, page: Option<int>, limit: Option<int>, search: Option<string>,
                contains: (string, string) -> bool): (r: TagListResult)
    ensures r.page == Default(page, 1)
    ensures r.limit == Clamp(Default(limit, 20), 1, 50) && |r.items| <= r.limit
    ensures r.total == |ListWhere(ordered, search, contains)|
    ensures r.items == Window(ListWhere(ordered, search, contains), Skip(r.page, Default(limit, 20)), r.limit)
    ensures Truthy(search) ==> forall k :: 0 <= k < |r.items| ==> SearchMatches(r.items[k], search.value, contains)
    ensures r.hasMore <==> HasMore(r.total, Skip(r.page, Default(limit, 20)), |r.items|)
  {
    var p := Default(page, 1);
    var l := Default(limit, 20);
    var skip := Skip(p, l);
    var take := Clamp(l, 1, 50);
    var all := ListWhere(ordered, search, contains);
    var items := Window(all, skip, take);
    TagListResult(items, |all|, |all| > skip + |items|, p, take)
  }

  /** The clamp quirk: with limit 100 on page 2 the offset is 100 but only 50 rows are taken. */
  lemma ListOffsetUsesRawLimit(ordered: seq<Tag>, contains: (string, string) -> bool)
    requires |ordered| >= 150
    ensures var r := List(ordered, Some(2), Some(100), None, contains);
      r.limit == 50 && r.items == ordered[100..150]
  { }

  /** The quotes carrying the tag `tagId`. */
  function QuotesOf(tags: seq<Tag>, tagId: string): (q: set<string>)
    ensures forall k :: 0 <= k < |tags| && tags[k].id == tagId ==> tags[k].quoteIds <= q
    ensures forall x :: x in q ==> exists k :: 0 <= k < |tags| && tags[k].id == tagId && x in tags[k].quoteIds
  {
    if tags == [] then {}
    else (if tags[0].id == tagId then tags[0].quoteIds else {}) + QuotesOf(tags[1..], tagId)
  }

  predicate Related(t: Tag, tagId: string, quoteIds: set<string>) {
    t.id != tagId && t.quoteIds * quoteIds != {}
  }

  function RelatedFilter(tagId: string, quoteIds: set<string>): Tag -> bool {
    (t: Tag) => Related(t, tagId, quoteIds)
  }

  /** The tags other than `tagId` sharing one of `quoteIds`, in the order given. */
  function RelatedAmong(tags: seq<Tag>, tagId: string, quoteIds: set<string>): (r: seq<Tag>)
    ensures |r| <= |tags|
    ensures forall k :: 0 <= k < |r| ==> Related(r[k], tagId, quoteIds) && r[k] in tags
    ensures forall k :: 0 <= k < |tags| && Related(tags[k], tagId, quoteIds) ==> tags[k] in r
  {
    Filter(tags, RelatedFilter(tagId, quoteIds))
  }

  /** The related tags are decided tag by tag and keep the quote-count order
      of the tags they are taken from. */
  lemma {:induction false} RelatedAmongAppend(a: seq<Tag>, b: seq<Tag>, t: Tag, tagId: string, quoteIds: set<string>)
    ensures RelatedAmong(a + b, tagId, quoteIds) == RelatedAmong(a, tagId, quoteIds) + RelatedAmong(b, tagId, quoteIds)
    ensures RelatedAmong([t], tagId, quoteIds) == if Related(t, tagId, quoteIds) then [t] else []
    ensures RelatedAmong([], tagId, quoteIds) == []
  {
    FilterAppend(a, b, RelatedFilter(tagId, quoteIds));
    assert [t][1..] == [];
  }

  /** `getRelatedTags`: never the tag itself, each result sharing a quote
      with it, at most `limit` (default 5). `ordered` is every tag by quote
      count, descending. */
  function GetRelatedTags(ordered: seq<Tag>, tagId: string, limit: Option<int>): (r: seq<Tag>)
    ensures forall k :: 0 <= k < |r| ==> r[k].id != tagId && r[k] in ordered
    ensures forall k :: 0 <= k < |r| ==> r[k].quoteIds * QuotesOf(ordered, tagId) != {}
    ensures Default(limit, 5) >= 0 ==> |r| <= Default(limit, 5)
    ensures var related := RelatedAmong(ordered, tagId, QuotesOf(ordered, tagId));
      && |r| <= |related| && r == related[..|r|]
      && (0 <= Default(limit, 5) <= |related| ==> r == related[..Default(limit, 5)])
      && (Default(limit, 5) >= |related| ==> r == related)
  {
    var related := RelatedAmong(ordered, tagId, QuotesOf(ordered, tagId));
    var r := Take(related, Default(limit, 5));
    assert forall k :: 0 <= k < |r| ==> r[k] == related[k];
    r
  }

  /** `getPopularTags`: the first `limit` (default 10) tags by quote count. */
  function GetPopularTags(ordered: seq<Tag>, limit: Option<int>): (r: seq<Tag>)
    ensures Default(limit, 10) >= 0 ==> |r| <= Default(limit, 10)
    ensures 0 <= Default(limit, 10) <= |ordered| ==> r == ordered[..Default(limit, 10)]
    ensures Default(limit, 10) >= |ordered| ==> r == ordered
  {
    Take(ordered, Default(limit, 10))
  }

  /** `search`: a blank query gives the popular tags, otherwise the matching
      tags, at most `limit` (default 10). */
  function Search(ordered: seq<Tag>, query: string, limit: Option<int>, contains: (string, string) -> bool): (r: seq<Tag>)
    ensures JsText.Trim(query) != [] ==> forall k :: 0 <= k < |r| ==> SearchMatches(r[k], query, contains)
    ensures Default(limit, 10) >= 0 ==> |r| <= Default(limit, 10)
    ensures JsText.Trim(query) != [] ==>
      var m := Matching(ordered, query, contains);
      && |r| <= |m| && r == m[..|r|]
      && (0 <= Default(limit, 10) <= |m| ==> r == m[..Default(limit, 10)])
      && (Default(limit, 10) >= |m| ==> r == m)
  {
    if JsText.Trim(query) == [] then GetPopularTags(ordered, limit)
    else
      var m := Matching(ordered, query, contains);
      var r := Take(m, Default(limit, 10));
      assert forall k :: 0 <= k < |r| ==> r[k] == m[k];
      r
  }

  /** A query of whitespace only is answered exactly as the popular tags. */
  lemma {:induction false} BlankSearchIsPopular(ordered: seq<Tag>, query: string, limit: Option<int>,
                                                contains: (string, string) -> bool)
    requires forall k :: 0 <= k < |query| ==> JsText.IsSpace(query[k])
    ensures Search(ordered, query, limit, contains) == GetPopularTags(ordered, limit)
  {
    JsText.TrimEmptyIff(query);
  }
}
