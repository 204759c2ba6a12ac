/** The `/api/gallery` route handlers: both require a session user first; GET
    normalises pagination, filters and sort before calling the gallery
    service's list, POST validates the body before calling its create. The
    gallery service is given as functions. */
module GalleryRoute {
  import opened Common
  import JsText
  import QuoteService
  import QuotesRoute

  datatype GalleryFilter = GalleryFilter(search: Option<string>, isGlobal: bool, formats: Option<seq<string>>)

  datatype GallerySort = GallerySort(field: string, direction: string)

  datatype GalleryQuery = GalleryQuery(page: int, limit: int, sort: GallerySort, filter: GalleryFilter)

  /** `x || d` on a query parameter. */
  function OrText(p: Option<string>, d: string): (r: string)
    ensures Truthy(p) ==> r == p.value
    ensures !Truthy(p) ==> r == d
  {
    if Truthy(p) then p.value else d
  }

  /** The query of `GET`: page at least 1 (default 1), limit in 1..50
      (default 20), `isGlobal` only for exactly `"true"`, the comma-split
      formats, and sort `createdAt`/`desc` when missing or empty. */
  function ListQuery(pageParam: Option<int>, limitParam: Option<int>, search: Option<string>,
                     isGlobal: Option<string>, formats: Option<string>,
                     sortField: Option<string>, sortDirection: Option<string>): (q: GalleryQuery)
    ensures q.page == QuotesRoute.PageOf(pageParam) && q.page >= 1
    ensures q.limit == Clamp(Or(limitParam, 20), 1, 50) && 1 <= q.limit <= 50
    ensures search.None? ==> q.filter.search.None?
    ensures search.Some? ==> q.filter.search == Some(JsText.Trim(search.value))
    ensures q.filter.isGlobal <==> isGlobal == Some("true")
    ensures formats.None? <==> q.filter.formats.None?
    ensures formats.Some? ==> q.filter.formats == Some(JsText.Split(formats.value, ','))
    ensures q.sort.field == OrText(sortField, "createdAt")
    ensures q.sort.direction == OrText(sortDirection, "desc")
  {
    GalleryQuery(
      QuotesRoute.PageOf(pageParam),
      Clamp(Or(limitParam, 20), 1, 50),
      GallerySort(OrText(sortField, "createdAt"), OrText(sortDirection, "desc")),
      GalleryFilter(if search.Some? then Some(JsText.Trim(search.value)) else None,
                    isGlobal == Some("true"),
                    if formats.Some? then Some(JsText.Split(formats.value, ',')) else None))
  }

  /** The formats parameter joined back is the parameter itself. */
  lemma FormatsRoundTrip(formats: string)
    ensures JsText.Join(JsText.Split(formats, ','), ',') == formats
  {
    JsText.SplitJoin(formats, ',');
  }

  /** `GET`: 401 without a session user, before the query is read; otherwise
      the service's list, with its failures mapped. */
  function Get<L>(session: Option<QuoteService.SessionUser>, pageParam: Option<int>, limitParam: Option<int>,
                  search: Option<string>, isGlobal: Option<string>, formats: Option<string>,
                  sortField: Option<string>, sortDirection: Option<string>,
                  list: GalleryQuery -> Result<L>): (r: Response<L>)
    ensures session.None? ==> r == ErrorJson(Unauthorized, 401)
    ensures session.Some? ==>
      var out := list(ListQuery(pageParam, limitParam, search, isGlobal, formats, sortField, sortDirection));
      r == if out.Ok? then Json(out.value) else RespondWith(out.failure)
  {
    if session.None? then ErrorJson(Unauthorized, 401)
    else
      match list(ListQuery(pageParam, limitParam, search, isGlobal, formats, sortField, sortDirection))
      case Ok(l) => Json(l)
      case Err(f) => RespondWith(f)
  }

  /** `POST`: 401 without a session user; a body that does not parse as JSON
      is a 500; one that fails `createGallerySchema` is a 400
      VALIDATION_ERROR and nothing is created; otherwise the service's create,
      with its failures mapped. */
  function Post<B, D, G>(session: Option<QuoteService.SessionUser>, body: Option<B>,
                         validate: B -> Option<D>, create: D -> Result<G>): (r: Response<G>)
    ensures session.None? ==> r == ErrorJson(Unauthorized, 401)
    ensures session.Some? && body.None? ==> r == ErrorJson(InternalError, 500)
    ensures session.Some? && body.Some? && validate(body.value).None? ==> r == ErrorJson(ValidationError, 400)
    ensures r.Json? ==>
      session.Some? && body.Some? && validate(body.value).Some? && create(validate(body.value).value) == Ok(r.data)
    ensures session.Some? && body.Some? && validate(body.value).Some? && create(validate(body.value).value).Err? ==>
      r == RespondWith(create(validate(body.value).value).failure)
  {
    if session.None? then ErrorJson(Unauthorized, 401)
    else if body.None? then ErrorJson(InternalError, 500)
    else
      match validate(body.value)
      case None => ErrorJson(ValidationError, 400)
      case Some(d) =>
        match create(d)
        case Ok(g) => Json(g)
        case Err(f) => RespondWith(f)
  }
}
