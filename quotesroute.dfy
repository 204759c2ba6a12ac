/** The `/api/quotes` route handlers. POST gates on the session, the role and
    the body schema before calling the quote service; GET normalises the query
    parameters and calls the service's list. The service the route calls is
    given as a function: which implementation answers is not part of this
    model. */
module QuotesRoute {
  import opened Common
  import JsText
  import QuoteSchema
  import QuoteService

  /** The fields of the validated create body the route reads; the others are
      forwarded untouched. */
  datatype CreateQuoteData = CreateQuoteData(
    content: string,
    categoryId: string,
    authorProfileId: string,
    backgroundImage: Option<string>,
    galleryImageIds: Option<seq<string>>)

  /** What the route hands to `quoteService.create`. */
  datatype CreateRequest = CreateRequest(
    data: CreateQuoteData,
    authorId: string,
    galleryImages: Option<seq<QuoteSchema.GalleryImageState>>)

  /** The forwarded gallery: each image is active and the background exactly
      when its id is the body's `backgroundImage`. */
  function ForwardedGallery(data: CreateQuoteData): (g: Option<seq<QuoteSchema.GalleryImageState>>)
    ensures g.None? <==> data.galleryImageIds.None?
    ensures g.Some? ==>
      && |g.value| == |data.galleryImageIds.value|
      && forall k :: 0 <= k < |g.value| ==>
           && g.value[k].id == data.galleryImageIds.value[k]
           && g.value[k].isActive == g.value[k].isBackground
           && (g.value[k].isActive <==> data.backgroundImage == Some(g.value[k].id))
  {
    match data.galleryImageIds
    case None => None
    case Some(ids) =>
      Some(Map(ids, (id: string) =>
        QuoteSchema.GalleryImageState(id, data.backgroundImage == Some(id), data.backgroundImage == Some(id))))
  }

  /** `POST`. `body` is the parsed JSON (absent when it does not parse),
      `validate` is `createQuoteSchema.safeParse`, `create` the service call. */
  function Post<B, Q>(session: Option<QuoteService.SessionUser>, body: Option<B>,
                      validate: B -> Option<CreateQuoteData>,
                      create: CreateRequest -> Result<Q>): (r: Response<Q>)
    ensures !QuoteService.SignedIn(session) ==> r == ErrorJson(Unauthorized, 401)
    ensures QuoteService.SignedIn(session) && session.value.role != Some(Admin) && session.value.role != Some(Author) ==>
      r == ErrorJson(Forbidden, 403)
    ensures r.Json? ==>
      && QuoteService.SignedIn(session)
      && (session.value.role == Some(Admin) || session.value.role == Some(Author))
      && body.Some? && validate(body.value).Some?
      && var data := validate(body.value).value;
         create(CreateRequest(data, session.value.id.value, ForwardedGallery(data))) == Ok(r.data)
    ensures QuoteService.SignedIn(session) && (session.value.role == Some(Admin) || session.value.role == Some(Author)) ==>
      if body.None? then r == ErrorJson(InternalError, 500)
      else if validate(body.value).None? then r == ErrorJson(ValidationError, 400)
      else
        var data := validate(body.value).value;
        var out := create(CreateRequest(data, session.value.id.value, ForwardedGallery(data)));
        r == if out.Ok? then Json(out.value) else RespondWith(out.failure)
  {
    if !QuoteService.SignedIn(session) then ErrorJson(Unauthorized, 401)
    else if session.value.role != Some(Admin) && session.value.role != Some(Author) then ErrorJson(Forbidden, 403)
    else if body.None? then ErrorJson(InternalError, 500)
    else
      match validate(body.value)
      case None => ErrorJson(ValidationError, 400)
      case Some(data) =>
        match create(CreateRequest(data, session.value.id.value, ForwardedGallery(data)))
        case Ok(q) => Json(q)
        case Err(f) => RespondWith(f)
  }

  /** The list query the GET handler builds. */
  datatype ListQuery = ListQuery(
    page: int,
    limit: int,
    search: Option<string>,
    authorId: Option<string>,
    categoryId: Option<string>,
    authorProfileId: Option<string>)

  /** `searchParams.get(name) || undefined`. */
  function Param(p: Option<string>): (r: Option<string>)
    ensures r.Some? <==> Truthy(p)
    ensures r.Some? ==> r == p
  {
    if Truthy(p) then p else None
  }

  /** `Math.max(1, n || 1)`. */
  function PageOf(n: Option<int>): (p: int)
    ensures p >= 1
    ensures n.None? || n.value < 1 ==> p == 1
    ensures n.Some? && n.value >= 1 ==> p == n.value
  {
    var v := Or(n, 1);
    if v < 1 then 1 else v
  }

  /** The query of `GET`: page at least 1 (default 1), limit in 1..50
      (default 10), the trimmed search, and `authorId=me` read as the
      session user's id. */
  function GetQuery(session: QuoteService.SessionUser, pageParam: Option<int>, limitParam: Option<int>,
                    search: Option<string>, authorId: Option<string>, categoryId: Option<string>,
                    authorProfileId: Option<string>): (q: ListQuery)
    ensures q.page == PageOf(pageParam) && q.limit == Clamp(Or(limitParam, 10), 1, 50)
    ensures 1 <= q.limit <= 50 && q.page >= 1
    ensures search.None? ==> q.search.None?
    ensures search.Some? ==> q.search == Some(JsText.Trim(search.value))
    ensures Param(authorId) == Some("me") ==> q.authorId == session.id
    ensures Param(authorId) != Some("me") ==> q.authorId == Param(authorId)
    ensures q.categoryId == Param(categoryId) && q.authorProfileId == Param(authorProfileId)
  {
    var a := Param(authorId);
    ListQuery(PageOf(pageParam), Clamp(Or(limitParam, 10), 1, 50),
              if search.Some? then Some(JsText.Trim(search.value)) else None,
              if a == Some("me") then session.id else a,
              Param(categoryId), Param(authorProfileId))
  }

  /** `GET`: 401 without a session user; otherwise the service's list, and
      any failure of it is a 500 INTERNAL_ERROR (this handler does not pass
      AppErrors through). */
  function Get<L>(session: Option<QuoteService.SessionUser>, pageParam: Option<int>, limitParam: Option<int>,
                  search: Option<string>, authorId: Option<string>, categoryId: Option<string>,
                  authorProfileId: Option<string>, list: ListQuery -> Result<L>): (r: Response<L>)
    ensures session.None? ==> r == ErrorJson(Unauthorized, 401)
    ensures session.Some? ==>
      var out := list(GetQuery(session.value, pageParam, limitParam, search, authorId, categoryId, authorProfileId));
      r == if out.Ok? then Json(out.value) else ErrorJson(InternalError, 500)
  {
    if session.None? then ErrorJson(Unauthorized, 401)
    else
      match list(GetQuery(session.value, pageParam, limitParam, search, authorId, categoryId, authorProfileId))
      case Ok(l) => Json(l)
      case Err(_) => ErrorJson(InternalError, 500)
  }
}
