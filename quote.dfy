/** The quote service: content sanitising and slug choice, the create path with
    its length, slug and category checks and its database-error mapping, the
    access rule, the optimistically locked update, delete, list and search. */
module QuoteService {
  import opened Common
  import opened JsText
  import opened QuoteSchema

  // ---------------------------------------------------------------------
  // Sanitising content: trim, collapse `\s+` to one space, then drop every
  // character outside `[\w\s.,!?'"()-]`

  predicate IsWordChar(c: char) {
    ('a' <= c <= 'z') || ('A' <= c <= 'Z') || ('0' <= c <= '9') || c == '_'
  }

  /** The characters the final `replace` keeps. */
  predicate Allowed(c: char) {
    IsWordChar(c) || IsSpace(c) || c in ".,!?'\"()-"
  }

  /** `replace(/\s+/g, ' ')`: every maximal run of whitespace becomes one space. */
  function CollapseSpaces(s: string): (r: string)
    ensures |r| <= |s|
    ensures forall k :: 0 <= k < |r| ==> IsSpace(r[k]) ==> r[k] == ' '
    ensures forall k :: 0 <= k < |r| - 1 ==> !(r[k] == ' ' && r[k + 1] == ' ')
    ensures r != [] ==> s != [] && (r[0] == ' ' <==> IsSpace(s[0]))
    decreases |s|
  {
    if s == [] then []
    else if IsSpace(s[0]) then
      var rest := TrimStart(s);
      assert s[0..] == s;
      " " + CollapseSpaces(rest)
    else [s[0]] + CollapseSpaces(s[1..])
  }

  /** `replace(/[^\w\s.,!?'"()-]/g, '')`. */
  function KeepAllowed(s: string): (r: string)
    ensures |r| <= |s|
    ensures forall k :: 0 <= k < |r| ==> Allowed(r[k])
    ensures (forall k :: 0 <= k < |s| ==> IsSpace(s[k]) ==> s[k] == ' ') ==>
            forall k :: 0 <= k < |r| ==> IsSpace(r[k]) ==> r[k] == ' '
  {
    Filter(s, Allowed)
  }

  /** The replacement works character by character: an allowed character is
      kept in its place and any other is deleted. */
  lemma {:induction false} KeepAllowedAppend(a: string, b: string, c: char)
    ensures KeepAllowed(a + b) == KeepAllowed(a) + KeepAllowed(b)
    ensures KeepAllowed([c]) == if Allowed(c) then [c] else []
    ensures KeepAllowed([]) == []
  {
    FilterAppend(a, b, Allowed);
    assert [c][1..] == [];
  }

  predicate NotSpace(c: char) {
    !IsSpace(c)
  }

  /** Collapsing whitespace keeps every other character, in order. */
  lemma {:induction false} CollapseKeepsWords(s: string)
    ensures Filter(CollapseSpaces(s), NotSpace) == Filter(s, NotSpace)
    decreases |s|
  {
    if s != [] {
      if IsSpace(s[0]) {
        var rest := TrimStart(s);
        CollapseKeepsWords(rest);
        TrimStartKeepsWords(s);
        assert (" " + CollapseSpaces(rest))[1..] == CollapseSpaces(rest);
      } else {
        CollapseKeepsWords(s[1..]);
        assert ([s[0]] + CollapseSpaces(s[1..]))[1..] == CollapseSpaces(s[1..]);
      }
    }
  }

  /** Leading whitespace holds no other character. */
  lemma {:induction false} TrimStartKeepsWords(s: string)
    ensures Filter(TrimStart(s), NotSpace) == Filter(s, NotSpace)
  {
    if s != [] && IsSpace(s[0]) {
      TrimStartKeepsWords(s[1..]);
    }
  }

  /** `sanitizeContent`: only allowed characters remain, every whitespace
      character left is a plain space, and nothing grows. */
  function SanitizeContent(content: string): (r: string)
    ensures |r| <= |content|
    ensures forall k :: 0 <= k < |r| ==> Allowed(r[k])
    ensures forall k :: 0 <= k < |r| ==> IsSpace(r[k]) ==> r[k] == ' '
  {
    KeepAllowed(CollapseSpaces(Trim(content)))
  }

  /** Characters that are allowed and not whitespace pass through sanitising
      unchanged, so content made only of them is its own sanitised form. */
  lemma {:induction false} KeepAllowedIdentity(s: string)
    requires forall k :: 0 <= k < |s| ==> Allowed(s[k])
    ensures KeepAllowed(s) == s
  {
    if s != [] {
      KeepAllowedIdentity(s[1..]);
    }
  }

  lemma {:induction false} CollapseNoSpace(s: string)
    requires forall k :: 0 <= k < |s| ==> !IsSpace(s[k])
    ensures CollapseSpaces(s) == s
  {
    if s != [] {
      CollapseNoSpace(s[1..]);
    }
  }

  lemma SanitizePlainWord(s: string)
    requires forall k :: 0 <= k < |s| ==> Allowed(s[k]) && !IsSpace(s[k])
    ensures SanitizeContent(s) == s
  {
    assert TrimStart(s) == s;
    assert TrimEnd(s) == s;
    CollapseNoSpace(s);
    KeepAllowedIdentity(s);
  }

  /** The slug `create` and `update` choose: the provided slug trimmed when it
      is not blank, otherwise `slugify` of the first 50 sanitised characters. */
  function ChooseSlug(provided: Option<string>, sanitized: string, slugify: string -> string): (slug: string)
    ensures provided.Some? && Trim(provided.value) != [] ==>
      slug == Trim(provided.value) && !IsSpace(slug[0]) && !IsSpace(slug[|slug| - 1])
    ensures !(provided.Some? && Trim(provided.value) != []) ==>
      slug == slugify(sanitized[..if |sanitized| < 50 then |sanitized| else 50])
  {
    if provided.Some? && provided.value != "" && Trim(provided.value) != [] then Trim(provided.value)
    else slugify(sanitized[..if |sanitized| < 50 then |sanitized| else 50])
  }

  // ---------------------------------------------------------------------
  // Sessions, access and database failures

  datatype SessionUser = SessionUser(id: Option<string>, role: Option<Role>)

  /** `session?.user?.id` is truthy. */
  predicate SignedIn(session: Option<SessionUser>) {
    session.Some? && Truthy(session.value.id)
  }

  /** `validateAccess`; `owns` is what the ownership check answers. */
  function ValidateAccess(session: Option<SessionUser>, owns: bool): (r: Result<()>)
    ensures r.Ok? <==> SignedIn(session) && (session.value.role == Some(Admin) || (session.value.role == Some(Author) && owns))
    ensures !SignedIn(session) ==> r == Fail(Unauthorized)
    ensures SignedIn(session) && session.value.role == Some(Author) && !owns ==> r == Err(QuoteAccessError)
    ensures SignedIn(session) && session.value.role != Some(Admin) && session.value.role != Some(Author) ==>
      r == Fail(Forbidden)
  {
    if !SignedIn(session) then Fail(Unauthorized)
    else if session.value.role == Some(Admin) then Ok(())
    else if session.value.role == Some(Author) then (if owns then Ok(()) else Err(QuoteAccessError))
    else Fail(Forbidden)
  }

  /** An error the database client raises. */
  datatype DbFault = KnownRequestError(code: string) | UnknownFailure

  /** The `catch` of `create`. */
  function CreateFaultError(f: DbFault): (e: Failure)
    ensures e.AppError?
    ensures e.code == DuplicateSlug <==> f == KnownRequestError("P2002")
    ensures e.code == InvalidReference <==> f == KnownRequestError("P2003")
    ensures e.code == DatabaseError <==> f.KnownRequestError? && f.code != "P2002" && f.code != "P2003"
    ensures e.code == InternalError <==> f == UnknownFailure
    ensures e.status == StatusOf(e.code)
  {
    match f
    case KnownRequestError(code) =>
      if code == "P2002" then AppError(DuplicateSlug, StatusOf(DuplicateSlug))
      else if code == "P2003" then AppError(InvalidReference, StatusOf(InvalidReference))
      else AppError(DatabaseError, StatusOf(DatabaseError))
    case UnknownFailure => AppError(InternalError, StatusOf(InternalError))
  }

  /** The `catch` of `update`: a failed conditional write (P2025) is a
      concurrent modification. */
  function UpdateFaultError(f: DbFault): (e: Failure)
    ensures e.AppError?
    ensures e.code == ConcurrentModification <==> f == KnownRequestError("P2025")
    ensures e.code == DatabaseError <==> f.KnownRequestError? && f.code != "P2025"
    ensures e.code == InternalError <==> f == UnknownFailure
    ensures e.status == StatusOf(e.code)
  {
    match f
    case KnownRequestError(code) =>
      if code == "P2025" then AppError(ConcurrentModification, StatusOf(ConcurrentModification))
      else AppError(DatabaseError, StatusOf(DatabaseError))
    case UnknownFailure => AppError(InternalError, StatusOf(InternalError))
  }

  /** What another writer does while an update runs: nothing, delete the quote
      after it was read, or touch it between the transaction's read and its
      conditional write; or the write itself fails. */
  datatype Interference =
    | NoInterference
    | DeletedBeforeTransaction
    | TouchedInsideTransaction
    | WriteFault(fault: DbFault)

  // ---------------------------------------------------------------------
  // The quotes table

  datatype Quote = Quote(
    id: nat,
    content: string,
    slug: string,
    authorId: string,
    categoryId: string,
    authorProfileId: string,
    featured: bool,
    backgroundImage: Option<string>,
    createdAt: nat,
    updatedAt: nat)

  /** `validateSlug`: another quote (not `excludeId`) already has the slug. */
  predicate SlugInUse(rows: seq<Quote>, slug: string, excludeId: Option<nat>) {
    exists k :: 0 <= k < |rows| && rows[k].slug == slug && (excludeId.None? || rows[k].id != excludeId.value)
  }

  /** `validateSlug` against a table of unique slugs: without an excluded id
      the slug is in use exactly when a quote has it, and with one exactly
      when that quote is another. */
  lemma SlugInUseFound(rows: seq<Quote>, slug: string, id: nat)
    requires forall i, j :: 0 <= i < j < |rows| ==> rows[i].slug != rows[j].slug
    ensures SlugInUse(rows, slug, None) <==> FindSlug(rows, slug).Some?
    ensures SlugInUse(rows, slug, Some(id)) <==> FindSlug(rows, slug).Some? && FindSlug(rows, slug).value.id != id
  {
  }

  function IndexOfId(rows: seq<Quote>, id: nat): (i: int)
    ensures -1 <= i < |rows|
    ensures i == -1 <==> forall k :: 0 <= k < |rows| ==> rows[k].id != id
    ensures i >= 0 ==> rows[i].id == id
  {
    LastWhere(rows, (q: Quote) => q.id == id)
  }

  /** The content and slug an update computes, before any check. The content
      is sanitised only when it is truthy; an empty string is written as it
      is by the spread of the input. The slug is recomputed only when content
      is truthy or a slug is given. */
  function UpdatedContent(q: Quote, data: UpdateQuoteInput): (c: string)
    ensures data.content.None? ==> c == q.content
    ensures data.content == Some("") ==> c == ""
    ensures Truthy(data.content) ==> c == SanitizeContent(data.content.value)
  {
    if Truthy(data.content) then SanitizeContent(data.content.value)
    else if data.content.Some? then data.content.value
    else q.content
  }

  function UpdatedSlug(q: Quote, data: UpdateQuoteInput, slugify: string -> string): (s: string)
    ensures !Truthy(data.content) && data.slug.None? ==> s == q.slug
    ensures Truthy(data.content) || data.slug.Some? ==>
      s == ChooseSlug(data.slug, if Truthy(data.content) then SanitizeContent(data.content.value) else q.content, slugify)
  {
    if Truthy(data.content) || data.slug.Some? then
      ChooseSlug(data.slug, if Truthy(data.content) then SanitizeContent(data.content.value) else q.content, slugify)
    else q.slug
  }

  /** The row `update` writes: every supplied scalar field replaces the
      stored one, with content and slug as above. */
  function Patched(q: Quote, data: UpdateQuoteInput, slugify: string -> string): (p: Quote)
    ensures p.id == q.id && p.authorId == q.authorId && p.createdAt == q.createdAt
    ensures p.content == UpdatedContent(q, data) && p.slug == UpdatedSlug(q, data, slugify)
    ensures p.categoryId == data.categoryId.GetOr(q.categoryId)
    ensures p.authorProfileId == data.authorProfileId.GetOr(q.authorProfileId)
    ensures p.featured == data.featured.GetOr(q.featured)
    ensures p.backgroundImage == data.backgroundImage.GetOr(q.backgroundImage)
  {
    q.(content := UpdatedContent(q, data),
       slug := UpdatedSlug(q, data, slugify),
       categoryId := data.categoryId.GetOr(q.categoryId),
       authorProfileId := data.authorProfileId.GetOr(q.authorProfileId),
       featured := data.featured.GetOr(q.featured),
       backgroundImage := data.backgroundImage.GetOr(q.backgroundImage))
  }

  /** An update that supplies neither content nor slug keeps the slug, and
      one that supplies no content keeps the content. */
  lemma PatchedKeeps(q: Quote, data: UpdateQuoteInput, slugify: string -> string)
    ensures data.content.None? ==> Patched(q, data, slugify).content == q.content
    ensures !Truthy(data.content) && data.slug.None? ==> Patched(q, data, slugify).slug == q.slug
    ensures data == EmptyUpdate ==> Patched(q, data, slugify) == q
  { }

  /** The checks `update` makes before its transaction, in order; on success
      the position of the quote and the row to write. */
  function PrepareUpdate(rows: seq<Quote>, categories: set<string>, id: nat, data: UpdateQuoteInput,
                         session: Option<SessionUser>, owns: bool, slugify: string -> string): (r: Result<(nat, Quote)>)
    ensures r.Ok? ==> r.value.0 < |rows| && rows[r.value.0].id == id && r.value.1 == Patched(rows[r.value.0], data, slugify)
    ensures !SignedIn(session) ==> r == Fail(Unauthorized)
    ensures ValidateAccess(session, owns).Err? ==> r == Err(ValidateAccess(session, owns).failure)
    ensures ValidateAccess(session, owns).Ok? && IndexOfId(rows, id) == -1 ==> r == Fail(NotFound)
    ensures r.Ok? ==> ValidateAccess(session, owns).Ok?
    ensures r.Ok? && (Truthy(data.content) || data.slug.Some?) ==> !SlugInUse(rows, r.value.1.slug, Some(id))
    ensures r.Ok? && Truthy(data.categoryId) ==> data.categoryId.value in categories
    ensures ValidateAccess(session, owns).Ok? && IndexOfId(rows, id) >= 0 ==>
      var slug := UpdatedSlug(rows[IndexOfId(rows, id)], data, slugify);
      var duplicate := (Truthy(data.content) || data.slug.Some?) && SlugInUse(rows, slug, Some(id));
      var unknownCategory := Truthy(data.categoryId) && data.categoryId.value !in categories;
      && (duplicate ==> r == Fail(DuplicateSlug))
      && (!duplicate && unknownCategory ==> r == Fail(CategoryNotFound))
      && (r.Ok? <==> !duplicate && !unknownCategory)
  {
    var access := ValidateAccess(session, owns);
    if access.Err? then Err(access.failure)
    else
      var i := IndexOfId(rows, id);
      if i == -1 then Fail(NotFound)
      else
        var p := Patched(rows[i], data, slugify);
        if (Truthy(data.content) || data.slug.Some?) && SlugInUse(rows, p.slug, Some(id)) then Fail(DuplicateSlug)
        else if Truthy(data.categoryId) && data.categoryId.value !in categories then Fail(CategoryNotFound)
        else Ok((i, p))
  }

  /** A slug that passed the update schema has no surrounding whitespace, so
      `update` writes it exactly as given. */
  lemma ValidSlugKept(u: UpdateQuoteInput, isUrl: string -> bool, sanitized: string, slugify: string -> string)
    requires ValidUpdate(u, isUrl) && u.slug.Some?
    ensures ChooseSlug(u.slug, sanitized, slugify) == u.slug.value
  {
    var s := u.slug.value;
    UpdateSlugShape(u, isUrl);
    assert !IsSpace(s[0]) && !IsSpace(s[|s| - 1]);
    assert TrimStart(s) == s;
    assert TrimEnd(s) == s;
  }

  /** The checks `create` makes before writing, in order: raw content over 500
      characters, a slug already in use, an unknown category. On success, the
      sanitised content and the chosen slug. */
  function PrepareCreate(rows: seq<Quote>, categories: set<string>, data: CreateQuoteApiInput,
                         slugify: string -> string): (r: Result<(string, string)>)
    ensures |data.form.content| > 500 ==> r == Fail(ContentTooLong)
    ensures var slug := ChooseSlug(data.form.slug, SanitizeContent(data.form.content), slugify);
      && (|data.form.content| <= 500 && SlugInUse(rows, slug, None) ==> r == Fail(DuplicateSlug))
      && (|data.form.content| <= 500 && !SlugInUse(rows, slug, None) && data.form.categoryId !in categories ==>
            r == Fail(CategoryNotFound))
      && (r.Ok? <==> |data.form.content| <= 500 && !SlugInUse(rows, slug, None) && data.form.categoryId in categories)
      && (r.Ok? ==> r.value == (SanitizeContent(data.form.content), slug))
  {
    if |data.form.content| > 500 then Fail(ContentTooLong)
    else
      var sanitized := SanitizeContent(data.form.content);
      var slug := ChooseSlug(data.form.slug, sanitized, slugify);
      if SlugInUse(rows, slug, None) then Fail(DuplicateSlug)
      else if data.form.categoryId !in categories then Fail(CategoryNotFound)
      else Ok((sanitized, slug))
  }

  /** A valid form whose content is plain words (allowed characters and no
      whitespace) is stored exactly as written once `create` accepts it, and
      the stored content still passes the schemas' content rule. */
  lemma PlainFormStoredVerbatim(rows: seq<Quote>, categories: set<string>, data: CreateQuoteApiInput,
                                slugify: string -> string)
    requires ValidCreateApi(data)
    requires forall k :: 0 <= k < |data.form.content| ==> Allowed(data.form.content[k]) && !IsSpace(data.form.content[k])
    requires PrepareCreate(rows, categories, data, slugify).Ok?
    ensures PrepareCreate(rows, categories, data, slugify).value.0 == data.form.content
    ensures ContentInBounds(PrepareCreate(rows, categories, data, slugify).value.0)
  {
    SanitizePlainWord(data.form.content);
  }

  /** One page of the rows, newest first: the `skip`/`take` window of the
      rows in reverse creation order. */
  function NewestPage(all: seq<Quote>, skip: int, take: int): (items: seq<Quote>)
    requires Ascending(all)
    ensures items == Window(Reverse(all), skip, take)
    ensures take >= 0 ==> |items| <= take
    ensures forall i, j :: 0 <= i < j < |items| ==> items[i].createdAt > items[j].createdAt
    ensures forall k :: 0 <= k < |items| ==> items[k] in all
  {
    var items := Window(Reverse(all), skip, take);
    var lo := if skip < 0 then 0 else skip;
    assert forall k :: 0 <= k < |items| ==> items[k] == all[|all| - 1 - (lo + k)];
    items
  }

  datatype QuoteListResult = QuoteListResult(items: seq<Quote>, total: nat, hasMore: bool)

  ghost predicate Ascending(s: seq<Quote>) {
    forall i, j :: 0 <= i < j < |s| ==> s[i].createdAt < s[j].createdAt
  }

  /** `where: { authorId, categoryId }`, an absent filter matching everything. */
  predicate ListMatches(q: Quote, authorId: Option<string>, categoryId: Option<string>) {
    (authorId.Some? ==> q.authorId == authorId.value) && (categoryId.Some? ==> q.categoryId == categoryId.value)
  }

  function Listed(rows: seq<Quote>, authorId: Option<string>, categoryId: Option<string>): (r: seq<Quote>)
    ensures |r| <= |rows|
    ensures forall k :: 0 <= k < |r| ==> ListMatches(r[k], authorId, categoryId) && r[k] in rows
    ensures forall k :: 0 <= k < |rows| && ListMatches(rows[k], authorId, categoryId) ==> rows[k] in r
  {
    if rows == [] then []
    else
      var rest := Listed(rows[..|rows| - 1], authorId, categoryId);
      if ListMatches(rows[|rows| - 1], authorId, categoryId) then rest + [rows[|rows| - 1]] else rest
  }

  lemma {:induction false} ListedAscending(rows: seq<Quote>, authorId: Option<string>, categoryId: Option<string>)
    requires Ascending(rows)
    ensures Ascending(Listed(rows, authorId, categoryId))
  {
    if rows != [] {
      var init := rows[..|rows| - 1];
      ListedAscending(init, authorId, categoryId);
      var rest := Listed(init, authorId, categoryId);
      forall k | 0 <= k < |rest| ensures rest[k].createdAt < rows[|rows| - 1].createdAt {
        var j :| 0 <= j < |init| && init[j] == rest[k];
      }
    }
  }

  /** The quotes whose content contains the query (the containment test is a parameter). */
  function Containing(rows: seq<Quote>, query: string, contains: (string, string) -> bool): (r: seq<Quote>)
    ensures |r| <= |rows|
    ensures forall k :: 0 <= k < |r| ==> contains(r[k].content, query) && r[k] in rows
    ensures forall k :: 0 <= k < |rows| && contains(rows[k].content, query) ==> rows[k] in r
  {
    Filter(rows, ContentHas(query, contains))
  }

  /** `content: { contains: query }` as a test on one row. */
  function ContentHas(query: string, contains: (string, string) -> bool): Quote -> bool {
    (q: Quote) => contains(q.content, query)
  }

  /** The search filter keeps each matching row once, in table order. */
  lemma {:induction false} ContainingAppend(a: seq<Quote>, b: seq<Quote>, q: Quote, query: string,
                                            contains: (string, string) -> bool)
    ensures Containing(a + b, query, contains) == Containing(a, query, contains) + Containing(b, query, contains)
    ensures Containing([q], query, contains) == if contains(q.content, query) then [q] else []
    ensures Containing([], query, contains) == []
  {
    FilterAppend(a, b, ContentHas(query, contains));
    assert [q][1..] == [];
  }

  /** A table without repeated rows gives search matches without repeats. */
  lemma ContainingDistinct(rows: seq<Quote>, query: string, contains: (string, string) -> bool)
    requires Distinct(rows)
    ensures Distinct(Containing(rows, query, contains))
  {
    FilterDistinct(rows, ContentHas(query, contains));
  }

  /** Rows in creation order with increasing ids below `next`, stamps below
      `next`, and unique slugs. */
  ghost predicate Stored(quotes: seq<Quote>, next: nat) {
    && Ascending(quotes)
    && (forall i, j :: 0 <= i < j < |quotes| ==> quotes[i].id < quotes[j].id)
    && (forall i, j :: 0 <= i < j < |quotes| ==> quotes[i].slug != quotes[j].slug)
    && (forall k :: 0 <= k < |quotes| ==> quotes[k].id < next && quotes[k].createdAt < next && quotes[k].updatedAt < next)
  }

  /** A new row stamped with `next` under an unused slug keeps the table stored. */
  lemma {:induction false} AppendStored(quotes: seq<Quote>, next: nat, q: Quote)
    requires Stored(quotes, next) && !SlugInUse(quotes, q.slug, None)
    requires q.id == next && q.createdAt == next && q.updatedAt == next
    ensures Stored(quotes + [q], next + 1)
  {
    var r := quotes + [q];
    assert forall k :: 0 <= k < |quotes| ==> r[k] == quotes[k] && quotes[k].slug != q.slug;
  }

  /** Removing a row keeps the others stored. */
  lemma {:induction false} RemoveStored(quotes: seq<Quote>, next: nat, i: nat)
    requires Stored(quotes, next) && i < |quotes|
    ensures Stored(quotes[..i] + quotes[i + 1..], next)
  {
    var r := quotes[..i] + quotes[i + 1..];
    assert forall k :: 0 <= k < |r| ==> r[k] == quotes[if k < i then k else k + 1];
  }

  /** Rewriting a row in place, with the same id and creation stamp, a slug no
      other row has and an update stamp at most `next`, keeps the table stored. */
  lemma {:induction false} ReplaceStored(quotes: seq<Quote>, next: nat, i: nat, q: Quote)
    requires Stored(quotes, next) && i < |quotes|
    requires q.id == quotes[i].id && q.createdAt == quotes[i].createdAt && q.updatedAt <= next
    requires forall k :: 0 <= k < |quotes| && k != i ==> quotes[k].slug != q.slug
    ensures Stored(quotes[i := q], next + 1)
  {
  }

  /** The row `create` writes: the sanitised content under the chosen slug,
      the form's category and author profile, `featured` false unless given,
      the background image or null, stamped with `id`. */
  function NewRow(data: CreateQuoteApiInput, authorId: string, content: string, slug: string, id: nat): (q: Quote)
    ensures q.id == id && q.createdAt == id && q.updatedAt == id
    ensures q.content == content && q.slug == slug && q.authorId == authorId
    ensures q.categoryId == data.form.categoryId && q.authorProfileId == data.form.authorProfileId
    ensures q.featured == FeaturedOf(data.form) && q.backgroundImage == data.form.backgroundImage.GetOr(None)
  {
    Quote(id, content, slug, authorId, data.form.categoryId, data.form.authorProfileId,
          FeaturedOf(data.form), data.form.backgroundImage.GetOr(None), id, id)
  }

  class QuoteStore {
    var quotes: seq<Quote>
    /** The ids of the existing categories. */
    var categories: set<string>
    var next: nat

    ghost predicate Valid()
      reads this
    {
      Stored(quotes, next)
    }

    constructor (categories: set<string>)
      ensures Valid() && quotes == [] && this.categories == categories
    {
      quotes := [];
      this.categories := categories;
      next := 0;
    }

    /** `create`: the checks of `PrepareCreate`, then a failing write is
        mapped by `CreateFaultError`. Only a success adds a row: the sanitised
        content under the chosen slug, with `featured` false unless given. */
    method Create(data: CreateQuoteApiInput, authorId: string, slugify: string -> string, fault: Option<DbFault>)
      returns (r: Result<Quote>)
      requires Valid()
      modifies this
      ensures Valid() && categories == old(categories)
      ensures var pre := PrepareCreate(old(quotes), categories, data, slugify);
        && (pre.Err? ==> r == Err(pre.failure) && quotes == old(quotes))
        && (pre.Ok? && fault.Some? ==> r == Err(CreateFaultError(fault.value)) && quotes == old(quotes))
        && (pre.Ok? && fault.None? ==>
              && r == Ok(NewRow(data, authorId, pre.value.0, pre.value.1, old(next)))
              && quotes == old(quotes) + [r.value])
    {
      var pre := PrepareCreate(quotes, categories, data, slugify);
      if pre.Err? {
        return Err(pre.failure);
      }
      if fault.Some? {
        return Err(CreateFaultError(fault.value));
      }
      var q := NewRow(data, authorId, pre.value.0, pre.value.1, next);
      AppendStored(quotes, next, q);
      quotes := quotes + [q];
      next := next + 1;
      r := Ok(q);
    }

    /** `getById`. */
    function GetById(id: nat): (r: Option<Quote>)
      reads this
      ensures r.None? <==> forall k :: 0 <= k < |quotes| ==> quotes[k].id != id
      ensures r.Some? ==> r.value in quotes && r.value.id == id
    {
      var i := IndexOfId(quotes, id);
      if i == -1 then None else Some(quotes[i])
    }

    /** `getBySlug`: slugs are unique, so at most one quote answers. */
    function GetBySlug(slug: string): (r: Option<Quote>)
      reads this
      requires Valid()
      ensures r.None? <==> forall k :: 0 <= k < |quotes| ==> quotes[k].slug != slug
      ensures r.Some? ==> r.value.slug == slug && forall k :: 0 <= k < |quotes| && quotes[k].slug == slug ==> quotes[k] == r.value
    {
      FindSlug(quotes, slug)
    }

    /** `update`. The checks of `PrepareUpdate` come first; then a quote
        deleted meanwhile is CONCURRENT_DELETE, and a quote touched between the
        transaction's read of `updatedAt` and the write conditional on it makes
        the write match nothing: CONCURRENT_MODIFICATION. A write whose
        category does not exist violates the foreign key (a DATABASE_ERROR).
        On success exactly that row changes, to the patched row with a fresh
        `updatedAt`. */
    method Update(id: nat, data: UpdateQuoteInput, session: Option<SessionUser>, owns: bool,
                  slugify: string -> string, interference: Interference) returns (r: Result<Quote>)
      requires Valid()
      modifies this
      ensures Valid() && categories == old(categories)
      ensures var pre := PrepareUpdate(old(quotes), old(categories), id, data, session, owns, slugify);
        && (pre.Err? ==> r == Err(pre.failure) && quotes == old(quotes))
        && (pre.Ok? ==>
            var i := pre.value.0;
            match interference
            case DeletedBeforeTransaction =>
              r == Fail(ConcurrentDelete) && quotes == old(quotes)[..i] + old(quotes)[i + 1..]
            case TouchedInsideTransaction =>
              r == Fail(ConcurrentModification) && |quotes| == |old(quotes)|
              && quotes == old(quotes)[i := old(quotes)[i].(updatedAt := quotes[i].updatedAt)]
              && quotes[i].updatedAt != old(quotes)[i].updatedAt
            case WriteFault(f) =>
              r == Err(UpdateFaultError(f)) && quotes == old(quotes)
            case NoInterference =>
              if pre.value.1.categoryId !in categories then
                r == Fail(DatabaseError) && quotes == old(quotes)
              else
                && r.Ok? && r.value == pre.value.1.(updatedAt := r.value.updatedAt)
                && r.value.updatedAt > old(quotes)[i].updatedAt
                && quotes == old(quotes)[i := r.value])
    {
      var pre := PrepareUpdate(quotes, categories, id, data, session, owns, slugify);
      if pre.Err? {
        return Err(pre.failure);
      }
      var i := pre.value.0;
      var patched := pre.value.1;
      if interference == DeletedBeforeTransaction {
        // the other writer's delete; the transaction's read then finds nothing
        RemoveAt(i);
        return Fail(ConcurrentDelete);
      }
      if interference.WriteFault? {
        return Err(UpdateFaultError(interference.fault));
      }
      var stamp := quotes[i].updatedAt;
      if interference == TouchedInsideTransaction {
        // the other writer's update lands between the read and the write
        Touch(i);
      }
      assert forall k :: 0 <= k < |quotes| && k != i ==> quotes[k].slug != patched.slug by {
        if !(Truthy(data.content) || data.slug.Some?) {
          assert patched.slug == old(quotes)[i].slug;
        }
      }
      r := ConditionalWrite(i, stamp, patched);
    }

    /** Removes the row at position `i`. */
    method RemoveAt(i: nat)
      requires Valid() && i < |quotes|
      modifies this
      ensures Valid() && categories == old(categories)
      ensures quotes == old(quotes)[..i] + old(quotes)[i + 1..]
    {
      RemoveStored(quotes, next, i);
      quotes := quotes[..i] + quotes[i + 1..];
    }

    /** Another writer's update of the row at `i`: only its stamp moves on. */
    method Touch(i: nat)
      requires Valid() && i < |quotes|
      modifies this
      ensures Valid() && categories == old(categories)
      ensures quotes == old(quotes)[i := old(quotes)[i].(updatedAt := old(next))]
      ensures next > old(next)
    {
      ReplaceStored(quotes, next, i, quotes[i].(updatedAt := next));
      quotes := quotes[i := quotes[i].(updatedAt := next)];
      next := next + 1;
    }

    /** `update({ where: { id, updatedAt } })`: a row that no longer carries
        the stamp read before matches nothing (P2025); a category that does not
        exist violates the foreign key (P2003); otherwise exactly that row is
        written with a fresh `updatedAt`. */
    method ConditionalWrite(i: nat, stamp: nat, patched: Quote) returns (r: Result<Quote>)
      requires Valid() && i < |quotes| && patched.id == quotes[i].id && patched.createdAt == quotes[i].createdAt
      requires forall k :: 0 <= k < |quotes| && k != i ==> quotes[k].slug != patched.slug
      modifies this
      ensures Valid() && categories == old(categories)
      ensures old(quotes)[i].updatedAt != stamp ==>
        r == Err(UpdateFaultError(KnownRequestError("P2025"))) && quotes == old(quotes)
      ensures old(quotes)[i].updatedAt == stamp && patched.categoryId !in categories ==>
        r == Err(UpdateFaultError(KnownRequestError("P2003"))) && quotes == old(quotes)
      ensures old(quotes)[i].updatedAt == stamp && patched.categoryId in categories ==>
        r == Ok(patched.(updatedAt := old(next))) && quotes == old(quotes)[i := r.value] && old(next) > stamp
    {
      if quotes[i].updatedAt != stamp {
        return Err(UpdateFaultError(KnownRequestError("P2025")));
      }
      if patched.categoryId !in categories {
        return Err(UpdateFaultError(KnownRequestError("P2003")));
      }
      var q := patched.(updatedAt := next);
      ReplaceStored(quotes, next, i, q);
      quotes := quotes[i := q];
      next := next + 1;
      r := Ok(q);
    }

    /** `delete`: the access rule, then the row is removed; a missing row
        makes the raw delete throw. */
    method Delete(id: nat, session: Option<SessionUser>, owns: bool) returns (r: Result<Quote>)
      requires Valid()
      modifies this
      ensures Valid() && categories == old(categories)
      ensures ValidateAccess(session, owns).Err? ==> r == Err(ValidateAccess(session, owns).failure) && quotes == old(quotes)
      ensures ValidateAccess(session, owns).Ok? && IndexOfId(old(quotes), id) == -1 ==>
        r == Err(OtherException) && quotes == old(quotes)
      ensures ValidateAccess(session, owns).Ok? && IndexOfId(old(quotes), id) >= 0 ==>
        var i := IndexOfId(old(quotes), id);
        r == Ok(old(quotes)[i]) && quotes == old(quotes)[..i] + old(quotes)[i + 1..]
    {
      var access := ValidateAccess(session, owns);
      if access.Err? {
        return Err(access.failure);
      }
      var i := IndexOfId(quotes, id);
      if i == -1 {
        return Err(OtherException);
      }
      r := Ok(quotes[i]);
      RemoveAt(i);
    }

    /** `list`: `page || 1`, `limit || 10`, the optional author and category
        filters, newest first. */
    function List(page: Option<int>, limit: Option<int>, authorId: Option<string>, categoryId: Option<string>)
      : (r: QuoteListResult)
      reads this
      requires Valid()
      ensures forall k :: 0 <= k < |r.items| ==> ListMatches(r.items[k], authorId, categoryId) && r.items[k] in quotes
      ensures forall i, j :: 0 <= i < j < |r.items| ==> r.items[i].createdAt > r.items[j].createdAt
      ensures Or(limit, 10) >= 0 ==> |r.items| <= Or(limit, 10)
      ensures r.items == Window(Reverse(Listed(quotes, authorId, categoryId)), Skip(Or(page, 1), Or(limit, 10)), Or(limit, 10))
      ensures r.total == |Listed(quotes, authorId, categoryId)|
      ensures r.hasMore <==> HasMore(r.total, Skip(Or(page, 1), Or(limit, 10)), |r.items|)
    {
      var all := Listed(quotes, authorId, categoryId);
      ListedAscending(quotes, authorId, categoryId);
      var skip := Skip(Or(page, 1), Or(limit, 10));
      var items := NewestPage(all, skip, Or(limit, 10));
      QuoteListResult(items, |all|, |all| > skip + |items|)
    }

    /** `search`: at most ten quotes whose content contains the query; all of
        them when there are fewer than ten. */
    function Search(query: string, contains: (string, string) -> bool): (r: seq<Quote>)
      reads this
      ensures |r| <= 10
      ensures forall k :: 0 <= k < |r| ==> contains(r[k].content, query) && r[k] in quotes
      ensures |Containing(quotes, query, contains)| <= 10 ==> r == Containing(quotes, query, contains)
      ensures |Containing(quotes, query, contains)| >= 10 ==> r == Containing(quotes, query, contains)[..10]
    {
      var m := Containing(quotes, query, contains);
      var r := Take(m, 10);
      assert forall k :: 0 <= k < |r| ==> r[k] == m[k];
      r
    }

    /** The stored ids are unique, so `search` never returns a quote twice. */
    lemma SearchDistinct(query: string, contains: (string, string) -> bool)
      requires Valid()
      ensures Distinct(Search(query, contains))
    {
      assert Distinct(quotes) by {
        forall i, j | 0 <= i < j < |quotes| ensures quotes[i] != quotes[j] {
          assert quotes[i].id < quotes[j].id;
        }
      }
      ContainingDistinct(quotes, query, contains);
      var m := Containing(quotes, query, contains);
      var r := Search(query, contains);
      assert forall k :: 0 <= k < |r| ==> r[k] == m[k];
    }
  }

  /** The quote with the given slug. */
  function FindSlug(rows: seq<Quote>, slug: string): (r: Option<Quote>)
    requires forall i, j :: 0 <= i < j < |rows| ==> rows[i].slug != rows[j].slug
    ensures r.None? <==> forall k :: 0 <= k < |rows| ==> rows[k].slug != slug
    ensures r.Some? ==> r.value.slug == slug && forall k :: 0 <= k < |rows| && rows[k].slug == slug ==> rows[k] == r.value
  {
    var i := LastWhere(rows, (q: Quote) => q.slug == slug);
    if i == -1 then None else Some(rows[i])
  }
}
