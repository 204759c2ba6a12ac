/** Shared vocabulary of the service layer and the route handlers: optional
    values, the application error taxonomy, and the pagination arithmetic that
    every list operation repeats. */
module Common {

  datatype Option<T> = None | Some(value: T) {
    function GetOr(default: T): T {
      match this
      case Some(v) => v
      case None => default
    }
  }

  /** The string codes an AppError carries to the client. */
  datatype ErrorCode =
    | NotFound
    | Forbidden
    | Unauthorized
    | BadRequest
    | ValidationError
    | DuplicateSlug
    | ContentTooLong
    | ConcurrentDelete
    | ConcurrentModification
    | CategoryNotFound
    | InvalidReference
    | DatabaseError
    | InternalError

  /** What a service call can throw: an AppError with its code and HTTP status,
      the ownership module's QuoteAccessError (its code and status are not part
      of this model), or any other exception (a raw database or runtime error). */
  datatype Failure =
    | AppError(code: ErrorCode, status: nat)
    | QuoteAccessError
    | OtherException

  datatype Result<T> = Ok(value: T) | Err(failure: Failure)

  /** The HTTP status each service throw site pairs with its code. */
  function StatusOf(code: ErrorCode): (s: nat)
    ensures 400 <= s <= 500
    ensures s == 500 <==> code in {DatabaseError, InternalError}
    ensures s == 409 <==> code in {ConcurrentDelete, ConcurrentModification}
  {
    match code
    case NotFound => 404
    case CategoryNotFound => 404
    case Forbidden => 403
    case Unauthorized => 401
    case BadRequest => 400
    case ValidationError => 400
    case DuplicateSlug => 400
    case ContentTooLong => 400
    case InvalidReference => 400
    case ConcurrentDelete => 409
    case ConcurrentModification => 409
    case DatabaseError => 500
    case InternalError => 500
  }

  /** An AppError with the status its code is thrown with. */
  function Fail<T>(code: ErrorCode): Result<T> {
    Err(AppError(code, StatusOf(code)))
  }

  /** A route handler's JSON answer: `{ data }`, or `{ error: { code } }` with its status. */
  datatype Response<T> = Json(data: T) | ErrorJson(code: ErrorCode, status: nat)

  /** The routes' catch: an AppError keeps its code and status, anything else
      is a 500 INTERNAL_ERROR. */
  function RespondWith<T>(f: Failure): (r: Response<T>)
    ensures r.ErrorJson?
    ensures f.AppError? ==> r.code == f.code && r.status == f.status
    ensures !f.AppError? ==> r.code == InternalError && r.status == 500
  {
    if f.AppError? then ErrorJson(f.code, f.status) else ErrorJson(InternalError, 500)
  }

  /** The user roles of the session. */
  datatype Role = Admin | Author | User

  /** JavaScript `n || d` on an optional number: absent and 0 both give `d`. */
  function Or(n: Option<int>, d: int): (r: int)
    ensures r == d <==> (n == None || n.value == 0 || n.value == d)
    ensures r != d ==> n == Some(r)
  {
    if n.None? || n.value == 0 then d else n.value
  }

  /** A destructuring default `{ x = d }`: only an absent value gives `d`. */
  function Default(n: Option<int>, d: int): (r: int)
    ensures n.Some? ==> r == n.value
    ensures n.None? ==> r == d
  {
    n.GetOr(d)
  }

  /** `Math.min(hi, Math.max(lo, x))`. */
  function Clamp(x: int, lo: int, hi: int): (r: int)
    requires lo <= hi
    ensures lo <= r <= hi
    ensures lo <= x <= hi ==> r == x
    ensures x < lo ==> r == lo
    ensures x > hi ==> r == hi
  {
    if x < lo then lo else if x > hi then hi else x
  }

  /** The offset of a page: `(page - 1) * limit`. */
  function Skip(page: int, limit: int): (s: int)
    ensures page == 1 ==> s == 0
    ensures page >= 1 && limit >= 0 ==> s >= 0
    ensures s + limit == page * limit
  {
    (page - 1) * limit
  }

  /** The rows a query with `skip` and `take` returns from the ordered rows
      `s`. A negative skip is read as 0 and a non-positive take as nothing. */
  function Window<T>(s: seq<T>, skip: int, take: int): (w: seq<T>)
    ensures |w| <= |s|
    ensures take >= 0 ==> |w| <= take
    ensures skip >= 0 && take >= 0 && skip + take <= |s| ==> |w| == take
    ensures skip >= |s| || take <= 0 ==> w == []
    ensures |w| > 0 ==> (if skip < 0 then 0 else skip) + |w| <= |s|
    ensures forall k :: 0 <= k < |w| ==> w[k] == s[(if skip < 0 then 0 else skip) + k]
  {
    var lo := if skip < 0 then 0 else skip;
    if lo >= |s| || take <= 0 then []
    else s[lo..if lo + take < |s| then lo + take else |s|]
  }

  /** `take: n` without skip. */
  function Take<T>(s: seq<T>, n: int): (w: seq<T>)
    ensures n >= 0 && n <= |s| ==> |w| == n
    ensures n >= |s| ==> w == s
    ensures w == Window(s, 0, n)
  {
    Window(s, 0, n)
  }

  /** The shared `hasMore` rule: more rows exist past this page. */
  predicate HasMore(total: int, skip: int, returned: int) {
    total > skip + returned
  }

  /** `hasMore` says exactly whether rows remain past the page's window. */
  lemma HasMoreIff<T>(s: seq<T>, skip: int, take: int)
    requires skip >= 0 && take >= 0
    ensures HasMore(|s|, skip, |Window(s, skip, take)|) <==> skip + take < |s|
  {
  }

  /** Adjacent windows join: the window of `x` rows at `a` followed by the
      window of `y` rows right after it is the window of `x + y` rows at `a`. */
  lemma WindowSplit<T>(s: seq<T>, a: int, x: int, y: int)
    requires a >= 0 && x >= 0 && y >= 0
    ensures Window(s, a, x) + Window(s, a + x, y) == Window(s, a, x + y)
  {
    if a < |s| && x > 0 && a + x < |s| && y > 0 {
      var j := a + x;
      var k := if j + y < |s| then j + y else |s|;
      assert s[a..j] + s[j..k] == s[a..k];
    }
  }

  /** Pages tile the rows: page `page + 1` starts right where page `page`
      ends, so two consecutive pages are the double-sized window. */
  lemma PagesTile<T>(s: seq<T>, page: int, limit: int)
    requires page >= 1 && limit >= 0
    ensures Skip(page + 1, limit) == Skip(page, limit) + limit
    ensures Window(s, Skip(page, limit), limit) + Window(s, Skip(page + 1, limit), limit)
         == Window(s, Skip(page, limit), 2 * limit)
  {
    assert Skip(page + 1, limit) == page * limit;
    WindowSplit(s, Skip(page, limit), limit, limit);
  }

  /** Every element of `w` is an element of `s`. */
  ghost predicate Within<T>(w: seq<T>, s: seq<T>) {
    forall x :: x in w ==> x in s
  }

  lemma WindowWithin<T>(s: seq<T>, skip: int, take: int)
    ensures Within(Window(s, skip, take), s)
  {
    var w := Window(s, skip, take);
    forall x | x in w ensures x in s {
      var k :| 0 <= k < |w| && w[k] == x;
      assert s[(if skip < 0 then 0 else skip) + k] == x;
    }
  }

  /** Filtering a sequence by a predicate, keeping order. */
  function Filter<T(==)>(s: seq<T>, p: T -> bool): (r: seq<T>)
    ensures |r| <= |s|
    ensures forall k :: 0 <= k < |r| ==> r[k] in s && p(r[k])
    ensures forall k :: 0 <= k < |s| && p(s[k]) ==> s[k] in r
  {
    if s == [] then [] else if p(s[0]) then [s[0]] + Filter(s[1..], p) else Filter(s[1..], p)
  }

  lemma {:induction false} FilterAppend<T>(a: seq<T>, b: seq<T>, p: T -> bool)
    ensures Filter(a + b, p) == Filter(a, p) + Filter(b, p)
  {
    if a != [] {
      assert (a + b)[1..] == a[1..] + b;
      FilterAppend(a[1..], b, p);
    } else {
      assert a + b == b;
    }
  }

  /** Mapping a function over a sequence. */
  function Map<T, U>(s: seq<T>, f: T -> U): (r: seq<U>)
    ensures |r| == |s|
    ensures forall k :: 0 <= k < |s| ==> r[k] == f(s[k])
  {
    seq(|s|, k requires 0 <= k < |s| => f(s[k]))
  }

  /** Mapping splits over concatenation. */
  lemma MapAppend<T, U>(a: seq<T>, b: seq<T>, f: T -> U)
    ensures Map(a + b, f) == Map(a, f) + Map(b, f)
  {
    assert forall k :: 0 <= k < |a + b| ==> (a + b)[k] == if k < |a| then a[k] else b[k - |a|];
  }

  /** The elements in reverse order: the newest-first view of rows kept in
      creation order. */
  function Reverse<T>(s: seq<T>): (r: seq<T>)
    ensures |r| == |s|
    ensures forall k :: 0 <= k < |s| ==> r[k] == s[|s| - 1 - k]
  {
    if s == [] then [] else [s[|s| - 1]] + Reverse(s[..|s| - 1])
  }

  /** A JavaScript string value used as a condition: present and non-empty. */
  predicate Truthy(s: Option<string>) {
    s.Some? && s.value != ""
  }

  /** The position of the last element satisfying `p`, or -1: the lookup
      behind `findUnique` and `findFirst` on a key. */
  function LastWhere<T>(s: seq<T>, p: T -> bool): (i: int)
    ensures -1 <= i < |s|
    ensures i == -1 <==> forall k :: 0 <= k < |s| ==> !p(s[k])
    ensures i >= 0 ==> p(s[i]) && forall k :: i < k < |s| ==> !p(s[k])
  {
    if s == [] then -1
    else if p(s[|s| - 1]) then |s| - 1
    else LastWhere(s[..|s| - 1], p)
  }

  /** Elements pairwise distinct. */
  predicate Distinct<T(==)>(s: seq<T>) {
    forall i, j :: 0 <= i < j < |s| ==> s[i] != s[j]
  }

  /** Filtering a sequence without repeats gives one without repeats. */
  lemma {:induction false} FilterDistinct<T>(s: seq<T>, p: T -> bool)
    requires Distinct(s)
    ensures Distinct(Filter(s, p))
  {
    if s != [] {
      var rest := Filter(s[1..], p);
      FilterDistinct(s[1..], p);
      if p(s[0]) {
        forall k | 0 <= k < |rest| ensures rest[k] != s[0] {
          var j :| 0 <= j < |s[1..]| && s[1..][j] == rest[k];
          assert s[j + 1] == rest[k];
        }
      }
    }
  }
}
