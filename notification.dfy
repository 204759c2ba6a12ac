/** The notification service: the notification table, the synchronous in-app
    fan-out to the followers of an author profile, the paginated listing with
    its read filter, and the read-state and delete operations with their
    not-found-then-forbidden checks. */
module NotificationService {
  import opened Common

  datatype NotificationType = NewQuote | OtherType(name: string)

  /** The fields a caller supplies to `createNotification`. */
  datatype CreateNotificationInput = CreateNotificationInput(
    kind: NotificationType,
    title: Option<string>,
    message: string,
    userId: string,
    quoteId: Option<string>,
    authorProfileId: Option<string>,
    actorId: Option<string>)

  /** A stored row. Ids and creation stamps are issued by the table. */
  datatype Notification = Notification(
    id: nat,
    kind: NotificationType,
    title: Option<string>,
    message: string,
    userId: string,
    quoteId: Option<string>,
    authorProfileId: Option<string>,
    actorId: Option<string>,
    read: bool,
    createdAt: nat)

  /** An AuthorFollow row: `userId` follows `authorProfileId`. */
  datatype Follower = Follower(userId: string, authorProfileId: string)

  datatype NotificationListResult = NotificationListResult(
    items: seq<Notification>,
    total: nat,
    unreadCount: nat,
    hasMore: bool,
    page: int,
    limit: int)

  /** A stored row carries exactly the caller's fields and starts unread. */
  predicate Carries(n: Notification, data: CreateNotificationInput) {
    && n.kind == data.kind && n.title == data.title && n.message == data.message
    && n.userId == data.userId && n.quoteId == data.quoteId
    && n.authorProfileId == data.authorProfileId && n.actorId == data.actorId
    && !n.read
  }

  /** The row the table stores for `data` under id `id`, stamped at `id`. */
  function Stamp(data: CreateNotificationInput, id: nat): (n: Notification)
    ensures Carries(n, data) && n.id == id && n.createdAt == id
  {
    Notification(id, data.kind, data.title, data.message, data.userId,
                 data.quoteId, data.authorProfileId, data.actorId, false, id)
  }

  /** `createMany`: the rows for `datas`, in order, under the ids from `next` on. */
  function StampAll(datas: seq<CreateNotificationInput>, next: nat): (r: seq<Notification>)
    ensures |r| == |datas|
    ensures forall k :: 0 <= k < |r| ==> Carries(r[k], datas[k]) && r[k].id == next + k && r[k].createdAt == next + k
  {
    seq(|datas|, k requires 0 <= k < |datas| => Stamp(datas[k], next + k))
  }

  /** The in-app notice one follower receives when the author publishes. */
  function NewQuoteNotice(f: Follower, authorProfileId: string, quoteId: string,
                          authorId: string, authorName: string): CreateNotificationInput
  {
    CreateNotificationInput(NewQuote, Some("New Quote Posted"), authorName + " has posted a new quote",
                            f.userId, Some(quoteId), Some(authorProfileId), Some(authorId))
  }

  /** `followers.map(...)`: one notice per follower, in order. */
  function Notices(fs: seq<Follower>, authorProfileId: string, quoteId: string,
                   authorId: string, authorName: string): (ds: seq<CreateNotificationInput>)
    ensures |ds| == |fs|
    ensures forall k :: 0 <= k < |fs| ==> ds[k] == NewQuoteNotice(fs[k], authorProfileId, quoteId, authorId, authorName)
  {
    seq(|fs|, k requires 0 <= k < |fs| => NewQuoteNotice(fs[k], authorProfileId, quoteId, authorId, authorName))
  }

  /** The AuthorFollow `where: { authorProfileId }` condition. */
  function FollowsProfile(authorProfileId: string): Follower -> bool {
    (f: Follower) => f.authorProfileId == authorProfileId
  }

  /** The AuthorFollow rows `where: { authorProfileId }`, in table order. */
  function FollowersOf(follows: seq<Follower>, authorProfileId: string): (fs: seq<Follower>)
    ensures |fs| <= |follows|
    ensures forall k :: 0 <= k < |fs| ==> fs[k].authorProfileId == authorProfileId && fs[k] in follows
    ensures forall f :: f in follows && f.authorProfileId == authorProfileId ==> f in fs
  {
    Filter(follows, FollowsProfile(authorProfileId))
  }

  /** The follower query is determined row by row: a follow of the profile
      is returned once, in its place, and any other follow is skipped. So
      `n` follows of the profile give exactly `n` followers, in table order. */
  lemma {:induction false} FollowersOfAppend(a: seq<Follower>, b: seq<Follower>, f: Follower, authorProfileId: string)
    ensures FollowersOf(a + b, authorProfileId) == FollowersOf(a, authorProfileId) + FollowersOf(b, authorProfileId)
    ensures FollowersOf([f], authorProfileId) == if f.authorProfileId == authorProfileId then [f] else []
    ensures FollowersOf([], authorProfileId) == []
  {
    FilterAppend(a, b, FollowsProfile(authorProfileId));
    assert [f][1..] == [];
  }

  // ---------------------------------------------------------------------
  // The author-name sanitiser used for e-mail tags

  predicate IsTagChar(c: char) {
    ('a' <= c <= 'z') || ('A' <= c <= 'Z') || ('0' <= c <= '9') || c == '_' || c == '-'
  }

  /** `authorName.replace(/[^a-zA-Z0-9_-]/g, '_')`. */
  function SanitizeTagName(s: string): (r: string)
    ensures |r| == |s|
    ensures forall k :: 0 <= k < |r| ==> IsTagChar(r[k])
    ensures forall k :: 0 <= k < |s| ==> (IsTagChar(s[k]) ==> r[k] == s[k]) && (!IsTagChar(s[k]) ==> r[k] == '_')
  {
    if s == [] then [] else [if IsTagChar(s[0]) then s[0] else '_'] + SanitizeTagName(s[1..])
  }

  /** Sanitising a sanitised name changes nothing. */
  lemma SanitizeTagNameIdempotent(s: string)
    ensures SanitizeTagName(SanitizeTagName(s)) == SanitizeTagName(s)
  {
    var r := SanitizeTagName(s);
    var rr := SanitizeTagName(r);
    assert forall k :: 0 <= k < |r| ==> rr[k] == r[k];
  }

  /** A name already made of tag characters is left as it is. */
  lemma SanitizeTagNameKeepsValid(s: string)
    requires forall k :: 0 <= k < |s| ==> IsTagChar(s[k])
    ensures SanitizeTagName(s) == s
  {
    var r := SanitizeTagName(s);
    assert forall k :: 0 <= k < |s| ==> r[k] == s[k];
  }

  // ---------------------------------------------------------------------
  // Queries over the table, as functions of its rows

  /** The `read` clause of the list's where condition: `None` means no clause. */
  function ReadClauseOf(includeRead: bool, onlyRead: bool): Option<bool> {
    if !includeRead then Some(false) else if onlyRead then Some(true) else None
  }

  predicate Matches(n: Notification, userId: string, clause: Option<bool>) {
    n.userId == userId && (clause.Some? ==> n.read == clause.value)
  }

  /** The rows of `userId` the where condition admits, in table order. */
  function Matching(rows: seq<Notification>, userId: string, clause: Option<bool>): (r: seq<Notification>)
    ensures |r| <= |rows|
    ensures forall k :: 0 <= k < |r| ==> Matches(r[k], userId, clause) && r[k] in rows
    ensures forall k :: 0 <= k < |rows| && Matches(rows[k], userId, clause) ==> rows[k] in r
  {
    if rows == [] then []
    else
      var rest := Matching(rows[..|rows| - 1], userId, clause);
      if Matches(rows[|rows| - 1], userId, clause) then rest + [rows[|rows| - 1]] else rest
  }

  /** Rows drawn from the matching rows are admitted rows of the table. */
  lemma MatchingMembers(rows: seq<Notification>, userId: string, clause: Option<bool>, items: seq<Notification>)
    requires forall k :: 0 <= k < |items| ==> items[k] in Matching(rows, userId, clause)
    ensures forall k :: 0 <= k < |items| ==> Matches(items[k], userId, clause) && items[k] in rows
  {
    var m := Matching(rows, userId, clause);
    forall k | 0 <= k < |items|
      ensures Matches(items[k], userId, clause) && items[k] in rows
    {
      var j :| 0 <= j < |m| && m[j] == items[k];
    }
  }

  /** The where clause admits the user's rows, only the unread ones when read
      rows are excluded, and only the read ones when they are asked for alone. */
  lemma ReadClauseAdmits(n: Notification, userId: string, includeRead: bool, onlyRead: bool)
    ensures Matches(n, userId, ReadClauseOf(includeRead, onlyRead))
        <==> n.userId == userId && (!includeRead ==> !n.read) && (includeRead && onlyRead ==> n.read)
  { }

  /** `count({ where: { userId, read: false } })`: the number of unread rows of `userId`. */
  function UnreadOf(rows: seq<Notification>, userId: string): (c: nat)
    ensures c == |Matching(rows, userId, Some(false))|
  {
    if rows == [] then 0
    else UnreadOf(rows[..|rows| - 1], userId)
         + (if rows[|rows| - 1].userId == userId && !rows[|rows| - 1].read then 1 else 0)
  }

  ghost predicate Ascending(s: seq<Notification>) {
    forall i, j :: 0 <= i < j < |s| ==> s[i].createdAt < s[j].createdAt
  }

  ghost predicate Descending(s: seq<Notification>) {
    forall i, j :: 0 <= i < j < |s| ==> s[i].createdAt > s[j].createdAt
  }

  /** The where-filtered rows keep the table's creation order. */
  lemma {:induction false} MatchingAscending(rows: seq<Notification>, userId: string, clause: Option<bool>)
    requires Ascending(rows)
    ensures Ascending(Matching(rows, userId, clause))
  {
    if rows != [] {
      var init := rows[..|rows| - 1];
      MatchingAscending(init, userId, clause);
      var rest := Matching(init, userId, clause);
      forall k | 0 <= k < |rest| ensures rest[k].createdAt < rows[|rows| - 1].createdAt {
        var j :| 0 <= j < |init| && init[j] == rest[k];
      }
    }
  }

  /** One page of the rows, newest first: the `skip`/`take` window of the
      rows in reverse creation order. */
  function NewestPage(matching: seq<Notification>, skip: int, take: int): (items: seq<Notification>)
    requires Ascending(matching)
    ensures items == Window(Reverse(matching), skip, take)
    ensures take >= 0 ==> |items| <= take
    ensures |items| <= |matching|
    ensures Descending(items)
    ensures forall k :: 0 <= k < |items| ==> items[k] in matching
  {
    var items := Window(Reverse(matching), skip, take);
    var lo := if skip < 0 then 0 else skip;
    assert forall k :: 0 <= k < |items| ==> items[k] == matching[|matching| - 1 - (lo + k)];
    items
  }

  /** The listing: `getUserNotifications`, with its destructuring defaults
      (page 1, limit 10, includeRead true, onlyRead false). */
  function ListOf(rows: seq<Notification>, userId: string, page: Option<int>, limit: Option<int>,
                  includeRead: Option<bool>, onlyRead: Option<bool>): (r: NotificationListResult)
    requires Ascending(rows)
    ensures r.page == Default(page, 1) && r.limit == Default(limit, 10)
    ensures includeRead == Some(false) ==> forall k :: 0 <= k < |r.items| ==> !r.items[k].read
    ensures includeRead != Some(false) && onlyRead == Some(true) ==> forall k :: 0 <= k < |r.items| ==> r.items[k].read
    ensures forall k :: 0 <= k < |r.items| ==> r.items[k].userId == userId && r.items[k] in rows
    ensures Descending(r.items)
    ensures r.limit >= 0 ==> |r.items| <= r.limit
    ensures r.items == Window(Reverse(Matching(rows, userId, ReadClauseOf(includeRead.GetOr(true), onlyRead.GetOr(false)))),
                              Skip(r.page, r.limit), r.limit)
    ensures r.total == |Matching(rows, userId, ReadClauseOf(includeRead.GetOr(true), onlyRead.GetOr(false)))|
    ensures r.unreadCount == UnreadOf(rows, userId)
    ensures r.hasMore <==> HasMore(r.total, Skip(r.page, r.limit), |r.items|)
  {
    var p := Default(page, 1);
    var l := Default(limit, 10);
    var skip := Skip(p, l);
    var clause := ReadClauseOf(includeRead.GetOr(true), onlyRead.GetOr(false));
    var matching := Matching(rows, userId, clause);
    MatchingAscending(rows, userId, clause);
    var items := NewestPage(matching, skip, l);
    assert includeRead != Some(false) && onlyRead == Some(true) ==> clause == Some(true);
    NotificationListResult(items, |matching|, UnreadOf(rows, userId),
                           |matching| > skip + |items|, p, l)
  }

  /** The unread count a listing reports depends neither on the read filter nor on the page. */
  lemma UnreadCountIndependent(rows: seq<Notification>, userId: string,
                               page1: Option<int>, limit1: Option<int>, inc1: Option<bool>, only1: Option<bool>,
                               page2: Option<int>, limit2: Option<int>, inc2: Option<bool>, only2: Option<bool>)
    requires Ascending(rows)
    ensures ListOf(rows, userId, page1, limit1, inc1, only1).unreadCount
         == ListOf(rows, userId, page2, limit2, inc2, only2).unreadCount
  { }

  /** `updateMany({ where: { userId, read: false }, data: { read: true } })`. */
  function MarkAllRead(rows: seq<Notification>, userId: string): (r: seq<Notification>)
    ensures |r| == |rows|
  {
    if rows == [] then []
    else
      var last := rows[|rows| - 1];
      MarkAllRead(rows[..|rows| - 1], userId) + [if last.userId == userId then last.(read := true) else last]
  }

  /** After marking all read, the user has no unread rows; other users' rows are as they were. */
  lemma {:induction false} MarkAllReadEffect(rows: seq<Notification>, userId: string)
    ensures UnreadOf(MarkAllRead(rows, userId), userId) == 0
    ensures forall k :: 0 <= k < |rows| ==>
      MarkAllRead(rows, userId)[k] == if rows[k].userId == userId then rows[k].(read := true) else rows[k]
  {
    if rows != [] {
      var init := rows[..|rows| - 1];
      MarkAllReadEffect(init, userId);
      var r := MarkAllRead(rows, userId);
      assert r[..|r| - 1] == MarkAllRead(init, userId);
    }
  }

  /** Marking all read a second time changes nothing and affects no row. */
  lemma MarkAllReadIdempotent(rows: seq<Notification>, userId: string)
    ensures MarkAllRead(MarkAllRead(rows, userId), userId) == MarkAllRead(rows, userId)
    ensures UnreadOf(MarkAllRead(rows, userId), userId) == 0
  {
    var once := MarkAllRead(rows, userId);
    MarkAllReadEffect(rows, userId);
    MarkAllReadEffect(once, userId);
    assert MarkAllRead(once, userId) == once;
  }

  /** The position of the row with id `id`, or -1 (`findUnique`). */
  function IndexOfId(rows: seq<Notification>, id: nat): (i: int)
    ensures -1 <= i < |rows|
    ensures i == -1 <==> forall k :: 0 <= k < |rows| ==> rows[k].id != id
    ensures i >= 0 ==> rows[i].id == id
  {
    LastWhere(rows, (n: Notification) => n.id == id)
  }

  // ---------------------------------------------------------------------
  // The table and the service operations that change it

  /** Rows are in creation order and carry increasing ids below `next`. */
  ghost predicate Stamped(rows: seq<Notification>, next: nat) {
    && Ascending(rows)
    && (forall i, j :: 0 <= i < j < |rows| ==> rows[i].id < rows[j].id)
    && (forall k :: 0 <= k < |rows| ==> rows[k].id < next && rows[k].createdAt < next)
  }

  /** Marking rows read keeps their ids and creation times. */
  lemma {:induction false} MarkAllReadStamped(rows: seq<Notification>, userId: string, next: nat)
    requires Stamped(rows, next)
    ensures Stamped(MarkAllRead(rows, userId), next)
  {
    MarkAllReadEffect(rows, userId);
    var r := MarkAllRead(rows, userId);
    assert forall k :: 0 <= k < |r| ==> r[k].id == rows[k].id && r[k].createdAt == rows[k].createdAt;
    StampedSameStamps(rows, r, next);
  }

  /** Stamping depends only on each row's id and creation time. */
  lemma StampedSameStamps(rows: seq<Notification>, r: seq<Notification>, next: nat)
    requires Stamped(rows, next) && |r| == |rows|
    requires forall k :: 0 <= k < |r| ==> r[k].id == rows[k].id && r[k].createdAt == rows[k].createdAt
    ensures Stamped(r, next)
  {
  }

  /** Replacing a row by one with the same id and creation time keeps the table in order. */
  lemma ReplaceStamped(rows: seq<Notification>, i: nat, n: Notification, next: nat)
    requires Stamped(rows, next) && i < |rows|
    requires n.id == rows[i].id && n.createdAt == rows[i].createdAt
    ensures Stamped(rows[i := n], next)
  {
    var r := rows[i := n];
    assert forall k :: 0 <= k < |r| ==> r[k].id == rows[k].id && r[k].createdAt == rows[k].createdAt;
    StampedSameStamps(rows, r, next);
  }

  /** Removing one row keeps the others in order. */
  lemma {:induction false} RemoveStamped(rows: seq<Notification>, i: nat, next: nat)
    requires Stamped(rows, next) && i < |rows|
    ensures Stamped(rows[..i] + rows[i + 1..], next)
  {
    var r := rows[..i] + rows[i + 1..];
    assert forall k :: 0 <= k < |r| ==> r[k] == if k < i then rows[k] else rows[k + 1];
  }

  /** Rows stamped from `next` on keep the table in order. */
  lemma {:induction false} AppendStamped(rows: seq<Notification>, next: nat, created: seq<Notification>)
    requires Stamped(rows, next)
    requires forall k :: 0 <= k < |created| ==> created[k].id == next + k && created[k].createdAt == next + k
    ensures Stamped(rows + created, next + |created|)
  {
    var r := rows + created;
    assert forall k :: 0 <= k < |r| ==> r[k] == if k < |rows| then rows[k] else created[k - |rows|];
  }

  class NotificationStore {
    var rows: seq<Notification>
    var next: nat

    ghost predicate Valid()
      reads this
    {
      Stamped(rows, next)
    }

    constructor ()
      ensures Valid() && rows == []
    {
      rows := [];
      next := 0;
    }

    /** Appends one row, stamped with the next id; used by both create paths. */
    method Insert(data: CreateNotificationInput) returns (n: Notification)
      requires Valid()
      modifies this
      ensures Valid()
      ensures rows == old(rows) + [n]
      ensures Carries(n, data)
      ensures forall k :: 0 <= k < |old(rows)| ==> old(rows)[k].id != n.id
      ensures next > old(next)
    {
      n := Stamp(data, next);
      rows := rows + [n];
      next := next + 1;
    }

    /** `createNotification`: exactly one new unread row with the given fields. */
    method CreateNotification(data: CreateNotificationInput) returns (n: Notification)
      requires Valid()
      modifies this
      ensures Valid()
      ensures rows == old(rows) + [n]
      ensures Carries(n, data)
      ensures forall k :: 0 <= k < |old(rows)| ==> old(rows)[k].id != n.id
    {
      n := Insert(data);
    }

    /** The in-app part of `createQuoteNotificationsForFollowers`: one unread
        NEW_QUOTE row per follower of the author profile, in follower order;
        nothing at all when there is no follower. */
    method CreateQuoteNotificationsForFollowers(follows: seq<Follower>, authorProfileId: string,
                                                quoteId: string, authorId: string, authorName: string)
      requires Valid()
      modifies this
      ensures Valid()
      ensures var fs := FollowersOf(follows, authorProfileId);
        && |rows| == |old(rows)| + |fs|
        && rows[..|old(rows)|] == old(rows)
        && forall k :: 0 <= k < |fs| ==>
             Carries(rows[|old(rows)| + k], NewQuoteNotice(fs[k], authorProfileId, quoteId, authorId, authorName))
      ensures FollowersOf(follows, authorProfileId) == [] ==> rows == old(rows) && next == old(next)
      ensures FollowersOf(follows, authorProfileId) != [] ==>
        rows == old(rows) + StampAll(Notices(FollowersOf(follows, authorProfileId), authorProfileId, quoteId, authorId, authorName), old(next))
    {
      var fs := FollowersOf(follows, authorProfileId);
      if |fs| == 0 {
        return;
      }
      var notices := Notices(fs, authorProfileId, quoteId, authorId, authorName);
      var created := StampAll(notices, next);
      AppendStamped(rows, next, created);
      rows := rows + created;
      next := next + |created|;
    }

    /** `getUserNotifications`. */
    function GetUserNotifications(userId: string, page: Option<int>, limit: Option<int>,
                                  includeRead: Option<bool>, onlyRead: Option<bool>): (r: NotificationListResult)
      reads this
      requires Valid()
      ensures r == ListOf(rows, userId, page, limit, includeRead, onlyRead)
    {
      ListOf(rows, userId, page, limit, includeRead, onlyRead)
    }

    /** `getUnreadCount`. */
    function GetUnreadCount(userId: string): (c: nat)
      reads this
      ensures c == UnreadOf(rows, userId)
    {
      UnreadOf(rows, userId)
    }

    /** `markAsRead`: NOT_FOUND for a missing id (checked first), FORBIDDEN for
        another user's row, and otherwise only that row becomes read. */
    method MarkAsRead(id: nat, userId: string) returns (r: Result<Notification>)
      requires Valid()
      modifies this
      ensures Valid()
      ensures (forall k :: 0 <= k < |old(rows)| ==> old(rows)[k].id != id) ==>
        r == Fail(NotFound) && rows == old(rows)
      ensures forall k :: 0 <= k < |old(rows)| && old(rows)[k].id == id && old(rows)[k].userId != userId ==>
        r == Fail(Forbidden) && rows == old(rows)
      ensures forall k :: 0 <= k < |old(rows)| && old(rows)[k].id == id && old(rows)[k].userId == userId ==>
        r == Ok(old(rows)[k].(read := true)) && rows == old(rows)[k := old(rows)[k].(read := true)]
    {
      var i := IndexOfId(rows, id);
      if i == -1 {
        return Fail(NotFound);
      }
      if rows[i].userId != userId {
        return Fail(Forbidden);
      }
      var updated := rows[i].(read := true);
      assert forall k :: 0 <= k < |rows| && rows[k].id == id ==> k == i;
      ReplaceStamped(rows, i, updated, next);
      rows := rows[i := updated];
      r := Ok(updated);
    }

    /** `markAllAsRead`: returns how many of the user's rows were unread and
        leaves none unread; other users' rows do not change. */
    method MarkAllAsRead(userId: string) returns (count: nat)
      requires Valid()
      modifies this
      ensures Valid()
      ensures count == UnreadOf(old(rows), userId)
      ensures rows == MarkAllRead(old(rows), userId)
      ensures UnreadOf(rows, userId) == 0
    {
      count := UnreadOf(rows, userId);
      MarkAllReadEffect(rows, userId);
      MarkAllReadStamped(rows, userId, next);
      rows := MarkAllRead(rows, userId);
    }

    /** `deleteNotification`: the same NOT_FOUND-then-FORBIDDEN checks, then
        exactly that row is removed. */
    method DeleteNotification(id: nat, userId: string) returns (r: Result<()>)
      requires Valid()
      modifies this
      ensures Valid()
      ensures (forall k :: 0 <= k < |old(rows)| ==> old(rows)[k].id != id) ==>
        r == Fail(NotFound) && rows == old(rows)
      ensures forall k :: 0 <= k < |old(rows)| && old(rows)[k].id == id && old(rows)[k].userId != userId ==>
        r == Fail(Forbidden) && rows == old(rows)
      ensures forall k :: 0 <= k < |old(rows)| && old(rows)[k].id == id && old(rows)[k].userId == userId ==>
        r == Ok(()) && rows == old(rows)[..k] + old(rows)[k + 1..]
    {
      var i := IndexOfId(rows, id);
      if i == -1 {
        return Fail(NotFound);
      }
      if rows[i].userId != userId {
        return Fail(Forbidden);
      }
      RemoveStamped(rows, i, next);
      rows := rows[..i] + rows[i + 1..];
      r := Ok(());
    }
  }
}
