/** The reply service: replies to comments, with creation against an existing
    comment, the oldest-first paginated listing with an optional like flag,
    and update and delete guarded by the owner-or-AUTHOR-or-ADMIN rule. */
module ReplyService {
  import opened Common

  datatype Reply = Reply(
    id: nat,
    content: string,
    commentId: string,
    userId: string,
    likes: int,
    isEdited: bool,
    editedAt: Option<nat>,
    createdAt: nat)

  /** A reply as a listing returns it: `isLiked` is absent unless it was attached. */
  datatype ReplyView = ReplyView(reply: Reply, isLiked: Option<bool>)

  datatype ReplyListResult = ReplyListResult(
    items: seq<ReplyView>,
    total: nat,
    hasMore: bool,
    page: int,
    limit: int)

  /** The like service's answer: the pairs (user, reply) the user has liked. */
  type Likes = set<(string, nat)>

  /** `isOwner || userRole === "AUTHOR" || userRole === "ADMIN"`. */
  predicate MayModify(reply: Reply, userId: string, userRole: Option<Role>) {
    reply.userId == userId || userRole == Some(Author) || userRole == Some(Admin)
  }

  /** An AUTHOR or ADMIN may edit or delete any reply; anyone else only their own. */
  lemma MayModifyRoles(reply: Reply, userId: string, userRole: Option<Role>)
    ensures userRole == Some(Author) || userRole == Some(Admin) ==> MayModify(reply, userId, userRole)
    ensures userRole != Some(Author) && userRole != Some(Admin) ==> (MayModify(reply, userId, userRole) <==> reply.userId == userId)
  { }

  ghost predicate Ascending(s: seq<Reply>) {
    forall i, j :: 0 <= i < j < |s| ==> s[i].createdAt < s[j].createdAt
  }

  /** The replies `where: { commentId }`, in table (creation) order. */
  function OfComment(rows: seq<Reply>, commentId: string): (r: seq<Reply>)
    ensures |r| <= |rows|
    ensures forall k :: 0 <= k < |r| ==> r[k].commentId == commentId && r[k] in rows
    ensures forall k :: 0 <= k < |rows| && rows[k].commentId == commentId ==> rows[k] in r
  {
    if rows == [] then []
    else
      var init := rows[..|rows| - 1];
      var rest := OfComment(init, commentId);
      var last := rows[|rows| - 1];
      assert forall k :: 0 <= k < |init| ==> init[k] == rows[k];
      if last.commentId == commentId then rest + [last] else rest
  }

  /** The filtered replies keep creation order. */
  lemma {:induction false} OfCommentAscending(rows: seq<Reply>, commentId: string)
    requires Ascending(rows)
    ensures Ascending(OfComment(rows, commentId))
  {
    if rows != [] {
      var init := rows[..|rows| - 1];
      OfCommentAscending(init, commentId);
      var rest := OfComment(init, commentId);
      forall k | 0 <= k < |rest| ensures rest[k].createdAt < rows[|rows| - 1].createdAt {
        var j :| 0 <= j < |init| && init[j] == rest[k];
      }
    }
  }

  /** The page of replies `listReplies` returns, oldest first, with `page || 1`
      and `limit || 10`. */
  function ReplyPage(rows: seq<Reply>, commentId: string, page: Option<int>, limit: Option<int>): (w: seq<Reply>)
    requires Ascending(rows)
    ensures w == Window(OfComment(rows, commentId), Skip(Or(page, 1), Or(limit, 10)), Or(limit, 10))
    ensures Ascending(w)
    ensures forall k :: 0 <= k < |w| ==> w[k].commentId == commentId && w[k] in rows
    ensures Or(limit, 10) >= 0 ==> |w| <= Or(limit, 10)
    ensures var all := OfComment(rows, commentId);
      var skip := Skip(Or(page, 1), Or(limit, 10));
      && (skip >= 0 && Or(limit, 10) >= 0 && skip + Or(limit, 10) <= |all| ==> |w| == Or(limit, 10))
      && (|w| > 0 ==> (if skip < 0 then 0 else skip) + |w| <= |all|)
      && forall k :: 0 <= k < |w| ==> w[k] == all[(if skip < 0 then 0 else skip) + k]
  {
    var all := OfComment(rows, commentId);
    OfCommentAscending(rows, commentId);
    Window(all, Skip(Or(page, 1), Or(limit, 10)), Or(limit, 10))
  }

  /** The position of the reply with id `id`, or -1. */
  function IndexOfId(rows: seq<Reply>, id: nat): (i: int)
    ensures -1 <= i < |rows|
    ensures i == -1 <==> forall k :: 0 <= k < |rows| ==> rows[k].id != id
    ensures i >= 0 ==> rows[i].id == id
  {
    LastWhere(rows, (r: Reply) => r.id == id)
  }

  /** Replies in creation order with increasing ids and stamps below `next`. */
  ghost predicate Stored(replies: seq<Reply>, next: nat) {
    && Ascending(replies)
    && (forall i, j :: 0 <= i < j < |replies| ==> replies[i].id < replies[j].id)
    && (forall k :: 0 <= k < |replies| ==> replies[k].id < next && replies[k].createdAt < next)
  }

  /** Removing one reply keeps the others in order. */
  lemma {:induction false} RemoveStored(replies: seq<Reply>, next: nat, i: nat)
    requires Stored(replies, next) && i < |replies|
    ensures Stored(replies[..i] + replies[i + 1..], next)
  {
    var r := replies[..i] + replies[i + 1..];
    assert forall k :: 0 <= k < |r| ==> r[k] == replies[if k < i then k else k + 1];
  }

  /** Ids are unique, so the reply with a given id is the one at its position. */
  lemma {:induction false} OnlyWithId(replies: seq<Reply>, next: nat, i: nat)
    requires Stored(replies, next) && i < |replies|
    ensures forall k :: 0 <= k < |replies| && replies[k].id == replies[i].id ==> k == i
  {
  }

  class ReplyStore {
    /** The ids of the existing comments. */
    var comments: set<string>
    var replies: seq<Reply>
    var next: nat

    ghost predicate Valid()
      reads this
    {
      Stored(replies, next)
    }

    constructor (comments: set<string>)
      ensures Valid() && this.comments == comments && replies == []
    {
      this.comments := comments;
      replies := [];
      next := 0;
    }

    /** `createReply`: NOT_FOUND and no write for an unknown comment; otherwise
        one new reply with that content, comment and user, and no likes. */
    method CreateReply(commentId: string, content: string, userId: string) returns (r: Result<Reply>)
      requires Valid()
      modifies this
      ensures Valid() && comments == old(comments)
      ensures commentId !in comments ==> r == Fail(NotFound) && replies == old(replies)
      ensures commentId in comments ==>
        && r.Ok? && replies == old(replies) + [r.value]
        && r.value.content == content && r.value.commentId == commentId
        && r.value.userId == userId && r.value.likes == 0 && !r.value.isEdited
        && forall k :: 0 <= k < |old(replies)| ==> old(replies)[k].id != r.value.id
    {
      if commentId !in comments {
        return Fail(NotFound);
      }
      var reply := Reply(next, content, commentId, userId, 0, false, None, next);
      replies := replies + [reply];
      next := next + 1;
      r := Ok(reply);
    }

    /** `getReplyWithLikeStatus`: null for a missing reply, otherwise the
        reply with its like flag attached. */
    function GetReplyWithLikeStatus(id: nat, userId: string, liked: Likes): (r: Option<ReplyView>)
      reads this
      ensures r.None? <==> forall k :: 0 <= k < |replies| ==> replies[k].id != id
      ensures r.Some? ==> r.value.reply in replies && r.value.reply.id == id
                          && r.value.isLiked == Some((userId, id) in liked)
    {
      var i := IndexOfId(replies, id);
      if i == -1 then None else Some(ReplyView(replies[i], Some((userId, id) in liked)))
    }

    /** `listReplies`: NOT_FOUND for an unknown comment; otherwise the page of
        that comment's replies, each flagged as liked or not exactly when a
        non-empty user id is given and the page is non-empty. */
    method ListReplies(commentId: string, page: Option<int>, limit: Option<int>,
                       userId: Option<string>, liked: Likes) returns (r: Result<ReplyListResult>)
      requires Valid()
      ensures commentId !in comments ==> r == Fail(NotFound)
      ensures commentId in comments ==> r.Ok?
      ensures r.Ok? ==>
        var w := ReplyPage(replies, commentId, page, limit);
        var res := r.value;
        && res.page == Or(page, 1) && res.limit == Or(limit, 10)
        && res.total == |OfComment(replies, commentId)|
        && (res.hasMore <==> HasMore(res.total, Skip(res.page, res.limit), |res.items|))
        && |res.items| == |w|
        && forall k :: 0 <= k < |w| ==>
             && res.items[k].reply == w[k]
             && res.items[k].isLiked == (if Truthy(userId) then Some((userId.value, w[k].id) in liked) else None)
    {
      if commentId !in comments {
        return Fail(NotFound);
      }
      var p := Or(page, 1);
      var l := Or(limit, 10);
      var skip := Skip(p, l);
      var w := ReplyPage(replies, commentId, page, limit);
      var total := |OfComment(replies, commentId)|;
      var items := seq(|w|, k requires 0 <= k < |w| => ReplyView(w[k], None));
      if Truthy(userId) && |items| > 0 {
        items := MarkLiked(items, userId.value, liked);
      }
      r := Ok(ReplyListResult(items, total, total > skip + |items|, p, l));
    }

    /** The `forEach` that sets each reply's `isLiked` from the user's likes. */
    method MarkLiked(items: seq<ReplyView>, u: string, liked: Likes) returns (marked: seq<ReplyView>)
      ensures |marked| == |items|
      ensures forall k :: 0 <= k < |items| ==>
        marked[k] == ReplyView(items[k].reply, Some((u, items[k].reply.id) in liked))
    {
      marked := items;
      var i := 0;
      while i < |marked|
        invariant 0 <= i <= |marked| == |items|
        invariant forall k :: 0 <= k < i ==> marked[k] == ReplyView(items[k].reply, Some((u, items[k].reply.id) in liked))
        invariant forall k :: i <= k < |marked| ==> marked[k] == items[k]
      {
        marked := marked[i := marked[i].(isLiked := Some((u, marked[i].reply.id) in liked))];
        i := i + 1;
      }
    }

    /** `updateReply`: NOT_FOUND first, then FORBIDDEN without permission;
        otherwise that reply takes the new content and is marked edited, and
        every other reply is unchanged. */
    method UpdateReply(id: nat, content: string, userId: string, userRole: Option<Role>, now: nat)
      returns (r: Result<Reply>)
      requires Valid()
      modifies this
      ensures Valid() && comments == old(comments)
      ensures (forall k :: 0 <= k < |old(replies)| ==> old(replies)[k].id != id) ==>
        r == Fail(NotFound) && replies == old(replies)
      ensures forall k :: 0 <= k < |old(replies)| && old(replies)[k].id == id ==>
        if MayModify(old(replies)[k], userId, userRole) then
          var u := old(replies)[k].(content := content, isEdited := true, editedAt := Some(now));
          r == Ok(u) && replies == old(replies)[k := u]
        else
          r == Fail(Forbidden) && replies == old(replies)
    {
      var i := IndexOfId(replies, id);
      if i == -1 {
        return Fail(NotFound);
      }
      if !MayModify(replies[i], userId, userRole) {
        return Fail(Forbidden);
      }
      OnlyWithId(replies, next, i);
      var u := replies[i].(content := content, isEdited := true, editedAt := Some(now));
      replies := replies[i := u];
      r := Ok(u);
    }

    /** `deleteReply`: the same checks, then exactly that reply is removed. */
    method DeleteReply(id: nat, userId: string, userRole: Option<Role>) returns (r: Result<Reply>)
      requires Valid()
      modifies this
      ensures Valid() && comments == old(comments)
      ensures (forall k :: 0 <= k < |old(replies)| ==> old(replies)[k].id != id) ==>
        r == Fail(NotFound) && replies == old(replies)
      ensures IndexOfId(old(replies), id) >= 0 ==>
        var k := IndexOfId(old(replies), id);
        if MayModify(old(replies)[k], userId, userRole) then
          r == Ok(old(replies)[k]) && replies == old(replies)[..k] + old(replies)[k + 1..]
        else
          r == Fail(Forbidden) && replies == old(replies)
    {
      var i := IndexOfId(replies, id);
      if i == -1 {
        return Fail(NotFound);
      }
      if !MayModify(replies[i], userId, userRole) {
        return Fail(Forbidden);
      }
      RemoveStored(replies, next, i);
      r := Ok(replies[i]);
      replies := replies[..i] + replies[i + 1..];
    }
  }
}
