/** The handlers of server/controllers/commentController.js. The caller is the user the auth
    middleware attached to the request. */
module CommentController {
  import opened Common
  import opened Comments

  const AnonymousName: string := "匿名用户"
  const DefaultLimit: int := 20

  /** `req.user`: id, display name and avatar. */
  datatype Caller = Caller(id: string, name: Option<string>, avatar: Option<string>)

  // ---------------------------------------------------------------------------------------
  // Adding and listing

  /** The refusal `addComment` answers with, if any: missing fields first, then a rating outside
      1..5. An absent rating passes (it defaults to 5 later), but a rating of 0 is refused. */
  function AddCommentCheck(movieId: Option<string>, content: Option<string>, rating: Option<int>): Option<Response>
  {
    if !Present(movieId) || !Present(content) then Some(Response(400, "缺少必要参数"))
    else if rating.Some? && (rating.value < 1 || rating.value > 5) then Some(Response(400, "评分必须在1-5之间"))
    else None
  }

  /** A comment that passes the checks is stored with a rating in 1..5 and consistent likes. */
  lemma AddCommentKeepsRange(caller: Caller, movieId: Option<string>, content: Option<string>, rating: Option<int>,
                             id: string, now: int)
    requires AddCommentCheck(movieId, content, rating).None?
    ensures var c := NewComment(id, caller.id, StrOr(caller.name, AnonymousName), Some(StrOr(caller.avatar, DefaultAvatar)),
                                movieId.value, rating, content.value, now);
            InRange(c.rating) && LikesConsistent(c) && c.rating == (if rating.Some? then rating.value else DefaultRating)
  {
  }

  /** `addComment`. */
  method AddComment(store: CommentStore, caller: Caller, movieId: Option<string>, rating: Option<int>,
                    content: Option<string>, id: string, now: int)
    returns (resp: Response, created: Option<Comment>)
    modifies store
    ensures AddCommentCheck(movieId, content, rating).Some? ==>
              resp == AddCommentCheck(movieId, content, rating).value && created == None &&
              store.comments == old(store.comments)
    ensures AddCommentCheck(movieId, content, rating).None? ==>
              resp == Response(200, "评论已发布") &&
              created == Some(NewComment(id, caller.id, StrOr(caller.name, AnonymousName),
                                         Some(StrOr(caller.avatar, DefaultAvatar)), movieId.value, rating, content.value, now)) &&
              store.comments == UpsertBy(old(store.comments), created.value, CommentId)
  {
    var check := AddCommentCheck(movieId, content, rating);
    if check.Some? {
      return check.value, None;
    }
    var c := NewComment(id, caller.id, StrOr(caller.name, AnonymousName), Some(StrOr(caller.avatar, DefaultAvatar)),
                        movieId.value, rating, content.value, now);
    store.Save(c);
    resp, created := Response(200, "评论已发布"), Some(c);
  }

  /** The `sort` query of `getMovieComments` applied to the newest-first list. */
  function SortComments(cs: seq<Comment>, sort: Option<string>): seq<Comment>
  {
    var mode := StrOr(sort, "latest");
    if mode == "helpful" then SortDesc(cs, Likes)
    else if mode == "rating" then SortDesc(cs, Rating)
    else cs
  }

  /** `getMovieComments`: the movie's comments in the requested order, one page of them, and
      how many there are. */
  function MovieComments(store: CommentStore, movieId: string, limitQuery: Option<int>, offsetQuery: Option<int>,
                         sort: Option<string>): (seq<Comment>, nat)
    reads store
  {
    var sorted := SortComments(store.FindByMovieId(movieId), sort);
    (Page(sorted, IntOr(offsetQuery, 0), IntOr(limitQuery, DefaultLimit)), |sorted|)
  }

  /** The listing holds the movie's comments and only those, ordered by likes ('helpful'), by
      rating ('rating') or newest first (anything else); equal keys stay newest first; the page
      is the requested window and `total` counts them all. */
  lemma MovieCommentsFacts(store: CommentStore, movieId: string, limitQuery: Option<int>, offsetQuery: Option<int>,
                           sort: Option<string>)
    ensures var newest := store.FindByMovieId(movieId);
            var sorted := SortComments(newest, sort);
            var (page, total) := MovieComments(store, movieId, limitQuery, offsetQuery, sort);
            total == Count(store.comments, ForMovie(movieId)) &&
            multiset(sorted) == multiset(Filter(store.comments, ForMovie(movieId))) &&
            page == Page(sorted, IntOr(offsetQuery, 0), IntOr(limitQuery, DefaultLimit)) &&
            (StrOr(sort, "latest") == "helpful" ==>
               SortedDesc(sorted, Likes) && forall k :: WithKey(sorted, Likes, k) == WithKey(newest, Likes, k)) &&
            (StrOr(sort, "latest") == "rating" ==>
               SortedDesc(sorted, Rating) && forall k :: WithKey(sorted, Rating, k) == WithKey(newest, Rating, k)) &&
            (StrOr(sort, "latest") != "helpful" && StrOr(sort, "latest") != "rating" ==> SortedDesc(sorted, CreatedAt))
  {
    var newest := store.FindByMovieId(movieId);
    SortDescCorrect(newest, Likes);
    SortDescCorrect(newest, Rating);
    assert |multiset(newest)| == |Filter(store.comments, ForMovie(movieId))|;
  }

  /** `getUserComments`: one page of the caller's comments, newest first, and their number. */
  function UserComments(store: CommentStore, callerId: string, limitQuery: Option<int>, offsetQuery: Option<int>):
    (r: (seq<Comment>, nat))
    reads store
    ensures r.1 == Count(store.comments, ByUser(callerId))
    ensures r.0 == Page(store.FindByUserId(callerId), IntOr(offsetQuery, 0), IntOr(limitQuery, DefaultLimit))
    ensures forall c :: c in r.0 ==> c in store.comments && c.userId == callerId
  {
    var mine := store.FindByUserId(callerId);
    assert |mine| == |Filter(store.comments, ByUser(callerId))| by {
      assert |multiset(mine)| == |multiset(Filter(store.comments, ByUser(callerId)))|;
    }
    PageWithin(mine, IntOr(offsetQuery, 0), IntOr(limitQuery, DefaultLimit));
    (Page(mine, IntOr(offsetQuery, 0), IntOr(limitQuery, DefaultLimit)), |mine|)
  }

  // ---------------------------------------------------------------------------------------
  // Updating and deleting

  /** `updateComment` as written: 404, then 403 for another user's comment; a truthy rating is
      stored without the 1..5 check `addComment` makes. */
  function UpdateAsWritten(found: Option<Comment>, callerId: string, rating: Option<int>, content: Option<string>,
                           now: int): (Response, Option<Comment>)
  {
    if found.None? then (Response(404, "评论不存在"), None)
    else if found.value.userId != callerId then (Response(403, "无权修改此评论"), None)
    else
      var c := found.value;
      (Response(200, "评论已更新"),
       Some(c.(rating := IntOr(rating, c.rating), content := StrOr(content, c.content), updatedAt := now)))
  }

  /** `updateComment` with the rating check of `addComment` applied to a new rating. */
  function UpdateChecked(found: Option<Comment>, callerId: string, rating: Option<int>, content: Option<string>,
                         now: int): (Response, Option<Comment>)
  {
    if found.None? then (Response(404, "评论不存在"), None)
    else if found.value.userId != callerId then (Response(403, "无权修改此评论"), None)
    else if Truthy(rating) && !InRange(rating.value) then (Response(400, "评分必须在1-5之间"), None)
    else UpdateAsWritten(found, callerId, rating, content, now)
  }

  /** The as-written update lets an owner store rating 7; the movie's rating statistics then
      report a NaN total for a movie with one comment. */
  lemma UpdateAsWrittenPoisonsStats()
    ensures var c := Comment("c1", "u1", "name", DefaultAvatar, "m1", 5, "text", 0, 0, 0, [], []);
            var (resp, updated) := UpdateAsWritten(Some(c), "u1", Some(7), None, 1);
            resp.status == 200 && updated.Some? && updated.value.rating == 7 &&
            TotalOf(DistributionOf(Map(Filter([updated.value], ForMovie("m1")), Rating))) == NaN
  {
    var c := Comment("c1", "u1", "name", DefaultAvatar, "m1", 5, "text", 0, 0, 0, [], []);
    var u := c.(rating := 7, updatedAt := 1);
    assert Filter([u], ForMovie("m1")) == [u] by {
      assert [u][1..] == [];
    }
    assert Map([u], Rating) == [7];
    TotalCountsRatings([7]);
  }

  /** The checked update only succeeds for the owner, changes only rating, content and
      `updatedAt`, keeps a truthy rating in 1..5, and keeps falsy fields as they were. */
  lemma UpdateCheckedFacts(found: Option<Comment>, callerId: string, rating: Option<int>, content: Option<string>, now: int)
    ensures var (resp, updated) := UpdateChecked(found, callerId, rating, content, now);
            (resp.status == 200 <==> updated.Some?) &&
            (updated.Some? ==>
               found.Some? && found.value.userId == callerId &&
               updated.value == found.value.(rating := updated.value.rating, content := updated.value.content, updatedAt := now) &&
               (InRange(found.value.rating) ==> InRange(updated.value.rating)) &&
               updated.value.rating == (if Truthy(rating) then rating.value else found.value.rating) &&
               updated.value.content == (if Present(content) then content.value else found.value.content) &&
               (LikesConsistent(found.value) ==> LikesConsistent(updated.value)))
  {
  }

  /** Storing a well-formed comment keeps a well-formed store well-formed. */
  lemma UpsertKeepsWellFormed(comments: seq<Comment>, c: Comment)
    requires WellFormed(comments) && LikesConsistent(c) && InRange(c.rating)
    ensures WellFormed(UpsertBy(comments, c, CommentId))
  {
    UpsertByFacts(comments, c, CommentId);
  }

  /** In a well-formed store the statistics total is the movie's comment count. */
  lemma StatsTotalIsCount(comments: seq<Comment>, movieId: string)
    requires WellFormed(comments)
    ensures TotalOf(DistributionOf(Map(Filter(comments, ForMovie(movieId)), Rating))) ==
            Sum(Count(comments, ForMovie(movieId)))
  {
    var mine := Filter(comments, ForMovie(movieId));
    var ratings := Map(mine, Rating);
    forall r | r in ratings ensures InRange(r) {
      var i :| 0 <= i < |ratings| && ratings[i] == r;
      FilterMember(comments, ForMovie(movieId), mine[i]);
    }
    TotalCountsRatings(ratings);
  }

  /** `updateComment`: 404, then 403 for another user's comment, then the owner's truthy rating
      and content are stored as sent, with no range check on the rating. */
  method UpdateComment(store: CommentStore, callerId: string, commentId: string, rating: Option<int>,
                       content: Option<string>, now: int)
    returns (resp: Response)
    modifies store
    ensures var (r, updated) := UpdateAsWritten(Find(old(store.comments), WithId(commentId)), callerId, rating, content, now);
            resp == r &&
            (updated.None? ==> store.comments == old(store.comments)) &&
            (updated.Some? ==> store.comments == UpsertBy(old(store.comments), updated.value, CommentId))
  {
    var found := store.FindById(commentId);
    var (r, updated) := UpdateAsWritten(found, callerId, rating, content, now);
    resp := r;
    if updated.Some? {
      store.Save(updated.value);
    }
  }

  /** The as-written update succeeds exactly for the owner of an existing comment, changes only
      rating, content and `updatedAt`, takes a truthy rating whatever its value, and keeps falsy
      fields as they were. */
  lemma UpdateAsWrittenFacts(found: Option<Comment>, callerId: string, rating: Option<int>, content: Option<string>, now: int)
    ensures var (resp, updated) := UpdateAsWritten(found, callerId, rating, content, now);
            (resp.status == 200 <==> updated.Some?) &&
            (updated.Some? <==> found.Some? && found.value.userId == callerId) &&
            (found.None? ==> resp == Response(404, "评论不存在")) &&
            (updated.Some? ==>
               updated.value == found.value.(rating := updated.value.rating, content := updated.value.content, updatedAt := now) &&
               updated.value.rating == (if Truthy(rating) then rating.value else found.value.rating) &&
               updated.value.content == (if Present(content) then content.value else found.value.content) &&
               (LikesConsistent(found.value) ==> LikesConsistent(updated.value)))
  {
  }

  /** The refusal `deleteComment` answers with, if any. */
  function DeleteCommentCheck(found: Option<Comment>, callerId: string): Option<Response>
  {
    if found.None? then Some(Response(404, "评论不存在"))
    else if found.value.userId != callerId then Some(Response(403, "无权删除此评论"))
    else None
  }

  /** `deleteComment`: only the author removes the comment. */
  method DeleteComment(store: CommentStore, callerId: string, commentId: string) returns (resp: Response)
    modifies store
    ensures var check := DeleteCommentCheck(Find(old(store.comments), WithId(commentId)), callerId);
            (check.Some? ==> resp == check.value && store.comments == old(store.comments)) &&
            (check.None? ==> resp == Response(200, "评论已删除") &&
                             store.comments == Filter(old(store.comments), (c: Comment) => c.id != commentId))
  {
    var found := store.FindById(commentId);
    var check := DeleteCommentCheck(found, callerId);
    if check.Some? {
      return check.value;
    }
    store.Delete(commentId);
    resp := Response(200, "评论已删除");
  }

  /** Deletion goes ahead exactly when the comment exists and the caller wrote it. */
  lemma DeleteCommentRights(found: Option<Comment>, callerId: string)
    ensures DeleteCommentCheck(found, callerId).None? <==> found.Some? && found.value.userId == callerId
    ensures found.None? ==> DeleteCommentCheck(found, callerId) == Some(Response(404, "评论不存在"))
  {
  }

  // ---------------------------------------------------------------------------------------
  // Likes and replies

  /** `likeComment`: 404 for an unknown comment. */
  method LikeComment(store: CommentStore, callerId: string, commentId: string) returns (resp: Response)
    modifies store
    ensures (forall c :: c in old(store.comments) ==> c.id != commentId) ==>
              resp == Response(404, "评论不存在") && store.comments == old(store.comments)
    ensures (exists c :: c in old(store.comments) && c.id == commentId) ==>
              var i := IndexWhere(old(store.comments), WithId(commentId));
              resp == Response(200, "点赞成功") && 0 <= i < |old(store.comments)| &&
              store.comments == old(store.comments)[i := Like(old(store.comments)[i], callerId)]
  {
    var r := store.LikeComment(commentId, callerId);
    resp := if r.None? then Response(404, "评论不存在") else Response(200, "点赞成功");
  }

  /** `unlikeComment`: 404 for an unknown comment. */
  method UnlikeComment(store: CommentStore, callerId: string, commentId: string) returns (resp: Response)
    modifies store
    ensures (forall c :: c in old(store.comments) ==> c.id != commentId) ==>
              resp == Response(404, "评论不存在") && store.comments == old(store.comments)
    ensures (exists c :: c in old(store.comments) && c.id == commentId) ==>
              var i := IndexWhere(old(store.comments), WithId(commentId));
              resp == Response(200, "取消点赞成功") && 0 <= i < |old(store.comments)| &&
              store.comments == old(store.comments)[i := Unlike(old(store.comments)[i], callerId)]
  {
    var r := store.UnlikeComment(commentId, callerId);
    resp := if r.None? then Response(404, "评论不存在") else Response(200, "取消点赞成功");
  }

  /** Liking and unliking keep a well-formed store well-formed. */
  lemma LikesKeepWellFormed(comments: seq<Comment>, i: int, userId: string)
    requires WellFormed(comments) && 0 <= i < |comments|
    ensures WellFormed(comments[i := Like(comments[i], userId)])
    ensures WellFormed(comments[i := Unlike(comments[i], userId)])
  {
    assert comments[i] in comments;
    LikeFacts(comments[i], userId);
    UnlikeFacts(comments[i], userId);
    ReplaceKeepsWellFormed(comments, i, Like(comments[i], userId));
    ReplaceKeepsWellFormed(comments, i, Unlike(comments[i], userId));
  }

  /** `addReply`: 400 for empty content before the 404 for an unknown comment. */
  method AddReply(store: CommentStore, caller: Caller, commentId: string, content: Option<string>,
                  replyId: string, now: int)
    returns (resp: Response, reply: Option<Reply>)
    modifies store
    ensures !Present(content) ==>
              resp == Response(400, "回复内容不能为空") && reply == None && store.comments == old(store.comments)
    ensures Present(content) && (forall c :: c in old(store.comments) ==> c.id != commentId) ==>
              resp == Response(404, "评论不存在") && reply == None && store.comments == old(store.comments)
    ensures Present(content) && (exists c :: c in old(store.comments) && c.id == commentId) ==>
              var i := IndexWhere(old(store.comments), WithId(commentId));
              resp == Response(200, "回复已发布") && reply.Some? && reply.value.id == replyId &&
              reply.value.likes == 0 && reply.value.content == content.value && 0 <= i < |old(store.comments)| &&
              store.comments == old(store.comments)[i := old(store.comments)[i].(replies := old(store.comments)[i].replies + [reply.value])]
  {
    if !Present(content) {
      return Response(400, "回复内容不能为空"), None;
    }
    reply := store.AddReply(commentId, replyId, caller.id, StrOr(caller.name, AnonymousName),
                            Some(StrOr(caller.avatar, DefaultAvatar)), content.value, now);
    resp := if reply.None? then Response(404, "评论不存在") else Response(200, "回复已发布");
  }

  /** The refusal `deleteReply` answers with, if any: unknown comment, unknown reply, then a
      caller who wrote neither the reply nor the comment. */
  function DeleteReplyCheck(found: Option<Comment>, replyId: string, callerId: string): Option<Response>
  {
    if found.None? then Some(Response(404, "评论不存在"))
    else match Find(found.value.replies, (r: Reply) => r.id == replyId)
      case None => Some(Response(404, "回复不存在"))
      case Some(reply) =>
        if reply.userId != callerId && found.value.userId != callerId then Some(Response(403, "无权删除此回复"))
        else None
  }

  /** A reply may be deleted by its author or by the author of the comment, and by no one else. */
  lemma DeleteReplyRights(found: Option<Comment>, replyId: string, callerId: string)
    ensures DeleteReplyCheck(found, replyId, callerId).None? <==>
            found.Some? &&
            exists r :: r in found.value.replies && r.id == replyId &&
                        (r.userId == callerId || found.value.userId == callerId) &&
                        r == Find(found.value.replies, (r: Reply) => r.id == replyId).value
    ensures found.Some? && (forall r :: r in found.value.replies ==> r.id != replyId) ==>
            DeleteReplyCheck(found, replyId, callerId) == Some(Response(404, "回复不存在"))
  {
  }

  /** `deleteReply`. */
  method DeleteReply(store: CommentStore, callerId: string, commentId: string, replyId: string)
    returns (resp: Response)
    modifies store
    ensures var check := DeleteReplyCheck(Find(old(store.comments), WithId(commentId)), replyId, callerId);
            (check.Some? ==> resp == check.value && store.comments == old(store.comments)) &&
            (check.None? ==>
               var i := IndexWhere(old(store.comments), WithId(commentId));
               resp == Response(200, "回复已删除") && 0 <= i < |old(store.comments)| &&
               store.comments == old(store.comments)[i := old(store.comments)[i].(replies := WithoutReply(old(store.comments)[i].replies, replyId))])
  {
    var found := store.FindById(commentId);
    var check := DeleteReplyCheck(found, replyId, callerId);
    if check.Some? {
      return check.value;
    }
    var ok := store.DeleteReply(commentId, replyId);
    resp := Response(200, "回复已删除");
  }

  /** `getRatingStats`: the distribution and the sum of its values. */
  method GetRatingStats(store: CommentStore, movieId: string) returns (distribution: Distribution, totalComments: Total)
    ensures distribution == DistributionOf(Map(Filter(store.comments, ForMovie(movieId)), Rating))
    ensures totalComments == TotalOf(distribution)
  {
    distribution := store.GetRatingDistribution(movieId);
    totalComments := TotalOf(distribution);
  }
}
