/** The comment store of server/models/Comment.js: comments with ratings, likes and replies.
    Ids and timestamps are parameters. */
module Comments {
  import opened Common

  const DefaultAvatar: string := "https://via.placeholder.com/40"
  const DefaultRating: int := 5

  datatype Reply = Reply(id: string, userId: string, userName: string, userAvatar: string, content: string,
                         createdAt: int, likes: int, likedBy: seq<string>)

  datatype Comment = Comment(id: string, userId: string, userName: string, userAvatar: string, movieId: string,
                             rating: int, content: string, createdAt: int, updatedAt: int,
                             likes: int, likedBy: seq<string>, replies: seq<Reply>)

  /** `new Comment(data)`: no likes, no replies, the placeholder avatar and rating 5 when those
      fields are falsy. */
  function NewComment(id: string, userId: string, userName: string, userAvatar: Option<string>, movieId: string,
                      rating: Option<int>, content: string, now: int): (c: Comment)
    ensures c.likes == 0 && c.likedBy == [] && c.replies == []
    ensures c.rating == if Truthy(rating) then rating.value else DefaultRating
    ensures c.userAvatar == if Present(userAvatar) then userAvatar.value else DefaultAvatar
    ensures LikesConsistent(c)
  {
    Comment(id, userId, userName, StrOr(userAvatar, DefaultAvatar), movieId, IntOr(rating, DefaultRating),
            content, now, now, 0, [], [])
  }

  function CommentId(c: Comment): string { c.id }
  function CreatedAt(c: Comment): int { c.createdAt }
  function Likes(c: Comment): int { c.likes }
  function Rating(c: Comment): int { c.rating }

  // ---------------------------------------------------------------------------------------
  // Likes

  /** The like counter agrees with the list of likers, which holds no one twice. */
  predicate LikesConsistent(c: Comment)
  {
    c.likes == |c.likedBy| && NoDuplicates(c.likedBy)
  }

  /** `likeComment` on the found comment: record the user once. */
  function Like(c: Comment, userId: string): Comment
  {
    if userId in c.likedBy then c else c.(likedBy := c.likedBy + [userId], likes := c.likes + 1)
  }

  /** `unlikeComment` on the found comment: splice the user out once, if present. */
  function Unlike(c: Comment, userId: string): Comment
  {
    var i := IndexOf(c.likedBy, userId);
    if i > -1 then c.(likedBy := c.likedBy[..i] + c.likedBy[i + 1..], likes := c.likes - 1) else c
  }

  /** Liking keeps the counter in step with the likers, records the user, and is idempotent. */
  lemma LikeFacts(c: Comment, userId: string)
    ensures LikesConsistent(c) ==> LikesConsistent(Like(c, userId))
    ensures userId in Like(c, userId).likedBy
    ensures Like(Like(c, userId), userId) == Like(c, userId)
    ensures userId in c.likedBy ==> Like(c, userId) == c
    ensures forall u :: u in Like(c, userId).likedBy <==> u in c.likedBy || u == userId
  {
  }

  /** Unliking keeps the counter in step with the likers, removes the user from a duplicate-free
      list, and is a no-op for a user who had not liked. */
  lemma UnlikeFacts(c: Comment, userId: string)
    ensures LikesConsistent(c) ==> LikesConsistent(Unlike(c, userId)) && userId !in Unlike(c, userId).likedBy
    ensures userId !in c.likedBy ==> Unlike(c, userId) == c
    ensures forall u :: u in Unlike(c, userId).likedBy ==> u in c.likedBy
    ensures forall u :: u in c.likedBy && u != userId ==> u in Unlike(c, userId).likedBy
  {
    var i := IndexOf(c.likedBy, userId);
    if i > -1 {
      SpliceFacts(c.likedBy, i);
    }
  }

  /** Unliking right after a first like restores the comment. */
  lemma UnlikeUndoesLike(c: Comment, userId: string)
    requires userId !in c.likedBy
    ensures Unlike(Like(c, userId), userId) == c
  {
    var l := Like(c, userId).likedBy;
    assert IndexOf(l, userId) == |c.likedBy| by {
      assert l[|c.likedBy|] == userId;
      assert l[..|c.likedBy|] == c.likedBy;
    }
    assert l[..|c.likedBy|] + l[|c.likedBy| + 1..] == c.likedBy;
  }

  // ---------------------------------------------------------------------------------------
  // Rating distribution

  /** A JavaScript number that is either a count or NaN. */
  datatype Total = Sum(n: nat) | NaN

  /** The object `getRatingDistribution` builds: the counts under keys 1..5, and the other ratings
      met, each of which `distribution[r]++` turned into a NaN entry (`undefined + 1`). */
  datatype Distribution = Distribution(counts: map<int, nat>, poisoned: set<int>)

  predicate InRange(rating: int) { 1 <= rating <= 5 }

  function EmptyDistribution(): Distribution
  {
    Distribution(map[1 := 0, 2 := 0, 3 := 0, 4 := 0, 5 := 0], {})
  }

  /** `distribution[rating]++`. */
  function Tally(d: Distribution, rating: int): Distribution
  {
    if rating in d.counts then d.(counts := d.counts[rating := d.counts[rating] + 1])
    else d.(poisoned := d.poisoned + {rating})
  }

  /** The distribution after the `forEach` over the ratings, in order. */
  function DistributionOf(ratings: seq<int>): Distribution
  {
    if ratings == [] then EmptyDistribution()
    else Tally(DistributionOf(ratings[..|ratings| - 1]), ratings[|ratings| - 1])
  }

  /** `Object.values(distribution).reduce((a, b) => a + b, 0)`: NaN once any entry is NaN. */
  function TotalOf(d: Distribution): Total
  {
    if d.poisoned != {} then NaN
    else Sum((if 1 in d.counts then d.counts[1] else 0) + (if 2 in d.counts then d.counts[2] else 0) +
             (if 3 in d.counts then d.counts[3] else 0) + (if 4 in d.counts then d.counts[4] else 0) +
             (if 5 in d.counts then d.counts[5] else 0))
  }

  function HasRating(k: int): int -> bool { (r: int) => r == k }

  /** The distribution always has the keys 1..5. */
  lemma {:induction false} DistributionKeys(ratings: seq<int>)
    ensures DistributionOf(ratings).counts.Keys == {1, 2, 3, 4, 5}
  {
    if ratings != [] {
      var n := |ratings| - 1;
      DistributionKeys(ratings[..n]);
      var d := DistributionOf(ratings[..n]);
      var r := ratings[n];
      if r in d.counts {
        assert d.counts[r := d.counts[r] + 1].Keys == d.counts.Keys;
      }
    }
  }

  /** The distribution marks exactly the ratings met outside 1..5. */
  lemma {:induction false} DistributionPoisoned(ratings: seq<int>)
    ensures forall r :: r in DistributionOf(ratings).poisoned <==> r in ratings && !InRange(r)
  {
    DistributionKeys(ratings);
    if ratings != [] {
      var n := |ratings| - 1;
      DistributionPoisoned(ratings[..n]);
      DistributionKeys(ratings[..n]);
      forall x ensures x in ratings <==> x in ratings[..n] || x == ratings[n] {
        if x in ratings {
          var k :| 0 <= k < |ratings| && ratings[k] == x;
          if k < n { assert ratings[..n][k] == x; }
        }
      }
    }
  }

  /** Each of the keys 1..5 counts the ratings equal to it. */
  lemma {:induction false} DistributionCounts(ratings: seq<int>, k: int)
    requires InRange(k)
    ensures k in DistributionOf(ratings).counts
    ensures DistributionOf(ratings).counts[k] == Count(ratings, HasRating(k))
  {
    DistributionKeys(ratings);
    if ratings != [] {
      var n := |ratings| - 1;
      var r := ratings[n];
      DistributionKeys(ratings[..n]);
      DistributionCounts(ratings[..n], k);
      assert ratings == ratings[..n] + [r];
      FilterAppend(ratings[..n], [r], HasRating(k));
      assert Filter([r], HasRating(k)) == if r == k then [r] else [] by {
        assert [r][1..] == [];
      }
    }
  }

  /** When every rating is in 1..5, the total is the number of ratings; a single rating outside
      that range makes it NaN. */
  lemma TotalCountsRatings(ratings: seq<int>)
    ensures TotalOf(DistributionOf(ratings)) == Sum(|ratings|) <==> forall r :: r in ratings ==> InRange(r)
    ensures TotalOf(DistributionOf(ratings)) == NaN <==> exists r :: r in ratings && !InRange(r)
  {
    var d := DistributionOf(ratings);
    DistributionPoisoned(ratings);
    if forall r :: r in ratings ==> InRange(r) {
      assert d.poisoned == {} by {
        forall x | x in d.poisoned ensures false {
        }
      }
      CountsAddUp(ratings);
      TotalOfCounts(d);
    } else {
      var r :| r in ratings && !InRange(r);
      assert r in d.poisoned;
    }
  }

  /** With no NaN entry the total is the sum of the five counts. */
  lemma TotalOfCounts(d: Distribution)
    requires d.poisoned == {} && d.counts.Keys == {1, 2, 3, 4, 5}
    ensures TotalOf(d) == Sum(d.counts[1] + d.counts[2] + d.counts[3] + d.counts[4] + d.counts[5])
  {
  }

  /** With every rating in 1..5, the five counts add up to the number of ratings. */
  lemma CountsAddUp(ratings: seq<int>)
    requires forall r :: r in ratings ==> InRange(r)
    ensures var d := DistributionOf(ratings);
            d.counts.Keys == {1, 2, 3, 4, 5} &&
            d.counts[1] + d.counts[2] + d.counts[3] + d.counts[4] + d.counts[5] == |ratings|
  {
    DistributionKeys(ratings);
    DistributionCounts(ratings, 1);
    DistributionCounts(ratings, 2);
    DistributionCounts(ratings, 3);
    DistributionCounts(ratings, 4);
    DistributionCounts(ratings, 5);
    SumOfCounts(ratings);
  }

  /** The five counts add up to the number of ratings in 1..5. */
  lemma {:induction false} SumOfCounts(ratings: seq<int>)
    requires forall r :: r in ratings ==> InRange(r)
    ensures Count(ratings, HasRating(1)) + Count(ratings, HasRating(2)) + Count(ratings, HasRating(3)) +
            Count(ratings, HasRating(4)) + Count(ratings, HasRating(5)) == |ratings|
  {
    if ratings != [] {
      assert ratings[0] in ratings;
      forall r | r in ratings[1..] ensures InRange(r) {
        assert r in ratings;
      }
      SumOfCounts(ratings[1..]);
    }
  }

  // ---------------------------------------------------------------------------------------
  // The store

  function ForMovie(movieId: string): Comment -> bool { (c: Comment) => c.movieId == movieId }
  function ByUser(userId: string): Comment -> bool { (c: Comment) => c.userId == userId }
  function WithId(id: string): Comment -> bool { (c: Comment) => c.id == id }

  class CommentStore {
    var comments: seq<Comment>

    constructor ()
      ensures comments == []
    {
      comments := [];
    }

    /** `save()`: overwrite the comment with the same id, or append. */
    method Save(c: Comment)
      modifies this
      ensures comments == UpsertBy(old(comments), c, CommentId)
      ensures c in comments
    {
      UpsertByFacts(comments, c, CommentId);
      comments := UpsertBy(comments, c, CommentId);
    }

    /** `findById(id)`. */
    function FindById(id: string): (r: Option<Comment>)
      reads this
      ensures r.Some? ==> r.value in comments && r.value.id == id
      ensures r.None? <==> forall c :: c in comments ==> c.id != id
    {
      Find(comments, WithId(id))
    }

    /** `findByMovieId(movieId)`: the movie's comments, newest first. */
    function FindByMovieId(movieId: string): (r: seq<Comment>)
      reads this
      ensures multiset(r) == multiset(Filter(comments, ForMovie(movieId)))
      ensures forall c :: c in r <==> c in comments && c.movieId == movieId
      ensures SortedDesc(r, CreatedAt)
    {
      NewestFirst(comments, ForMovie(movieId))
    }

    /** `findByUserId(userId)`: the user's comments, newest first. */
    function FindByUserId(userId: string): (r: seq<Comment>)
      reads this
      ensures multiset(r) == multiset(Filter(comments, ByUser(userId)))
      ensures forall c :: c in r <==> c in comments && c.userId == userId
      ensures SortedDesc(r, CreatedAt)
    {
      NewestFirst(comments, ByUser(userId))
    }

    /** `delete(id)`. */
    method Delete(id: string)
      modifies this
      ensures comments == Filter(old(comments), (c: Comment) => c.id != id)
      ensures forall c :: c in comments <==> c in old(comments) && c.id != id
    {
      forall c ensures c in Filter(comments, (c: Comment) => c.id != id) <==> c in comments && c.id != id {
        FilterMember(comments, (c: Comment) => c.id != id, c);
      }
      comments := Filter(comments, (c: Comment) => c.id != id);
    }

    /** Applies `f` to the first comment with id `commentId`, as the static helpers do to the
        object `comments.find` returns; `None` when there is none. */
    method UpdateFirst(commentId: string, f: Comment -> Comment) returns (r: Option<Comment>)
      modifies this
      ensures r.None? <==> forall c :: c in old(comments) ==> c.id != commentId
      ensures r.None? ==> comments == old(comments)
      ensures r.Some? ==>
                var i := IndexWhere(old(comments), WithId(commentId));
                0 <= i < |old(comments)| && r == Some(f(old(comments)[i])) && comments == old(comments)[i := r.value]
    {
      var i := IndexWhere(comments, WithId(commentId));
      if i < 0 {
        return None;
      }
      var updated := f(comments[i]);
      comments := comments[i := updated];
      r := Some(updated);
    }

    /** `likeComment(commentId, userId)`. */
    method LikeComment(commentId: string, userId: string) returns (r: Option<Comment>)
      modifies this
      ensures r.None? <==> forall c :: c in old(comments) ==> c.id != commentId
      ensures r.None? ==> comments == old(comments)
      ensures r.Some? ==>
                var i := IndexWhere(old(comments), WithId(commentId));
                0 <= i < |old(comments)| && r == Some(Like(old(comments)[i], userId)) &&
                comments == old(comments)[i := r.value]
    {
      r := UpdateFirst(commentId, (c: Comment) => Like(c, userId));
    }

    /** `unlikeComment(commentId, userId)`. */
    method UnlikeComment(commentId: string, userId: string) returns (r: Option<Comment>)
      modifies this
      ensures r.None? <==> forall c :: c in old(comments) ==> c.id != commentId
      ensures r.None? ==> comments == old(comments)
      ensures r.Some? ==>
                var i := IndexWhere(old(comments), WithId(commentId));
                0 <= i < |old(comments)| && r == Some(Unlike(old(comments)[i], userId)) &&
                comments == old(comments)[i := r.value]
    {
      r := UpdateFirst(commentId, (c: Comment) => Unlike(c, userId));
    }

    /** `addReply(commentId, reply)`: append one reply with no likes and return it. */
    method AddReply(commentId: string, replyId: string, userId: string, userName: string,
                    userAvatar: Option<string>, content: string, now: int)
      returns (r: Option<Reply>)
      modifies this
      ensures r.None? <==> forall c :: c in old(comments) ==> c.id != commentId
      ensures r.None? ==> comments == old(comments)
      ensures r.Some? ==>
                var i := IndexWhere(old(comments), WithId(commentId));
                0 <= i < |old(comments)| &&
                r.value == Reply(replyId, userId, userName, StrOr(userAvatar, DefaultAvatar), content, now, 0, []) &&
                comments == old(comments)[i := old(comments)[i].(replies := old(comments)[i].replies + [r.value])]
    {
      var reply := Reply(replyId, userId, userName, StrOr(userAvatar, DefaultAvatar), content, now, 0, []);
      var c := UpdateFirst(commentId, (c: Comment) => c.(replies := c.replies + [reply]));
      r := if c.Some? then Some(reply) else None;
    }

    /** `deleteReply(commentId, replyId)`: drop the replies with that id; false for an unknown
        comment. */
    method DeleteReply(commentId: string, replyId: string) returns (found: bool)
      modifies this
      ensures found <==> exists c :: c in old(comments) && c.id == commentId
      ensures !found ==> comments == old(comments)
      ensures found ==>
                var i := IndexWhere(old(comments), WithId(commentId));
                0 <= i < |old(comments)| &&
                comments == old(comments)[i := old(comments)[i].(replies := WithoutReply(old(comments)[i].replies, replyId))]
    {
      var c := UpdateFirst(commentId, (c: Comment) => c.(replies := WithoutReply(c.replies, replyId)));
      found := c.Some?;
    }

    /** `getRatingDistribution(movieId)`: the `forEach` tallying the movie's ratings. */
    method GetRatingDistribution(movieId: string) returns (d: Distribution)
      ensures d == DistributionOf(Map(Filter(comments, ForMovie(movieId)), Rating))
    {
      var mine := Filter(comments, ForMovie(movieId));
      var ratings := Map(mine, Rating);
      d := Distribution(map[1 := 0, 2 := 0, 3 := 0, 4 := 0, 5 := 0], {});
      var i := 0;
      while i < |mine|
        invariant 0 <= i <= |mine|
        invariant d == DistributionOf(ratings[..i])
      {
        assert ratings[i] == mine[i].rating;
        assert ratings[..i + 1][..i] == ratings[..i];
        d := Tally(d, mine[i].rating);
        i := i + 1;
      }
      assert ratings[..i] == ratings;
    }
  }

  /** `replies.filter(r => r.id !== replyId)`. */
  function WithoutReply(replies: seq<Reply>, replyId: string): (r: seq<Reply>)
    ensures forall x :: x in r <==> x in replies && x.id != replyId
  {
    var keep := (x: Reply) => x.id != replyId;
    assert forall x :: x in Filter(replies, keep) <==> x in replies && keep(x) by {
      forall x ensures x in Filter(replies, keep) <==> x in replies && keep(x) {
        FilterMember(replies, keep, x);
      }
    }
    Filter(replies, keep)
  }

  /** The selected comments, newest first (a stable sort on `createdAt`). */
  function NewestFirst(comments: seq<Comment>, p: Comment -> bool): (r: seq<Comment>)
    ensures multiset(r) == multiset(Filter(comments, p))
    ensures forall c :: c in r <==> c in comments && p(c)
    ensures SortedDesc(r, CreatedAt)
  {
    var mine := Filter(comments, p);
    SortDescCorrect(mine, CreatedAt);
    assert forall c :: c in mine <==> c in comments && p(c) by {
      forall c ensures c in mine <==> c in comments && p(c) {
        FilterMember(comments, p, c);
      }
    }
    SortDesc(mine, CreatedAt)
  }

  /** A store in which every comment's likes are consistent and every rating is in 1..5. */
  ghost predicate WellFormed(comments: seq<Comment>)
  {
    forall c :: c in comments ==> LikesConsistent(c) && InRange(c.rating)
  }

  /** Liking, unliking and replying keep a well-formed store well-formed. */
  lemma {:induction false} ReplaceKeepsWellFormed(comments: seq<Comment>, i: int, c: Comment)
    requires WellFormed(comments) && 0 <= i < |comments|
    requires LikesConsistent(c) && InRange(c.rating)
    ensures WellFormed(comments[i := c])
  {
    forall x | x in comments[i := c] ensures LikesConsistent(x) && InRange(x.rating) {
      var k :| 0 <= k < |comments[i := c]| && comments[i := c][k] == x;
      if k != i {
        assert x == comments[k];
      }
    }
  }
}
