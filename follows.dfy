/** The follow graph of server/models/Follow.js: directed edges from a follower to the user
    followed, kept in one module-level array. Ids and timestamps are parameters. */
module Follows {
  import opened Common

  datatype Follow = Follow(id: string, followerId: string, followingId: string, createdAt: int)

  /** The (follower, following) pair an edge connects. */
  function Edge(f: Follow): (string, string) { (f.followerId, f.followingId) }
  function FollowerId(f: Follow): string { f.followerId }
  function FollowingId(f: Follow): string { f.followingId }

  function IsEdge(followerId: string, followingId: string): Follow -> bool
  {
    (f: Follow) => f.followerId == followerId && f.followingId == followingId
  }

  function NotEdge(followerId: string, followingId: string): Follow -> bool
  {
    (f: Follow) => !(f.followerId == followerId && f.followingId == followingId)
  }

  function Into(userId: string): Follow -> bool { (f: Follow) => f.followingId == userId }
  function OutOf(userId: string): Follow -> bool { (f: Follow) => f.followerId == userId }
  function Apart(userId: string): Follow -> bool { (f: Follow) => f.followerId != userId && f.followingId != userId }

  /** Some edge goes from `a` to `b`. */
  predicate Linked(follows: seq<Follow>, a: string, b: string)
  {
    exists f :: f in follows && f.followerId == a && f.followingId == b
  }

  /** `save()` on the array: append the edge unless its pair is already there. */
  function AddEdge(follows: seq<Follow>, f: Follow): seq<Follow>
  {
    if Find(follows, IsEdge(f.followerId, f.followingId)).Some? then follows else follows + [f]
  }

  /** Adding keeps edges unique, links exactly the new pair (not the reverse one), and adding the
      same pair again changes nothing. */
  lemma AddEdgeFacts(follows: seq<Follow>, f: Follow, g: Follow)
    ensures UniqueKeys(follows, Edge) ==> UniqueKeys(AddEdge(follows, f), Edge)
    ensures Linked(AddEdge(follows, f), f.followerId, f.followingId)
    ensures forall a, b :: (a, b) != Edge(f) ==> (Linked(AddEdge(follows, f), a, b) <==> Linked(follows, a, b))
    ensures Edge(g) == Edge(f) ==> AddEdge(AddEdge(follows, f), g) == AddEdge(follows, f)
    ensures Linked(follows, f.followerId, f.followingId) ==> AddEdge(follows, f) == follows
    ensures !Linked(follows, f.followerId, f.followingId) ==> AddEdge(follows, f) == follows + [f]
  {
    var after := AddEdge(follows, f);
    if Find(follows, IsEdge(f.followerId, f.followingId)).None? {
      assert after == follows + [f];
      assert f in after;
      if UniqueKeys(follows, Edge) {
        forall i, j | 0 <= i < j < |after| ensures Edge(after[i]) != Edge(after[j]) {
          if j == |follows| {
            assert after[i] in follows;
            assert !IsEdge(f.followerId, f.followingId)(after[i]);
          }
        }
      }
    }
    assert Find(after, IsEdge(f.followerId, f.followingId)).Some?;
  }

  /** After `unfollow(a, b)` no edge links `a` to `b`, every other edge is kept in order, and
      no edge is added. */
  lemma UnfollowFacts(follows: seq<Follow>, a: string, b: string)
    ensures !Linked(Filter(follows, NotEdge(a, b)), a, b)
    ensures forall f :: f in Filter(follows, NotEdge(a, b)) <==> f in follows && Edge(f) != (a, b)
    ensures forall x, y :: (x, y) != (a, b) ==> (Linked(Filter(follows, NotEdge(a, b)), x, y) <==> Linked(follows, x, y))
    ensures UniqueKeys(follows, Edge) ==> UniqueKeys(Filter(follows, NotEdge(a, b)), Edge)
  {
    forall f ensures f in Filter(follows, NotEdge(a, b)) <==> f in follows && Edge(f) != (a, b) {
      FilterMember(follows, NotEdge(a, b), f);
    }
    if UniqueKeys(follows, Edge) {
      FilterKeepsUnique(follows, NotEdge(a, b), Edge);
    }
  }

  /** `deleteByUserId(u)` drops every edge with `u` at either end and no other edge. */
  lemma DeleteByUserFacts(follows: seq<Follow>, userId: string)
    ensures forall f :: f in Filter(follows, Apart(userId)) <==>
                          f in follows && f.followerId != userId && f.followingId != userId
    ensures forall x :: !Linked(Filter(follows, Apart(userId)), x, userId) && !Linked(Filter(follows, Apart(userId)), userId, x)
    ensures UniqueKeys(follows, Edge) ==> UniqueKeys(Filter(follows, Apart(userId)), Edge)
  {
    forall f ensures f in Filter(follows, Apart(userId)) <==> f in follows && f.followerId != userId && f.followingId != userId {
      FilterMember(follows, Apart(userId), f);
    }
    if UniqueKeys(follows, Edge) {
      FilterKeepsUnique(follows, Apart(userId), Edge);
    }
  }

  /** With unique edges nobody is listed twice among a user's followers or followings. */
  lemma {:induction false} ListsDistinct(follows: seq<Follow>, userId: string)
    requires UniqueKeys(follows, Edge)
    ensures NoDuplicates(Map(Filter(follows, Into(userId)), FollowerId))
    ensures NoDuplicates(Map(Filter(follows, OutOf(userId)), FollowingId))
  {
    var ins := Filter(follows, Into(userId));
    var outs := Filter(follows, OutOf(userId));
    FilterKeepsUnique(follows, Into(userId), Edge);
    FilterKeepsUnique(follows, OutOf(userId), Edge);
    forall i, j | 0 <= i < j < |ins| ensures ins[i].followerId != ins[j].followerId {
      FilterMember(follows, Into(userId), ins[i]);
      FilterMember(follows, Into(userId), ins[j]);
      assert Edge(ins[i]) != Edge(ins[j]);
    }
    forall i, j | 0 <= i < j < |outs| ensures outs[i].followingId != outs[j].followingId {
      FilterMember(follows, OutOf(userId), outs[i]);
      FilterMember(follows, OutOf(userId), outs[j]);
      assert Edge(outs[i]) != Edge(outs[j]);
    }
  }

  class FollowStore {
    var follows: seq<Follow>

    /** No pair is stored twice. */
    ghost predicate Valid()
      reads this
    {
      UniqueKeys(follows, Edge)
    }

    constructor ()
      ensures follows == [] && Valid()
    {
      follows := [];
    }

    /** `save()`: the edge is appended only if its pair is absent. */
    method Save(f: Follow)
      requires Valid()
      modifies this
      ensures Valid()
      ensures follows == AddEdge(old(follows), f)
      ensures IsFollowing(f.followerId, f.followingId)
    {
      AddEdgeFacts(follows, f, f);
      follows := AddEdge(follows, f);
    }

    /** `isFollowing(a, b)`: an edge from `a` to `b` exists. */
    predicate IsFollowing(followerId: string, followingId: string)
      reads this
      ensures IsFollowing(followerId, followingId) <==> Linked(follows, followerId, followingId)
    {
      Find(follows, IsEdge(followerId, followingId)).Some?
    }

    /** `getFollowers(u)`: who follows `u`, in the order the edges were made. */
    function Followers(userId: string): (r: seq<string>)
      reads this
      ensures forall x :: x in r <==> Linked(follows, x, userId)
      ensures Valid() ==> NoDuplicates(r)
    {
      var ins := Filter(follows, Into(userId));
      assert forall x :: x in Map(ins, FollowerId) <==> Linked(follows, x, userId) by {
        forall x ensures x in Map(ins, FollowerId) <==> Linked(follows, x, userId) {
          if x in Map(ins, FollowerId) {
            var i :| 0 <= i < |ins| && Map(ins, FollowerId)[i] == x;
            FilterMember(follows, Into(userId), ins[i]);
          }
          if Linked(follows, x, userId) {
            var f :| f in follows && f.followerId == x && f.followingId == userId;
            FilterMember(follows, Into(userId), f);
            var i :| 0 <= i < |ins| && ins[i] == f;
            assert Map(ins, FollowerId)[i] == x;
          }
        }
      }
      assert Valid() ==> NoDuplicates(Map(ins, FollowerId)) by {
        if Valid() { ListsDistinct(follows, userId); }
      }
      Map(ins, FollowerId)
    }

    /** `getFollowing(u)`: whom `u` follows, in the order the edges were made. */
    function Following(userId: string): (r: seq<string>)
      reads this
      ensures forall x :: x in r <==> Linked(follows, userId, x)
      ensures Valid() ==> NoDuplicates(r)
    {
      var outs := Filter(follows, OutOf(userId));
      assert forall x :: x in Map(outs, FollowingId) <==> Linked(follows, userId, x) by {
        forall x ensures x in Map(outs, FollowingId) <==> Linked(follows, userId, x) {
          if x in Map(outs, FollowingId) {
            var i :| 0 <= i < |outs| && Map(outs, FollowingId)[i] == x;
            FilterMember(follows, OutOf(userId), outs[i]);
          }
          if Linked(follows, userId, x) {
            var f :| f in follows && f.followerId == userId && f.followingId == x;
            FilterMember(follows, OutOf(userId), f);
            var i :| 0 <= i < |outs| && outs[i] == f;
            assert Map(outs, FollowingId)[i] == x;
          }
        }
      }
      assert Valid() ==> NoDuplicates(Map(outs, FollowingId)) by {
        if Valid() { ListsDistinct(follows, userId); }
      }
      Map(outs, FollowingId)
    }

    /** `getFollowerCount(u)`. */
    function FollowerCount(userId: string): (n: nat)
      reads this
      ensures n == |Followers(userId)|
    {
      Count(follows, Into(userId))
    }

    /** `getFollowingCount(u)`. */
    function FollowingCount(userId: string): (n: nat)
      reads this
      ensures n == |Following(userId)|
    {
      Count(follows, OutOf(userId))
    }

    /** `unfollow(a, b)`: drop the a→b edge and no other. */
    method Unfollow(followerId: string, followingId: string)
      requires Valid()
      modifies this
      ensures Valid()
      ensures follows == Filter(old(follows), NotEdge(followerId, followingId))
      ensures !IsFollowing(followerId, followingId)
    {
      UnfollowFacts(follows, followerId, followingId);
      follows := Filter(follows, NotEdge(followerId, followingId));
    }

    /** `deleteByUserId(u)`: drop every edge touching `u`. */
    method DeleteByUserId(userId: string)
      requires Valid()
      modifies this
      ensures Valid()
      ensures follows == Filter(old(follows), Apart(userId))
      ensures forall x :: !IsFollowing(x, userId) && !IsFollowing(userId, x)
    {
      DeleteByUserFacts(follows, userId);
      follows := Filter(follows, Apart(userId));
    }
  }
}
