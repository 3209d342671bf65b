/** The handlers of server/controllers/followController.js. The caller id is a parameter. */
module FollowController {
  import opened Common
  import opened Users
  import opened Follows

  const ListAvatar: string := "https://via.placeholder.com/40"
  const DefaultLimit: int := 20

  /** The refusal `followUser` answers with, if any, in the handler's order. */
  function FollowCheck(users: UserStore, store: FollowStore, followerId: string, followingId: Option<string>): Option<Response>
    reads users, store
  {
    if !Present(followingId) then Some(Response(400, "缺少被关注用户ID"))
    else if followerId == followingId.value then Some(Response(400, "不能关注自己"))
    else if users.FindById(followingId.value).None? then Some(Response(404, "用户不存在"))
    else if store.IsFollowing(followerId, followingId.value) then Some(Response(400, "已经关注过此用户"))
    else None
  }

  /** A follow goes ahead exactly for a named, existing other user not yet followed; a missing
      target is refused before the self-follow test, which comes before the lookup. */
  lemma FollowCheckFacts(users: UserStore, store: FollowStore, followerId: string, followingId: Option<string>)
    ensures FollowCheck(users, store, followerId, followingId).None? <==>
            Present(followingId) && followingId.value != followerId &&
            (exists u :: u in users.users && u.id == followingId.value) &&
            !Linked(store.follows, followerId, followingId.value)
    ensures Present(followingId) && followingId.value == followerId ==>
            FollowCheck(users, store, followerId, followingId) == Some(Response(400, "不能关注自己"))
    ensures Present(followingId) && followingId.value != followerId &&
            (forall u :: u in users.users ==> u.id != followingId.value) ==>
            FollowCheck(users, store, followerId, followingId) == Some(Response(404, "用户不存在"))
  {
  }

  /** `followUser`: a successful follow appends exactly the caller→target edge. */
  method FollowUser(users: UserStore, store: FollowStore, followerId: string, followingId: Option<string>,
                    id: string, now: int)
    returns (resp: Response)
    requires store.Valid()
    modifies store
    ensures store.Valid()
    ensures var check := old(FollowCheck(users, store, followerId, followingId));
            (check.Some? ==> resp == check.value && store.follows == old(store.follows)) &&
            (check.None? ==> resp == Response(200, "关注成功") &&
                             store.follows == old(store.follows) + [Follow(id, followerId, followingId.value, now)] &&
                             store.IsFollowing(followerId, followingId.value))
  {
    var check := FollowCheck(users, store, followerId, followingId);
    if check.Some? {
      return check.value;
    }
    var f := Follow(id, followerId, followingId.value, now);
    AddEdgeFacts(store.follows, f, f);
    store.Save(f);
    resp := Response(200, "关注成功");
  }

  /** `unfollowUser`: 400 without a target or when not following, else the edge is removed. */
  method UnfollowUser(store: FollowStore, followerId: string, followingId: Option<string>) returns (resp: Response)
    requires store.Valid()
    modifies store
    ensures store.Valid()
    ensures !Present(followingId) ==> resp == Response(400, "缺少被关注用户ID") && store.follows == old(store.follows)
    ensures Present(followingId) && !old(store.IsFollowing(followerId, followingId.value)) ==>
              resp == Response(400, "未关注此用户") && store.follows == old(store.follows)
    ensures Present(followingId) && old(store.IsFollowing(followerId, followingId.value)) ==>
              resp == Response(200, "取消关注成功") &&
              store.follows == Filter(old(store.follows), NotEdge(followerId, followingId.value)) &&
              !store.IsFollowing(followerId, followingId.value)
  {
    if !Present(followingId) {
      return Response(400, "缺少被关注用户ID");
    }
    if !store.IsFollowing(followerId, followingId.value) {
      return Response(400, "未关注此用户");
    }
    store.Unfollow(followerId, followingId.value);
    resp := Response(200, "取消关注成功");
  }

  /** `checkFollowing`: exactly whether the caller→target edge exists. */
  function CheckFollowing(store: FollowStore, followerId: string, followingId: string): (r: bool)
    reads store
    ensures r <==> Linked(store.follows, followerId, followingId)
  {
    store.IsFollowing(followerId, followingId)
  }

  /** One entry of a follow list. `User` has no `name` field, so the `name` the handlers copy is
      always undefined and is left out; `email` is `None` in the public lists. */
  datatype Summary = Summary(id: string, email: Option<string>, avatar: string)

  /** The four list handlers: the caller's followings or followers (with e-mail) and any user's
      followers or followings (without). */
  datatype ListKind = MyFollowing | MyFollowers | UserFollowers | UserFollowing

  function Succeeded(kind: ListKind): string
  {
    match kind
    case MyFollowing => "获取关注列表成功"
    case MyFollowers => "获取粉丝列表成功"
    case UserFollowers => "获取用户粉丝列表成功"
    case UserFollowing => "获取用户关注列表成功"
  }

  function Failed(kind: ListKind): string
  {
    match kind
    case MyFollowing => "获取关注列表失败"
    case MyFollowers => "获取粉丝列表失败"
    case UserFollowers => "获取用户粉丝列表失败"
    case UserFollowing => "获取用户关注列表失败"
  }

  /** The entry the `map` builds for one user: its id, its email where the handler shows one,
      and its avatar or the list placeholder; never an empty avatar. */
  function Summarize(u: User, withEmail: bool): (s: Summary)
    ensures s.id == u.id && s.avatar != ""
    ensures s.email == (if withEmail then u.email else None)
    ensures s.avatar == if u.avatar != "" then u.avatar else ListAvatar
  {
    Summary(u.id, if withEmail then u.email else None, StrOr(Some(u.avatar), ListAvatar))
  }

  /** `ids.map(id => { const user = User.findById(id); return {...} })`: `None` when some id
      has no user, where `user.id` throws. */
  function Summaries(users: UserStore, ids: seq<string>, withEmail: bool): (r: Option<seq<Summary>>)
    reads users
    ensures r.Some? <==> forall i :: 0 <= i < |ids| ==> users.FindById(ids[i]).Some?
    ensures r.Some? ==> |r.value| == |ids| &&
                        forall i :: 0 <= i < |ids| ==>
                          r.value[i] == Summarize(users.FindById(ids[i]).value, withEmail) && r.value[i].id == ids[i]
  {
    if forall i :: 0 <= i < |ids| ==> users.FindById(ids[i]).Some? then
      Some(seq(|ids|, i requires 0 <= i < |ids| && users.FindById(ids[i]).Some? reads users =>
                        Summarize(users.FindById(ids[i]).value, withEmail)))
    else None
  }

  /** A list handler: the page `slice(offset, offset + limit)` of the ids, the full count, and a
      500 when a listed user no longer exists. */
  function FollowList(users: UserStore, store: FollowStore, kind: ListKind, userId: string,
                      limitQuery: Option<int>, offsetQuery: Option<int>): (Response, seq<Summary>, nat)
    reads users, store
  {
    var ids := if kind == MyFollowing || kind == UserFollowing then store.Following(userId) else store.Followers(userId);
    var page := Page(ids, IntOr(offsetQuery, 0), IntOr(limitQuery, DefaultLimit));
    match Summaries(users, page, kind == MyFollowing || kind == MyFollowers)
    case None => (Response(500, Failed(kind)), [], 0)
    case Some(list) => (Response(200, Succeeded(kind)), list, |ids|)
  }

  /** The list is the requested window of the followings (or followers) in edge order, `total`
      counts all of them, and the handler fails only when a listed user is gone. */
  lemma FollowListFacts(users: UserStore, store: FollowStore, kind: ListKind, userId: string,
                        limitQuery: Option<int>, offsetQuery: Option<int>)
    ensures var ids := if kind == MyFollowing || kind == UserFollowing then store.Following(userId) else store.Followers(userId);
            var page := Page(ids, IntOr(offsetQuery, 0), IntOr(limitQuery, DefaultLimit));
            var (resp, list, total) := FollowList(users, store, kind, userId, limitQuery, offsetQuery);
            (resp.status == 200 <==> forall i :: 0 <= i < |page| ==> users.FindById(page[i]).Some?) &&
            (resp.status == 200 ==>
               total == (if kind == MyFollowing || kind == UserFollowing then store.FollowingCount(userId) else store.FollowerCount(userId)) &&
               |list| == |page| && forall i :: 0 <= i < |page| ==> list[i].id == page[i])
  {
  }

  /** `getFollowStats`: the counts are the lengths of the two lists. */
  function FollowStats(store: FollowStore, userId: string): (r: (nat, nat))
    reads store
    ensures r.0 == |store.Followers(userId)| && r.1 == |store.Following(userId)|
  {
    (store.FollowerCount(userId), store.FollowingCount(userId))
  }
}
