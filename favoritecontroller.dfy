/** The handlers of server/controllers/favoriteController.js. The caller id and the current
    year are parameters. */
module FavoriteController {
  import opened Common
  import opened Users
  import opened Favorites

  const DefaultCategory: string := "未分类"
  const DefaultType: string := "movie"

  /** The refusal `addFavorite` answers with, if any, in the handler's order. */
  function AddFavoriteCheck(users: UserStore, store: FavoriteStore, userId: string, movieId: Option<string>,
                            movieTitle: Option<string>): Option<Response>
    reads users, store
  {
    if !Present(movieId) || !Present(movieTitle) then Some(Response(400, "电影ID和标题不能为空"))
    else if users.FindById(userId).None? then Some(Response(404, "用户不存在"))
    else if store.IsFavorited(userId, movieId.value) then Some(Response(400, "该电影已收藏"))
    else None
  }

  /** The record `addFavorite` builds: rating 0, category '未分类', the current year and type
      'movie' stand in for falsy fields. */
  function NewFavorite(id: string, userId: string, movieId: string, movieTitle: string, moviePoster: Option<string>,
                       movieRating: Option<int>, movieCategory: Option<string>, movieYear: Option<int>,
                       movieType: Option<string>, currentYear: int, now: int): (f: Favorite)
    ensures f.id == id && Pair(f) == (userId, movieId) && f.movieTitle == movieTitle && f.createdAt == now
    ensures f.movieRating == if Truthy(movieRating) then movieRating.value else 0
    ensures f.movieCategory == if Present(movieCategory) then movieCategory.value else DefaultCategory
    ensures f.movieYear == if Truthy(movieYear) then movieYear.value else currentYear
    ensures f.movieType == if Present(movieType) then movieType.value else DefaultType
  {
    Favorite(id, userId, movieId, movieTitle, moviePoster, IntOr(movieRating, 0), StrOr(movieCategory, DefaultCategory),
             IntOr(movieYear, currentYear), StrOr(movieType, DefaultType), now)
  }

  /** Through `addFavorite` a user never favorites one movie twice: the check refuses a present
      pair, so the new record keeps (user, movie) pairs unique. */
  lemma AddFavoriteKeepsPairsUnique(favorites: seq<Favorite>, f: Favorite)
    requires UniqueKeys(favorites, Pair)
    requires !Favorited(favorites, f.userId, f.movieId)
    ensures UniqueKeys(UpsertBy(favorites, f, FavoriteId), Pair)
  {
    UpsertFreshKeepsUnique(favorites, f, FavoriteId, Pair);
  }

  /** `addFavorite`. */
  method AddFavorite(users: UserStore, store: FavoriteStore, userId: string, movieId: Option<string>,
                     movieTitle: Option<string>, moviePoster: Option<string>, movieRating: Option<int>,
                     movieCategory: Option<string>, movieYear: Option<int>, movieType: Option<string>,
                     id: string, currentYear: int, now: int)
    returns (resp: Response)
    requires store.Valid()
    modifies store
    ensures store.Valid()
    ensures var check := old(AddFavoriteCheck(users, store, userId, movieId, movieTitle));
            (check.Some? ==> resp == check.value && store.favorites == old(store.favorites)) &&
            (check.None? ==>
               resp == Response(201, "收藏成功") &&
               store.favorites == UpsertBy(old(store.favorites),
                                           NewFavorite(id, userId, movieId.value, movieTitle.value, moviePoster, movieRating,
                                                       movieCategory, movieYear, movieType, currentYear, now),
                                           FavoriteId) &&
               (UniqueKeys(old(store.favorites), Pair) ==> UniqueKeys(store.favorites, Pair)))
  {
    var check := AddFavoriteCheck(users, store, userId, movieId, movieTitle);
    if check.Some? {
      return check.value;
    }
    var f := NewFavorite(id, userId, movieId.value, movieTitle.value, moviePoster, movieRating, movieCategory,
                         movieYear, movieType, currentYear, now);
    if UniqueKeys(store.favorites, Pair) {
      AddFavoriteKeepsPairsUnique(store.favorites, f);
    }
    store.Save(f);
    resp := Response(201, "收藏成功");
  }

  /** `removeFavorite`: succeeds whether or not the movie was favorited. */
  method RemoveFavorite(store: FavoriteStore, userId: string, movieId: Option<string>) returns (resp: Response)
    requires store.Valid()
    modifies store
    ensures store.Valid()
    ensures !Present(movieId) ==> resp == Response(400, "电影ID不能为空") && store.favorites == old(store.favorites)
    ensures Present(movieId) ==>
              resp == Response(200, "取消收藏成功") && !store.IsFavorited(userId, movieId.value) &&
              store.favorites == Filter(old(store.favorites), NotPair(userId, movieId.value))
  {
    if !Present(movieId) {
      return Response(400, "电影ID不能为空");
    }
    store.DeleteByUserAndMovie(userId, movieId.value);
    resp := Response(200, "取消收藏成功");
  }

  /** `getUserFavorites`: 404 for an unknown user, else the list and its length. */
  function UserFavorites(users: UserStore, store: FavoriteStore, userId: string): (r: (Response, seq<Favorite>, nat))
    reads users, store
    ensures r.0.status == 200 <==> users.FindById(userId).Some?
    ensures r.0.status == 200 ==> r.1 == store.FindByUserId(userId) && r.2 == store.CountByUserId(userId)
  {
    if users.FindById(userId).None? then (Response(404, "用户不存在"), [], 0)
    else
      var mine := store.FindByUserId(userId);
      (Response(200, "获取收藏列表成功"), mine, |mine|)
  }

  /** `checkFavorite`: 400 without a movie id, else exactly `isFavorited`. */
  function CheckFavorite(store: FavoriteStore, userId: string, movieId: Option<string>): (r: Option<bool>)
    reads store
    ensures r.None? <==> !Present(movieId)
    ensures r.Some? ==> (r.value <==> Favorited(store.favorites, userId, movieId.value))
  {
    if !Present(movieId) then None else Some(store.IsFavorited(userId, movieId.value))
  }

  /** Keep a record unless it is the user's favorite of one of the listed movies. */
  function NotListed(userId: string, movieIds: seq<string>): Favorite -> bool
  {
    (f: Favorite) => !(f.userId == userId && f.movieId in movieIds)
  }

  /** `removeBatchFavorites`: `None` stands for a body without a `movieIds` array. The reported
      count is the number of ids sent, whatever was deleted. */
  method RemoveBatchFavorites(store: FavoriteStore, userId: string, movieIds: Option<seq<string>>)
    returns (resp: Response)
    requires store.Valid()
    modifies store
    ensures store.Valid()
    ensures movieIds.None? || movieIds.value == [] ==>
              resp == Response(400, "电影ID列表不能为空") && store.favorites == old(store.favorites)
    ensures movieIds.Some? && movieIds.value != [] ==>
              resp == Response(200, "成功删除 " + Decimal(|movieIds.value|) + " 个收藏") &&
              store.favorites == Filter(old(store.favorites), NotListed(userId, movieIds.value))
  {
    if movieIds.None? || movieIds.value == [] {
      return Response(400, "电影ID列表不能为空");
    }
    var ids := movieIds.value;
    FilterAll(store.favorites, NotListed(userId, []));
    var i := 0;
    while i < |ids|
      invariant 0 <= i <= |ids|
      invariant store.Valid()
      invariant store.favorites == Filter(old(store.favorites), NotListed(userId, ids[..i]))
    {
      BatchStep(old(store.favorites), userId, ids, i);
      store.DeleteByUserAndMovie(userId, ids[i]);
      i := i + 1;
    }
    assert ids[..i] == ids;
    resp := Response(200, "成功删除 " + Decimal(|ids|) + " 个收藏");
  }

  /** One more id in the batch is one more `deleteByUserAndMovie`. */
  lemma BatchStep(favorites: seq<Favorite>, userId: string, ids: seq<string>, i: int)
    requires 0 <= i < |ids|
    ensures Filter(Filter(favorites, NotListed(userId, ids[..i])), NotPair(userId, ids[i])) ==
            Filter(favorites, NotListed(userId, ids[..i + 1]))
  {
    FilterFilter(favorites, NotListed(userId, ids[..i]), NotPair(userId, ids[i]));
    assert ids[..i + 1] == ids[..i] + [ids[i]];
    FilterCongruent(favorites, Both(NotListed(userId, ids[..i]), NotPair(userId, ids[i])), NotListed(userId, ids[..i + 1]));
  }

  /** Keep a record unless its id is one of these. */
  function NotAmong(ids: seq<string>): Favorite -> bool
  {
    (f: Favorite) => f.id !in ids
  }

  /** `clearAllFavorites`: delete each of the caller's favorites by id and report how many there
      were; other users' favorites stay. */
  method ClearAllFavorites(store: FavoriteStore, userId: string) returns (resp: Response)
    requires store.Valid()
    modifies store
    ensures store.Valid()
    ensures resp == Response(200, "已清空所有 " + Decimal(old(store.CountByUserId(userId))) + " 个收藏")
    ensures store.favorites == Filter(old(store.favorites), NotUser(userId))
    ensures store.CountByUserId(userId) == 0
  {
    ghost var before := store.favorites;
    var count := store.CountByUserId(userId);
    var mine := store.FindByUserId(userId);
    assert mine == Filter(before, OfUser(userId));
    var ids := Map(mine, FavoriteId);
    ClearedExactlyMine(before, userId);
    FilterAll(before, NotAmong([]));
    var i := 0;
    while i < |ids|
      invariant 0 <= i <= |ids|
      invariant store.Valid()
      invariant store.favorites == Filter(before, NotAmong(ids[..i]))
    {
      ClearStep(before, ids, i);
      store.Delete(ids[i]);
      i := i + 1;
    }
    assert ids[..i] == ids;
    resp := Response(200, "已清空所有 " + Decimal(count) + " 个收藏");
  }

  /** One more id is one more `delete`. */
  lemma ClearStep(favorites: seq<Favorite>, ids: seq<string>, i: int)
    requires 0 <= i < |ids|
    ensures Filter(Filter(favorites, NotAmong(ids[..i])), NotId(ids[i])) == Filter(favorites, NotAmong(ids[..i + 1]))
  {
    FilterFilter(favorites, NotAmong(ids[..i]), NotId(ids[i]));
    assert ids[..i + 1] == ids[..i] + [ids[i]];
    FilterCongruent(favorites, Both(NotAmong(ids[..i]), NotId(ids[i])), NotAmong(ids[..i + 1]));
  }

  /** With unique ids, deleting the ids of a user's favorites deletes exactly that user's
      favorites. */
  lemma ClearedExactlyMine(favorites: seq<Favorite>, userId: string)
    requires UniqueKeys(favorites, FavoriteId)
    ensures Filter(favorites, NotAmong(Map(Filter(favorites, OfUser(userId)), FavoriteId))) ==
            Filter(favorites, NotUser(userId))
    ensures Count(Filter(favorites, NotUser(userId)), OfUser(userId)) == 0
  {
    var mine := Filter(favorites, OfUser(userId));
    var ids := Map(mine, FavoriteId);
    forall x | x in favorites ensures NotAmong(ids)(x) == (x.userId != userId) {
      FilterMember(favorites, OfUser(userId), x);
      if x.id in ids {
        var k :| 0 <= k < |mine| && ids[k] == x.id;
        FilterMember(favorites, OfUser(userId), mine[k]);
        var a :| 0 <= a < |favorites| && favorites[a] == x;
        var b :| 0 <= b < |favorites| && favorites[b] == mine[k];
        assert a == b;
      }
    }
    FilterCongruent(favorites, NotAmong(ids), NotUser(userId));
    var rest := Filter(favorites, NotUser(userId));
    forall x | x in rest ensures !OfUser(userId)(x) {
      FilterMember(favorites, NotUser(userId), x);
    }
    FilterNone(rest, OfUser(userId));
  }

  /** `getFavoriteCount`: exactly `countByUserId`. */
  function FavoriteCount(store: FavoriteStore, userId: string): (n: nat)
    reads store
    ensures n == |store.FindByUserId(userId)|
  {
    store.CountByUserId(userId)
  }
}
