/** The handlers of server/controllers/watchHistoryController.js. The caller id, fresh ids and
    the clock are parameters. */
module WatchHistoryController {
  import opened Common
  import opened WatchHistory

  const DefaultLimit: int := 20
  const DefaultRecentLimit: int := 10

  /** `recordWatch`: 400 without a movie id or title, else one upsert on (user, movie). */
  method RecordWatch(store: WatchHistoryStore, userId: string, movieId: Option<string>, movieTitle: Option<string>,
                     moviePoster: Option<string>, movieType: Option<string>, duration: Option<int>,
                     progress: Option<int>, id: string, now: int)
    returns (resp: Response)
    requires store.Valid()
    modifies store
    ensures store.Valid()
    ensures !Present(movieId) || !Present(movieTitle) ==>
              resp == Response(400, "缺少必要参数") && store.records == old(store.records)
    ensures Present(movieId) && Present(movieTitle) ==>
              resp == Response(200, "观看记录已保存") &&
              store.records == UpsertBy(old(store.records),
                                        NewRecord(id, userId, movieId.value, movieTitle.value, moviePoster,
                                                  movieType, duration, progress, now), Key)
  {
    if !Present(movieId) || !Present(movieTitle) {
      return Response(400, "缺少必要参数");
    }
    store.Save(NewRecord(id, userId, movieId.value, movieTitle.value, moviePoster, movieType, duration, progress, now));
    resp := Response(200, "观看记录已保存");
  }

  /** The record `updateWatchProgress` saves: a fresh record with an empty title and poster when
      the caller has none for the movie, else the found record with a truthy duration and
      progress taken over and the watch time set to now. A progress (or duration) of 0 is
      falsy, so it never overwrites the stored one. */
  function Progressed(found: Option<WatchRecord>, id: string, userId: string, movieId: string,
                      duration: Option<int>, progress: Option<int>, now: int): (w: WatchRecord)
    requires found.Some? ==> Key(found.value) == (userId, movieId)
    ensures Key(w) == (userId, movieId) && w.watchedAt == now
    ensures found.None? ==> w.id == id && w.movieTitle == "" && w.moviePoster == Some("") && w.movieType == DefaultType
    ensures found.None? ==> w.duration == IntOr(duration, 0) && w.progress == IntOr(progress, 0)
    ensures found.Some? ==> w.id == found.value.id && w.movieTitle == found.value.movieTitle &&
                            w.moviePoster == found.value.moviePoster && w.movieType == found.value.movieType
    ensures Truthy(progress) ==> w.progress == progress.value
    ensures Truthy(duration) ==> w.duration == duration.value
    ensures found.Some? && !Truthy(progress) ==> w.progress == found.value.progress
    ensures found.Some? && !Truthy(duration) ==> w.duration == found.value.duration
  {
    match found
    case None => NewRecord(id, userId, movieId, "", Some(""), None, duration, progress, now)
    case Some(r) =>
      r.(duration := IntOr(duration, r.duration), progress := IntOr(progress, r.progress), watchedAt := now)
  }

  /** `updateWatchProgress`: 400 without a movie id, else the progressed record is upserted and
      is afterwards the one record of the caller for that movie. */
  method UpdateWatchProgress(store: WatchHistoryStore, userId: string, movieId: Option<string>, duration: Option<int>,
                             progress: Option<int>, id: string, now: int)
    returns (resp: Response)
    requires store.Valid()
    modifies store
    ensures store.Valid()
    ensures !Present(movieId) ==> resp == Response(400, "缺少电影ID") && store.records == old(store.records)
    ensures Present(movieId) ==>
              var w := Progressed(old(store.FindByUserIdAndMovieId(userId, movieId.value)), id, userId, movieId.value,
                                  duration, progress, now);
              resp == Response(200, "观看进度已更新") &&
              store.records == UpsertBy(old(store.records), w, Key) &&
              store.FindByUserIdAndMovieId(userId, movieId.value) == Some(w)
  {
    if !Present(movieId) {
      return Response(400, "缺少电影ID");
    }
    var found := store.FindByUserIdAndMovieId(userId, movieId.value);
    var w := Progressed(found, id, userId, movieId.value, duration, progress, now);
    store.Save(w);
    resp := Response(200, "观看进度已更新");
  }

  /** Updating the progress of a movie the caller has watched replaces that record where it
      stands: the history keeps its length and every other record. */
  lemma UpdateReplacesRecord(records: seq<WatchRecord>, userId: string, movieId: string, duration: Option<int>,
                             progress: Option<int>, id: string, now: int)
    requires UniqueKeys(records, Key)
    requires Find(records, IsPair(userId, movieId)).Some?
    ensures var w := Progressed(Find(records, IsPair(userId, movieId)), id, userId, movieId, duration, progress, now);
            exists i :: 0 <= i < |records| && Key(records[i]) == (userId, movieId) &&
                        UpsertBy(records, w, Key) == records[i := w]
  {
    var found := Find(records, IsPair(userId, movieId));
    var w := Progressed(found, id, userId, movieId, duration, progress, now);
    var i := IndexWhere(records, SameKey(Key, w));
    assert found.value in records;
    assert i >= 0;
    assert UpsertBy(records, w, Key) == records[i := w];
  }

  /** `getWatchHistory`: one page of the caller's history, most recent first, and its length. */
  function GetWatchHistory(store: WatchHistoryStore, userId: string, limitQuery: Option<int>, offsetQuery: Option<int>):
    (r: (seq<WatchRecord>, nat))
    reads store
    ensures r.1 == Count(store.records, OfUser(userId))
    ensures r.0 == Page(store.FindByUserId(userId), IntOr(offsetQuery, 0), IntOr(limitQuery, DefaultLimit))
    ensures forall w :: w in r.0 ==> w in store.records && w.userId == userId
  {
    var mine := store.FindByUserId(userId);
    assert |mine| == |Filter(store.records, OfUser(userId))| by {
      assert |multiset(mine)| == |multiset(Filter(store.records, OfUser(userId)))|;
    }
    (Page(mine, IntOr(offsetQuery, 0), IntOr(limitQuery, DefaultLimit)), |mine|)
  }

  /** `getWatchRecord`: the caller's record of one movie, with the data null and a "not found"
      message (still a success) when there is none. */
  function GetWatchRecord(store: WatchHistoryStore, userId: string, movieId: string): (r: (Response, Option<WatchRecord>))
    reads store
    ensures r.1.None? <==> r.0 == Response(200, "未找到观看记录")
    ensures r.1.None? <==> forall w :: w in store.records ==> Key(w) != (userId, movieId)
    ensures r.1.Some? ==> r.0 == Response(200, "获取观看记录成功") &&
                          r.1.value in store.records && Key(r.1.value) == (userId, movieId)
  {
    var found := store.FindByUserIdAndMovieId(userId, movieId);
    if found.None? then (Response(200, "未找到观看记录"), None)
    else (Response(200, "获取观看记录成功"), found)
  }

  /** `deleteWatchRecord`: always a success; the caller has no record of the movie afterwards. */
  method DeleteWatchRecord(store: WatchHistoryStore, userId: string, movieId: string) returns (resp: Response)
    requires store.Valid()
    modifies store
    ensures store.Valid()
    ensures resp == Response(200, "观看记录已删除")
    ensures store.records == Filter(old(store.records), NotPair(userId, movieId))
    ensures store.FindByUserIdAndMovieId(userId, movieId) == None
  {
    store.DeleteByUserIdAndMovieId(userId, movieId);
    resp := Response(200, "观看记录已删除");
  }

  /** `clearWatchHistory`: always a success; the caller's history is empty afterwards and every
      other user's is untouched. */
  method ClearWatchHistory(store: WatchHistoryStore, userId: string) returns (resp: Response)
    requires store.Valid()
    modifies store
    ensures store.Valid()
    ensures resp == Response(200, "观看历史已清空")
    ensures store.records == Filter(old(store.records), NotUser(userId))
    ensures store.FindByUserId(userId) == []
  {
    store.DeleteByUserId(userId);
    resp := Response(200, "观看历史已清空");
    assert |store.FindByUserId(userId)| == 0 by {
      FilterNone(store.records, OfUser(userId));
      assert |multiset(store.FindByUserId(userId))| == |multiset(Filter(store.records, OfUser(userId)))|;
    }
  }

  /** `getRecentlyWatched`: the first `limit` (default 10) entries of the caller's history; for a
      non-negative limit these are the most recently watched records, newest first, and a
      negative limit drops that many of the oldest ones. */
  function GetRecentlyWatched(store: WatchHistoryStore, userId: string, limitQuery: Option<int>): (r: seq<WatchRecord>)
    reads store
    ensures r == Take(store.FindByUserId(userId), IntOr(limitQuery, DefaultRecentLimit))
    ensures SortedDesc(r, WatchedAt)
    ensures forall w :: w in r ==> w in store.records && w.userId == userId
    ensures IntOr(limitQuery, DefaultRecentLimit) >= 0 ==>
              var n := IntOr(limitQuery, DefaultRecentLimit);
              var mine := Count(store.records, OfUser(userId));
              |r| == (if n < mine then n else mine) &&
              forall x :: x in store.records && x.userId == userId && x !in r ==>
                forall y :: y in r ==> y.watchedAt >= x.watchedAt
  {
    var history := store.FindByUserId(userId);
    var n := IntOr(limitQuery, DefaultRecentLimit);
    TakeSorted(history, WatchedAt, n);
    var r := Take(history, n);
    assert forall w :: w in r ==> w in history by {
      var to := SliceIndex(|history|, n);
      assert r == history[0..to];
    }
    var mine := Filter(store.records, OfUser(userId));
    assert n >= 0 ==> |history| == |mine| && |r| == (if n < |mine| then n else |mine|) &&
                      forall x :: x in store.records && x.userId == userId && x !in r ==>
                        forall y :: y in r ==> y.watchedAt >= x.watchedAt by {
      if n >= 0 {
        TopK(mine, WatchedAt, n);
        assert |history| == |mine| by {
          assert |multiset(history)| == |multiset(mine)|;
        }
        forall x | x in store.records && x.userId == userId ensures x in mine {
          FilterMember(store.records, OfUser(userId), x);
        }
      }
    }
    r
  }
}
