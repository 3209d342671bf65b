/** The handlers of server/controllers/downloadController.js. The caller id is a parameter. */
module DownloadController {
  import opened Common
  import opened Downloads

  const DefaultLimit: int := 20

  /** `addDownload`: 400 without a movie id or title, else one upsert. */
  method AddDownload(store: DownloadStore, userId: string, movieId: Option<string>, movieTitle: Option<string>,
                     moviePoster: Option<string>, movieType: Option<string>, fileSize: Option<int>,
                     quality: Option<string>, id: string, now: int)
    returns (resp: Response)
    requires store.Valid()
    modifies store
    ensures store.Valid()
    ensures !Present(movieId) || !Present(movieTitle) ==>
              resp == Response(400, "缺少必要参数") && store.downloads == old(store.downloads)
    ensures Present(movieId) && Present(movieTitle) ==>
              resp == Response(200, "下载记录已添加") &&
              store.downloads == UpsertBy(old(store.downloads),
                                          NewDownload(id, userId, movieId.value, movieTitle.value, moviePoster,
                                                      movieType, fileSize, quality, now), Key)
  {
    if !Present(movieId) || !Present(movieTitle) {
      return Response(400, "缺少必要参数");
    }
    store.Save(NewDownload(id, userId, movieId.value, movieTitle.value, moviePoster, movieType, fileSize, quality, now));
    resp := Response(200, "下载记录已添加");
  }

  /** `getDownloads`: one page of the caller's downloads, newest first, and their number. */
  function GetDownloads(store: DownloadStore, userId: string, limitQuery: Option<int>, offsetQuery: Option<int>):
    (r: (seq<Download>, nat))
    reads store
    ensures r.1 == Count(store.downloads, OfUser(userId))
    ensures r.0 == Page(store.FindByUserId(userId), IntOr(offsetQuery, 0), IntOr(limitQuery, DefaultLimit))
    ensures forall d :: d in r.0 ==> d in store.downloads && d.userId == userId
  {
    var mine := store.FindByUserId(userId);
    assert |mine| == |Filter(store.downloads, OfUser(userId))| by {
      assert |multiset(mine)| == |multiset(Filter(store.downloads, OfUser(userId)))|;
    }
    var page := Page(mine, IntOr(offsetQuery, 0), IntOr(limitQuery, DefaultLimit));
    (page, |mine|)
  }

  /** `getMovieDownloads`: the caller's downloads of one movie. */
  function GetMovieDownloads(store: DownloadStore, userId: string, movieId: string): (r: seq<Download>)
    reads store
    ensures forall d :: d in r <==> d in store.downloads && d.userId == userId && d.movieId == movieId
    ensures store.Valid() ==> NoDuplicates(Map(r, (d: Download) => d.quality))
  {
    var mine := store.FindByUserIdAndMovieId(userId, movieId);
    assert store.Valid() ==> NoDuplicates(Map(mine, (d: Download) => d.quality)) by {
      if store.Valid() {
        FilterKeepsUnique(store.downloads, OfUserMovie(userId, movieId), Key);
        forall i, j | 0 <= i < j < |mine| ensures mine[i].quality != mine[j].quality {
          assert mine[i] in mine && mine[j] in mine;
          assert Key(mine[i]) != Key(mine[j]);
        }
      }
    }
    mine
  }

  /** The refusal `deleteDownload` answers with: 403 unless the download was found and belongs
      to the caller. */
  function DeleteCheck(found: Option<Download>, userId: string): Option<Response>
  {
    if found.None? || found.value.userId != userId then Some(Response(403, "无权删除此下载")) else None
  }

  /** `Download.findById?.(downloadId)` as written: `Download` has no `findById`, so the optional
      call yields undefined whatever the store holds. */
  function FindByIdAsWritten(downloads: seq<Download>, id: string): Option<Download>
  {
    None
  }

  /** As written, even the owner of a stored download is refused, so no download is ever
      deleted through this handler; looking the id up in the store accepts the owner. */
  lemma DeleteAsWrittenRefusesOwner(d: Download)
    ensures DeleteCheck(FindByIdAsWritten([d], d.id), d.userId) == Some(Response(403, "无权删除此下载"))
    ensures DeleteCheck(FindById([d], d.id), d.userId) == None
  {
    assert FindById([d], d.id) == Some(d);
  }

  /** The ownership rule with the lookup in place: deletion goes ahead exactly when the first
      record with that id belongs to the caller. */
  lemma DeleteCheckRights(downloads: seq<Download>, downloadId: string, userId: string)
    ensures DeleteCheck(FindById(downloads, downloadId), userId).None? <==>
            FindById(downloads, downloadId).Some? && FindById(downloads, downloadId).value.userId == userId
    ensures (forall d :: d in downloads && d.id == downloadId ==> d.userId != userId) ==>
            DeleteCheck(FindById(downloads, downloadId), userId) == Some(Response(403, "无权删除此下载"))
  {
  }

  /** `deleteDownload` as written: the lookup through the missing finder is always undefined,
      so the ownership check answers 403 to every request, and the `Download.delete` call
      after it is never reached: the store keeps every download. */
  method DeleteDownload(store: DownloadStore, userId: string, downloadId: string) returns (resp: Response)
    ensures resp == Response(403, "无权删除此下载")
  {
    var found := FindByIdAsWritten(store.downloads, downloadId);
    var check := DeleteCheck(found, userId);
    assert check.Some?;
    resp := check.value;
  }

  /** `deleteDownload` with the lookup the ownership check evidently expects: only the owner's
      download goes. */
  method DeleteDownloadChecked(store: DownloadStore, userId: string, downloadId: string) returns (resp: Response)
    requires store.Valid()
    modifies store
    ensures store.Valid()
    ensures var check := DeleteCheck(FindById(old(store.downloads), downloadId), userId);
            (check.Some? ==> resp == check.value && store.downloads == old(store.downloads)) &&
            (check.None? ==> resp == Response(200, "下载已删除") &&
                             store.downloads == Filter(old(store.downloads), NotId(downloadId)))
  {
    var check := DeleteCheck(FindById(store.downloads, downloadId), userId);
    if check.Some? {
      return check.value;
    }
    store.Delete(downloadId);
    resp := Response(200, "下载已删除");
  }

  /** `deleteMovieDownloads`: only the caller's records of that movie go. */
  method DeleteMovieDownloads(store: DownloadStore, userId: string, movieId: string) returns (resp: Response)
    requires store.Valid()
    modifies store
    ensures store.Valid()
    ensures resp == Response(200, "电影下载已删除")
    ensures store.downloads == Filter(old(store.downloads), NotUserMovie(userId, movieId))
    ensures forall d :: d in store.downloads <==> d in old(store.downloads) && !(d.userId == userId && d.movieId == movieId)
  {
    DeleteFacts(store.downloads, NotUserMovie(userId, movieId));
    store.DeleteByUserIdAndMovieId(userId, movieId);
    resp := Response(200, "电影下载已删除");
  }

  /** `clearAllDownloads`: only the caller's records go. */
  method ClearAllDownloads(store: DownloadStore, userId: string) returns (resp: Response)
    requires store.Valid()
    modifies store
    ensures store.Valid()
    ensures resp == Response(200, "所有下载已清空")
    ensures store.downloads == Filter(old(store.downloads), NotUser(userId))
    ensures forall d :: d in store.downloads <==> d in old(store.downloads) && d.userId != userId
  {
    DeleteFacts(store.downloads, NotUser(userId));
    store.DeleteByUserId(userId);
    resp := Response(200, "所有下载已清空");
  }

  datatype Stats = Stats(totalCount: nat, totalSize: int, count480: nat, count720: nat, count1080: nat)

  /** `getDownloadStats`: the caller's download count, the summed size, and how many of the
      caller's downloads have each of the three qualities. */
  function DownloadStats(store: DownloadStore, userId: string): (s: Stats)
    reads store
    ensures s.totalCount == Count(store.downloads, OfUser(userId))
    ensures s.totalSize == store.TotalSize(userId)
    ensures s.count480 == Count(Filter(store.downloads, OfUser(userId)), HasQuality("480p"))
    ensures s.count720 == Count(Filter(store.downloads, OfUser(userId)), HasQuality("720p"))
    ensures s.count1080 == Count(Filter(store.downloads, OfUser(userId)), HasQuality("1080p"))
    ensures s.count480 + s.count720 + s.count1080 <= s.totalCount
  {
    var mine := store.FindByUserId(userId);
    var all := Filter(store.downloads, OfUser(userId));
    assert |mine| == |all| by {
      assert |multiset(mine)| == |multiset(all)|;
    }
    CountPermutation(mine, all, HasQuality("480p"));
    CountPermutation(mine, all, HasQuality("720p"));
    CountPermutation(mine, all, HasQuality("1080p"));
    QualityCountsBound(mine, "480p", "720p", "1080p");
    Stats(|mine|, store.TotalSize(userId), Count(mine, HasQuality("480p")), Count(mine, HasQuality("720p")),
          Count(mine, HasQuality("1080p")))
  }
}
