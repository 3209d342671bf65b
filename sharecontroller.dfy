/** The handlers of server/controllers/shareController.js, which keeps its own module-level
    `shares` array. The caller id, fresh ids, the clock and the `FRONTEND_URL` setting are
    parameters. */
module ShareController {
  import opened Common

  const DefaultBase: string := "http://localhost:5173"
  const DefaultLimit: int := 20

  /** What was shared: the fields each kind of share record carries besides the common ones. */
  datatype Target =
    | MovieTarget(movieId: string, movieTitle: string, moviePoster: Option<string>)
    | PlaylistTarget(playlistId: string, playlistName: string)
    | ProfileTarget(targetUserId: string)

  datatype Share = Share(id: string, userId: string, target: Target, platform: string, sharedAt: int, shareUrl: string)

  /** The `shareContent` a successful share answers with; only a movie share has an image. */
  datatype ShareContent = ShareContent(title: string, description: string, image: Option<string>, url: string)

  /** `process.env.FRONTEND_URL || 'http://localhost:5173'`. */
  function Base(frontendUrl: Option<string>): (r: string)
    ensures Present(frontendUrl) ==> r == frontendUrl.value
    ensures !Present(frontendUrl) ==> r == DefaultBase
  {
    StrOr(frontendUrl, DefaultBase)
  }

  /** The link to a page of the front end: base, `/`, the page kind, `/`, the id. */
  function PageUrl(base: string, kind: string, id: string): string
  {
    base + "/" + kind + "/" + id
  }

  /** A page link decodes: for a known base, the kind and the id can be read back. Links to
      different kinds never coincide, and two links of one kind coincide only for one id. */
  lemma PageUrlDecodes(base: string, kind: string, id: string)
    ensures PageUrl(base, kind, id)[..|base| + 1 + |kind| + 1] == base + "/" + kind + "/"
    ensures PageUrl(base, kind, id)[|base| + 1 + |kind| + 1..] == id
    ensures forall id' :: PageUrl(base, kind, id') == PageUrl(base, kind, id) ==> id' == id
  {
    var prefix := base + "/" + kind + "/";
    assert PageUrl(base, kind, id) == prefix + id;
    forall id' | PageUrl(base, kind, id') == PageUrl(base, kind, id) ensures id' == id {
      assert PageUrl(base, kind, id') == prefix + id';
      assert id' == (prefix + id')[|prefix|..];
    }
  }

  /** The three page kinds start with different letters, so a link tells its kind. */
  lemma PageKindsDiffer(base: string, a: string, b: string)
    ensures PageUrl(base, "movie", a) != PageUrl(base, "playlist", b)
    ensures PageUrl(base, "movie", a) != PageUrl(base, "user", b)
    ensures PageUrl(base, "playlist", a) != PageUrl(base, "user", b)
  {
    assert PageUrl(base, "movie", a)[|base| + 1] == 'm';
    assert PageUrl(base, "playlist", b)[|base| + 1] == 'p';
    assert PageUrl(base, "user", b)[|base| + 1] == 'u';
    assert PageUrl(base, "playlist", a)[|base| + 1] == 'p';
  }

  /** The module-level `shares` array. */
  class ShareStore {
    var shares: seq<Share>

    constructor ()
      ensures shares == []
    {
      shares := [];
    }
  }

  /** `shareMovie`: 400 unless movie id, title and platform are given; else exactly one share
      with a `/movie/` link is appended. */
  method ShareMovie(store: ShareStore, userId: string, movieId: Option<string>, movieTitle: Option<string>,
                    moviePoster: Option<string>, platform: Option<string>, frontendUrl: Option<string>,
                    id: string, now: int)
    returns (resp: Response, data: Option<(Share, ShareContent)>)
    modifies store
    ensures !Present(movieId) || !Present(movieTitle) || !Present(platform) ==>
              resp == Response(400, "缺少必要参数") && data == None && store.shares == old(store.shares)
    ensures Present(movieId) && Present(movieTitle) && Present(platform) ==>
              var url := PageUrl(Base(frontendUrl), "movie", movieId.value);
              var share := Share(id, userId, MovieTarget(movieId.value, movieTitle.value, moviePoster), platform.value,
                                 now, url);
              resp == Response(200, "分享成功") &&
              data == Some((share, ShareContent(movieTitle.value, "推荐您观看：" + movieTitle.value, moviePoster, url))) &&
              store.shares == old(store.shares) + [share]
  {
    if !Present(movieId) || !Present(movieTitle) || !Present(platform) {
      return Response(400, "缺少必要参数"), None;
    }
    var url := PageUrl(Base(frontendUrl), "movie", movieId.value);
    var share := Share(id, userId, MovieTarget(movieId.value, movieTitle.value, moviePoster), platform.value, now, url);
    store.shares := store.shares + [share];
    resp := Response(200, "分享成功");
    data := Some((share, ShareContent(movieTitle.value, "推荐您观看：" + movieTitle.value, moviePoster, url)));
  }

  /** `sharePlaylist`: 400 unless playlist id, name and platform are given; else exactly one
      share with a `/playlist/` link is appended. */
  method SharePlaylist(store: ShareStore, userId: string, playlistId: Option<string>, playlistName: Option<string>,
                       platform: Option<string>, frontendUrl: Option<string>, id: string, now: int)
    returns (resp: Response, data: Option<(Share, ShareContent)>)
    modifies store
    ensures !Present(playlistId) || !Present(playlistName) || !Present(platform) ==>
              resp == Response(400, "缺少必要参数") && data == None && store.shares == old(store.shares)
    ensures Present(playlistId) && Present(playlistName) && Present(platform) ==>
              var url := PageUrl(Base(frontendUrl), "playlist", playlistId.value);
              var share := Share(id, userId, PlaylistTarget(playlistId.value, playlistName.value), platform.value,
                                 now, url);
              resp == Response(200, "分享成功") &&
              data == Some((share, ShareContent(playlistName.value, "查看我的收藏夹：" + playlistName.value, None, url))) &&
              store.shares == old(store.shares) + [share]
  {
    if !Present(playlistId) || !Present(playlistName) || !Present(platform) {
      return Response(400, "缺少必要参数"), None;
    }
    var url := PageUrl(Base(frontendUrl), "playlist", playlistId.value);
    var share := Share(id, userId, PlaylistTarget(playlistId.value, playlistName.value), platform.value, now, url);
    store.shares := store.shares + [share];
    resp := Response(200, "分享成功");
    data := Some((share, ShareContent(playlistName.value, "查看我的收藏夹：" + playlistName.value, None, url)));
  }

  const ProfileTitle: string := "查看我的资料"
  const ProfileDescription: string := "来看看我在兆西福音电影院的收藏"

  /** `shareProfile`: 400 unless the target user and platform are given; else exactly one share
      with a `/user/` link is appended. */
  method ShareProfile(store: ShareStore, userId: string, targetUserId: Option<string>, platform: Option<string>,
                      frontendUrl: Option<string>, id: string, now: int)
    returns (resp: Response, data: Option<(Share, ShareContent)>)
    modifies store
    ensures !Present(targetUserId) || !Present(platform) ==>
              resp == Response(400, "缺少必要参数") && data == None && store.shares == old(store.shares)
    ensures Present(targetUserId) && Present(platform) ==>
              var url := PageUrl(Base(frontendUrl), "user", targetUserId.value);
              var share := Share(id, userId, ProfileTarget(targetUserId.value), platform.value, now, url);
              resp == Response(200, "分享成功") &&
              data == Some((share, ShareContent(ProfileTitle, ProfileDescription, None, url))) &&
              store.shares == old(store.shares) + [share]
  {
    if !Present(targetUserId) || !Present(platform) {
      return Response(400, "缺少必要参数"), None;
    }
    var url := PageUrl(Base(frontendUrl), "user", targetUserId.value);
    var share := Share(id, userId, ProfileTarget(targetUserId.value), platform.value, now, url);
    store.shares := store.shares + [share];
    resp := Response(200, "分享成功");
    data := Some((share, ShareContent(ProfileTitle, ProfileDescription, None, url)));
  }

  function OfUser(userId: string): Share -> bool { (s: Share) => s.userId == userId }
  function SharedAt(s: Share): int { s.sharedAt }
  function OnPlatform(platform: string): Share -> bool { (s: Share) => s.platform == platform }

  /** `getShares`: one page of the caller's shares, newest first, and how many there are. */
  function GetShares(store: ShareStore, userId: string, limitQuery: Option<int>, offsetQuery: Option<int>):
    (r: (seq<Share>, nat))
    reads store
    ensures r.0 == Page(SortDesc(Filter(store.shares, OfUser(userId)), SharedAt), IntOr(offsetQuery, 0),
                        IntOr(limitQuery, DefaultLimit))
    ensures r.1 == Count(store.shares, OfUser(userId))
    ensures forall s :: s in r.0 ==> s in store.shares && s.userId == userId
    ensures SortedDesc(r.0, SharedAt)
    ensures IntOr(offsetQuery, 0) >= 0 && IntOr(limitQuery, DefaultLimit) > 0 ==>
              |r.0| <= IntOr(limitQuery, DefaultLimit) &&
              (IntOr(offsetQuery, 0) < r.1 ==> r.0 != [])
  {
    var mine := Filter(store.shares, OfUser(userId));
    SortDescCorrect(mine, SharedAt);
    var sorted := SortDesc(mine, SharedAt);
    assert |sorted| == |mine| by {
      assert |multiset(sorted)| == |multiset(mine)|;
    }
    var offset := IntOr(offsetQuery, 0);
    var limit := IntOr(limitQuery, DefaultLimit);
    var page := Page(sorted, offset, limit);
    PageWithin(sorted, offset, limit);
    PageKeepsOrder(sorted, offset, limit, SharedAt);
    assert forall s :: s in page ==> s in store.shares && s.userId == userId by {
      forall s | s in page ensures s in store.shares && s.userId == userId {
        FilterMember(store.shares, OfUser(userId), s);
      }
    }
    assert offset >= 0 && limit > 0 ==> |page| <= limit && (offset < |mine| ==> page != []) by {
      if offset >= 0 && limit > 0 {
        PageIsWindow(sorted, offset, limit);
      }
    }
    (page, |mine|)
  }

  // ---------------------------------------------------------------------------------------
  // getShareStats: the platform tally built by the forEach loop

  /** The platforms in order of first appearance among the shares. */
  function Platforms(s: seq<Share>): (r: seq<string>)
    ensures NoDuplicates(r)
    ensures forall p :: p in r <==> exists x :: x in s && x.platform == p
  {
    if s == [] then []
    else
      var rest := Platforms(s[..|s| - 1]);
      assert forall x :: x in s <==> x in s[..|s| - 1] || x == s[|s| - 1] by {
        assert s == s[..|s| - 1] + [s[|s| - 1]];
      }
      if s[|s| - 1].platform in rest then rest else rest + [s[|s| - 1].platform]
  }

  /** `platformStats[p] = (platformStats[p] || 0) + 1` for every share in turn. */
  function Tally(s: seq<Share>): map<string, nat>
  {
    if s == [] then map[]
    else
      var m := Tally(s[..|s| - 1]);
      var p := s[|s| - 1].platform;
      m[p := if p in m then m[p] + 1 else 1]
  }

  /** The sum of the counts of the given keys. */
  function SumOver(m: map<string, nat>, keys: seq<string>): nat
  {
    if keys == [] then 0
    else (if keys[0] in m then m[keys[0]] else 0) + SumOver(m, keys[1..])
  }

  /** Raising one listed key by one raises the sum by one. */
  lemma {:induction false} SumOverBump(m: map<string, nat>, keys: seq<string>, p: string, v: nat)
    requires NoDuplicates(keys)
    requires p in keys && p in m && v == m[p] + 1
    ensures SumOver(m[p := v], keys) == SumOver(m, keys) + 1
  {
    if keys[0] == p {
      assert p !in keys[1..];
      SumOverOther(m, keys[1..], p, v);
    } else {
      assert p in keys[1..];
      SumOverBump(m, keys[1..], p, v);
    }
  }

  /** Changing a key that is not listed leaves the sum alone. */
  lemma {:induction false} SumOverOther(m: map<string, nat>, keys: seq<string>, p: string, v: nat)
    requires p !in keys
    ensures SumOver(m[p := v], keys) == SumOver(m, keys)
  {
    if keys != [] {
      assert keys[0] != p;
      assert p !in keys[1..];
      SumOverOther(m, keys[1..], p, v);
    }
  }

  /** Adding the last element of a list to the sum. */
  lemma {:induction false} SumOverSnoc(m: map<string, nat>, keys: seq<string>, p: string)
    ensures SumOver(m, keys + [p]) == SumOver(m, keys) + (if p in m then m[p] else 0)
  {
    if keys == [] {
      assert [p][1..] == [];
    } else {
      assert (keys + [p])[1..] == keys[1..] + [p];
      SumOverSnoc(m, keys[1..], p);
    }
  }

  /** The tally has a key for exactly the platforms shared to. */
  lemma {:induction false} TallyKeys(s: seq<Share>)
    ensures forall p :: p in Tally(s) <==> p in Platforms(s)
  {
    if s != [] {
      TallyKeys(s[..|s| - 1]);
    }
  }

  /** The tally counts the shares of each platform. */
  lemma {:induction false} TallyCounts(s: seq<Share>)
    ensures forall p :: p in Tally(s) ==> Tally(s)[p] == Count(s, OnPlatform(p))
  {
    if s != [] {
      var init := s[..|s| - 1];
      var x := s[|s| - 1];
      assert s == init + [x];
      TallyCounts(init);
      forall q | q in Tally(s) ensures Tally(s)[q] == Count(s, OnPlatform(q)) {
        FilterAppend(init, [x], OnPlatform(q));
        if q != x.platform {
          assert q in Tally(init);
        } else if q !in Tally(init) {
          TallyKeys(init);
          FilterNone(init, OnPlatform(q));
        }
      }
    }
  }

  /** The counts of the tally add up to the number of shares. */
  lemma {:induction false} TallySum(s: seq<Share>)
    ensures SumOver(Tally(s), Platforms(s)) == |s|
  {
    if s != [] {
      var init := s[..|s| - 1];
      TallySum(init);
      TallySumStep(init, s[|s| - 1]);
      assert s == init + [s[|s| - 1]];
    }
  }

  /** One more share raises the tally's sum by one. */
  lemma {:induction false} TallySumStep(init: seq<Share>, x: Share)
    requires SumOver(Tally(init), Platforms(init)) == |init|
    ensures SumOver(Tally(init + [x]), Platforms(init + [x])) == |init| + 1
  {
    TallyKeys(init);
    SnocUnfold(init, x);
    SumOverCount(Tally(init), Platforms(init), x.platform);
  }

  /** `Tally` and `Platforms` of a sequence with one more share, one step unfolded. */
  lemma {:induction false} SnocUnfold(init: seq<Share>, x: Share)
    ensures Tally(init + [x]) == Tally(init)[x.platform := if x.platform in Tally(init) then Tally(init)[x.platform] + 1 else 1]
    ensures Platforms(init + [x]) ==
            if x.platform in Platforms(init) then Platforms(init) else Platforms(init) + [x.platform]
  {
    var s := init + [x];
    assert s[..|s| - 1] == init;
  }

  /** Counting one more occurrence of `p` raises the sum by one, whether or not `p` was listed. */
  lemma {:induction false} SumOverCount(m: map<string, nat>, keys: seq<string>, p: string)
    requires NoDuplicates(keys)
    requires p in m <==> p in keys
    ensures SumOver(m[p := if p in m then m[p] + 1 else 1], if p in keys then keys else keys + [p]) ==
            SumOver(m, keys) + 1
  {
    if p in m {
      SumOverBump(m, keys, p, m[p] + 1);
    } else {
      SumOverOther(m, keys, p, 1);
      SumOverSnoc(m[p := 1], keys, p);
    }
  }

  /** `getShareStats`: the caller's share count and the per-platform tally, built one share at a
      time as the `forEach` does. */
  method GetShareStats(store: ShareStore, userId: string) returns (totalShares: nat, platformStats: map<string, nat>)
    ensures totalShares == Count(store.shares, OfUser(userId))
    ensures platformStats == Tally(Filter(store.shares, OfUser(userId)))
    ensures forall p :: p in platformStats <==> p in Platforms(Filter(store.shares, OfUser(userId)))
    ensures SumOver(platformStats, Platforms(Filter(store.shares, OfUser(userId)))) == totalShares
    ensures forall p :: p in platformStats ==>
              platformStats[p] == Count(Filter(store.shares, OfUser(userId)), OnPlatform(p))
  {
    var userShares := Filter(store.shares, OfUser(userId));
    platformStats := map[];
    var i := 0;
    while i < |userShares|
      invariant 0 <= i <= |userShares|
      invariant platformStats == Tally(userShares[..i])
    {
      var p := userShares[i].platform;
      assert userShares[..i + 1][..i] == userShares[..i];
      platformStats := platformStats[p := (if p in platformStats then platformStats[p] else 0) + 1];
      i := i + 1;
    }
    assert userShares[..i] == userShares;
    totalShares := |userShares|;
    TallyKeys(userShares);
    TallyCounts(userShares);
    TallySum(userShares);
  }

  /** `generateShareQR`: the link for a movie, playlist or user id, and the empty string for any
      other type. */
  function QrShareUrl(kind: Option<string>, id: string, frontendUrl: Option<string>): (r: string)
    ensures kind == Some("movie") ==> r == PageUrl(Base(frontendUrl), "movie", id)
    ensures kind == Some("playlist") ==> r == PageUrl(Base(frontendUrl), "playlist", id)
    ensures kind == Some("user") ==> r == PageUrl(Base(frontendUrl), "user", id)
    ensures r == "" <==> kind !in {Some("movie"), Some("playlist"), Some("user")}
  {
    if kind == Some("movie") then PageUrl(Base(frontendUrl), "movie", id)
    else if kind == Some("playlist") then PageUrl(Base(frontendUrl), "playlist", id)
    else if kind == Some("user") then PageUrl(Base(frontendUrl), "user", id)
    else ""
  }
}
