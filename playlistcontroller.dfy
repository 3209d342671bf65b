/** The handlers of server/controllers/playlistController.js. The caller id is a parameter;
    every per-playlist handler only sees the caller's own playlists. */
module PlaylistController {
  import opened Common
  import opened Users
  import opened Playlists

  const MaxNameLength: int := 50

  // ---------------------------------------------------------------------------------------
  // Creating

  /** `createPlaylist`'s checks as written: blank name, over-long name (untrimmed), unknown
      user, then a name the user already has, compared without trimming. */
  function CreateCheckAsWritten(name: Option<string>, userKnown: bool, names: seq<string>): Option<Response>
  {
    if !Present(name) || Trim(name.value) == "" then Some(Response(400, "收藏夹名称不能为空"))
    else if |name.value| > MaxNameLength then Some(Response(400, "收藏夹名称不能超过50个字符"))
    else if !userKnown then Some(Response(404, "用户不存在"))
    else if name.value in names then Some(Response(400, "该收藏夹名称已存在"))
    else None
  }

  /** The as-written check lets " a" through for a user who already has a playlist "a", and
      the playlist is then stored as "a": the user ends up with the name twice. */
  lemma CreateCheckAsWrittenAdmitsDuplicate()
    ensures CreateCheckAsWritten(Some(" a"), true, ["a"]) == None
    ensures Trim(" a") == "a"
  {
    assert LeadingSpaces(" a"[1..]) == 0;
    assert LeadingSpaces(" a") == 1;
    assert TrailingStart("a") == 1;
  }

  /** `createPlaylist`'s checks with the duplicate test on the name that is stored. */
  function CreateCheck(name: Option<string>, userKnown: bool, names: seq<string>): Option<Response>
  {
    if !Present(name) || Trim(name.value) == "" then Some(Response(400, "收藏夹名称不能为空"))
    else if |name.value| > MaxNameLength then Some(Response(400, "收藏夹名称不能超过50个字符"))
    else if !userKnown then Some(Response(404, "用户不存在"))
    else if Trim(name.value) in names then Some(Response(400, "该收藏夹名称已存在"))
    else None
  }

  /** An accepted name is stored non-blank, trimmed, within 50 characters and different from
      every name the user already has; the refusals keep their order. */
  lemma CreateCheckFacts(name: Option<string>, userKnown: bool, names: seq<string>)
    ensures CreateCheck(name, userKnown, names).None? ==>
              var stored := Trim(name.value);
              stored != "" && |stored| <= MaxNameLength && stored !in names && userKnown &&
              !IsSpace(stored[0]) && !IsSpace(stored[|stored| - 1])
    ensures !Present(name) ==> CreateCheck(name, userKnown, names) == Some(Response(400, "收藏夹名称不能为空"))
    ensures Present(name) && Trim(name.value) != "" && |name.value| <= MaxNameLength && !userKnown ==>
              CreateCheck(name, userKnown, names) == Some(Response(404, "用户不存在"))
  {
  }

  /** The as-written checks: an accepted name is non-blank once trimmed, within 50 characters
      before trimming, from a known user, and differs as sent from every name the user has;
      the refusals keep the source's order. */
  lemma CreateCheckAsWrittenFacts(name: Option<string>, userKnown: bool, names: seq<string>)
    ensures CreateCheckAsWritten(name, userKnown, names).None? <==>
              Present(name) && Trim(name.value) != "" && |name.value| <= MaxNameLength && userKnown &&
              name.value !in names
    ensures CreateCheckAsWritten(name, userKnown, names).None? ==>
              var stored := Trim(name.value);
              stored != "" && |stored| <= MaxNameLength && !IsSpace(stored[0]) && !IsSpace(stored[|stored| - 1])
    ensures !Present(name) ==> CreateCheckAsWritten(name, userKnown, names) == Some(Response(400, "收藏夹名称不能为空"))
    ensures Present(name) && Trim(name.value) != "" && |name.value| <= MaxNameLength && !userKnown ==>
              CreateCheckAsWritten(name, userKnown, names) == Some(Response(404, "用户不存在"))
  {
  }

  /** `createPlaylist`: the checks as written, then the trimmed name is stored. */
  method CreatePlaylist(users: UserStore, store: PlaylistStore, callerId: string, name: Option<string>,
                        description: Option<string>, icon: Option<string>, isPublic: Option<bool>, id: string, now: int)
    returns (resp: Response, created: Option<Playlist>)
    requires store.Valid()
    modifies store, store.playlists
    ensures store.Valid()
    ensures var check := CreateCheckAsWritten(name, users.FindById(callerId).Some?, old(NamesOf(store.playlists, callerId)));
            (check.Some? ==> resp == check.value && created == None && store.Unchanged()) &&
            (check.None? ==>
               resp == Response(201, "收藏夹创建成功") && created.Some? && fresh(created.value) &&
               created.value.Snapshot() == PlaylistData(id, callerId, Trim(name.value), StrOr(description, ""),
                                                        StrOr(icon, DefaultIcon), isPublic == Some(true), [], now, now) &&
               Saved(store, created.value))
  {
    var check := CreateCheckAsWritten(name, users.FindById(callerId).Some?, NamesOf(store.playlists, callerId));
    if check.Some? {
      return check.value, None;
    }
    var p := new Playlist(id, callerId, Trim(name.value), description, icon, isPublic, now);
    store.Save(p);
    resp, created := Response(201, "收藏夹创建成功"), Some(p);
  }

  // ---------------------------------------------------------------------------------------
  // Reading

  /** `getUserPlaylists`: 404 for an unknown user, else the user's playlists and their count. */
  function UserPlaylists(users: UserStore, store: PlaylistStore, callerId: string): (r: (Response, seq<Playlist>, nat))
    reads users, store, store.playlists
    ensures r.0.status == 200 ==> r.2 == |r.1| == store.CountByUserId(callerId)
    ensures r.0.status == 200 <==> users.FindById(callerId).Some?
    ensures r.0.status == 200 ==> r.1 == store.FindByUserId(callerId)
    ensures forall q :: q in r.1 ==> q in store.playlists && q.userId == callerId
  {
    if users.FindById(callerId).None? then (Response(404, "用户不存在"), [], 0)
    else
      var mine := store.FindByUserId(callerId);
      (Response(200, "获取收藏夹列表成功"), mine, |mine|)
  }

  /** The refusal shared by the handlers that take only a playlist id: 400 without an id, 404
      when no playlist has that id and the caller as owner. */
  function OwnedCheck(store: PlaylistStore, playlistId: Option<string>, callerId: string): Option<Response>
    reads store, store.playlists
  {
    if !Present(playlistId) then Some(Response(400, "收藏夹ID不能为空"))
    else if store.FindOwned(playlistId.value, callerId).None? then Some(Response(404, "收藏夹不存在"))
    else None
  }

  /** The refusal shared by the handlers that take a playlist id and a movie id. */
  function OwnedMovieCheck(store: PlaylistStore, playlistId: Option<string>, movieId: Option<string>,
                           callerId: string): Option<Response>
    reads store, store.playlists
  {
    if !Present(playlistId) || !Present(movieId) then Some(Response(400, "收藏夹ID和电影ID不能为空"))
    else if store.FindOwned(playlistId.value, callerId).None? then Some(Response(404, "收藏夹不存在"))
    else None
  }

  /** A playlist that exists but belongs to someone else answers 404 exactly like a missing one;
      a handler goes ahead only on a playlist with that id and the caller as owner. */
  lemma OwnershipGuard(store: PlaylistStore, playlistId: Option<string>, movieId: Option<string>, callerId: string)
    requires Present(playlistId)
    ensures OwnedCheck(store, playlistId, callerId) == Some(Response(404, "收藏夹不存在")) <==>
            forall q :: q in store.playlists ==> q.id != playlistId.value || q.userId != callerId
    ensures Present(movieId) ==> (OwnedMovieCheck(store, playlistId, movieId, callerId) == Some(Response(404, "收藏夹不存在")) <==>
            forall q :: q in store.playlists ==> q.id != playlistId.value || q.userId != callerId)
    ensures OwnedCheck(store, playlistId, callerId).None? ==>
              exists q :: q in store.playlists && q.id == playlistId.value && q.userId == callerId
  {
    if OwnedCheck(store, playlistId, callerId).None? {
      assert store.FindOwned(playlistId.value, callerId).value in store.playlists;
    }
  }

  /** `getPlaylistDetail`. */
  function PlaylistDetail(store: PlaylistStore, playlistId: Option<string>, callerId: string): (r: (Response, Option<PlaylistData>))
    reads store, store.playlists
    ensures r.1.Some? <==> OwnedCheck(store, playlistId, callerId).None?
    ensures r.1.Some? ==> r.0.status == 200 && r.1.value.id == playlistId.value && r.1.value.userId == callerId
  {
    var check := OwnedCheck(store, playlistId, callerId);
    if check.Some? then (check.value, None)
    else (Response(200, "获取收藏夹详情成功"), Some(store.FindOwned(playlistId.value, callerId).value.Snapshot()))
  }

  // ---------------------------------------------------------------------------------------
  // Updating

  /** `updatePlaylist`'s field merge: a non-blank name is trimmed and taken, a defined
      description and `isPublic` are taken, a truthy icon is taken, and `updatedAt` moves. */
  function Merge(d: PlaylistData, name: Option<string>, description: Option<string>, icon: Option<string>,
                 isPublic: Option<bool>, now: int): PlaylistData
  {
    d.(name := if Present(name) && Trim(name.value) != "" then Trim(name.value) else d.name,
       description := if description.Some? then description.value else d.description,
       icon := StrOr(icon, d.icon),
       isPublic := if isPublic.Some? then isPublic.value else d.isPublic,
       updatedAt := now)
  }

  /** The merge never touches the id, owner, movies or creation time, and leaves the name alone
      for a missing or blank one; merging the same request twice is merging it once. */
  lemma MergeFacts(d: PlaylistData, name: Option<string>, description: Option<string>, icon: Option<string>,
                   isPublic: Option<bool>, now: int)
    ensures var m := Merge(d, name, description, icon, isPublic, now);
            m.id == d.id && m.userId == d.userId && m.movies == d.movies && m.createdAt == d.createdAt &&
            ((!Present(name) || Trim(name.value) == "") ==> m.name == d.name) &&
            (description.None? ==> m.description == d.description) &&
            (!Present(icon) ==> m.icon == d.icon) &&
            (isPublic.None? ==> m.isPublic == d.isPublic) &&
            Merge(m, name, description, icon, isPublic, now) == m
  {
  }

  /** `updatePlaylist`: 400/404 from the ownership check, 400 for a non-blank name over 50
      characters (nothing changes), else the merge on the caller's playlist. */
  method UpdatePlaylist(store: PlaylistStore, callerId: string, playlistId: Option<string>, name: Option<string>,
                        description: Option<string>, icon: Option<string>, isPublic: Option<bool>, now: int)
    returns (resp: Response)
    requires store.Valid()
    modifies store, store.playlists
    ensures store.Valid()
    ensures var check := old(OwnedCheck(store, playlistId, callerId));
            var tooLong := Present(name) && Trim(name.value) != "" && |name.value| > MaxNameLength;
            (check.Some? ==> resp == check.value && store.Unchanged()) &&
            (check.None? && tooLong ==> resp == Response(400, "收藏夹名称不能超过50个字符") && store.Unchanged()) &&
            (check.None? && !tooLong ==>
               var p := old(store.FindOwned(playlistId.value, callerId)).value;
               resp == Response(200, "收藏夹更新成功") && store.OthersUnchanged(p) &&
               p.Snapshot() == Merge(old(p.Snapshot()), name, description, icon, isPublic, now))
  {
    var check := OwnedCheck(store, playlistId, callerId);
    if check.Some? {
      return check.value;
    }
    var p := store.FindOwned(playlistId.value, callerId).value;
    if Present(name) && Trim(name.value) != "" && |name.value| > MaxNameLength {
      return Response(400, "收藏夹名称不能超过50个字符");
    }
    MergeInto(p, name, description, icon, isPublic, now);
    store.Save(p);
    resp := Response(200, "收藏夹更新成功");
  }

  /** The field assignments of `updatePlaylist`, on the found playlist. */
  method MergeInto(p: Playlist, name: Option<string>, description: Option<string>, icon: Option<string>,
                   isPublic: Option<bool>, now: int)
    modifies p
    ensures p.Snapshot() == Merge(old(p.Snapshot()), name, description, icon, isPublic, now)
  {
    ghost var target := Merge(p.Snapshot(), name, description, icon, isPublic, now);
    if Present(name) && Trim(name.value) != "" {
      p.name := Trim(name.value);
    }
    assert p.name == target.name;
    if description.Some? {
      p.description := description.value;
    }
    assert p.description == target.description;
    if Present(icon) {
      p.icon := icon.value;
    }
    assert p.icon == target.icon;
    if isPublic.Some? {
      p.isPublic := isPublic.value;
    }
    p.updatedAt := now;
  }

  // ---------------------------------------------------------------------------------------
  // Deleting, movies, clearing

  /** `deletePlaylist`: only the caller's own playlist is dropped, and only it. */
  method DeletePlaylist(store: PlaylistStore, callerId: string, playlistId: Option<string>) returns (resp: Response)
    requires store.Valid()
    modifies store
    ensures store.Valid()
    ensures var check := old(OwnedCheck(store, playlistId, callerId));
            (check.Some? ==> resp == check.value && store.playlists == old(store.playlists)) &&
            (check.None? ==> resp == Response(200, "收藏夹删除成功") &&
                             store.playlists == WithoutId(old(store.playlists), playlistId.value))
  {
    var check := OwnedCheck(store, playlistId, callerId);
    if check.Some? {
      return check.value;
    }
    store.Delete(playlistId.value);
    resp := Response(200, "收藏夹删除成功");
  }

  /** `addMovieToPlaylist`: 400 when the movie is already there, else appended. */
  method AddMovieToPlaylist(store: PlaylistStore, callerId: string, playlistId: Option<string>,
                            movieId: Option<string>, now: int)
    returns (resp: Response)
    requires store.Valid()
    modifies store, store.playlists
    ensures store.Valid()
    ensures var check := old(OwnedMovieCheck(store, playlistId, movieId, callerId));
            (check.Some? ==> resp == check.value && store.Unchanged()) &&
            (check.None? ==>
               var p := old(store.FindOwned(playlistId.value, callerId)).value;
               store.OthersUnchanged(p) &&
               (movieId.value in old(p.movies) ==>
                  resp == Response(400, "该电影已在收藏夹中") && store.Unchanged()) &&
               (movieId.value !in old(p.movies) ==>
                  resp == Response(200, "电影添加成功") &&
                  p.Snapshot() == old(p.Snapshot()).(movies := old(p.movies) + [movieId.value], updatedAt := now)))
  {
    var check := OwnedMovieCheck(store, playlistId, movieId, callerId);
    if check.Some? {
      return check.value;
    }
    var p := store.FindOwned(playlistId.value, callerId).value;
    if p.HasMovie(movieId.value) {
      return Response(400, "该电影已在收藏夹中");
    }
    var added := p.AddMovie(movieId.value, now, store);
    resp := Response(200, "电影添加成功");
  }

  /** `removeMovieFromPlaylist`: success whether or not the movie was there. */
  method RemoveMovieFromPlaylist(store: PlaylistStore, callerId: string, playlistId: Option<string>,
                                 movieId: Option<string>, now: int)
    returns (resp: Response)
    requires store.Valid()
    modifies store, store.playlists
    ensures store.Valid()
    ensures var check := old(OwnedMovieCheck(store, playlistId, movieId, callerId));
            (check.Some? ==> resp == check.value && store.Unchanged()) &&
            (check.None? ==>
               var p := old(store.FindOwned(playlistId.value, callerId)).value;
               resp == Response(200, "电影移除成功") && store.OthersUnchanged(p) &&
               (movieId.value in old(p.movies) ==>
                  p.Snapshot() == old(p.Snapshot()).(movies := RemoveFirst(old(p.movies), movieId.value), updatedAt := now)) &&
               (movieId.value !in old(p.movies) ==> p.Snapshot() == old(p.Snapshot())))
  {
    var check := OwnedMovieCheck(store, playlistId, movieId, callerId);
    if check.Some? {
      return check.value;
    }
    var p := store.FindOwned(playlistId.value, callerId).value;
    var removed := p.RemoveMovie(movieId.value, now, store);
    resp := Response(200, "电影移除成功");
  }

  /** `checkMovieInPlaylist`: the refusal, or whether the caller's playlist holds the movie. */
  function CheckMovieInPlaylist(store: PlaylistStore, callerId: string, playlistId: Option<string>,
                                movieId: Option<string>): (r: Option<bool>)
    reads store, store.playlists
    ensures r.Some? <==> OwnedMovieCheck(store, playlistId, movieId, callerId).None?
    ensures r.Some? ==> (r.value <==> exists q :: q in store.playlists && q.id == playlistId.value &&
                                                   q.userId == callerId && movieId.value in q.movies &&
                                                   q == store.FindOwned(playlistId.value, callerId).value)
  {
    if OwnedMovieCheck(store, playlistId, movieId, callerId).Some? then None
    else Some(store.FindOwned(playlistId.value, callerId).value.HasMovie(movieId.value))
  }

  /** The message `clearPlaylist` answers with. */
  function ClearedMessage(count: nat): string
  {
    "已清空 " + Decimal(count) + " 个电影"
  }

  /** `clearPlaylist`: empty the caller's playlist and report how many movies it held. */
  method ClearPlaylist(store: PlaylistStore, callerId: string, playlistId: Option<string>, now: int)
    returns (resp: Response)
    requires store.Valid()
    modifies store, store.playlists
    ensures store.Valid()
    ensures var check := old(OwnedCheck(store, playlistId, callerId));
            (check.Some? ==> resp == check.value && store.Unchanged()) &&
            (check.None? ==>
               var p := old(store.FindOwned(playlistId.value, callerId)).value;
               resp == Response(200, ClearedMessage(|old(p.movies)|)) && store.OthersUnchanged(p) &&
               p.Snapshot() == old(p.Snapshot()).(movies := [], updatedAt := now))
  {
    var check := OwnedCheck(store, playlistId, callerId);
    if check.Some? {
      return check.value;
    }
    var p := store.FindOwned(playlistId.value, callerId).value;
    var count := |p.movies|;
    p.movies := [];
    p.updatedAt := now;
    store.Save(p);
    resp := Response(200, ClearedMessage(count));
  }
}
