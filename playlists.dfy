/** The playlists of server/models/Playlist.js: objects whose movie lists are updated in place,
    kept in one module-level array. Ids and timestamps are parameters. */
module Playlists {
  import opened Common

  const DefaultIcon: string := "📁"

  /** Every field of a playlist at one moment. */
  datatype PlaylistData = PlaylistData(id: string, userId: string, name: string, description: string, icon: string,
                                       isPublic: bool, movies: seq<string>, createdAt: int, updatedAt: int)

  class Playlist {
    const id: string
    var userId: string
    var name: string
    var description: string
    var icon: string
    var isPublic: bool
    var movies: seq<string>
    var createdAt: int
    var updatedAt: int

    /** `new Playlist(data)`: no movies; description '', icon '📁' and private unless given. */
    constructor (id: string, userId: string, name: string, description: Option<string>, icon: Option<string>,
                 isPublic: Option<bool>, now: int)
      ensures Snapshot() == PlaylistData(id, userId, name, StrOr(description, ""), StrOr(icon, DefaultIcon),
                                         isPublic == Some(true), [], now, now)
    {
      this.id := id;
      this.userId := userId;
      this.name := name;
      this.description := StrOr(description, "");
      this.icon := StrOr(icon, DefaultIcon);
      this.isPublic := isPublic == Some(true);
      this.movies := [];
      this.createdAt := now;
      this.updatedAt := now;
    }

    function Snapshot(): PlaylistData
      reads this
    {
      PlaylistData(id, userId, name, description, icon, isPublic, movies, createdAt, updatedAt)
    }

    /** `hasMovie(movieId)`: the movie is listed exactly when `removeMovie` would find and splice
        it out, shortening the list by one. */
    function HasMovie(movieId: string): (r: bool)
      reads this
      ensures r <==> IndexOf(movies, movieId) >= 0
      ensures r <==> |RemoveFirst(movies, movieId)| == |movies| - 1
      ensures !r <==> RemoveFirst(movies, movieId) == movies
    {
      movieId in movies
    }

    /** `getMovieCount()`. */
    function MovieCount(): (n: nat)
      reads this
      ensures n == |movies|
    {
      |movies|
    }

    /** `Object.assign(this, other)`: take over every field. */
    method Assign(other: Playlist)
      requires other.id == id
      modifies this
      ensures Snapshot() == old(other.Snapshot())
    {
      userId, name, description, icon := other.userId, other.name, other.description, other.icon;
      isPublic, movies, createdAt, updatedAt := other.isPublic, other.movies, other.createdAt, other.updatedAt;
    }

    /** `addMovie(movieId)`: append an absent movie, touch `updatedAt` and save; false, with
        nothing changed, when the movie is already there. */
    method AddMovie(movieId: string, now: int, store: PlaylistStore) returns (added: bool)
      requires store.Valid()
      modifies this, store, store.playlists
      ensures added <==> movieId !in old(movies)
      ensures Snapshot() == if added then old(Snapshot()).(movies := old(movies) + [movieId], updatedAt := now)
                            else old(Snapshot())
      ensures added ==> Saved(store, this)
      ensures old(this in store.playlists) ==> store.OthersUnchanged(this)
      ensures !added ==> unchanged(store) && store.Unchanged()
      ensures store.Valid()
    {
      if movieId in movies {
        return false;
      }
      SaveMovies(movies + [movieId], now, store);
      added := true;
    }

    /** `removeMovie(movieId)`: splice out the first occurrence, touch `updatedAt` and save;
        false, with nothing changed, when the movie is absent. */
    method RemoveMovie(movieId: string, now: int, store: PlaylistStore) returns (removed: bool)
      requires store.Valid()
      modifies this, store, store.playlists
      ensures removed <==> movieId in old(movies)
      ensures removed ==> Snapshot() == old(Snapshot()).(movies := RemoveFirst(old(movies), movieId), updatedAt := now)
      ensures !removed ==> Snapshot() == old(Snapshot())
      ensures removed ==> Saved(store, this)
      ensures old(this in store.playlists) ==> store.OthersUnchanged(this)
      ensures !removed ==> unchanged(store) && store.Unchanged()
      ensures store.Valid()
    {
      var i := IndexOf(movies, movieId);
      if i <= -1 {
        return false;
      }
      SaveMovies(RemoveFirst(movies, movieId), now, store);
      removed := true;
    }

    /** The common tail of `addMovie` and `removeMovie`: the new movie list, `updatedAt` and
        `save()`. */
    method SaveMovies(newMovies: seq<string>, now: int, store: PlaylistStore)
      requires store.Valid()
      modifies this, store, store.playlists
      ensures Snapshot() == old(Snapshot()).(movies := newMovies, updatedAt := now)
      ensures Saved(store, this)
      ensures old(this in store.playlists) ==> store.OthersUnchanged(this)
      ensures store.Valid()
    {
      movies := newMovies;
      updatedAt := now;
      store.Save(this);
    }
  }

  /** `movies.splice(movies.indexOf(movieId), 1)` when the movie is there: the list without its
      first occurrence. */
  function RemoveFirst(movies: seq<string>, movieId: string): seq<string>
  {
    var i := IndexOf(movies, movieId);
    if i > -1 then movies[..i] + movies[i + 1..] else movies
  }

  /** What `save()` leaves behind: a playlist new to the store is appended, and otherwise the
      stored playlist with its id holds its fields (and the array itself is unchanged); no other
      playlist changes. */
  twostate predicate Saved(store: PlaylistStore, new p: Playlist)
    reads store, store.playlists, p
  {
    var id := p.id;
    var i := old(IndexById(store.playlists, id));
    (i < 0 ==> store.playlists == old(store.playlists) + [p]) &&
    (i >= 0 ==> store.playlists == old(store.playlists) && store.playlists[i].Snapshot() == p.Snapshot()) &&
    (forall q :: q in store.playlists && q in old(store.playlists) && q.id != id ==> q.Snapshot() == old(q.Snapshot()))
  }

  /** The position of the first playlist with this id, -1 when there is none. */
  function IndexById(ps: seq<Playlist>, id: string): (r: int)
    ensures -1 <= r < |ps|
    ensures r >= 0 ==> ps[r].id == id && forall j :: 0 <= j < r ==> ps[j].id != id
    ensures r < 0 <==> forall j :: 0 <= j < |ps| ==> ps[j].id != id
  {
    if ps == [] then -1
    else if ps[0].id == id then 0
    else
      var k := IndexById(ps[1..], id);
      if k < 0 then -1 else k + 1
  }

  function PlaylistId(q: Playlist): string { q.id }
  function NotId(id: string): Playlist -> bool { (q: Playlist) => q.id != id }

  /** `playlists.filter(p => p.id !== id)`. */
  function WithoutId(ps: seq<Playlist>, id: string): seq<Playlist>
  {
    Filter(ps, NotId(id))
  }

  /** The names of a user's playlists, in store order. */
  function NamesOf(ps: seq<Playlist>, userId: string): (r: seq<string>)
    reads ps
    ensures forall n :: n in r <==> exists q :: q in ps && q.userId == userId && q.name == n
  {
    if ps == [] then []
    else (if ps[0].userId == userId then [ps[0].name] else []) + NamesOf(ps[1..], userId)
  }

  class PlaylistStore {
    var playlists: seq<Playlist>

    /** Playlists are stored once each, under distinct ids (`save` only appends an id it does
        not find). */
    predicate Valid()
      reads this, playlists
    {
      forall i, j :: 0 <= i < j < |playlists| ==> playlists[i].id != playlists[j].id
    }

    /** The array is the same and no stored playlist but `p` changed. */
    twostate predicate OthersUnchanged(p: Playlist)
      reads this, playlists
    {
      playlists == old(playlists) && forall q :: q in playlists && q != p ==> q.Snapshot() == old(q.Snapshot())
    }

    /** No stored playlist changed. */
    twostate predicate Unchanged()
      reads this, playlists
    {
      playlists == old(playlists) && forall q :: q in playlists ==> q.Snapshot() == old(q.Snapshot())
    }

    constructor ()
      ensures playlists == [] && Valid()
    {
      playlists := [];
    }

    /** `save()`: overwrite the stored playlist with the same id, or append this one. */
    method Save(p: Playlist)
      requires Valid()
      modifies this, playlists
      ensures Saved(this, p)
      ensures Valid()
      ensures p.Snapshot() == old(p.Snapshot())
      ensures old(p in playlists) ==> Unchanged()
    {
      if p in playlists {
        StoredIndex(this, p);
      }
      var i := IndexById(playlists, p.id);
      if i < 0 {
        playlists := playlists + [p];
      } else {
        playlists[i].Assign(p);
      }
    }

    /** `findById(id)`. */
    function FindById(id: string): (r: Option<Playlist>)
      reads this, playlists
      ensures r.Some? <==> exists q :: q in playlists && q.id == id
      ensures r.Some? ==> r.value in playlists && r.value.id == id
    {
      var i := IndexById(playlists, id);
      if i < 0 then None else Some(playlists[i])
    }

    /** `findByIdAndUserId(id, userId)`: a playlist only when both the id and the owner match. */
    function FindOwned(id: string, userId: string): (r: Option<Playlist>)
      reads this, playlists
      ensures r.Some? ==> r.value in playlists && r.value.id == id && r.value.userId == userId
      ensures r.None? <==> forall q :: q in playlists ==> q.id != id || q.userId != userId
    {
      OwnedIn(playlists, id, userId)
    }

    /** `findByUserId(userId)`. */
    function FindByUserId(userId: string): (r: seq<Playlist>)
      reads this, playlists
      ensures forall q :: q in r ==> q in playlists && q.userId == userId
      ensures forall q :: q in playlists && q.userId == userId ==> q in r
    {
      OwnedBy(playlists, userId)
    }

    /** `existsByNameAndUserId(name, userId)`: one of the user's playlists has exactly that name. */
    predicate NameTaken(name: string, userId: string)
      reads this, playlists
      ensures NameTaken(name, userId) <==> exists q :: q in playlists && q.userId == userId && q.name == name
    {
      name in NamesOf(playlists, userId)
    }

    /** `countByUserId(userId)`. */
    function CountByUserId(userId: string): (n: nat)
      reads this, playlists
      ensures n == |FindByUserId(userId)|
    {
      |OwnedBy(playlists, userId)|
    }

    /** `delete(id)`: drop that id and nothing else. */
    method Delete(id: string)
      requires Valid()
      modifies this
      ensures playlists == WithoutId(old(playlists), id)
      ensures forall q :: q in playlists ==> q in old(playlists) && q.id != id
      ensures forall q :: q in old(playlists) && q.id != id ==> q in playlists
      ensures Valid()
    {
      WithoutIdFacts(playlists, id);
      playlists := WithoutId(playlists, id);
    }
  }

  /** The first playlist with this id and owner. */
  function OwnedIn(ps: seq<Playlist>, id: string, userId: string): (r: Option<Playlist>)
    reads ps
    ensures r.Some? ==> r.value in ps && r.value.id == id && r.value.userId == userId
    ensures r.None? <==> forall q :: q in ps ==> q.id != id || q.userId != userId
  {
    if ps == [] then None
    else if ps[0].id == id && ps[0].userId == userId then Some(ps[0])
    else OwnedIn(ps[1..], id, userId)
  }

  /** A user's playlists in store order. */
  function OwnedBy(ps: seq<Playlist>, userId: string): (r: seq<Playlist>)
    reads ps
    ensures forall q :: q in r ==> q in ps && q.userId == userId
    ensures forall q :: q in ps && q.userId == userId ==> q in r
  {
    if ps == [] then []
    else (if ps[0].userId == userId then [ps[0]] else []) + OwnedBy(ps[1..], userId)
  }

  /** The selection holds each of the user's playlists as often as the store does, and no
      other. */
  lemma {:induction false} OwnedByCounts(ps: seq<Playlist>, userId: string)
    ensures forall q :: q in ps ==> multiset(OwnedBy(ps, userId))[q] == if q.userId == userId then multiset(ps)[q] else 0
  {
    if ps != [] {
      OwnedByCounts(ps[1..], userId);
      assert ps == [ps[0]] + ps[1..];
      forall q | q in ps
        ensures multiset(OwnedBy(ps, userId))[q] == if q.userId == userId then multiset(ps)[q] else 0
      {
        if q !in ps[1..] {
          assert q !in OwnedBy(ps[1..], userId);
        }
      }
    }
  }

  /** The selection keeps store order: the playlists of a concatenation are those of the first
      part followed by those of the second. */
  lemma {:induction false} OwnedByAppend(a: seq<Playlist>, b: seq<Playlist>, userId: string)
    ensures OwnedBy(a + b, userId) == OwnedBy(a, userId) + OwnedBy(b, userId)
  {
    if a == [] {
      assert a + b == b;
    } else {
      var head := if a[0].userId == userId then [a[0]] else [];
      assert (a + b)[0] == a[0] && (a + b)[1..] == a[1..] + b;
      assert OwnedBy(a + b, userId) == head + OwnedBy(a[1..] + b, userId);
      assert OwnedBy(a, userId) == head + OwnedBy(a[1..], userId);
      OwnedByAppend(a[1..], b, userId);
      assert head + (OwnedBy(a[1..], userId) + OwnedBy(b, userId)) ==
             (head + OwnedBy(a[1..], userId)) + OwnedBy(b, userId);
    }
  }

  /** In a valid store, looking up a stored playlist's id finds that very playlist. */
  lemma StoredIndex(store: PlaylistStore, p: Playlist)
    requires store.Valid() && p in store.playlists
    ensures 0 <= IndexById(store.playlists, p.id) && store.playlists[IndexById(store.playlists, p.id)] == p
  {
    var k :| 0 <= k < |store.playlists| && store.playlists[k] == p;
  }

  /** Dropping an id keeps exactly the other playlists, and keeps ids distinct. */
  lemma WithoutIdFacts(ps: seq<Playlist>, id: string)
    ensures forall q :: q in WithoutId(ps, id) <==> q in ps && q.id != id
    ensures (forall i, j :: 0 <= i < j < |ps| ==> ps[i].id != ps[j].id) ==>
            forall i, j :: 0 <= i < j < |WithoutId(ps, id)| ==> WithoutId(ps, id)[i].id != WithoutId(ps, id)[j].id
  {
    forall q ensures q in WithoutId(ps, id) <==> q in ps && q.id != id {
      FilterMember(ps, NotId(id), q);
    }
    if forall i, j :: 0 <= i < j < |ps| ==> ps[i].id != ps[j].id {
      assert UniqueKeys(ps, PlaylistId);
      FilterKeepsUnique(ps, NotId(id), PlaylistId);
    }
  }

  /** On a duplicate-free movie list, adding keeps it duplicate-free and makes `hasMovie` true. */
  lemma AddKeepsDistinct(movies: seq<string>, movieId: string)
    ensures var after := if movieId in movies then movies else movies + [movieId];
            movieId in after && (NoDuplicates(movies) ==> NoDuplicates(after))
  {
  }

  /** Removing takes out the movie and keeps every other one; on a duplicate-free list the
      result is duplicate-free and no longer has the movie. */
  lemma RemoveKeepsDistinct(movies: seq<string>, movieId: string)
    ensures var after := RemoveFirst(movies, movieId);
            (NoDuplicates(movies) ==> NoDuplicates(after) && movieId !in after) &&
            (forall m :: m in after ==> m in movies) &&
            (forall m :: m in movies && m != movieId ==> m in after)
  {
    var i := IndexOf(movies, movieId);
    if i > -1 {
      SpliceFacts(movies, i);
    }
  }

  /** Removing a movie right after adding it restores the list. */
  lemma RemoveUndoesAdd(movies: seq<string>, movieId: string)
    requires movieId !in movies
    ensures RemoveFirst(movies + [movieId], movieId) == movies
  {
    var after := movies + [movieId];
    assert after[..|movies|] == movies;
  }
}
