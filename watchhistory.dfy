/** The watch history of server/models/WatchHistory.js: one record per (user, movie), kept in
    one module-level array. Ids and timestamps are parameters. A handler that assigns fields
    of a record it found and then saves it is modelled as saving the updated value: the record
    found is the stored one, so `Object.assign` replaces it where it stands. */
module WatchHistory {
  import opened Common

  const DefaultType: string := "movie"

  datatype WatchRecord = WatchRecord(id: string, userId: string, movieId: string, movieTitle: string,
                                     moviePoster: Option<string>, movieType: string, watchedAt: int,
                                     duration: int, progress: int)

  /** `new WatchHistory(data)`: type 'movie', duration 0 and progress 0 for falsy fields. */
  function NewRecord(id: string, userId: string, movieId: string, movieTitle: string, moviePoster: Option<string>,
                     movieType: Option<string>, duration: Option<int>, progress: Option<int>, now: int): (w: WatchRecord)
    ensures w.id == id && w.userId == userId && w.movieId == movieId && w.movieTitle == movieTitle
    ensures w.moviePoster == moviePoster && w.watchedAt == now
    ensures w.movieType == if Present(movieType) then movieType.value else DefaultType
    ensures w.duration == if Truthy(duration) then duration.value else 0
    ensures w.progress == if Truthy(progress) then progress.value else 0
  {
    WatchRecord(id, userId, movieId, movieTitle, moviePoster, StrOr(movieType, DefaultType), now,
                IntOr(duration, 0), IntOr(progress, 0))
  }

  /** The pair `save` upserts on. */
  function Key(w: WatchRecord): (string, string) { (w.userId, w.movieId) }
  function WatchedAt(w: WatchRecord): int { w.watchedAt }

  function OfUser(userId: string): WatchRecord -> bool { (w: WatchRecord) => w.userId == userId }
  function IsPair(userId: string, movieId: string): WatchRecord -> bool
  {
    (w: WatchRecord) => w.userId == userId && w.movieId == movieId
  }
  function NotId(id: string): WatchRecord -> bool { (w: WatchRecord) => w.id != id }
  function NotUser(userId: string): WatchRecord -> bool { (w: WatchRecord) => w.userId != userId }
  function NotPair(userId: string, movieId: string): WatchRecord -> bool
  {
    (w: WatchRecord) => !(w.userId == userId && w.movieId == movieId)
  }

  /** A delete keeps exactly the records its predicate keeps, keeps pairs unique, and a second
      identical delete changes nothing. */
  lemma DeleteFacts(records: seq<WatchRecord>, p: WatchRecord -> bool)
    ensures forall w :: w in Filter(records, p) <==> w in records && p(w)
    ensures UniqueKeys(records, Key) ==> UniqueKeys(Filter(records, p), Key)
    ensures Filter(Filter(records, p), p) == Filter(records, p)
  {
    forall w ensures w in Filter(records, p) <==> w in records && p(w) {
      FilterMember(records, p, w);
    }
    if UniqueKeys(records, Key) {
      FilterKeepsUnique(records, p, Key);
    }
    FilterIdempotent(records, p);
  }

  class WatchHistoryStore {
    var records: seq<WatchRecord>

    /** At most one record per (user, movie). */
    ghost predicate Valid()
      reads this
    {
      UniqueKeys(records, Key)
    }

    constructor ()
      ensures records == [] && Valid()
    {
      records := [];
    }

    /** `save()`: replace the record of the same (user, movie), or append. */
    method Save(w: WatchRecord)
      requires Valid()
      modifies this
      ensures Valid()
      ensures records == UpsertBy(old(records), w, Key)
      ensures FindByUserIdAndMovieId(w.userId, w.movieId) == Some(w)
    {
      UpsertByFacts(records, w, Key);
      records := UpsertBy(records, w, Key);
      assert w in records;
    }

    /** `findByUserId(userId)`: the user's records, most recently watched first. */
    function FindByUserId(userId: string): (r: seq<WatchRecord>)
      reads this
      ensures multiset(r) == multiset(Filter(records, OfUser(userId)))
      ensures forall w :: w in r <==> w in records && w.userId == userId
      ensures SortedDesc(r, WatchedAt)
    {
      var mine := Filter(records, OfUser(userId));
      SortDescCorrect(mine, WatchedAt);
      DeleteFacts(records, OfUser(userId));
      SortDesc(mine, WatchedAt)
    }

    /** `findByUserIdAndMovieId(userId, movieId)`: in a valid store, the one record of the pair. */
    function FindByUserIdAndMovieId(userId: string, movieId: string): (r: Option<WatchRecord>)
      reads this
      ensures r.Some? ==> r.value in records && Key(r.value) == (userId, movieId)
      ensures r.None? <==> forall w :: w in records ==> Key(w) != (userId, movieId)
      ensures Valid() && r.Some? ==> forall w :: w in records && Key(w) == (userId, movieId) ==> w == r.value
    {
      var r := Find(records, IsPair(userId, movieId));
      assert Valid() && r.Some? ==> forall w :: w in records && Key(w) == (userId, movieId) ==> w == r.value by {
        if Valid() && r.Some? {
          forall w | w in records && Key(w) == (userId, movieId) ensures w == r.value {
            var a :| 0 <= a < |records| && records[a] == w;
            var b :| 0 <= b < |records| && records[b] == r.value;
            assert a == b;
          }
        }
      }
      r
    }

    /** `delete(id)`. */
    method Delete(id: string)
      requires Valid()
      modifies this
      ensures Valid()
      ensures records == Filter(old(records), NotId(id))
    {
      DeleteFacts(records, NotId(id));
      records := Filter(records, NotId(id));
    }

    /** `deleteByUserId(userId)`. */
    method DeleteByUserId(userId: string)
      requires Valid()
      modifies this
      ensures Valid()
      ensures records == Filter(old(records), NotUser(userId))
      ensures forall w :: w in records <==> w in old(records) && w.userId != userId
    {
      DeleteFacts(records, NotUser(userId));
      records := Filter(records, NotUser(userId));
    }

    /** `deleteByUserIdAndMovieId(userId, movieId)`. */
    method DeleteByUserIdAndMovieId(userId: string, movieId: string)
      requires Valid()
      modifies this
      ensures Valid()
      ensures records == Filter(old(records), NotPair(userId, movieId))
      ensures FindByUserIdAndMovieId(userId, movieId) == None
    {
      DeleteFacts(records, NotPair(userId, movieId));
      records := Filter(records, NotPair(userId, movieId));
    }
  }
}
