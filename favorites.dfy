/** The favorites of server/models/Favorite.js: one record per favorited movie, kept in one
    module-level array. Ids and timestamps are parameters. */
module Favorites {
  import opened Common

  datatype Favorite = Favorite(id: string, userId: string, movieId: string, movieTitle: string,
                               moviePoster: Option<string>, movieRating: int, movieCategory: string,
                               movieYear: int, movieType: string, createdAt: int)

  function FavoriteId(f: Favorite): string { f.id }
  /** The (user, movie) pair a favorite records. */
  function Pair(f: Favorite): (string, string) { (f.userId, f.movieId) }

  function OfUser(userId: string): Favorite -> bool { (f: Favorite) => f.userId == userId }
  function NotId(id: string): Favorite -> bool { (f: Favorite) => f.id != id }
  function NotUser(userId: string): Favorite -> bool { (f: Favorite) => f.userId != userId }
  function NotPair(userId: string, movieId: string): Favorite -> bool
  {
    (f: Favorite) => !(f.userId == userId && f.movieId == movieId)
  }

  /** Some record has that user and that movie. */
  predicate Favorited(favorites: seq<Favorite>, userId: string, movieId: string)
  {
    exists f :: f in favorites && f.userId == userId && f.movieId == movieId
  }

  /** Dropping a (user, movie) pair removes all its records and nothing else, and doing it again
      changes nothing. */
  lemma DeletePairFacts(favorites: seq<Favorite>, userId: string, movieId: string)
    ensures !Favorited(Filter(favorites, NotPair(userId, movieId)), userId, movieId)
    ensures forall f :: f in Filter(favorites, NotPair(userId, movieId)) <==>
                          f in favorites && Pair(f) != (userId, movieId)
    ensures Filter(Filter(favorites, NotPair(userId, movieId)), NotPair(userId, movieId)) ==
            Filter(favorites, NotPair(userId, movieId))
  {
    var after := Filter(favorites, NotPair(userId, movieId));
    forall f ensures f in after <==> f in favorites && Pair(f) != (userId, movieId) {
      FilterMember(favorites, NotPair(userId, movieId), f);
    }
    forall f | f in after ensures NotPair(userId, movieId)(f) {
    }
    FilterAll(after, NotPair(userId, movieId));
  }

  /** Dropping an id removes only the record with that id. */
  lemma DeleteIdFacts(favorites: seq<Favorite>, id: string)
    ensures forall f :: f in Filter(favorites, NotId(id)) <==> f in favorites && f.id != id
  {
    forall f ensures f in Filter(favorites, NotId(id)) <==> f in favorites && f.id != id {
      FilterMember(favorites, NotId(id), f);
    }
  }

  class FavoriteStore {
    var favorites: seq<Favorite>

    /** Record ids are unique (`save` overwrites the record with the same id). */
    ghost predicate Valid()
      reads this
    {
      UniqueKeys(favorites, FavoriteId)
    }

    constructor ()
      ensures favorites == [] && Valid()
    {
      favorites := [];
    }

    /** `save()`: upsert by record id only; a second favorite of the same movie with a new id is
        appended. */
    method Save(f: Favorite)
      requires Valid()
      modifies this
      ensures Valid()
      ensures favorites == UpsertBy(old(favorites), f, FavoriteId)
      ensures Favorited(favorites, f.userId, f.movieId)
    {
      UpsertByFacts(favorites, f, FavoriteId);
      favorites := UpsertBy(favorites, f, FavoriteId);
    }

    /** `findByUserId(userId)`, in store order. */
    function FindByUserId(userId: string): (r: seq<Favorite>)
      reads this
      ensures forall f :: f in r <==> f in favorites && f.userId == userId
    {
      assert forall f :: f in Filter(favorites, OfUser(userId)) <==> f in favorites && f.userId == userId by {
        forall f ensures f in Filter(favorites, OfUser(userId)) <==> f in favorites && f.userId == userId {
          FilterMember(favorites, OfUser(userId), f);
        }
      }
      Filter(favorites, OfUser(userId))
    }

    /** `isFavorited(userId, movieId)`. */
    predicate IsFavorited(userId: string, movieId: string)
      reads this
      ensures IsFavorited(userId, movieId) <==> Favorited(favorites, userId, movieId)
    {
      Find(favorites, (f: Favorite) => f.userId == userId && f.movieId == movieId).Some?
    }

    /** `countByUserId(userId)`. */
    function CountByUserId(userId: string): (n: nat)
      reads this
      ensures n == |FindByUserId(userId)|
    {
      Count(favorites, OfUser(userId))
    }

    /** `delete(id)`. */
    method Delete(id: string)
      requires Valid()
      modifies this
      ensures Valid()
      ensures favorites == Filter(old(favorites), NotId(id))
    {
      FilterKeepsUnique(favorites, NotId(id), FavoriteId);
      favorites := Filter(favorites, NotId(id));
    }

    /** `deleteByUserAndMovie(userId, movieId)`. */
    method DeleteByUserAndMovie(userId: string, movieId: string)
      requires Valid()
      modifies this
      ensures Valid()
      ensures favorites == Filter(old(favorites), NotPair(userId, movieId))
      ensures !IsFavorited(userId, movieId)
    {
      FilterKeepsUnique(favorites, NotPair(userId, movieId), FavoriteId);
      DeletePairFacts(favorites, userId, movieId);
      favorites := Filter(favorites, NotPair(userId, movieId));
    }
  }
}
