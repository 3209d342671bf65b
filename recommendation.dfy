/** The recommendation store and the content-based generator of server/models/Recommendation.js.
    Catalog ratings are kept in tenths (8.0 is 80); a catalog item without rating or year has 0 there,
    which is what `rating || 0` makes of it. */
module Recommendation {
  import opened Common

  /** Results kept by the generator and by the default `findByUserId`. */
  const MaxResults: nat := 20
  /** Rating from which an item earns the bonus (8.0 in tenths). */
  const HighRating: int := 80
  const CategoryWeight: int := 10
  const RatingBonus: int := 5

  /** An entry of the catalog `[...movies, ...animations]`. */
  datatype Movie = Movie(id: string, title: string, poster: string, category: string, kind: string,
                         rating: int, year: int)

  /** An element of the generator's result list (and of the controller's derived lists). */
  datatype Candidate = Candidate(movieId: string, movieTitle: string, moviePoster: string,
                                 movieCategory: string, movieType: string, reason: string, score: int)

  /** A stored `Recommendation` record. */
  datatype Rec = Rec(id: string, userId: string, movieId: string, movieTitle: string, moviePoster: string,
                     movieCategory: string, movieType: string, reason: string, score: int, createdAt: int)

  function ScoreOf(c: Candidate): int { c.score }
  function RecScore(r: Rec): int { r.score }

  /** The store key of `save`: one record per (user, movie). */
  function PairKey(r: Rec): (string, string) { (r.userId, r.movieId) }

  /** `allMovies.find(m => m.id === id)`. */
  function FindMovie(catalog: seq<Movie>, id: string): Option<Movie>
  {
    Find(catalog, (m: Movie) => m.id == id)
  }

  /** `watchedCategories[c] || 0` after the history loop: how many history entries resolve, through
      the catalog, to a movie of category `c`. History ids missing from the catalog count nowhere. */
  function CategoryCount(watched: seq<string>, catalog: seq<Movie>, category: string): nat
  {
    if watched == [] then 0
    else
      CategoryCount(watched[..|watched| - 1], catalog, category) +
        match FindMovie(catalog, watched[|watched| - 1])
        case Some(m) => (if m.category == category then 1 else 0)
        case None => 0
  }

  function Bonus(m: Movie): int
  {
    if m.rating >= HighRating then RatingBonus else 0
  }

  function Score(watched: seq<string>, catalog: seq<Movie>, m: Movie): int
  {
    CategoryWeight * CategoryCount(watched, catalog, m.category) + Bonus(m)
  }

  /** The reason text: the category clause when the category was watched, the rating clause
      (joined with a comma when both apply) when the rating is high. */
  function Reason(count: nat, m: Movie): string
  {
    var base := if count > 0 then "基于您观看的" + m.category + "电影" else "";
    if m.rating >= HighRating then base + (if base != "" then "，且评分很高" else "评分很高") else base
  }

  /** An item becomes a candidate when it is unwatched and scores above zero. */
  function Keep(watched: seq<string>, catalog: seq<Movie>): Movie -> bool
  {
    (m: Movie) => m.id !in watched && Score(watched, catalog, m) > 0
  }

  function ToCandidate(watched: seq<string>, catalog: seq<Movie>): Movie -> Candidate
  {
    (m: Movie) => Candidate(m.id, m.title, m.poster, m.category, m.kind,
                   Reason(CategoryCount(watched, catalog, m.category), m), Score(watched, catalog, m))
  }

  /** The candidate list in catalog order, before sorting. */
  function Candidates(watched: seq<string>, catalog: seq<Movie>): seq<Candidate>
  {
    Map(Filter(catalog, Keep(watched, catalog)), ToCandidate(watched, catalog))
  }

  /** The candidates after the stable sort by descending score. */
  function Ranked(watched: seq<string>, catalog: seq<Movie>): seq<Candidate>
  {
    SortDesc(Candidates(watched, catalog), ScoreOf)
  }

  /** What `generateRecommendations` returns: the first twenty ranked candidates. */
  function Top(watched: seq<string>, catalog: seq<Movie>): seq<Candidate>
  {
    Take(Ranked(watched, catalog), MaxResults)
  }

  /** The record `new Recommendation({ userId, ...rec })` builds from a candidate. */
  function NewRec(id: string, userId: string, c: Candidate, now: int): Rec
  {
    Rec(id, userId, c.movieId, c.movieTitle, c.moviePoster, c.movieCategory,
        if c.movieType != "" then c.movieType else "movie", c.reason, c.score, now)
  }

  /** The store after the save loop over `cs`, the i-th candidate getting uuid `ids[i]`. */
  function SaveAll(s: seq<Rec>, userId: string, cs: seq<Candidate>, ids: seq<string>, now: int): seq<Rec>
    requires |ids| >= |cs|
  {
    if cs == [] then s
    else
      var n := |cs| - 1;
      UpsertBy(SaveAll(s, userId, cs[..n], ids, now), NewRec(ids[n], userId, cs[n], now), PairKey)
  }

  function Lookup(counts: map<string, nat>, c: string): nat
  {
    if c in counts then counts[c] else 0
  }

  // ---------------------------------------------------------------------------------------
  // The store

  class RecommendationStore {
    var records: seq<Rec>

    constructor ()
      ensures records == []
    {
      records := [];
    }

    /** `save`: upsert on (userId, movieId). */
    method Save(r: Rec)
      modifies this
      ensures records == UpsertBy(old(records), r, PairKey)
      ensures r in records
      ensures UniqueKeys(old(records), PairKey) ==> UniqueKeys(records, PairKey)
    {
      UpsertByFacts(records, r, PairKey);
      records := UpsertBy(records, r, PairKey);
    }

    /** `findByUserId(userId, limit)`: the user's records by descending score, at most `limit`:
        the first `limit` of the stable sort, so a record of the user left out scores no higher
        than any returned one. */
    function FindByUserId(userId: string, limit: nat): (r: seq<Rec>)
      reads this
      ensures r == Take(SortDesc(Filter(records, (x: Rec) => x.userId == userId), RecScore), limit)
      ensures |r| <= limit
      ensures forall x :: x in r ==> x in records && x.userId == userId
      ensures SortedDesc(r, RecScore)
      ensures |r| == limit || |r| == Count(records, (x: Rec) => x.userId == userId)
      ensures forall x :: x in records && x.userId == userId && x !in r ==>
                |r| == limit && forall y :: y in r ==> y.score >= x.score
    {
      var mine := Filter(records, (x: Rec) => x.userId == userId);
      TopK(mine, RecScore, limit);
      assert forall x :: x in mine <==> x in records && x.userId == userId by {
        forall x ensures x in mine <==> x in records && x.userId == userId {
          FilterMember(records, (x: Rec) => x.userId == userId, x);
        }
      }
      Take(SortDesc(mine, RecScore), limit)
    }

    /** `delete(id)`. */
    method Delete(id: string)
      modifies this
      ensures records == Filter(old(records), (r: Rec) => r.id != id)
      ensures forall r :: r in records <==> r in old(records) && r.id != id
    {
      forall r ensures r in Filter(records, (r: Rec) => r.id != id) <==> r in records && r.id != id {
        FilterMember(records, (r: Rec) => r.id != id, r);
      }
      records := Filter(records, (r: Rec) => r.id != id);
    }

    /** `deleteByUserId(userId)`. */
    method DeleteByUserId(userId: string)
      modifies this
      ensures records == Filter(old(records), (r: Rec) => r.userId != userId)
      ensures forall r :: r in records <==> r in old(records) && r.userId != userId
    {
      forall r ensures r in Filter(records, (r: Rec) => r.userId != userId) <==> r in records && r.userId != userId {
        FilterMember(records, (r: Rec) => r.userId != userId, r);
      }
      records := Filter(records, (r: Rec) => r.userId != userId);
    }

    /** `deleteByUserIdAndMovieId(userId, movieId)`. */
    method DeleteByUserIdAndMovieId(userId: string, movieId: string)
      modifies this
      ensures records == Filter(old(records), (r: Rec) => !(r.userId == userId && r.movieId == movieId))
      ensures forall r :: r in records <==> r in old(records) && !(r.userId == userId && r.movieId == movieId)
    {
      forall r ensures r in Filter(records, (r: Rec) => !(r.userId == userId && r.movieId == movieId)) <==>
                       r in records && !(r.userId == userId && r.movieId == movieId) {
        FilterMember(records, (r: Rec) => !(r.userId == userId && r.movieId == movieId), r);
      }
      records := Filter(records, (r: Rec) => !(r.userId == userId && r.movieId == movieId));
    }

    /** `generateRecommendations(userId, watchHistory, allMovies)`: count watched categories, score
        every unwatched catalog item, keep positive scores, sort, save and return the top twenty.
        `watchHistory` is the list of watched movie ids; `ids` supplies the records' uuids. */
    method GenerateRecommendations(userId: string, watchHistory: seq<string>, allMovies: seq<Movie>,
                                   ids: seq<string>, now: int)
      returns (result: seq<Candidate>)
      requires |ids| >= MaxResults
      modifies this
      ensures result == Top(watchHistory, allMovies)
      ensures records == SaveAll(old(records), userId, result, ids, now)
    {
      var watchedCategories, watchedMovies := CountWatched(watchHistory, allMovies);
      var found := ScoreCatalog(watchHistory, allMovies, watchedCategories, watchedMovies);
      var sorted := SortDesc(found, ScoreOf);
      result := Take(sorted, MaxResults);
      SaveCandidates(userId, result, ids, now);
    }

    /** The save loop of `generateRecommendations`: one upsert per candidate, in order. */
    method SaveCandidates(userId: string, cs: seq<Candidate>, ids: seq<string>, now: int)
      requires |ids| >= |cs|
      modifies this
      ensures records == SaveAll(old(records), userId, cs, ids, now)
    {
      var j := 0;
      while j < |cs|
        invariant 0 <= j <= |cs|
        invariant records == SaveAll(old(records), userId, cs[..j], ids, now)
      {
        assert cs[..j + 1][..j] == cs[..j];
        Save(NewRec(ids[j], userId, cs[j], now));
        j := j + 1;
      }
      assert cs[..j] == cs;
    }
  }

  /** The history loop of `generateRecommendations`: the set of watched ids and the category
      frequency table. */
  method CountWatched(watchHistory: seq<string>, allMovies: seq<Movie>)
    returns (watchedCategories: map<string, nat>, watchedMovies: set<string>)
    ensures forall x :: x in watchedMovies <==> x in watchHistory
    ensures forall c :: Lookup(watchedCategories, c) == CategoryCount(watchHistory, allMovies, c)
  {
    watchedCategories := map[];
    watchedMovies := {};
    var i := 0;
    while i < |watchHistory|
      invariant 0 <= i <= |watchHistory|
      invariant forall x :: x in watchedMovies <==> x in watchHistory[..i]
      invariant forall c :: Lookup(watchedCategories, c) == CategoryCount(watchHistory[..i], allMovies, c)
    {
      var h := watchHistory[i];
      watchedMovies := watchedMovies + {h};
      var movie := FindMovie(allMovies, h);
      if movie.Some? {
        var c := movie.value.category;
        watchedCategories := watchedCategories[c := Lookup(watchedCategories, c) + 1];
      }
      assert watchHistory[..i + 1][..i] == watchHistory[..i];
      i := i + 1;
    }
    assert watchHistory[..i] == watchHistory;
  }

  /** The scoring of one catalog item from its category's watch count. */
  method ScoreMovie(movie: Movie, count: nat) returns (score: int, reason: string)
    ensures score == CategoryWeight * count + Bonus(movie)
    ensures reason == Reason(count, movie)
    ensures score > 0 <==> count > 0 || movie.rating >= HighRating
  {
    score := 0;
    reason := "";
    if count > 0 {
      score := score + count * CategoryWeight;
      reason := "基于您观看的" + movie.category + "电影";
    }
    if movie.rating >= HighRating {
      score := score + RatingBonus;
      reason := reason + (if reason != "" then "，且评分很高" else "评分很高");
    }
  }

  /** The catalog loop of `generateRecommendations`: every unwatched item with a positive score
      becomes a candidate, in catalog order. */
  method ScoreCatalog(watchHistory: seq<string>, allMovies: seq<Movie>,
                      watchedCategories: map<string, nat>, watchedMovies: set<string>)
    returns (found: seq<Candidate>)
    requires forall x :: x in watchedMovies <==> x in watchHistory
    requires forall c :: Lookup(watchedCategories, c) == CategoryCount(watchHistory, allMovies, c)
    ensures found == Candidates(watchHistory, allMovies)
  {
    var keep := Keep(watchHistory, allMovies);
    var toCandidate := ToCandidate(watchHistory, allMovies);
    found := [];
    var k := 0;
    while k < |allMovies|
      invariant 0 <= k <= |allMovies|
      invariant found == Map(Filter(allMovies[..k], keep), toCandidate)
    {
      var movie := allMovies[k];
      assert allMovies[..k + 1] == allMovies[..k] + [movie];
      FilterMapSnoc(allMovies[..k], movie, keep, toCandidate);
      ScoreAgrees(watchHistory, allMovies, watchedCategories, watchedMovies, movie);
      if movie.id !in watchedMovies {
        var count := Lookup(watchedCategories, movie.category);
        var score, reason := ScoreMovie(movie, count);
        if score > 0 {
          found := found + [Candidate(movie.id, movie.title, movie.poster, movie.category, movie.kind, reason, score)];
        }
      }
      k := k + 1;
    }
    assert allMovies[..k] == allMovies;
  }

  /** What the loop computes from the two tables is what `Keep` and `ToCandidate` say. */
  lemma ScoreAgrees(watchHistory: seq<string>, allMovies: seq<Movie>, watchedCategories: map<string, nat>,
                    watchedMovies: set<string>, movie: Movie)
    requires forall x :: x in watchedMovies <==> x in watchHistory
    requires forall c :: Lookup(watchedCategories, c) == CategoryCount(watchHistory, allMovies, c)
    ensures var count := Lookup(watchedCategories, movie.category);
            (Keep(watchHistory, allMovies)(movie) <==>
               movie.id !in watchedMovies && CategoryWeight * count + Bonus(movie) > 0) &&
            ToCandidate(watchHistory, allMovies)(movie) ==
              Candidate(movie.id, movie.title, movie.poster, movie.category, movie.kind, Reason(count, movie),
                        CategoryWeight * count + Bonus(movie))
  {
    assert Lookup(watchedCategories, movie.category) == CategoryCount(watchHistory, allMovies, movie.category);
  }
}

/** Properties of the generator and of the records it saves. */
module RecommendationFacts {
  import opened Common
  import opened Recommendation

  /** History entry `h` adds to category `c` when the catalog resolves it to a movie of `c`. */
  function ResolvesTo(catalog: seq<Movie>, c: string): string -> bool
  {
    (h: string) => var m := FindMovie(catalog, h); m.Some? && m.value.category == c
  }

  /** The history id is a catalog item. */
  function Known(catalog: seq<Movie>): string -> bool
  {
    (h: string) => FindMovie(catalog, h).Some?
  }

  /** The category count is the number of history entries the catalog resolves to that category;
      ids the catalog does not know count nowhere. */
  lemma {:induction false} CategoryCountCountsResolved(watched: seq<string>, catalog: seq<Movie>, c: string)
    ensures CategoryCount(watched, catalog, c) == |Filter(watched, ResolvesTo(catalog, c))|
  {
    if watched != [] {
      CategoryCountLast(watched, catalog, c);
      CategoryCountCountsResolved(watched[..|watched| - 1], catalog, c);
    }
  }

  /** One unfolding of the count and of its filter: the last history id adds one to both exactly
      when it resolves to the category. */
  lemma CategoryCountLast(watched: seq<string>, catalog: seq<Movie>, c: string)
    requires watched != []
    ensures var front := watched[..|watched| - 1];
            CategoryCount(watched, catalog, c) - CategoryCount(front, catalog, c) ==
            |Filter(watched, ResolvesTo(catalog, c))| - |Filter(front, ResolvesTo(catalog, c))|
  {
    var h := watched[|watched| - 1];
    var p := ResolvesTo(catalog, c);
    assert [h][1..] == [];
    assert Filter([h], p) == if p(h) then [h] else [];
    FilterSnoc(watched, p);
  }

  /** Dropping history ids the catalog does not know changes no category count. */
  lemma UnknownHistoryIgnored(watched: seq<string>, catalog: seq<Movie>, c: string)
    ensures CategoryCount(watched, catalog, c) == CategoryCount(Filter(watched, Known(catalog)), catalog, c)
  {
    var resolves := ResolvesTo(catalog, c);
    CategoryCountCountsResolved(watched, catalog, c);
    CategoryCountCountsResolved(Filter(watched, Known(catalog)), catalog, c);
    FilterFilter(watched, Known(catalog), resolves);
    forall h | h in watched ensures resolves(h) == Both(Known(catalog), resolves)(h) {
    }
    FilterCongruent(watched, resolves, Both(Known(catalog), resolves));
  }

  /** Every returned candidate comes from an unwatched catalog item that scored above zero. */
  lemma TopOrigin(watched: seq<string>, catalog: seq<Movie>, c: Candidate)
    requires c in Top(watched, catalog)
    ensures exists m :: m in catalog && m.id !in watched && Score(watched, catalog, m) > 0 &&
                        c == ToCandidate(watched, catalog)(m)
  {
    var ranked := Ranked(watched, catalog);
    var top := Take(ranked, MaxResults);
    var i :| 0 <= i < |top| && top[i] == c;
    assert c in ranked by { assert ranked[i] == c; }
    SortDescCorrect(Candidates(watched, catalog), ScoreOf);
    var kept := Filter(catalog, Keep(watched, catalog));
    var j :| 0 <= j < |Candidates(watched, catalog)| && Candidates(watched, catalog)[j] == c;
    var m := kept[j];
    FilterMember(catalog, Keep(watched, catalog), m);
  }

  /** Each returned candidate is unwatched (even when the history holds ids the catalog lacks),
      scores exactly ten per watched movie of its category plus five for a rating of at least
      8.0, is positive and carries a non-empty reason. */
  lemma TopScores(watched: seq<string>, catalog: seq<Movie>, c: Candidate)
    requires c in Top(watched, catalog)
    ensures c.movieId !in watched
    ensures exists m :: m in catalog && m.id == c.movieId && m.category == c.movieCategory &&
              c.score == CategoryWeight * CategoryCount(watched, catalog, m.category) +
                         (if m.rating >= HighRating then RatingBonus else 0)
    ensures c.score > 0 && c.reason != ""
  {
    TopOrigin(watched, catalog, c);
    var m :| m in catalog && m.id !in watched && Score(watched, catalog, m) > 0 &&
             c == ToCandidate(watched, catalog)(m);
    var count := CategoryCount(watched, catalog, m.category);
    assert count > 0 || m.rating >= HighRating;
    assert |Reason(count, m)| > 0;
  }

  /** With no history the only score source is the rating bonus. */
  lemma EmptyHistoryRatingOnly(catalog: seq<Movie>, c: Candidate)
    requires c in Top([], catalog)
    ensures c.score == RatingBonus && c.reason == "评分很高"
    ensures exists m :: m in catalog && m.id == c.movieId && m.rating >= HighRating
  {
    TopOrigin([], catalog, c);
  }

  /** The result holds at most twenty candidates, by non-increasing score, and the sort keeps
      catalog order among equal scores. */
  lemma TopOrdered(watched: seq<string>, catalog: seq<Movie>)
    ensures |Top(watched, catalog)| ==
            if |Candidates(watched, catalog)| < MaxResults then |Candidates(watched, catalog)| else MaxResults
    ensures SortedDesc(Top(watched, catalog), ScoreOf)
    ensures forall k :: WithKey(Ranked(watched, catalog), ScoreOf, k) == WithKey(Candidates(watched, catalog), ScoreOf, k)
  {
    SortDescCorrect(Candidates(watched, catalog), ScoreOf);
    TakeSorted(Ranked(watched, catalog), ScoreOf, MaxResults);
  }

  /** Every unwatched catalog item with a positive score is ranked; when it misses the top
      twenty, the list is full and every returned candidate scores at least as much. */
  lemma TopIsBest(watched: seq<string>, catalog: seq<Movie>, m: Movie)
    requires m in catalog && m.id !in watched && Score(watched, catalog, m) > 0
    ensures ToCandidate(watched, catalog)(m) in Ranked(watched, catalog)
    ensures ToCandidate(watched, catalog)(m) !in Top(watched, catalog) ==>
              |Top(watched, catalog)| == MaxResults &&
              forall c :: c in Top(watched, catalog) ==> c.score >= Score(watched, catalog, m)
  {
    var cands := Candidates(watched, catalog);
    var x := ToCandidate(watched, catalog)(m);
    var kept := Filter(catalog, Keep(watched, catalog));
    FilterMember(catalog, Keep(watched, catalog), m);
    var j :| 0 <= j < |kept| && kept[j] == m;
    assert cands[j] == x;
    SortDescCorrect(cands, ScoreOf);
    TakeSortDescTop(cands, ScoreOf, MaxResults);
  }

  /** The store holds a record of `userId` for `movieId`. */
  predicate HasPair(s: seq<Rec>, userId: string, movieId: string)
  {
    exists r :: r in s && r.userId == userId && r.movieId == movieId
  }

  /** An upsert keeps every element whose key differs from the new one. */
  lemma UpsertKeeps(t: seq<Rec>, x: Rec, r: Rec)
    requires r in t && PairKey(r) != PairKey(x)
    ensures r in UpsertBy(t, x, PairKey)
  {
    UpsertByFacts(t, x, PairKey);
    var k :| 0 <= k < |t| && t[k] == r;
    assert UpsertBy(t, x, PairKey)[k] == r;
  }

  /** The save loop never stores two records for one (user, movie) pair. */
  lemma {:induction false} SaveAllUnique(s: seq<Rec>, userId: string, cs: seq<Candidate>, ids: seq<string>, now: int)
    requires |ids| >= |cs|
    requires UniqueKeys(s, PairKey)
    ensures UniqueKeys(SaveAll(s, userId, cs, ids, now), PairKey)
  {
    if cs != [] {
      var n := |cs| - 1;
      SaveAllUnique(s, userId, cs[..n], ids, now);
      UpsertByFacts(SaveAll(s, userId, cs[..n], ids, now), NewRec(ids[n], userId, cs[n], now), PairKey);
    }
  }

  /** After the save loop the store holds a record of the user for every saved candidate. */
  lemma {:induction false} SaveAllStores(s: seq<Rec>, userId: string, cs: seq<Candidate>, ids: seq<string>, now: int)
    requires |ids| >= |cs|
    ensures forall i :: 0 <= i < |cs| ==> HasPair(SaveAll(s, userId, cs, ids, now), userId, cs[i].movieId)
  {
    if cs != [] {
      var n := |cs| - 1;
      var t := SaveAll(s, userId, cs[..n], ids, now);
      var x := NewRec(ids[n], userId, cs[n], now);
      SaveAllStores(s, userId, cs[..n], ids, now);
      UpsertByFacts(t, x, PairKey);
      forall i | 0 <= i < |cs| ensures HasPair(UpsertBy(t, x, PairKey), userId, cs[i].movieId) {
        if i < n && cs[i].movieId != cs[n].movieId {
          assert cs[..n][i] == cs[i];
          var r :| r in t && r.userId == userId && r.movieId == cs[i].movieId;
          UpsertKeeps(t, x, r);
        }
      }
    }
  }

  /** The save loop keeps every record of another user, and adds nothing but the new records. */
  lemma {:induction false} SaveAllFrame(s: seq<Rec>, userId: string, cs: seq<Candidate>, ids: seq<string>, now: int)
    requires |ids| >= |cs|
    ensures forall r :: r in s && r.userId != userId ==> r in SaveAll(s, userId, cs, ids, now)
    ensures forall r :: r in SaveAll(s, userId, cs, ids, now) ==>
              r in s || exists i :: 0 <= i < |cs| && r == NewRec(ids[i], userId, cs[i], now)
  {
    if cs != [] {
      var n := |cs| - 1;
      var t := SaveAll(s, userId, cs[..n], ids, now);
      var x := NewRec(ids[n], userId, cs[n], now);
      SaveAllFrame(s, userId, cs[..n], ids, now);
      UpsertByFacts(t, x, PairKey);
      forall r | r in s && r.userId != userId ensures r in UpsertBy(t, x, PairKey) {
        UpsertKeeps(t, x, r);
      }
      forall r | r in UpsertBy(t, x, PairKey)
        ensures r in s || exists i :: 0 <= i < |cs| && r == NewRec(ids[i], userId, cs[i], now)
      {
        if r != x && r !in s {
          var i :| 0 <= i < |cs[..n]| && r == NewRec(ids[i], userId, cs[..n][i], now);
          assert cs[..n][i] == cs[i];
        }
      }
    }
  }
}
