/** The handlers of server/controllers/recommendationController.js. The catalog
    `[...movies, ...animations]` is a parameter; `watched` and `favorites` are the movie ids of
    the caller's `WatchHistory.findByUserId` and `Favorite.findByUserId` lists. */
module RecommendationController {
  import opened Common
  import opened Recommendation
  import opened RecommendationFacts

  /** `parseInt(req.query.limit) || 20` */
  const DefaultLimit: int := 20
  /** `parseInt(req.query.limit) || 10` for the category and similar lists */
  const DefaultShortLimit: int := 10
  /** `Recommendation.findByUserId(userId, 100)` in `getRecommendations` */
  const StoredLimit: nat := 100

  const PopularReason: string := "热门推荐"
  const NewReason: string := "新上映推荐"

  /** `(m.rating || 0)` and `(m.year || 0)`, the sort keys. */
  function RatingOf(m: Movie): int { m.rating }
  function YearOf(m: Movie): int { m.year }

  /** The object the derived lists build from a catalog item: the score is the item's rating. */
  function Derived(reason: string): Movie -> Candidate
  {
    (m: Movie) => Candidate(m.id, m.title, m.poster, m.category, m.kind, reason, m.rating)
  }

  function CategoryReason(category: string): string
  {
    "基于" + category + "类别的推荐"
  }

  function SimilarReason(title: string): string
  {
    "与《" + title + "》类似"
  }

  function InCategory(category: string): Movie -> bool
  {
    (m: Movie) => m.category == category
  }

  function Unseen(watched: seq<string>, favorites: seq<string>): Movie -> bool
  {
    (m: Movie) => m.id !in watched && m.id !in favorites
  }

  /** `getRecommendationsByCategory`: unwatched, unfavorited items of the category, best rated
      first, at most `limit`. */
  function ByCategory(category: string, watched: seq<string>, favorites: seq<string>,
                      catalog: seq<Movie>, limitQuery: Option<int>): seq<Candidate>
  {
    var pool := Filter(Filter(catalog, InCategory(category)), Unseen(watched, favorites));
    Map(Take(SortDesc(pool, RatingOf), IntOr(limitQuery, DefaultShortLimit)), Derived(CategoryReason(category)))
  }

  /** `getSimilarMovies`: `None` is the 404 for an unknown id; otherwise the other items of the
      first matching item's category, best rated first, at most `limit`. */
  function Similar(movieId: string, catalog: seq<Movie>, limitQuery: Option<int>): Option<seq<Candidate>>
  {
    match FindMovie(catalog, movieId)
    case None => None
    case Some(movie) =>
      var pool := Filter(catalog, (m: Movie) => m.id != movieId && m.category == movie.category);
      Some(Map(Take(SortDesc(pool, RatingOf), IntOr(limitQuery, DefaultShortLimit)),
               Derived(SimilarReason(movie.title))))
  }

  /** `getPopularRecommendations`: the best rated items. */
  function Popular(catalog: seq<Movie>, limitQuery: Option<int>): seq<Candidate>
  {
    Map(Take(SortDesc(catalog, RatingOf), IntOr(limitQuery, DefaultLimit)), Derived(PopularReason))
  }

  /** `getNewRecommendations`: the items of the latest years, each scored by its rating. */
  function Newest(catalog: seq<Movie>, limitQuery: Option<int>): seq<Candidate>
  {
    Map(Take(SortDesc(catalog, YearOf), IntOr(limitQuery, DefaultLimit)), Derived(NewReason))
  }

  // ---------------------------------------------------------------------------------------
  // Properties of the derived lists

  /** A list built from items sorted by rating is sorted by score, and every element comes from
      one of the items. */
  lemma DerivedByRating(sel: seq<Movie>, reason: string)
    requires SortedDesc(sel, RatingOf)
    ensures SortedDesc(Map(sel, Derived(reason)), ScoreOf)
    ensures forall c :: c in Map(sel, Derived(reason)) ==> exists m :: m in sel && c == Derived(reason)(m)
  {
    var r := Map(sel, Derived(reason));
    forall c | c in r ensures exists m :: m in sel && c == Derived(reason)(m) {
      var i :| 0 <= i < |r| && r[i] == c;
      assert c == Derived(reason)(sel[i]);
    }
  }

  /** The item `m` made the list, or the list is full of items rated at least as well. */
  ghost predicate ChosenOrOutranked(r: seq<Candidate>, limit: int, m: Movie, reason: string)
  {
    Derived(reason)(m) in r || (|r| == limit && forall c :: c in r ==> c.score >= m.rating)
  }

  /** A best-rated-first selection: at most `limit` candidates from `pool` by non-increasing
      score, and every item of `pool` was chosen or outranked. */
  lemma RankedByRating(pool: seq<Movie>, limit: int, reason: string)
    requires limit >= 0
    ensures |Map(Take(SortDesc(pool, RatingOf), limit), Derived(reason))| == if limit < |pool| then limit else |pool|
    ensures SortedDesc(Map(Take(SortDesc(pool, RatingOf), limit), Derived(reason)), ScoreOf)
    ensures forall c :: c in Map(Take(SortDesc(pool, RatingOf), limit), Derived(reason)) ==>
              exists m :: m in pool && c == Derived(reason)(m)
    ensures forall m :: m in pool ==>
              ChosenOrOutranked(Map(Take(SortDesc(pool, RatingOf), limit), Derived(reason)), limit, m, reason)
  {
    var sel := Take(SortDesc(pool, RatingOf), limit);
    var r := Map(sel, Derived(reason));
    TopK(pool, RatingOf, limit);
    DerivedByRating(sel, reason);
    forall m | m in pool ensures ChosenOrOutranked(r, limit, m, reason) {
      if m in sel {
        var i :| 0 <= i < |sel| && sel[i] == m;
        assert r[i] == Derived(reason)(m);
      } else {
        forall c | c in r ensures c.score >= m.rating {
          var i :| 0 <= i < |r| && r[i] == c;
          assert sel[i] in sel;
        }
      }
    }
  }

  /** Category recommendations hold only unwatched, unfavorited items of that category, best
      rated first, at most `limit` (10 by default), and leave out no better item. */
  lemma ByCategoryFacts(category: string, watched: seq<string>, favorites: seq<string>,
                        catalog: seq<Movie>, limitQuery: Option<int>)
    requires IntOr(limitQuery, DefaultShortLimit) >= 0
    ensures var r := ByCategory(category, watched, favorites, catalog, limitQuery);
            |r| <= IntOr(limitQuery, DefaultShortLimit) &&
            SortedDesc(r, ScoreOf) &&
            (forall c :: c in r ==>
               (c.reason == CategoryReason(category) &&
                exists m :: m in catalog && m.category == category && m.id !in watched && m.id !in favorites &&
                            c == Derived(CategoryReason(category))(m))) &&
            forall m :: m in catalog && m.category == category && m.id !in watched && m.id !in favorites ==>
              ChosenOrOutranked(r, IntOr(limitQuery, DefaultShortLimit), m, CategoryReason(category))
  {
    var inCat := Filter(catalog, InCategory(category));
    var pool := Filter(inCat, Unseen(watched, favorites));
    RankedByRating(pool, IntOr(limitQuery, DefaultShortLimit), CategoryReason(category));
    forall m ensures m in pool <==> m in catalog && m.category == category && m.id !in watched && m.id !in favorites {
      FilterMember(catalog, InCategory(category), m);
      FilterMember(inCat, Unseen(watched, favorites), m);
    }
  }

  /** Similar movies: 404 exactly for an unknown id; otherwise other items of that movie's
      category, best rated first, at most `limit`, leaving out no better item. */
  lemma SimilarFacts(movieId: string, catalog: seq<Movie>, limitQuery: Option<int>)
    requires IntOr(limitQuery, DefaultShortLimit) >= 0
    ensures Similar(movieId, catalog, limitQuery).None? <==> forall m :: m in catalog ==> m.id != movieId
    ensures Similar(movieId, catalog, limitQuery).Some? ==>
              var r := Similar(movieId, catalog, limitQuery).value;
              var movie := FindMovie(catalog, movieId).value;
              |r| <= IntOr(limitQuery, DefaultShortLimit) &&
              SortedDesc(r, ScoreOf) &&
              (forall c :: c in r ==> c.movieId != movieId && c.movieCategory == movie.category &&
                                      c.reason == SimilarReason(movie.title)) &&
              forall m :: m in catalog && m.id != movieId && m.category == movie.category ==>
                ChosenOrOutranked(r, IntOr(limitQuery, DefaultShortLimit), m, SimilarReason(movie.title))
  {
    var found := FindMovie(catalog, movieId);
    if found.Some? {
      var movie := found.value;
      var p := (m: Movie) => m.id != movieId && m.category == movie.category;
      var pool := Filter(catalog, p);
      RankedByRating(pool, IntOr(limitQuery, DefaultShortLimit), SimilarReason(movie.title));
      forall m ensures m in pool <==> m in catalog && p(m) {
        FilterMember(catalog, p, m);
      }
    }
  }

  /** Popular recommendations: the `limit` best rated catalog items, best first. */
  lemma PopularFacts(catalog: seq<Movie>, limitQuery: Option<int>)
    requires IntOr(limitQuery, DefaultLimit) >= 0
    ensures var r := Popular(catalog, limitQuery);
            |r| == (if IntOr(limitQuery, DefaultLimit) < |catalog| then IntOr(limitQuery, DefaultLimit) else |catalog|) &&
            SortedDesc(r, ScoreOf) &&
            (forall c :: c in r ==> c.reason == PopularReason && exists m :: m in catalog && c == Derived(PopularReason)(m)) &&
            forall m :: m in catalog ==> ChosenOrOutranked(r, IntOr(limitQuery, DefaultLimit), m, PopularReason)
  {
    RankedByRating(catalog, IntOr(limitQuery, DefaultLimit), PopularReason);
  }

  /** New recommendations: the `limit` catalog items of the latest years, latest first; an item
      left out is no newer than any chosen one. */
  lemma NewestFacts(catalog: seq<Movie>, limitQuery: Option<int>)
    requires IntOr(limitQuery, DefaultLimit) >= 0
    ensures var sel := Take(SortDesc(catalog, YearOf), IntOr(limitQuery, DefaultLimit));
            var r := Newest(catalog, limitQuery);
            |r| == |sel| && |r| == (if IntOr(limitQuery, DefaultLimit) < |catalog| then IntOr(limitQuery, DefaultLimit) else |catalog|) &&
            (forall i :: 0 <= i < |r| ==>
               (sel[i] in catalog && r[i].movieId == sel[i].id && r[i].score == sel[i].rating &&
                r[i].reason == NewReason)) &&
            (forall i, j :: 0 <= i < j < |sel| ==> sel[i].year >= sel[j].year) &&
            forall m :: m in catalog && m !in sel ==>
              (|r| == IntOr(limitQuery, DefaultLimit) && forall y :: y in sel ==> y.year >= m.year)
  {
    var sel := Take(SortDesc(catalog, YearOf), IntOr(limitQuery, DefaultLimit));
    TopK(catalog, YearOf, IntOr(limitQuery, DefaultLimit));
    forall i | 0 <= i < |sel| ensures sel[i] in catalog {
      assert sel[i] in sel;
    }
  }

  // ---------------------------------------------------------------------------------------
  // Handlers that drive the store

  /** What `getRecommendations` lists: the stored records, or a freshly generated list. */
  datatype Listing = Stored(recs: seq<Rec>) | Generated(cands: seq<Candidate>)

  /** `getRecommendations`: the stored list (up to 100), generating only when it is empty; then
      one page of it and the full length as `total`. */
  method GetRecommendations(store: RecommendationStore, userId: string, watched: seq<string>,
                            catalog: seq<Movie>, ids: seq<string>, now: int,
                            limitQuery: Option<int>, offsetQuery: Option<int>)
    returns (data: Listing, total: nat)
    requires |ids| >= MaxResults
    modifies store
    ensures var stored := old(store.FindByUserId(userId, StoredLimit));
            var limit := IntOr(limitQuery, DefaultLimit);
            var offset := IntOr(offsetQuery, 0);
            if stored != [] then
              store.records == old(store.records) && total == |stored| &&
              data == Stored(Page(stored, offset, limit))
            else
              store.records == SaveAll(old(store.records), userId, Top(watched, catalog), ids, now) &&
              total == |Top(watched, catalog)| &&
              data == Generated(Page(Top(watched, catalog), offset, limit))
  {
    var limit := IntOr(limitQuery, DefaultLimit);
    var offset := IntOr(offsetQuery, 0);
    var stored := store.FindByUserId(userId, StoredLimit);
    if |stored| == 0 {
      var generated := store.GenerateRecommendations(userId, watched, catalog, ids, now);
      total := |generated|;
      data := Generated(Page(generated, offset, limit));
    } else {
      total := |stored|;
      data := Stored(Page(stored, offset, limit));
    }
  }

  /** The `generate` endpoint: drop the caller's records, then generate afresh. */
  method Regenerate(store: RecommendationStore, userId: string, watched: seq<string>,
                    catalog: seq<Movie>, ids: seq<string>, now: int)
    returns (data: seq<Candidate>)
    requires |ids| >= MaxResults
    modifies store
    ensures data == Top(watched, catalog)
    ensures store.records ==
            SaveAll(Filter(old(store.records), (r: Rec) => r.userId != userId), userId, data, ids, now)
  {
    store.DeleteByUserId(userId);
    data := store.GenerateRecommendations(userId, watched, catalog, ids, now);
  }

  /** After `generate`, the caller's records are exactly the fresh top list: one per returned
      candidate, nothing older; other users' records are kept. */
  lemma RegenerateExact(s: seq<Rec>, userId: string, watched: seq<string>, catalog: seq<Movie>,
                        ids: seq<string>, now: int)
    requires |ids| >= MaxResults
    ensures var data := Top(watched, catalog);
            var after := SaveAll(Filter(s, (r: Rec) => r.userId != userId), userId, data, ids, now);
            (forall c :: c in data ==> HasPair(after, userId, c.movieId)) &&
            (forall r :: r in after && r.userId == userId ==>
               exists i :: 0 <= i < |data| && r == NewRec(ids[i], userId, data[i], now)) &&
            (forall r :: r in s && r.userId != userId ==> r in after)
  {
    var data := Top(watched, catalog);
    var others := (r: Rec) => r.userId != userId;
    var kept := Filter(s, others);
    TopOrdered(watched, catalog);
    SaveAllStores(kept, userId, data, ids, now);
    SaveAllFrame(kept, userId, data, ids, now);
    forall r ensures r in kept <==> r in s && others(r) {
      FilterMember(s, others, r);
    }
    forall c | c in data ensures HasPair(SaveAll(kept, userId, data, ids, now), userId, c.movieId) {
      var i :| 0 <= i < |data| && data[i] == c;
    }
  }

  /** `deleteRecommendation`: removes the record with that id whoever owns it; the caller's id
      plays no part. */
  method DeleteRecommendation(store: RecommendationStore, recommendationId: string, callerId: string)
    modifies store
    ensures store.records == Filter(old(store.records), (r: Rec) => r.id != recommendationId)
    ensures forall r :: r in store.records <==> r in old(store.records) && r.id != recommendationId
  {
    store.Delete(recommendationId);
  }
}
