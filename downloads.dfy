/** The downloads of server/models/Download.js: one record per (user, movie, quality), kept in
    one module-level array. Ids and timestamps are parameters; file sizes are integers. */
module Downloads {
  import opened Common

  const DefaultType: string := "movie"
  const DefaultQuality: string := "720p"
  const Completed: string := "completed"

  datatype Download = Download(id: string, userId: string, movieId: string, movieTitle: string,
                               moviePoster: Option<string>, movieType: string, downloadedAt: int,
                               status: string, fileSize: int, quality: string)

  /** `new Download(data)`: type 'movie', size 0 and quality '720p' for falsy fields; always
      'completed'. */
  function NewDownload(id: string, userId: string, movieId: string, movieTitle: string, moviePoster: Option<string>,
                       movieType: Option<string>, fileSize: Option<int>, quality: Option<string>, now: int): (d: Download)
    ensures d.id == id && d.userId == userId && d.movieId == movieId && d.movieTitle == movieTitle
    ensures d.downloadedAt == now && d.status == Completed
    ensures d.movieType == if Present(movieType) then movieType.value else DefaultType
    ensures d.fileSize == if Truthy(fileSize) then fileSize.value else 0
    ensures d.quality == if Present(quality) then quality.value else DefaultQuality
  {
    Download(id, userId, movieId, movieTitle, moviePoster, StrOr(movieType, DefaultType), now, Completed,
             IntOr(fileSize, 0), StrOr(quality, DefaultQuality))
  }

  /** The triple `save` upserts on. */
  function Key(d: Download): (string, string, string) { (d.userId, d.movieId, d.quality) }
  function DownloadedAt(d: Download): int { d.downloadedAt }

  function OfUser(userId: string): Download -> bool { (d: Download) => d.userId == userId }
  function OfUserMovie(userId: string, movieId: string): Download -> bool
  {
    (d: Download) => d.userId == userId && d.movieId == movieId
  }
  function NotId(id: string): Download -> bool { (d: Download) => d.id != id }
  function NotUser(userId: string): Download -> bool { (d: Download) => d.userId != userId }
  function NotUserMovie(userId: string, movieId: string): Download -> bool
  {
    (d: Download) => !(d.userId == userId && d.movieId == movieId)
  }
  function HasQuality(quality: string): Download -> bool { (d: Download) => d.quality == quality }

  /** `reduce((total, d) => total + d.fileSize, 0)`. */
  function SizeSum(ds: seq<Download>): int
  {
    if ds == [] then 0 else ds[0].fileSize + SizeSum(ds[1..])
  }

  /** The sum grows by the size of an appended record. */
  lemma {:induction false} SizeSumAppend(ds: seq<Download>, d: Download)
    ensures SizeSum(ds + [d]) == SizeSum(ds) + d.fileSize
  {
    if ds != [] {
      assert (ds + [d])[1..] == ds[1..] + [d];
      SizeSumAppend(ds[1..], d);
    }
  }

  /** No records sum to zero, and records of non-negative size to a non-negative total. */
  lemma {:induction false} SizeSumBounds(ds: seq<Download>)
    ensures ds == [] ==> SizeSum(ds) == 0
    ensures (forall d :: d in ds ==> d.fileSize >= 0) ==> SizeSum(ds) >= 0
    decreases |ds|
  {
    if ds != [] {
      SizeSumBounds(ds[1..]);
      assert forall d :: d in ds[1..] ==> d in ds;
    }
  }

  /** The sum over two runs is the sum of their sums. */
  lemma {:induction false} SizeSumConcat(a: seq<Download>, b: seq<Download>)
    ensures SizeSum(a + b) == SizeSum(a) + SizeSum(b)
    decreases |a|
  {
    if a != [] {
      assert (a + b)[1..] == a[1..] + b;
      SizeSumConcat(a[1..], b);
    } else {
      assert a + b == b;
    }
  }

  /** Taking one record out of a run takes its size out of the sum. */
  lemma SizeSumRemove(b: seq<Download>, i: nat)
    requires i < |b|
    ensures SizeSum(b) == b[i].fileSize + SizeSum(b[..i] + b[i + 1..])
  {
    var front, mid, back := b[..i], [b[i]], b[i + 1..];
    SizeSumConcat(front + mid, back);
    SizeSumConcat(front, mid);
    SizeSumConcat(front, back);
    assert mid[1..] == [];
    assert front + mid + back == b;
  }

  /** The sum does not depend on the order of the records. */
  lemma {:induction false} SizeSumPermutation(a: seq<Download>, b: seq<Download>)
    requires multiset(a) == multiset(b)
    ensures SizeSum(a) == SizeSum(b)
    decreases |a|
  {
    if a == [] {
      assert |b| == |multiset(b)| == 0;
    } else {
      var i := MatchFirst(a, b);
      var rest := b[..i] + b[i + 1..];
      SizeSumPermutation(a[1..], rest);
      SizeSumRemove(b, i);
    }
  }

  /** Every record dropped by one of the deletes matches it, and every other one is kept. */
  lemma DeleteFacts(downloads: seq<Download>, p: Download -> bool)
    ensures forall d :: d in Filter(downloads, p) <==> d in downloads && p(d)
    ensures UniqueKeys(downloads, Key) ==> UniqueKeys(Filter(downloads, p), Key)
  {
    forall d ensures d in Filter(downloads, p) <==> d in downloads && p(d) {
      FilterMember(downloads, p, d);
    }
    if UniqueKeys(downloads, Key) {
      FilterKeepsUnique(downloads, p, Key);
    }
  }

  /** The first record with this id: the lookup `deleteDownload` needs, which `Download` itself
      does not define. */
  function FindById(downloads: seq<Download>, id: string): (r: Option<Download>)
    ensures r.Some? ==> r.value in downloads && r.value.id == id
    ensures r.None? <==> forall d :: d in downloads ==> d.id != id
  {
    Find(downloads, (d: Download) => d.id == id)
  }

  class DownloadStore {
    var downloads: seq<Download>

    /** At most one record per (user, movie, quality). */
    ghost predicate Valid()
      reads this
    {
      UniqueKeys(downloads, Key)
    }

    constructor ()
      ensures downloads == [] && Valid()
    {
      downloads := [];
    }

    /** `save()`: replace the record with the same (user, movie, quality), or append. */
    method Save(d: Download)
      requires Valid()
      modifies this
      ensures Valid()
      ensures downloads == UpsertBy(old(downloads), d, Key)
      ensures d in downloads
      ensures forall e :: e in downloads ==> e == d || e in old(downloads)
    {
      UpsertByFacts(downloads, d, Key);
      downloads := UpsertBy(downloads, d, Key);
    }

    /** `findByUserId(userId)`: the user's downloads, newest first. */
    function FindByUserId(userId: string): (r: seq<Download>)
      reads this
      ensures multiset(r) == multiset(Filter(downloads, OfUser(userId)))
      ensures forall d :: d in r <==> d in downloads && d.userId == userId
      ensures SortedDesc(r, DownloadedAt)
    {
      var mine := Filter(downloads, OfUser(userId));
      SortDescCorrect(mine, DownloadedAt);
      DeleteFacts(downloads, OfUser(userId));
      SortDesc(mine, DownloadedAt)
    }

    /** `findByUserIdAndMovieId(userId, movieId)`, in store order. */
    function FindByUserIdAndMovieId(userId: string, movieId: string): (r: seq<Download>)
      reads this
      ensures forall d :: d in r <==> d in downloads && d.userId == userId && d.movieId == movieId
    {
      DeleteFacts(downloads, OfUserMovie(userId, movieId));
      Filter(downloads, OfUserMovie(userId, movieId))
    }

    /** `getTotalSize(userId)`: the sizes of the user's downloads added up, whatever order they
        are listed in; zero for a user without downloads. */
    function TotalSize(userId: string): (t: int)
      reads this
      ensures t == SizeSum(FindByUserId(userId))
      ensures (forall d :: d in downloads ==> d.userId != userId) ==> t == 0
      ensures (forall d :: d in downloads ==> d.fileSize >= 0) ==> t >= 0
    {
      var mine := Filter(downloads, OfUser(userId));
      SizeSumPermutation(mine, FindByUserId(userId));
      DeleteFacts(downloads, OfUser(userId));
      SizeSumBounds(mine);
      SizeSum(mine)
    }

    /** `delete(id)`. */
    method Delete(id: string)
      requires Valid()
      modifies this
      ensures Valid()
      ensures downloads == Filter(old(downloads), NotId(id))
    {
      DeleteFacts(downloads, NotId(id));
      downloads := Filter(downloads, NotId(id));
    }

    /** `deleteByUserId(userId)`. */
    method DeleteByUserId(userId: string)
      requires Valid()
      modifies this
      ensures Valid()
      ensures downloads == Filter(old(downloads), NotUser(userId))
      ensures FindByUserId(userId) == [] && TotalSize(userId) == 0
    {
      DeleteFacts(downloads, NotUser(userId));
      downloads := Filter(downloads, NotUser(userId));
      forall d | d in downloads ensures !OfUser(userId)(d) {
      }
      FilterNone(downloads, OfUser(userId));
    }

    /** `deleteByUserIdAndMovieId(userId, movieId)`. */
    method DeleteByUserIdAndMovieId(userId: string, movieId: string)
      requires Valid()
      modifies this
      ensures Valid()
      ensures downloads == Filter(old(downloads), NotUserMovie(userId, movieId))
      ensures FindByUserIdAndMovieId(userId, movieId) == []
    {
      DeleteFacts(downloads, NotUserMovie(userId, movieId));
      downloads := Filter(downloads, NotUserMovie(userId, movieId));
      forall d | d in downloads ensures !OfUserMovie(userId, movieId)(d) {
      }
      FilterNone(downloads, OfUserMovie(userId, movieId));
    }
  }

  /** Saving a record for a new triple adds its size to the user's total; the totals of other
      users never change. */
  lemma SaveNewAddsSize(downloads: seq<Download>, d: Download, userId: string)
    requires forall e :: e in downloads ==> Key(e) != Key(d)
    ensures SizeSum(Filter(UpsertBy(downloads, d, Key), OfUser(userId))) ==
            SizeSum(Filter(downloads, OfUser(userId))) + (if d.userId == userId then d.fileSize else 0)
  {
    UpsertByFacts(downloads, d, Key);
    FilterAppend(downloads, [d], OfUser(userId));
    assert Filter([d], OfUser(userId)) == (if d.userId == userId then [d] else []) by {
      assert [d][1..] == [];
    }
    if d.userId == userId {
      SizeSumAppend(Filter(downloads, OfUser(userId)), d);
    } else {
      assert Filter(downloads, OfUser(userId)) + [] == Filter(downloads, OfUser(userId));
    }
  }

  /** Records of one quality, of another and of a third are disjoint, so their counts add up to
      at most the number of records. */
  lemma {:induction false} QualityCountsBound(ds: seq<Download>, a: string, b: string, c: string)
    requires a != b && b != c && a != c
    ensures Count(ds, HasQuality(a)) + Count(ds, HasQuality(b)) + Count(ds, HasQuality(c)) <= |ds|
  {
    if ds != [] {
      QualityCountsBound(ds[1..], a, b, c);
    }
  }
}
