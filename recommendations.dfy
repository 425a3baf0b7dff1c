/**
 * The recommendation engine: the taste analyses of a watchlist (genre
 * affinity, rating preference, release-year preference), the discovery
 * query built from them, the filtering of what discovery returns, the
 * taste profile and the one-line explanation.
 */
module Recommendations {
  import opened Text
  import opened Seqs
  import opened Movies

  // ---------------------------------------------------------------------
  // Genre names
  // ---------------------------------------------------------------------

  /** `GENRE_MAP`: the catalogue's genre ids and their names. */
  const GenreMap: map<nat, string> := map[
    28 := "Action", 12 := "Adventure", 16 := "Animation", 35 := "Comedy",
    80 := "Crime", 99 := "Documentary", 18 := "Drama", 10751 := "Family",
    14 := "Fantasy", 36 := "History", 27 := "Horror", 10402 := "Music",
    9648 := "Mystery", 10749 := "Romance", 878 := "Science Fiction",
    10770 := "TV Movie", 53 := "Thriller", 10752 := "War", 37 := "Western"]

  /** `GENRE_MAP[id] || 'Unknown'`. */
  function GenreName(id: nat): (name: string)
    ensures name != ""
    ensures id !in GenreMap ==> name == "Unknown"
  {
    if id in GenreMap then GenreMap[id] else "Unknown"
  }

  // ---------------------------------------------------------------------
  // Genre affinity: specification
  // ---------------------------------------------------------------------

  /** Every genre tag of the watchlist, movie by movie, in order (a movie with two genres adds two tags). */
  function AllTags(watchlist: seq<Movie>): seq<nat>
  {
    if watchlist == [] then []
    else AllTags(watchlist[..|watchlist| - 1]) + GenresOf(watchlist[|watchlist| - 1])
  }

  /** The count of every genre among `tags`: the `genreCounts` object once the loops are done. */
  function CountsOf(tags: seq<nat>): (counts: map<nat, nat>)
    ensures forall g :: g in counts <==> g in tags
  {
    map g | g in tags :: multiset(tags)[g]
  }

  /** Counting one more tag adds one to its genre's count and leaves the other genres alone. */
  lemma CountsAppend(tags: seq<nat>, g: nat)
    ensures CountsOf(tags + [g]) == CountsOf(tags)[g := (if g in CountsOf(tags) then CountsOf(tags)[g] else 0) + 1]
  {
    var before := CountsOf(tags);
    var after := CountsOf(tags + [g]);
    var expected := before[g := (if g in before then before[g] else 0) + 1];
    assert multiset(tags + [g]) == multiset(tags) + multiset{g};
    assert g !in tags ==> multiset(tags)[g] == 0;
    forall x | x in after ensures x in expected && after[x] == expected[x] {
      assert x in tags + [g];
    }
    assert after.Keys == expected.Keys;
  }

  /** `m` is the smallest element of `s`. */
  predicate IsLeast(m: nat, s: set<nat>)
  {
    m in s && forall y :: y in s ==> m <= y
  }

  /** Every non-empty set of numbers has a smallest element. */
  lemma {:induction false} MinExists(s: set<nat>)
    requires s != {}
    ensures exists m :: IsLeast(m, s)
    decreases |s|
  {
    var x :| x in s;
    var others := s - {x};
    if others == {} {
      assert s == others + {x};
      assert IsLeast(x, s);
    } else {
      assert |others| < |s|;
      MinExists(others);
      var m :| IsLeast(m, others);
      var least := if x < m then x else m;
      forall y | y in s ensures least <= y {
        if y != x { assert y in others; }
      }
      assert IsLeast(least, s);
    }
  }

  /** The smallest element of a non-empty set of numbers. */
  function Smallest(s: set<nat>): (m: nat)
    requires s != {}
    ensures m in s && forall y :: y in s ==> m <= y
  {
    MinExists(s);
    var m :| IsLeast(m, s);
    m
  }

  /**
   * The keys of a counting object in the order `Object.entries` lists them:
   * genre ids are integer-like property names, which come in ascending
   * numeric order whatever order they were added in.
   */
  function AscendingKeys(s: set<nat>): (r: seq<nat>)
    ensures |r| == |s|
    ensures forall x :: x in r <==> x in s
    ensures forall i, j :: 0 <= i < j < |r| ==> r[i] < r[j]
    decreases |s|
  {
    if s == {} then []
    else
      var m := Smallest(s);
      var rest := AscendingKeys(s - {m});
      assert forall x :: x in s <==> x == m || x in s - {m};
      [m] + rest
  }

  /** One entry of `genreDistribution`. */
  datatype GenreShare = GenreShare(id: nat, name: string, count: nat, percentage: int)

  /** `Math.round(count / total * 100)`, in exact arithmetic: the percentage rounded half up. */
  function Percent(count: nat, total: nat): (p: int)
    requires total > 0
    ensures 2 * total * p <= 200 * count + total < 2 * total * (p + 1)
  {
    var p := (200 * count + total) / (2 * total);
    var rem := (200 * count + total) % (2 * total);
    assert (200 * count + total) == p * (2 * total) + rem;
    p
  }

  /** Multiplying by a non-negative factor keeps an inequality. */
  lemma MulMonotone(a: int, b: int, c: int)
    requires a >= 0 && b <= c
    ensures a * b <= a * c
  {
    assert a * c - a * b == a * (c - b);
  }

  /** A share of the whole is at most 100 percent. */
  lemma PercentAtMost100(count: nat, total: nat)
    requires 0 < total && count <= total
    ensures 0 <= Percent(count, total) <= 100
  {
    var p := Percent(count, total);
    if p > 100 {
      MulMonotone(2 * total, 101, p);
    }
    if p < 0 {
      MulMonotone(2 * total, p + 1, 0);
    }
  }

  /** The entry of genre `id`. */
  function Share(id: nat, count: nat, total: nat): GenreShare
    requires total > 0
  {
    GenreShare(id, GenreName(id), count, Percent(count, total))
  }

  /** The `.map(...)` over the entries: one share per genre id, in the given order. */
  function Shares(ids: seq<nat>, counts: map<nat, nat>, total: nat): (r: seq<GenreShare>)
    requires forall i :: 0 <= i < |ids| ==> ids[i] in counts
    requires total > 0 || ids == []
    ensures |r| == |ids|
    ensures forall k :: 0 <= k < |r| ==> r[k] == Share(ids[k], counts[ids[k]], total)
  {
    if ids == [] then [] else [Share(ids[0], counts[ids[0]], total)] + Shares(ids[1..], counts, total)
  }

  /** The order of the distribution: more occurrences first, and among equal counts the smaller id. */
  predicate Before(a: GenreShare, b: GenreShare)
  {
    a.count > b.count || (a.count == b.count && a.id < b.id)
  }

  ghost predicate Ranked(s: seq<GenreShare>)
  {
    forall i, j :: 0 <= i < j < |s| ==> Before(s[i], s[j])
  }

  /**
   * One step of a stable sort by count, descending: `x` goes in front of
   * the first entry whose count is not larger than its own.
   */
  function InsertByCount(x: GenreShare, s: seq<GenreShare>): (r: seq<GenreShare>)
    ensures multiset(r) == multiset(s) + multiset{x}
  {
    if s == [] || x.count >= s[0].count then [x] + s
    else
      assert s == [s[0]] + s[1..];
      [s[0]] + InsertByCount(x, s[1..])
  }

  /** `.sort((a, b) => b.count - a.count)`: a stable sort by count, descending. */
  function SortByCount(s: seq<GenreShare>): (r: seq<GenreShare>)
    ensures multiset(r) == multiset(s)
  {
    if s == [] then []
    else
      assert s == [s[0]] + s[1..];
      InsertByCount(s[0], SortByCount(s[1..]))
  }

  lemma RankedTail(s: seq<GenreShare>)
    requires s != [] && Ranked(s)
    ensures Ranked(s[1..])
  {
    forall i, j | 0 <= i < j < |s[1..]| ensures Before(s[1..][i], s[1..][j]) {
      assert s[1..][i] == s[i + 1] && s[1..][j] == s[j + 1];
    }
  }

  lemma RankedCons(x: GenreShare, s: seq<GenreShare>)
    requires Ranked(s)
    requires forall j :: 0 <= j < |s| ==> Before(x, s[j])
    ensures Ranked([x] + s)
  {
    var r := [x] + s;
    forall i, j | 0 <= i < j < |r| ensures Before(r[i], r[j]) {
      assert r[j] == s[j - 1];
      if i > 0 {
        assert r[i] == s[i - 1];
      }
    }
  }

  /** Inserting an entry with a smaller id than all others keeps a ranked list ranked. */
  lemma {:induction false} InsertKeepsRanked(x: GenreShare, s: seq<GenreShare>)
    requires Ranked(s)
    requires forall i :: 0 <= i < |s| ==> x.id < s[i].id
    ensures Ranked(InsertByCount(x, s))
  {
    if s == [] || x.count >= s[0].count {
      forall j | 0 <= j < |s| ensures Before(x, s[j]) {
        if j > 0 {
          assert Before(s[0], s[j]);
        }
      }
      RankedCons(x, s);
    } else {
      RankedTail(s);
      InsertKeepsRanked(x, s[1..]);
      var rest := InsertByCount(x, s[1..]);
      forall j | 0 <= j < |rest| ensures Before(s[0], rest[j]) {
        assert rest[j] in multiset(s[1..]) + multiset{x};
        if rest[j] != x {
          assert rest[j] in s[1..];
          var k :| 0 <= k < |s[1..]| && s[1..][k] == rest[j];
          assert Before(s[0], s[k + 1]);
        }
      }
      RankedCons(s[0], rest);
    }
  }

  /** Sorting entries listed by ascending id yields them ranked: by count, ties by ascending id. */
  lemma {:induction false} SortByCountRanked(s: seq<GenreShare>)
    requires forall i, j :: 0 <= i < j < |s| ==> s[i].id < s[j].id
    ensures Ranked(SortByCount(s))
  {
    if s != [] {
      var tail := s[1..];
      assert forall i, j :: 0 <= i < j < |tail| ==> tail[i].id < tail[j].id by {
        forall i, j | 0 <= i < j < |tail| ensures tail[i].id < tail[j].id {
          assert tail[i] == s[i + 1] && tail[j] == s[j + 1];
        }
      }
      SortByCountRanked(tail);
      var sorted := SortByCount(tail);
      forall i | 0 <= i < |sorted| ensures s[0].id < sorted[i].id {
        assert sorted[i] in multiset(sorted);
        assert sorted[i] in tail;
        var k :| 0 <= k < |tail| && tail[k] == sorted[i];
        assert s[k + 1] == sorted[i];
      }
      InsertKeepsRanked(s[0], sorted);
    }
  }

  /** `genreDistribution` for a list of tags. */
  function DistributionOf(tags: seq<nat>): seq<GenreShare>
  {
    var counts := CountsOf(tags);
    SortByCount(Shares(AscendingKeys(counts.Keys), counts, |tags|))
  }

  /** What `analyzeGenreAffinity` returns. */
  datatype GenreAffinity = GenreAffinity(topGenres: seq<GenreShare>, genreDistribution: seq<GenreShare>, totalMovies: nat)

  /** The genre affinity of a watchlist. */
  function GenreAffinityOf(watchlist: seq<Movie>): GenreAffinity
  {
    if watchlist == [] then GenreAffinity([], [], 0)
    else
      var distribution := DistributionOf(AllTags(watchlist));
      GenreAffinity(Take(distribution, 3), distribution, |watchlist|)
  }

  /** Whether some entry of the distribution is genre `g`. */
  predicate Lists(d: seq<GenreShare>, g: nat)
  {
    exists k :: 0 <= k < |d| && d[k].id == g
  }

  /** Entry `e` gives genre `e.id` of `tags` with its number of occurrences, its name and its rounded percentage of all tags. */
  predicate Describes(e: GenreShare, tags: seq<nat>)
  {
    && e.id in tags
    && e.count == multiset(tags)[e.id]
    && e.name == GenreName(e.id)
    && e.percentage == Percent(e.count, |tags|)
  }

  /** The entry built for the `i`-th genre id describes that genre. */
  lemma ShareDescribes(tags: seq<nat>, i: nat)
    requires i < |AscendingKeys(CountsOf(tags).Keys)|
    ensures var ids := AscendingKeys(CountsOf(tags).Keys);
      Describes(Shares(ids, CountsOf(tags), |tags|)[i], tags)
  {
    var counts := CountsOf(tags);
    var ids := AscendingKeys(counts.Keys);
    var g := ids[i];
    var e := Shares(ids, counts, |tags|)[i];
    assert e == Share(g, counts[g], |tags|);
    assert g in tags && counts[g] == multiset(tags)[g] by {
      assert g in counts.Keys;
    }
  }

  /** Where an entry of the sorted list sits in the unsorted one. */
  lemma SortedFrom(s: seq<GenreShare>, e: GenreShare) returns (i: nat)
    requires e in SortByCount(s)
    ensures i < |s| && s[i] == e
  {
    assert e in multiset(SortByCount(s));
    i :| i < |s| && s[i] == e;
  }

  /** Every entry of the distribution describes a genre of the tags. */
  lemma DistributionDescribes(tags: seq<nat>)
    ensures forall e :: e in DistributionOf(tags) ==> Describes(e, tags)
  {
    var counts := CountsOf(tags);
    var ids := AscendingKeys(counts.Keys);
    var shares := Shares(ids, counts, |tags|);
    forall e | e in DistributionOf(tags) ensures Describes(e, tags) {
      var i := SortedFrom(shares, e);
      ShareDescribes(tags, i);
    }
  }

  /** Every genre of the tags has an entry in the distribution. */
  lemma DistributionCovers(tags: seq<nat>, g: nat)
    requires g in tags
    ensures Lists(DistributionOf(tags), g)
  {
    var counts := CountsOf(tags);
    var ids := AscendingKeys(counts.Keys);
    var shares := Shares(ids, counts, |tags|);
    var d := DistributionOf(tags);
    var i :| 0 <= i < |ids| && ids[i] == g;
    assert shares[i] in multiset(d);
    var k :| 0 <= k < |d| && d[k] == shares[i];
  }

  /**
   * The distribution lists exactly the genres of the tags, each entry with
   * its number of occurrences, its name and its rounded percentage.
   */
  lemma DistributionEntries(tags: seq<nat>)
    ensures forall k :: 0 <= k < |DistributionOf(tags)| ==> Describes(DistributionOf(tags)[k], tags)
    ensures forall g :: g in tags <==> Lists(DistributionOf(tags), g)
  {
    var d := DistributionOf(tags);
    DistributionDescribes(tags);
    forall k | 0 <= k < |d| ensures Describes(d[k], tags) {
      assert d[k] in d;
    }
    forall g ensures g in tags <==> Lists(d, g) {
      if g in tags {
        DistributionCovers(tags, g);
      }
      if Lists(d, g) {
        var k :| 0 <= k < |d| && d[k].id == g;
        assert d[k] in d;
      }
    }
  }

  /** A genre occurs at most as often as there are tags. */
  lemma {:induction false} OccurrencesAtMostLength(tags: seq<nat>, g: nat)
    ensures multiset(tags)[g] <= |tags|
  {
    if tags != [] {
      assert tags == [tags[0]] + tags[1..];
      assert multiset(tags) == multiset{tags[0]} + multiset(tags[1..]);
      OccurrencesAtMostLength(tags[1..], g);
    }
  }

  /** Every percentage of the distribution lies between 0 and 100. */
  lemma DistributionPercentages(tags: seq<nat>)
    ensures forall e :: e in DistributionOf(tags) ==> 0 <= e.percentage <= 100
  {
    DistributionDescribes(tags);
    forall e | e in DistributionOf(tags) ensures 0 <= e.percentage <= 100 {
      OccurrencesAtMostLength(tags, e.id);
      PercentAtMost100(e.count, |tags|);
    }
  }

  /** The distribution is ranked: by count, descending, and among equal counts by ascending genre id. */
  lemma DistributionRanked(tags: seq<nat>)
    ensures Ranked(DistributionOf(tags))
  {
    var counts := CountsOf(tags);
    var ids := AscendingKeys(counts.Keys);
    var shares := Shares(ids, counts, |tags|);
    forall i, j | 0 <= i < j < |shares| ensures shares[i].id < shares[j].id {
      assert shares[i].id == ids[i] && shares[j].id == ids[j];
    }
    SortByCountRanked(shares);
  }

  /** The first genre of the distribution is the most frequent one, the smallest id among equally frequent ones. */
  lemma TopGenreIsMostFrequent(tags: seq<nat>, g: nat)
    requires g in tags
    ensures var d := DistributionOf(tags);
      && d != []
      && multiset(tags)[g] <= d[0].count
      && (multiset(tags)[g] == d[0].count ==> d[0].id <= g)
  {
    var d := DistributionOf(tags);
    DistributionEntries(tags);
    DistributionRanked(tags);
    var k :| 0 <= k < |d| && d[k].id == g;
    if k > 0 {
      assert Before(d[0], d[k]);
    }
  }

  // ---------------------------------------------------------------------
  // Genre affinity: the counting loops
  // ---------------------------------------------------------------------

  /** The tags of a prefix of the watchlist grow by one movie's genres. */
  lemma AllTagsStep(watchlist: seq<Movie>, i: nat)
    requires i < |watchlist|
    ensures AllTags(watchlist[..i + 1]) == AllTags(watchlist[..i]) + GenresOf(watchlist[i])
  {
    assert watchlist[..i + 1][..i] == watchlist[..i];
  }

  /** Counting the next genre of a movie. */
  lemma CountStep(before: seq<nat>, genres: seq<nat>, j: nat)
    requires j < |genres|
    ensures var counts := CountsOf(before + genres[..j]);
      CountsOf(before + genres[..j + 1]) == counts[genres[j] := (if genres[j] in counts then counts[genres[j]] else 0) + 1]
  {
    assert before + genres[..j + 1] == before + genres[..j] + [genres[j]];
    CountsAppend(before + genres[..j], genres[j]);
  }

  /** The affinity of a non-empty watchlist, from the counts of its tags. */
  lemma AffinityFromCounts(watchlist: seq<Movie>)
    requires watchlist != []
    ensures var tags := AllTags(watchlist);
      var counts := CountsOf(tags);
      && (forall i :: 0 <= i < |AscendingKeys(counts.Keys)| ==> AscendingKeys(counts.Keys)[i] in counts)
      && (|tags| > 0 || AscendingKeys(counts.Keys) == [])
      && var d := SortByCount(Shares(AscendingKeys(counts.Keys), counts, |tags|));
      GenreAffinityOf(watchlist) == GenreAffinity(Take(d, 3), d, |watchlist|)
  {
    var tags := AllTags(watchlist);
    var ids := AscendingKeys(CountsOf(tags).Keys);
    if ids != [] {
      assert ids[0] in tags;
    }
  }

  /**
   * The counting pass of `analyzeGenreAffinity`: every genre tag of every
   * movie adds one to `genreCounts[genreId]` and to `totalGenres`.
   */
  method CountGenres(watchlist: seq<Movie>) returns (genreCounts: map<nat, nat>, totalGenres: nat)
    ensures genreCounts == CountsOf(AllTags(watchlist))
    ensures totalGenres == |AllTags(watchlist)|
  {
    genreCounts := map[];
    totalGenres := 0;
    var i := 0;
    while i < |watchlist|
      invariant 0 <= i <= |watchlist|
      invariant genreCounts == CountsOf(AllTags(watchlist[..i]))
      invariant totalGenres == |AllTags(watchlist[..i])|
    {
      var genres := GenresOf(watchlist[i]);
      ghost var before := AllTags(watchlist[..i]);
      var j := 0;
      while j < |genres|
        invariant 0 <= j <= |genres|
        invariant genreCounts == CountsOf(before + genres[..j])
        invariant totalGenres == |before| + j
      {
        var genreId := genres[j];
        CountStep(before, genres, j);
        genreCounts := genreCounts[genreId := (if genreId in genreCounts then genreCounts[genreId] else 0) + 1];
        totalGenres := totalGenres + 1;
        j := j + 1;
      }
      assert genres[..|genres|] == genres;
      AllTagsStep(watchlist, i);
      i := i + 1;
    }
    assert watchlist[..|watchlist|] == watchlist;
  }

  /**
   * `analyzeGenreAffinity`: counts the genre tags, then lists the genres
   * with their percentages, ranked, and keeps the first three as the top
   * genres; an empty watchlist has no genres and no movies.
   */
  method AnalyzeGenreAffinity(watchlist: seq<Movie>) returns (affinity: GenreAffinity)
    ensures affinity == GenreAffinityOf(watchlist)
  {
    if |watchlist| == 0 {
      return GenreAffinity([], [], 0);
    }
    var genreCounts, totalGenres := CountGenres(watchlist);
    AffinityFromCounts(watchlist);
    var ids := AscendingKeys(genreCounts.Keys);
    var distribution := SortByCount(Shares(ids, genreCounts, totalGenres));
    affinity := GenreAffinity(Take(distribution, 3), distribution, |watchlist|);
  }

  // ---------------------------------------------------------------------
  // Rating preference
  // ---------------------------------------------------------------------

  /** The ratings `analyzeRatingPreference` averages: each movie's rating, zeros and negatives dropped. */
  function PositiveRatings(watchlist: seq<Movie>): (rs: seq<real>)
    ensures |rs| <= |watchlist|
    ensures forall i :: 0 <= i < |rs| ==> rs[i] > 0.0
    ensures forall i :: 0 <= i < |rs| ==> exists j :: 0 <= j < |watchlist| && RatingOf(watchlist[j]) == rs[i]
    ensures forall j :: 0 <= j < |watchlist| && RatingOf(watchlist[j]) > 0.0 ==> RatingOf(watchlist[j]) in rs
  {
    if watchlist == [] then []
    else (if RatingOf(watchlist[0]) > 0.0 then [RatingOf(watchlist[0])] else []) + PositiveRatings(watchlist[1..])
  }

  /**
   * One rating per movie, in order: the ratings of a list are those of its
   * parts.
   */
  lemma {:induction false} PositiveRatingsAppend(a: seq<Movie>, b: seq<Movie>)
    ensures PositiveRatings(a + b) == PositiveRatings(a) + PositiveRatings(b)
  {
    if a == [] {
      assert a + b == b;
    } else {
      assert (a + b)[1..] == a[1..] + b;
      PositiveRatingsAppend(a[1..], b);
    }
  }

  function SumReal(rs: seq<real>): real
  {
    if rs == [] then 0.0 else rs[0] + SumReal(rs[1..])
  }

  /** `Math.min(...rs)`. */
  function MinReal(rs: seq<real>): (m: real)
    requires rs != []
    ensures exists i :: 0 <= i < |rs| && rs[i] == m
    ensures forall i :: 0 <= i < |rs| ==> m <= rs[i]
  {
    if |rs| == 1 then rs[0]
    else
      var rest := MinReal(rs[1..]);
      assert forall i :: 1 <= i < |rs| ==> rs[i] == rs[1..][i - 1];
      if rs[0] <= rest then rs[0] else rest
  }

  /** `Math.max(...rs)`. */
  function MaxReal(rs: seq<real>): (m: real)
    requires rs != []
    ensures exists i :: 0 <= i < |rs| && rs[i] == m
    ensures forall i :: 0 <= i < |rs| ==> rs[i] <= m
  {
    if |rs| == 1 then rs[0]
    else
      var rest := MaxReal(rs[1..]);
      assert forall i :: 1 <= i < |rs| ==> rs[i] == rs[1..][i - 1];
      if rs[0] >= rest then rs[0] else rest
  }

  /** `n` copies of `x` added up. */
  function Multiple(n: nat, x: real): real
  {
    if n == 0 then 0.0 else x + Multiple(n - 1, x)
  }

  lemma {:induction false} MultipleIsProduct(n: nat, x: real)
    ensures Multiple(n, x) == n as real * x
  {
    if n > 0 {
      MultipleIsProduct(n - 1, x);
    }
  }

  /** A sum of values between `lo` and `hi` lies between `n` copies of `lo` and `n` copies of `hi`. */
  lemma {:induction false} SumRealBounds(rs: seq<real>, lo: real, hi: real)
    requires forall i :: 0 <= i < |rs| ==> lo <= rs[i] <= hi
    ensures Multiple(|rs|, lo) <= SumReal(rs) <= Multiple(|rs|, hi)
  {
    if rs != [] {
      assert forall i :: 0 <= i < |rs[1..]| ==> rs[1..][i] == rs[i + 1];
      SumRealBounds(rs[1..], lo, hi);
    }
  }

  /** A quotient by a positive count stays between the bounds its dividend has in multiples of that count. */
  lemma QuotientBetween(sum: real, n: nat, lo: real, hi: real)
    requires n > 0 && Multiple(n, lo) <= sum <= Multiple(n, hi)
    ensures lo <= sum / n as real <= hi
  {
    MultipleIsProduct(n, lo);
    MultipleIsProduct(n, hi);
    QuotientTimes(sum, n);
  }

  /** Dividing by a positive count and multiplying back gives the dividend. */
  lemma QuotientTimes(sum: real, n: nat)
    requires n > 0
    ensures (sum / n as real) * n as real == sum
  {
  }

  /** `n` copies of the mean add up to the sum. */
  lemma MeanTimesCount(sum: real, n: nat)
    requires n > 0
    ensures Multiple(n, sum / n as real) == sum
  {
    MultipleIsProduct(n, sum / n as real);
    QuotientTimes(sum, n);
  }

  /** The mean of some values lies between their extremes. */
  lemma MeanWithinRange(rs: seq<real>)
    requires rs != []
    ensures MinReal(rs) <= SumReal(rs) / |rs| as real <= MaxReal(rs)
  {
    SumRealBounds(rs, MinReal(rs), MaxReal(rs));
    QuotientBetween(SumReal(rs), |rs|, MinReal(rs), MaxReal(rs));
  }

  /** The mean of some ratings: counted once per rating it adds up to their sum, and it lies between their extremes. */
  function Mean(rs: seq<real>): (m: real)
    requires rs != []
    ensures Multiple(|rs|, m) == SumReal(rs)
    ensures MinReal(rs) <= m <= MaxReal(rs)
  {
    MeanWithinRange(rs);
    MeanTimesCount(SumReal(rs), |rs|);
    SumReal(rs) / |rs| as real
  }

  /** What `analyzeRatingPreference` returns; the extremes are absent when no rating counts. */
  datatype RatingPreference = RatingPreference(averageRating: real, preferHighRated: bool, minRating: Option<real>, maxRating: Option<real>)

  /**
   * `analyzeRatingPreference`: the mean of the positive ratings, whether it
   * reaches 7, and the extremes; 0 and no preference when no rating counts.
   */
  function AnalyzeRatingPreference(watchlist: seq<Movie>): (p: RatingPreference)
    ensures PositiveRatings(watchlist) == [] ==> p == RatingPreference(0.0, false, None, None)
    ensures PositiveRatings(watchlist) != [] ==>
      && Multiple(|PositiveRatings(watchlist)|, p.averageRating) == SumReal(PositiveRatings(watchlist))
      && p.minRating == Some(MinReal(PositiveRatings(watchlist)))
      && p.maxRating == Some(MaxReal(PositiveRatings(watchlist)))
      && p.minRating.value <= p.averageRating <= p.maxRating.value
      && (p.preferHighRated <==> p.averageRating >= 7.0)
  {
    var rs := PositiveRatings(watchlist);
    if rs == [] then RatingPreference(0.0, false, None, None)
    else
      var average := Mean(rs);
      RatingPreference(average, average >= 7.0, Some(MinReal(rs)), Some(MaxReal(rs)))
  }

  // ---------------------------------------------------------------------
  // Release-year preference
  // ---------------------------------------------------------------------

  /** The usable release years of the watchlist, in order. */
  function ReleaseYears(watchlist: seq<Movie>): (ys: seq<int>)
    ensures |ys| <= |watchlist|
    ensures forall i :: 0 <= i < |ys| ==> ys[i] != 0
  {
    if watchlist == [] then []
    else (if YearOf(watchlist[0]).Some? then [YearOf(watchlist[0]).value] else []) + ReleaseYears(watchlist[1..])
  }

  /**
   * One year per movie, in order: the years of a list are those of its
   * parts.
   */
  lemma {:induction false} ReleaseYearsAppend(a: seq<Movie>, b: seq<Movie>)
    ensures ReleaseYears(a + b) == ReleaseYears(a) + ReleaseYears(b)
  {
    if a == [] {
      assert a + b == b;
    } else {
      assert (a + b)[1..] == a[1..] + b;
      ReleaseYearsAppend(a[1..], b);
    }
  }

  function SumInt(ys: seq<int>): int
  {
    if ys == [] then 0 else ys[0] + SumInt(ys[1..])
  }

  function MinInt(ys: seq<int>): (m: int)
    requires ys != []
    ensures exists i :: 0 <= i < |ys| && ys[i] == m
    ensures forall i :: 0 <= i < |ys| ==> m <= ys[i]
  {
    if |ys| == 1 then ys[0]
    else
      var rest := MinInt(ys[1..]);
      assert forall i :: 1 <= i < |ys| ==> ys[i] == ys[1..][i - 1];
      if ys[0] <= rest then ys[0] else rest
  }

  function MaxInt(ys: seq<int>): (m: int)
    requires ys != []
    ensures exists i :: 0 <= i < |ys| && ys[i] == m
    ensures forall i :: 0 <= i < |ys| ==> ys[i] <= m
  {
    if |ys| == 1 then ys[0]
    else
      var rest := MaxInt(ys[1..]);
      assert forall i :: 1 <= i < |ys| ==> ys[i] == ys[1..][i - 1];
      if ys[0] >= rest then ys[0] else rest
  }

  lemma {:induction false} SumIntBounds(ys: seq<int>, lo: int, hi: int)
    requires forall i :: 0 <= i < |ys| ==> lo <= ys[i] <= hi
    ensures |ys| * lo <= SumInt(ys) <= |ys| * hi
  {
    if ys != [] {
      assert forall i :: 0 <= i < |ys[1..]| ==> ys[1..][i] == ys[i + 1];
      SumIntBounds(ys[1..], lo, hi);
    }
  }

  /** `Math.round(sum / n)`: the mean rounded half up. */
  function RoundedMean(sum: int, n: nat): (r: int)
    requires n > 0
    ensures 2 * n * r <= 2 * sum + n < 2 * n * (r + 1)
  {
    var r := (2 * sum + n) / (2 * n);
    var rem := (2 * sum + n) % (2 * n);
    assert 2 * sum + n == r * (2 * n) + rem;
    r
  }

  /** A rounded mean of values between `lo` and `hi` stays between them. */
  lemma RoundedMeanBetween(sum: int, n: nat, lo: int, hi: int)
    requires n > 0 && n * lo <= sum <= n * hi
    ensures lo <= RoundedMean(sum, n) <= hi
  {
    var r := RoundedMean(sum, n);
    if r < lo {
      MulMonotone(2 * n, r + 1, lo);
    }
    if r > hi {
      MulMonotone(2 * n, hi + 1, r);
    }
  }

  /** What `analyzeYearPreference` returns; the extremes are absent when no year is known. */
  datatype YearPreference = YearPreference(averageYear: int, preferRecent: bool, oldestYear: Option<int>, newestYear: Option<int>)

  /**
   * `analyzeYearPreference`: the rounded mean release year, whether it is
   * within five years of `currentYear`, and the extremes; the current year
   * and a preference for recent films when no year is known.
   */
  function AnalyzeYearPreference(watchlist: seq<Movie>, currentYear: int): (p: YearPreference)
    ensures ReleaseYears(watchlist) == [] ==> p == YearPreference(currentYear, true, None, None)
    ensures ReleaseYears(watchlist) != [] ==>
      var ys := ReleaseYears(watchlist);
      && 2 * |ys| * p.averageYear <= 2 * SumInt(ys) + |ys| < 2 * |ys| * (p.averageYear + 1)
      && p.oldestYear == Some(MinInt(ys)) && p.newestYear == Some(MaxInt(ys))
      && MinInt(ys) <= p.averageYear <= MaxInt(ys)
      && (p.preferRecent <==> p.averageYear >= currentYear - 5)
  {
    var ys := ReleaseYears(watchlist);
    if ys == [] then YearPreference(currentYear, true, None, None)
    else
      var average := RoundedMean(SumInt(ys), |ys|);
      assert MinInt(ys) <= average <= MaxInt(ys) by {
        SumIntBounds(ys, MinInt(ys), MaxInt(ys));
        RoundedMeanBetween(SumInt(ys), |ys|, MinInt(ys), MaxInt(ys));
      }
      YearPreference(average, average >= currentYear - 5, Some(MinInt(ys)), Some(MaxInt(ys)))
  }

  // ---------------------------------------------------------------------
  // Personalized recommendations
  // ---------------------------------------------------------------------

  /** The release-date constraint of a discovery query. */
  datatype YearFilter = NoYearFilter | ReleaseYear(year: int) | ReleasedSince(date: string)

  /** The parameters `getPersonalizedRecommendations` sends to discovery. */
  datatype DiscoverQuery = DiscoverQuery(
    withGenres: string,
    sortBy: string,
    page: nat,
    voteCountGte: nat,
    voteAverageGte: real,
    yearFilter: YearFilter)

  /** What discovery yields: a list of movies, or a failure (a thrown error). */
  datatype Discovered = Returned(movies: seq<Movie>) | Failed(message: string)

  datatype Reason = NotEnoughData | NoGenreData | Success | Error

  /** `basedOn`: what a successful recommendation was derived from. */
  datatype BasedOn = BasedOn(topGenre: string, secondaryGenre: Option<string>, preferredRating: real, preferRecent: bool)

  /** The result object; `error` carries the thrown error's message on the failure path. */
  datatype Recommendations = Recommendations(recommendations: seq<Movie>, reason: Reason, basedOn: Option<BasedOn>, error: Option<string>)

  /** The minimum number of watchlist movies recommendations need. */
  const MinimumWatchlist: nat := 3
  /** The number of recommendations kept. */
  const RecommendationLimit: nat := 8

  /** `with_genres`: the primary genre, or `primary,secondary` when a (truthy) second genre exists. */
  function GenresParam(topGenres: seq<GenreShare>): string
    requires topGenres != []
  {
    if |topGenres| >= 2 && topGenres[1].id != 0 then IntToDecimal(topGenres[0].id) + "," + IntToDecimal(topGenres[1].id)
    else IntToDecimal(topGenres[0].id)
  }

  /** The genre parameter starts with the primary genre: `parseInt` reads it back. */
  lemma GenresParamLeadsWithPrimary(topGenres: seq<GenreShare>)
    requires topGenres != []
    ensures ParseInt(GenresParam(topGenres)) == Some(topGenres[0].id as int)
  {
    if |topGenres| >= 2 && topGenres[1].id != 0 {
      var rest := "," + IntToDecimal(topGenres[1].id);
      assert GenresParam(topGenres) == IntToDecimal(topGenres[0].id) + rest;
      ParseIntOfDecimalThen(topGenres[0].id, rest);
    } else {
      ParseIntRoundTrip(topGenres[0].id);
    }
  }

  /** The ids of the movies the user already has: `m.id || m.imdbID` over watchlist and favorites. */
  function KnownIds(watchlist: seq<Movie>, favorites: seq<Movie>): (known: set<Key>)
    ensures forall m :: m in watchlist + favorites ==> KeyOf(m) in known
    ensures forall k :: k in known ==> exists m :: m in watchlist + favorites && KeyOf(m) == k
  {
    set m | m in watchlist + favorites :: KeyOf(m)
  }

  /** `movie => !watchedIds.has(movie.id)`: the raw `id` is compared, not the key. */
  function IdNotIn(known: set<Key>): Movie -> bool
  {
    (m: Movie) => m.id !in known
  }

  /** A non-empty watchlist has top genres exactly when some movie has a genre. */
  lemma TopGenresPresent(watchlist: seq<Movie>)
    requires watchlist != []
    ensures GenreAffinityOf(watchlist).topGenres != [] <==> AllTags(watchlist) != []
  {
    var tags := AllTags(watchlist);
    DistributionEntries(tags);
    if tags != [] {
      assert tags[0] in tags;
      assert Lists(DistributionOf(tags), tags[0]);
    }
  }

  /**
   * The release-date constraint: releases of this year for a user who
   * prefers recent films, otherwise releases from January 1st five years
   * before the average year (none when that average is 0).
   */
  function YearFilterFor(preferRecent: bool, averageYear: int, currentYear: int): YearFilter
  {
    if preferRecent then ReleaseYear(currentYear)
    else if averageYear != 0 then ReleasedSince(IntToDecimal(averageYear - 5) + "-01-01")
    else NoYearFilter
  }

  /** The `primary_release_date.gte` date is January 1st of the year five before the average: `parseInt` reads that year back. */
  lemma ReleasedSinceFiveYearsBefore(averageYear: int, currentYear: int)
    requires averageYear != 0
    ensures var f := YearFilterFor(false, averageYear, currentYear);
      && f.ReleasedSince?
      && ParseInt(f.date) == Some(averageYear - 5)
      && |f.date| >= 6 && f.date[|f.date| - 6..] == "-01-01"
  {
    var f := YearFilterFor(false, averageYear, currentYear);
    ParseIntOfDecimalThen(averageYear - 5, "-01-01");
    assert f.date[|f.date| - 6..] == "-01-01";
  }

  /**
   * The discover parameters: the favourite genres, best rated first, at
   * least 100 votes, a minimum average of 7 for a user who rates highly and
   * 6 otherwise, and a release-year filter from the year preference.
   */
  method BuildDiscoverQuery(topGenres: seq<GenreShare>, preferHighRated: bool, preferRecent: bool, averageYear: int, currentYear: int)
    returns (params: DiscoverQuery)
    requires topGenres != []
    ensures params.withGenres == GenresParam(topGenres)
    ensures params.sortBy == "vote_average.desc" && params.page == 1 && params.voteCountGte == 100
    ensures params.voteAverageGte == (if preferHighRated then 7.0 else 6.0)
    ensures params.yearFilter == YearFilterFor(preferRecent, averageYear, currentYear)
  {
    params := DiscoverQuery(GenresParam(topGenres), "vote_average.desc", 1, 100,
                            if preferHighRated then 7.0 else 6.0, NoYearFilter);
    if preferRecent {
      params := params.(yearFilter := ReleaseYear(currentYear));
    } else if averageYear != 0 {
      params := params.(yearFilter := ReleasedSince(IntToDecimal(averageYear - 5) + "-01-01"));
    }
  }

  /**
   * `getPersonalizedRecommendations` without the forced refresh: checks the
   * amount of data, analyses the watchlist, builds the discovery query step
   * by step, and keeps the first eight results the user does not already
   * have.  `discovered` is what discovery yields for the query; `query` is
   * the query sent, absent when discovery is not reached.
   */
  method GetPersonalizedRecommendations(watchlist: seq<Movie>, favorites: seq<Movie>, discovered: Discovered, currentYear: int)
    returns (result: Recommendations, query: Option<DiscoverQuery>)
    ensures |watchlist| < MinimumWatchlist ==> result == Recommendations([], NotEnoughData, None, None) && query == None
    ensures |watchlist| >= MinimumWatchlist && AllTags(watchlist) == [] ==>
      result == Recommendations([], NoGenreData, None, None) && query == None
    ensures |watchlist| >= MinimumWatchlist && AllTags(watchlist) != [] ==>
      var top := GenreAffinityOf(watchlist).topGenres;
      var rating := AnalyzeRatingPreference(watchlist);
      var years := AnalyzeYearPreference(watchlist, currentYear);
      && top != []
      && query.Some?
      && query.value.withGenres == GenresParam(top)
      && query.value.sortBy == "vote_average.desc" && query.value.page == 1
      && query.value.voteCountGte == 100
      && query.value.voteAverageGte == (if rating.preferHighRated then 7.0 else 6.0)
      && query.value.yearFilter == YearFilterFor(years.preferRecent, years.averageYear, currentYear)
      && (discovered.Failed? ==> result == Recommendations([], Error, None, Some(discovered.message)))
      && (discovered.Returned? ==>
            && result.reason == Success && result.error == None
            && result.recommendations == Take(Filter(discovered.movies, IdNotIn(KnownIds(watchlist, favorites))), RecommendationLimit)
            && result.basedOn == Some(BasedOn(top[0].name, if |top| >= 2 then Some(top[1].name) else None,
                                              rating.averageRating, years.preferRecent)))
  {
    if |watchlist| < MinimumWatchlist {
      return Recommendations([], NotEnoughData, None, None), None;
    }
    var affinity := AnalyzeGenreAffinity(watchlist);
    var topGenres := affinity.topGenres;
    var rating := AnalyzeRatingPreference(watchlist);
    var years := AnalyzeYearPreference(watchlist, currentYear);
    TopGenresPresent(watchlist);
    if |topGenres| == 0 {
      return Recommendations([], NoGenreData, None, None), None;
    }
    var params := BuildDiscoverQuery(topGenres, rating.preferHighRated, years.preferRecent, years.averageYear, currentYear);
    query := Some(params);
    match discovered
    case Failed(message) =>
      result := Recommendations([], Error, None, Some(message));
    case Returned(movies) =>
      var known := KnownIds(watchlist, favorites);
      var filtered := Filter(movies, IdNotIn(known));
      var secondary := if |topGenres| >= 2 then Some(topGenres[1].name) else None;
      result := Recommendations(Take(filtered, RecommendationLimit), Success,
                                Some(BasedOn(topGenres[0].name, secondary, rating.averageRating, years.preferRecent)), None);
  }

  /** The recommendations kept are returned movies the user does not have, at most eight, in the returned order. */
  lemma RecommendationsAreNew(watchlist: seq<Movie>, favorites: seq<Movie>, movies: seq<Movie>)
    ensures var r := Take(Filter(movies, IdNotIn(KnownIds(watchlist, favorites))), RecommendationLimit);
      && |r| <= RecommendationLimit
      && (forall i :: 0 <= i < |r| ==> r[i] in movies)
      && (forall i, m :: 0 <= i < |r| && m in watchlist + favorites ==> r[i].id != KeyOf(m))
  {
    var f := Filter(movies, IdNotIn(KnownIds(watchlist, favorites)));
    var r := Take(f, RecommendationLimit);
    forall i | 0 <= i < |r| ensures r[i] in movies && IdNotIn(KnownIds(watchlist, favorites))(r[i]) {
      assert r[i] == f[i];
    }
  }

  // ---------------------------------------------------------------------
  // Taste profile and explanation
  // ---------------------------------------------------------------------

  datatype TasteProfile = TasteProfile(
    totalMovies: nat,
    totalFavorites: nat,
    genreAffinity: GenreAffinity,
    ratingPreference: RatingPreference,
    yearPreference: YearPreference,
    hasEnoughData: bool)

  /** `getUserTasteProfile`: the three analyses and the collection sizes. */
  function UserTasteProfile(watchlist: seq<Movie>, favorites: seq<Movie>, currentYear: int): (p: TasteProfile)
    ensures p.hasEnoughData <==> |watchlist| >= MinimumWatchlist
    ensures p.totalMovies == p.genreAffinity.totalMovies == |watchlist|
    ensures p.totalFavorites == |favorites|
    ensures p.genreAffinity == GenreAffinityOf(watchlist)
    ensures p.ratingPreference == AnalyzeRatingPreference(watchlist)
    ensures p.yearPreference == AnalyzeYearPreference(watchlist, currentYear)
    ensures |p.genreAffinity.topGenres| <= 3
  {
    TasteProfile(|watchlist|, |favorites|, GenreAffinityOf(watchlist), AnalyzeRatingPreference(watchlist),
                 AnalyzeYearPreference(watchlist, currentYear), |watchlist| >= MinimumWatchlist)
  }

  /** The phrases of an explanation, for the truthy fields of `basedOn`, in order. */
  function ExplanationParts(basedOn: BasedOn): seq<string>
  {
    (if basedOn.topGenre != "" then ["you love " + basedOn.topGenre] else [])
    + (if basedOn.secondaryGenre.Some? && basedOn.secondaryGenre.value != "" then [basedOn.secondaryGenre.value + " movies"] else [])
    + (if basedOn.preferRecent then ["recent releases"] else [])
  }

  /** The explanation `getRecommendationExplanation` gives. */
  function ExplanationText(basedOn: Option<BasedOn>): string
  {
    if basedOn.None? then "Recommended for you"
    else if ExplanationParts(basedOn.value) == [] then "Based on your watchlist"
    else "Because " + Join(ExplanationParts(basedOn.value), " and ")
  }

  /** `getRecommendationExplanation`: collects the phrases in `parts` and joins them. */
  method GetRecommendationExplanation(basedOn: Option<BasedOn>) returns (text: string)
    ensures text == ExplanationText(basedOn)
  {
    if basedOn.None? {
      return "Recommended for you";
    }
    var b := basedOn.value;
    var parts: seq<string> := [];
    if b.topGenre != "" {
      parts := parts + ["you love " + b.topGenre];
    }
    if b.secondaryGenre.Some? && b.secondaryGenre.value != "" {
      parts := parts + [b.secondaryGenre.value + " movies"];
    }
    if b.preferRecent {
      parts := parts + ["recent releases"];
    }
    assert parts == ExplanationParts(b);
    if |parts| == 0 {
      return "Based on your watchlist";
    }
    text := "Because " + Join(parts, " and ");
  }

  /** A successful recommendation is explained by its top genre first. */
  lemma ExplanationNamesTopGenre(b: BasedOn)
    requires b.topGenre != ""
    ensures var t := ExplanationText(Some(b));
      var lead := "Because you love " + b.topGenre;
      |t| >= |lead| && t[..|lead|] == lead
  {
    var parts := ExplanationParts(b);
    assert parts[0] == "you love " + b.topGenre;
    JoinHead(parts, " and ");
  }

  /** No field of `basedOn` is truthy: no top genre, no (non-empty) second genre, no preference for recent films. */
  predicate NothingTruthy(b: BasedOn)
  {
    b.topGenre == "" && (b.secondaryGenre.None? || b.secondaryGenre.value == "") && !b.preferRecent
  }

  /** Without `basedOn` the text is generic; with no truthy field it falls back to the watchlist, and only then. */
  lemma ExplanationFallback(b: BasedOn)
    ensures ExplanationText(None) == "Recommended for you"
    ensures ExplanationText(Some(b)) == "Based on your watchlist" <==> NothingTruthy(b)
  {
    if !NothingTruthy(b) {
      ExplanationBecause(b);
      var t := ExplanationText(Some(b));
      assert t[2] == 'c';
    }
  }

  /** Any truthy field gives an explanation that starts with `Because `. */
  lemma ExplanationBecause(b: BasedOn)
    requires !NothingTruthy(b)
    ensures var t := ExplanationText(Some(b));
      |t| >= 8 && t[..8] == "Because "
  {
    var parts := ExplanationParts(b);
    assert parts != [] by {
      if b.topGenre != "" {
        assert parts[0] == "you love " + b.topGenre;
      } else if b.secondaryGenre.Some? && b.secondaryGenre.value != "" {
        assert parts[0] == b.secondaryGenre.value + " movies";
      } else {
        assert parts == ["recent releases"];
      }
    }
  }
}
