/**
 * The movie record the personal collections and the recommendation engine
 * work on, and its identifying key `m.id || m.imdbID`.
 */
module Movies {
  import opened Text
  import opened Seqs

  /** An identifier as JavaScript compares it with `===`: a number, a string, or `undefined`. */
  datatype Key = Undefined | Num(n: int) | Str(s: string)

  /** JavaScript truthiness of an identifier: `0`, `""` and `undefined` are falsy. */
  predicate Truthy(k: Key)
  {
    match k
    case Undefined => false
    case Num(n) => n != 0
    case Str(s) => s != ""
  }

  /** `release_date` as `new Date(...).getFullYear()` sees it: absent, or a year (`None` for an invalid date). */
  datatype ReleaseDate = NoReleaseDate | ReleaseDate(year: Option<int>)

  /**
   * A movie record from the catalogue (TMDb fields `id`, `genre_ids`,
   * `genres`, `vote_average`, `release_date`; OMDb fields `imdbID`,
   * `imdbRating`, `Year`) plus the timestamps the store adds.
   */
  datatype Movie = Movie(
    id: Key,
    imdbId: Key,
    title: string,
    genreIds: Option<seq<nat>>,
    genres: Option<seq<nat>>,
    voteAverage: Option<real>,
    imdbRating: Option<string>,
    releaseDate: ReleaseDate,
    yearText: Option<string>,
    viewedAt: Option<int>,
    watchedAt: Option<int>)

  /** `m.id || m.imdbID`: the key every collection deduplicates by. */
  function KeyOf(m: Movie): Key
  {
    if Truthy(m.id) then m.id else m.imdbId
  }

  /** The property name a key becomes when it indexes a plain object (`ratings[id]`). */
  function PropertyKey(k: Key): string
  {
    match k
    case Undefined => "undefined"
    case Num(n) => IntToDecimal(n)
    case Str(s) => s
  }

  /** Two numeric ids index the same rating only when they are equal. */
  lemma PropertyKeyOfNumbers(a: int, b: int)
    requires a != b
    ensures PropertyKey(Num(a)) != PropertyKey(Num(b))
  {
    if PropertyKey(Num(a)) == PropertyKey(Num(b)) {
      IntToDecimalInjective(a, b);
    }
  }

  /** A numeric id and its decimal text (a route parameter) index the same rating. */
  lemma PropertyKeyCoercion(n: int)
    ensures PropertyKey(Num(n)) == PropertyKey(Str(IntToDecimal(n)))
  {
  }

  /** `s.some(m => (m.id || m.imdbID) === k)` (also `s.find(...)`, whose hits are truthy records). */
  predicate HasKey(s: seq<Movie>, k: Key)
    ensures HasKey(s, k) <==> exists i :: 0 <= i < |s| && KeyOf(s[i]) == k
  {
    if s == [] then false
    else KeyOf(s[0]) == k || HasKey(s[1..], k)
  }

  /** `s.filter(m => (m.id || m.imdbID) !== k)`. */
  function WithoutKey(s: seq<Movie>, k: Key): (r: seq<Movie>)
    ensures !HasKey(r, k)
    ensures forall i :: 0 <= i < |s| && KeyOf(s[i]) != k ==> s[i] in r
    ensures forall i :: 0 <= i < |r| ==> r[i] in s
    ensures !HasKey(s, k) ==> r == s
  {
    var r := Filter(s, KeyIsNot(KeyOf, k));
    assert !HasKey(s, k) ==> r == s by {
      if !HasKey(s, k) {
        FilterKeepsAll(s, KeyIsNot(KeyOf, k));
      }
    }
    r
  }

  /** `movie.genre_ids || movie.genres?.map(g => g.id) || []`. */
  function GenresOf(m: Movie): seq<nat>
  {
    if m.genreIds.Some? then m.genreIds.value
    else if m.genres.Some? then m.genres.value
    else []
  }

  /**
   * `m.vote_average || parseFloat(m.imdbRating) || 0`: the first non-zero
   * finite rating, else 0.
   */
  function RatingOf(m: Movie): real
  {
    if m.voteAverage.Some? && m.voteAverage.value != 0.0 then m.voteAverage.value
    else if m.imdbRating.Some? && ParseFloat(m.imdbRating.value).Finite?
            && ParseFloat(m.imdbRating.value).value != 0.0 then
      ParseFloat(m.imdbRating.value).value
    else 0.0
  }

  /**
   * The release year the year analysis uses: the year of `release_date`
   * when there is one, else `parseInt(m.Year)`, and nothing when that year
   * is 0 or NaN (the `y && !isNaN(y)` filter).
   */
  function YearOf(m: Movie): (y: Option<int>)
    ensures y.Some? ==> y.value != 0
  {
    match m.releaseDate
    case ReleaseDate(year) =>
      if year.Some? && year.value != 0 then year else None
    case NoReleaseDate =>
      if m.yearText.Some? && m.yearText.value != "" then
        var parsed := ParseInt(m.yearText.value);
        if parsed.Some? && parsed.value != 0 then parsed else None
      else None
  }
}
