/**
 * The derivations of the movie detail page (`MovieDetails`): the streaming
 * link for a provider, the trailer chosen among the videos, the cast, crew,
 * similar and recommended lists cut from the fetched record, and the
 * watchlist and already-watched toggles, which act on the collection store.
 */
module MovieDetails {
  import opened Text
  import opened Seqs
  import opened Movies
  import opened WatchlistStore

  // ---------------------------------------------------------------------
  // Streaming links
  // ---------------------------------------------------------------------

  /** A search URL with the encoded search text between `prefix` and `suffix`. */
  datatype UrlTemplate = UrlTemplate(prefix: string, suffix: string)

  /** The `urls` table of `getStreamingUrl`, by provider name. */
  const ProviderUrls: map<string, UrlTemplate> := map[
    "Netflix" := UrlTemplate("https://www.netflix.com/search?q=", ""),
    "Amazon Prime Video" := UrlTemplate("https://www.primevideo.com/search/ref=atv_nb_sf?phrase=", ""),
    "Disney Plus" := UrlTemplate("https://www.disneyplus.com/search?q=", ""),
    "Disney+" := UrlTemplate("https://www.disneyplus.com/search?q=", ""),
    "Hotstar" := UrlTemplate("https://www.hotstar.com/in/search?q=", ""),
    "Apple TV" := UrlTemplate("https://tv.apple.com/search?q=", ""),
    "Apple TV Plus" := UrlTemplate("https://tv.apple.com/search?q=", ""),
    "Hulu" := UrlTemplate("https://www.hulu.com/search?q=", ""),
    "HBO Max" := UrlTemplate("https://www.hbomax.com/search?q=", ""),
    "Paramount Plus" := UrlTemplate("https://www.paramountplus.com/search/?query=", ""),
    "Peacock" := UrlTemplate("https://www.peacocktv.com/search?q=", ""),
    "YouTube" := UrlTemplate("https://www.youtube.com/results?search_query=", ""),
    "Google Play Movies" := UrlTemplate("https://play.google.com/store/search?q=", "&c=movies"),
    "Apple iTunes" := UrlTemplate("https://www.apple.com/search/", ""),
    "Zee5" := UrlTemplate("https://www.zee5.com/search?q=", ""),
    "SonyLIV" := UrlTemplate("https://www.sonyliv.com/search?searchQuery=", ""),
    "Voot" := UrlTemplate("https://www.voot.com/search?q=", ""),
    "Jio Cinema" := UrlTemplate("https://www.jiocinema.com/search?q=", ""),
    "MX Player" := UrlTemplate("https://www.mxplayer.in/search?q=", "")]

  /** The web search used for a provider the table does not list. */
  const FallbackUrl: UrlTemplate := UrlTemplate("https://www.google.com/search?q=watch+", "+online")

  /** `${movieTitle} ${movieYear || ''}`: the text searched for. */
  function SearchText(movieTitle: string, movieYear: Option<string>): string
  {
    movieTitle + " " + movieYear.GetOr("")
  }

  /**
   * `getStreamingUrl`: the provider's search page for the encoded title and
   * year, or a web search for "watch … online" when the provider is not in
   * the table.
   */
  function StreamingUrl(providerName: string, movieTitle: string, movieYear: Option<string>): (url: string)
    ensures var encoded := EncodeUriComponent(SearchText(movieTitle, movieYear));
      && (providerName in ProviderUrls ==>
            url == ProviderUrls[providerName].prefix + encoded + ProviderUrls[providerName].suffix)
      && (providerName !in ProviderUrls ==>
            url == "https://www.google.com/search?q=watch+" + encoded + "+online")
  {
    var template := if providerName in ProviderUrls then ProviderUrls[providerName] else FallbackUrl;
    template.prefix + EncodeUriComponent(SearchText(movieTitle, movieYear)) + template.suffix
  }

  /** The search part of every link is exactly the encoded search text, made of URL-safe characters only. */
  lemma StreamingUrlIsSafe(providerName: string, movieTitle: string, movieYear: Option<string>)
    ensures var url := StreamingUrl(providerName, movieTitle, movieYear);
      var template := if providerName in ProviderUrls then ProviderUrls[providerName] else FallbackUrl;
      var encoded := EncodeUriComponent(SearchText(movieTitle, movieYear));
      && url == template.prefix + encoded + template.suffix
      && (forall i :: |template.prefix| <= i < |template.prefix| + |encoded| ==> IsUrlSafe(url[i]))
  {
    var url := StreamingUrl(providerName, movieTitle, movieYear);
    var template := if providerName in ProviderUrls then ProviderUrls[providerName] else FallbackUrl;
    var encoded := EncodeUriComponent(SearchText(movieTitle, movieYear));
    assert url == template.prefix + encoded + template.suffix;
    forall i | |template.prefix| <= i < |template.prefix| + |encoded| ensures IsUrlSafe(url[i]) {
      assert url[i] == encoded[i - |template.prefix|];
    }
  }

  /** The alternative spellings of a provider lead to the same page. */
  lemma ProviderAliases(movieTitle: string, movieYear: Option<string>)
    ensures StreamingUrl("Disney Plus", movieTitle, movieYear) == StreamingUrl("Disney+", movieTitle, movieYear)
    ensures StreamingUrl("Apple TV", movieTitle, movieYear) == StreamingUrl("Apple TV Plus", movieTitle, movieYear)
  {
  }

  // ---------------------------------------------------------------------
  // The fetched record and what the page keeps of it
  // ---------------------------------------------------------------------

  datatype Video = Video(key: string, kind: string, site: string)

  datatype CastMember = CastMember(id: Key, name: string, character: string)

  datatype CrewMember = CrewMember(id: Key, name: string, job: string)

  /** The `credits` object: each list may be absent. */
  datatype Credits = Credits(cast: Option<seq<CastMember>>, crew: Option<seq<CrewMember>>)

  /**
   * The record `getMovieDetails` returns: the movie and its appended
   * objects; `None` stands for an absent object or one without `results`.
   */
  datatype MovieData = MovieData(
    movie: Movie,
    videos: Option<seq<Video>>,
    credits: Option<Credits>,
    similar: Option<seq<Movie>>,
    recommendations: Option<seq<Movie>>)

  /** `video.type === 'Trailer' && video.site === 'YouTube'`. */
  predicate IsYouTubeTrailer(v: Video)
  {
    v.kind == "Trailer" && v.site == "YouTube"
  }

  /** `videos.find(IsYouTubeTrailer)`. */
  function FindTrailer(videos: seq<Video>): (r: Option<nat>)
    ensures r.Some? ==> r.value < |videos| && IsYouTubeTrailer(videos[r.value])
    ensures r.Some? ==> forall k :: 0 <= k < r.value ==> !IsYouTubeTrailer(videos[k])
    ensures r.None? ==> forall k :: 0 <= k < |videos| ==> !IsYouTubeTrailer(videos[k])
  {
    if videos == [] then None
    else if IsYouTubeTrailer(videos[0]) then Some(0)
    else match FindTrailer(videos[1..])
      case None => None
      case Some(i) => Some(i + 1)
  }

  /**
   * The trailer shown: the first YouTube trailer, otherwise the first video
   * of any kind, and none when there is no video list or it is empty.
   */
  function SelectTrailer(videos: Option<seq<Video>>): (t: Option<Video>)
    ensures videos.None? || videos.value == [] ==> t.None?
    ensures videos.Some? && videos.value != [] ==> t.Some? && t.value in videos.value
    ensures t.Some? && IsYouTubeTrailer(t.value) ==> FindTrailer(videos.value).Some?
    ensures videos.Some? && FindTrailer(videos.value).Some? ==>
      t == Some(videos.value[FindTrailer(videos.value).value])
    ensures videos.Some? && videos.value != [] && FindTrailer(videos.value).None? ==> t == Some(videos.value[0])
  {
    match videos
    case None => None
    case Some(vs) =>
      match FindTrailer(vs)
      case Some(i) => Some(vs[i])
      case None => if vs == [] then None else Some(vs[0])
  }

  /** The number of cast members, crew members, similar movies and recommendations shown. */
  const ShownLimit: nat := 4

  /** `keyCrewRoles.includes(person.job)`. */
  predicate IsKeyRole(person: CrewMember)
  {
    person.job in ["Director", "Producer", "Writer", "Screenplay"]
  }

  /** `self.findIndex(p => p.id === id)`: the first index with that id, -1 when none. */
  function FirstIndex(s: seq<CrewMember>, id: Key): (i: int)
    ensures -1 <= i < |s|
    ensures i >= 0 ==> s[i].id == id && forall k :: 0 <= k < i ==> s[k].id != id
    ensures i == -1 ==> forall k :: 0 <= k < |s| ==> s[k].id != id
  {
    if s == [] then -1
    else if s[0].id == id then 0
    else
      var r := FirstIndex(s[1..], id);
      if r == -1 then -1 else r + 1
  }

  /** The entries from index `from` on that are the first of their id: `filter((p, index, self) => index === self.findIndex(...))`. */
  function FirstOfEachFrom(s: seq<CrewMember>, from: nat): seq<CrewMember>
    requires from <= |s|
    decreases |s| - from
  {
    if from == |s| then []
    else (if FirstIndex(s, s[from].id) == from then [s[from]] else []) + FirstOfEachFrom(s, from + 1)
  }

  /** One entry per id: the first occurrence, in the original order. */
  function FirstOfEach(s: seq<CrewMember>): seq<CrewMember>
  {
    FirstOfEachFrom(s, 0)
  }

  /** `x` is the first entry of its id in `s`, at index `from` or later. */
  predicate IsFirstFrom(s: seq<CrewMember>, x: CrewMember, from: nat)
  {
    from <= FirstIndex(s, x.id) && x == s[FirstIndex(s, x.id)]
  }

  /** Every entry kept from index `from` on is the first entry of its id, at or after `from`. */
  lemma {:induction false} FirstOfEachFromAreFirst(s: seq<CrewMember>, from: nat)
    requires from <= |s|
    ensures forall x :: x in FirstOfEachFrom(s, from) ==> IsFirstFrom(s, x, from)
    decreases |s| - from
  {
    if from < |s| {
      FirstOfEachFromAreFirst(s, from + 1);
      var rest := FirstOfEachFrom(s, from + 1);
      var head: seq<CrewMember> := if FirstIndex(s, s[from].id) == from then [s[from]] else [];
      assert FirstOfEachFrom(s, from) == head + rest;
      forall x | x in head + rest ensures IsFirstFrom(s, x, from) {
        if x in rest {
          assert IsFirstFrom(s, x, from + 1);
        }
      }
    }
  }

  /** The entries of `r` come in the order of their ids' first occurrences in `s`. */
  predicate InFirstOrder(s: seq<CrewMember>, r: seq<CrewMember>)
  {
    forall i, j :: 0 <= i < j < |r| ==> FirstIndex(s, r[i].id) < FirstIndex(s, r[j].id)
  }

  /** The entries kept from index `from` on come in the order of their first occurrences. */
  lemma {:induction false} FirstOfEachFromOrdered(s: seq<CrewMember>, from: nat)
    requires from <= |s|
    ensures InFirstOrder(s, FirstOfEachFrom(s, from))
    decreases |s| - from
  {
    if from < |s| {
      FirstOfEachFromOrdered(s, from + 1);
      FirstOfEachFromAreFirst(s, from + 1);
      var rest := FirstOfEachFrom(s, from + 1);
      var head: seq<CrewMember> := if FirstIndex(s, s[from].id) == from then [s[from]] else [];
      var r := head + rest;
      assert r == FirstOfEachFrom(s, from);
      forall i, j | 0 <= i < j < |r| ensures FirstIndex(s, r[i].id) < FirstIndex(s, r[j].id) {
        assert r[j] == rest[j - |head|];
        if i >= |head| {
          assert r[i] == rest[i - |head|];
          assert InFirstOrder(s, rest);
        } else {
          assert r[i] == s[from];
          assert IsFirstFrom(s, r[j], from + 1);
        }
      }
    }
  }

  /** Every entry at or after `from` that is the first of its id is kept. */
  lemma {:induction false} FirstOfEachFromComplete(s: seq<CrewMember>, from: nat)
    requires from <= |s|
    ensures var r := FirstOfEachFrom(s, from);
      forall k :: from <= k < |s| && FirstIndex(s, s[k].id) == k ==> s[k] in r
    decreases |s| - from
  {
    if from < |s| {
      FirstOfEachFromComplete(s, from + 1);
      var rest := FirstOfEachFrom(s, from + 1);
      var head: seq<CrewMember> := if FirstIndex(s, s[from].id) == from then [s[from]] else [];
      var r := head + rest;
      assert r == FirstOfEachFrom(s, from);
      forall k | from <= k < |s| && FirstIndex(s, s[k].id) == k ensures s[k] in r {
        if k > from {
          assert s[k] in rest;
        } else {
          assert r[0] == s[k];
        }
      }
    }
  }

  /** The deduplicated list: entries of `s`, distinct ids, first occurrences in original order, every id of `s` present. */
  lemma FirstOfEachFacts(s: seq<CrewMember>)
    ensures var r := FirstOfEach(s);
      && (forall k :: 0 <= k < |r| ==> r[k] in s && FirstIndex(s, r[k].id) >= 0 && r[k] == s[FirstIndex(s, r[k].id)])
      && (forall i, j :: 0 <= i < j < |r| ==> FirstIndex(s, r[i].id) < FirstIndex(s, r[j].id) && r[i].id != r[j].id)
      && (forall k :: 0 <= k < |s| ==> exists j :: 0 <= j < |r| && r[j].id == s[k].id)
  {
    var r := FirstOfEach(s);
    FirstOfEachFromAreFirst(s, 0);
    FirstOfEachFromOrdered(s, 0);
    FirstOfEachFromComplete(s, 0);
    forall k | 0 <= k < |r| ensures r[k] in s && FirstIndex(s, r[k].id) >= 0 && r[k] == s[FirstIndex(s, r[k].id)] {
      assert IsFirstFrom(s, r[k], 0);
    }
    forall i, j | 0 <= i < j < |r| ensures FirstIndex(s, r[i].id) < FirstIndex(s, r[j].id) && r[i].id != r[j].id {
      assert InFirstOrder(s, r);
    }
    forall k | 0 <= k < |s| ensures exists j :: 0 <= j < |r| && r[j].id == s[k].id {
      var f := FirstIndex(s, s[k].id);
      assert FirstIndex(s, s[f].id) == f;
      assert s[f] in r;
      var j :| 0 <= j < |r| && r[j] == s[f];
    }
  }

  /** The crew shown: key roles only, one entry per person id, at most four. */
  function KeyCrew(crew: seq<CrewMember>): (r: seq<CrewMember>)
    ensures |r| <= ShownLimit
    ensures forall k :: 0 <= k < |r| ==> r[k] in crew && IsKeyRole(r[k])
    ensures forall i, j :: 0 <= i < j < |r| ==> r[i].id != r[j].id
    ensures r == Take(FirstOfEach(Filter(crew, IsKeyRole)), ShownLimit)
  {
    var keyCrew := Filter(crew, IsKeyRole);
    var unique := FirstOfEach(keyCrew);
    FirstOfEachFacts(keyCrew);
    var r := Take(unique, ShownLimit);
    assert forall k :: 0 <= k < |r| ==> r[k] == unique[k];
    r
  }

  /** When fewer than four people hold key roles, every one of them is shown. */
  lemma KeyCrewComplete(crew: seq<CrewMember>, k: nat)
    requires k < |crew| && IsKeyRole(crew[k])
    requires |FirstOfEach(Filter(crew, IsKeyRole))| <= ShownLimit
    ensures exists j :: 0 <= j < |KeyCrew(crew)| && KeyCrew(crew)[j].id == crew[k].id
  {
    var keyCrew := Filter(crew, IsKeyRole);
    FirstOfEachFacts(keyCrew);
    assert crew[k] in keyCrew;
    var i :| 0 <= i < |keyCrew| && keyCrew[i] == crew[k];
    assert KeyCrew(crew) == FirstOfEach(keyCrew);
  }

  /**
   * The page's state: the movie (`null` before the first load), the rating
   * read, the trailer and the lists shown.
   */
  datatype DetailsView = DetailsView(
    movie: Option<Movie>,
    userRating: int,
    trailer: Option<Video>,
    cast: seq<CastMember>,
    crew: seq<CrewMember>,
    similarMovies: seq<Movie>,
    recommendations: seq<Movie>)

  /** The state a freshly mounted page starts from. */
  const InitialView: DetailsView := DetailsView(None, 0, None, [], [], [], [])

  /**
   * `fetchMovieData`: `fetched` is what `getMovieDetails(routeId)` yields
   * (`None`: it threw, and the page navigates home).  `previous` is the
   * page's state before the load: the page stays mounted when the route
   * moves to another movie.  On success the page reads the user's rating for
   * the route id, records the movie as recently viewed at time `now`, and
   * sets each part it shows from the record; a part whose object is absent
   * keeps its previous value.
   */
  method FetchMovieData(store: Store, previous: DetailsView, routeId: string, fetched: Option<MovieData>, now: int)
    returns (view: Option<DetailsView>)
    modifies store
    ensures fetched.None? ==> view.None? && store.State() == old(store.State()) && store.persisted == old(store.persisted)
    ensures fetched.Some? ==>
      var data := fetched.value;
      && view.Some?
      && view.value.movie == Some(data.movie)
      && view.value.userRating == old(store.GetRating(Str(routeId)))
      && view.value.trailer == (if data.videos.Some? then SelectTrailer(data.videos) else previous.trailer)
      && view.value.cast == (if data.credits.None? then previous.cast
                             else if data.credits.value.cast.Some? then Take(data.credits.value.cast.value, ShownLimit) else [])
      && view.value.crew == (if data.credits.None? then previous.crew
                             else if data.credits.value.crew.Some? then KeyCrew(data.credits.value.crew.value) else [])
      && view.value.similarMovies == (if data.similar.Some? then Take(data.similar.value, ShownLimit) else previous.similarMovies)
      && view.value.recommendations == (if data.recommendations.Some? then Take(data.recommendations.value, ShownLimit) else previous.recommendations)
      && store.recentlyViewed == MoveToFront(old(store.recentlyViewed), data.movie.(viewedAt := Some(now)), KeyOf, RecentlyViewedLimit)
      && store.State() == old(store.State()).(recentlyViewed := store.recentlyViewed)
      && store.Valid()
  {
    if fetched.None? {
      return None;
    }
    var data := fetched.value;
    var userRating := store.GetRating(Str(routeId));
    store.AddToRecentlyViewed(data.movie, now);
    var trailer := previous.trailer;
    if data.videos.Some? {
      trailer := SelectTrailer(data.videos);
    }
    var cast := previous.cast;
    var crew := previous.crew;
    if data.credits.Some? {
      cast := if data.credits.value.cast.Some? then Take(data.credits.value.cast.value, ShownLimit) else [];
      crew := if data.credits.value.crew.Some? then KeyCrew(data.credits.value.crew.value) else [];
    }
    var similarMovies := previous.similarMovies;
    if data.similar.Some? {
      similarMovies := Take(data.similar.value, ShownLimit);
    }
    var recommendations := previous.recommendations;
    if data.recommendations.Some? {
      recommendations := Take(data.recommendations.value, ShownLimit);
    }
    view := Some(DetailsView(Some(data.movie), userRating, trailer, cast, crew, similarMovies, recommendations));
  }

  // ---------------------------------------------------------------------
  // Toggles
  // ---------------------------------------------------------------------

  /** `movie.id || movie.imdbID` is the key of the copy the toggles add. */
  lemma KeyOfKeyedCopy(movie: Movie)
    ensures KeyOf(movie.(id := KeyOf(movie))) == KeyOf(movie)
  {
  }

  /**
   * `handleWatchlistToggle`: removes the movie's key from the watchlist when
   * it is listed, otherwise adds the movie (with `id` set to its key).
   * Returns whether it was added.
   */
  method WatchlistToggle(store: Store, movie: Movie) returns (added: bool)
    requires store.Valid()
    modifies store
    ensures store.Valid()
    ensures added <==> !old(store.IsInWatchlist(KeyOf(movie)))
    ensures store.IsInWatchlist(KeyOf(movie)) <==> !old(store.IsInWatchlist(KeyOf(movie)))
    ensures store.watchlist == if added then old(store.watchlist) + [movie.(id := KeyOf(movie))]
                               else WithoutKey(old(store.watchlist), KeyOf(movie))
    ensures store.State() == old(store.State()).(watchlist := store.watchlist)
  {
    var movieId := KeyOf(movie);
    var inList := store.IsInWatchlist(movieId);
    if inList {
      store.RemoveFromWatchlist(movieId);
      added := false;
    } else {
      KeyOfKeyedCopy(movie);
      added := store.AddToWatchlist(movie.(id := movieId));
    }
  }

  /**
   * `handleAlreadyWatchedToggle`: removes the movie's key from the
   * already-watched list when it is listed, otherwise marks the movie (with
   * `id` set to its key) as watched at time `now`.  Returns whether it was
   * marked.
   */
  method AlreadyWatchedToggle(store: Store, movie: Movie, now: int) returns (marked: bool)
    requires store.Valid()
    modifies store
    ensures store.Valid()
    ensures marked <==> !old(store.IsInAlreadyWatched(KeyOf(movie)))
    ensures store.IsInAlreadyWatched(KeyOf(movie)) <==> !old(store.IsInAlreadyWatched(KeyOf(movie)))
    ensures store.alreadyWatched == if marked then [movie.(id := KeyOf(movie), watchedAt := Some(now))] + old(store.alreadyWatched)
                                    else WithoutKey(old(store.alreadyWatched), KeyOf(movie))
    ensures store.State() == old(store.State()).(alreadyWatched := store.alreadyWatched)
  {
    var movieId := KeyOf(movie);
    var isWatched := store.IsInAlreadyWatched(movieId);
    if isWatched {
      store.RemoveFromAlreadyWatched(movieId);
      marked := false;
    } else {
      KeyOfKeyedCopy(movie);
      store.AddToAlreadyWatched(movie.(id := movieId), now);
      marked := true;
    }
  }
}
