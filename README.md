# CineVault core, modelled in Dafny

CineVault is a React single-page application for browsing films. Its data
comes from TMDb and OMDb. This project models the logic inside it that does
not depend on the network or the screen, and proves properties of that
logic:

- **the personal collection store** (`useWatchlistStore`): the watchlist,
  favorites, recently-viewed and already-watched lists and the rating map.
  Every change is mirrored to browser storage.
- **the recommendation engine** (`recommendations.js`):
  - genre counting and ranking;
  - the rating and release-year preferences;
  - the gating and discovery-query rules of personalised recommendations;
  - the taste profile and the explanation text.
- **the page selector** (`Pagination`): the list of page buttons and `...`
  markers, and the navigation guards.
- **the formatting helpers**: runtime text, truncation, the year list,
  rating validation and the rating colour scale.
- **the theme store**, the **recent-searches list and search box** of the
  navigation bar, and the **featured-movie carousel** index arithmetic.
- **the movie-details page derivations**:
  - streaming links;
  - trailer, cast, crew, similar movies and recommendations;
  - the watchlist and already-watched toggles.

## Layout

| file | module | models |
|---|---|---|
| `seqs.dfy` | `Seqs` | `filter`, `slice(0, n)`, and the move-to-front-and-cap idiom |
| `text.dfy` | `Text` | `trim`, `join`, `String(n)`, `parseInt`, `parseFloat`, `encodeURIComponent` |
| `movies.dfy` | `Movies` | the movie record, the key `m.id \|\| m.imdbID`, property-name coercion |
| `watchlist_store.dfy` | `WatchlistStore` | `src/store/watchlistStore.js` (class `Store`) |
| `recommendations.dfy` | `Recommendations` | `src/utils/recommendations.js` |
| `pagination.dfy` | `Pagination` | `src/components/Pagination.jsx` |
| `helpers.dfy` | `Helpers` | `src/utils/helpers.js` |
| `theme_store.dfy` | `ThemeStore` | `src/store/themeStore.js` (class `Theme`) |
| `navbar.dfy` | `Navbar` | the search box of `src/components/Navbar.jsx` (class `SearchBox`) |
| `hero_section.dfy` | `HeroSection` | `src/components/HeroSection.jsx` (class `Carousel`) |
| `movie_details.dfy` | `MovieDetails` | `src/pages/MovieDetails.jsx` |

Code that changes state in place is modelled as a Dafny `class` whose fields
the methods reassign, with a ghost field `persisted` for what browser
storage holds. This covers the Zustand stores, the component state of the
search box and the carousel, and the toggles of the details page. Loops
become `while` loops with invariants:
- the genre counting in `analyzeGenreAffinity`;
- the page list of `getPageNumbers`;
- `getYearRange`.

Pure expressions become functions, and the promised properties are lemmas
about them.

Inputs from the outside world are parameters:
- the current time (`Date.now()`) and the current year;
- what storage yields on start-up;
- what the TMDb discover call, the movie-details call and the search call
  return.

### Where the code and its description differ

The model follows the code in each case.

- **Ties between equally frequent genres.** The genre counts are kept in a
  plain object. `Object.entries` lists its integer keys in ascending order,
  and `Array.prototype.sort` is stable. So genres with the same count come
  out in **ascending genre id**, not in the order first seen.
  `Recommendations.DistributionRanked` proves this order.
- **`getRating`** reads `ratings[id] || 0`. A key is coerced to a property
  name, so the number `550` and the string `"550"` share one rating (see
  `Movies.PropertyKeyCoercion`).
- **`with_genres`** is the text `"primary,secondary"` only when a second genre
  exists and its id is truthy (not 0). Otherwise it is the primary id alone.
- **The already-watched list** is left completely unchanged when the movie
  is already present: no new timestamp, no reordering, no save.

## Model

| member | source | states |
|---|---|---|
| `Movies.HasKey` | src/store/watchlistStore.js:59-61 | `some(m => (m.id \|\| m.imdbID) === k)` holds exactly when some entry's key is `k` |
| `Movies.WithoutKey` | src/store/watchlistStore.js:52 | filtering by key removes every entry with that key. It keeps every other entry, adds nothing, and is the identity when the key is absent |
| `Movies.PropertyKeyOfNumbers` | src/store/watchlistStore.js:94 | distinct numeric ids index distinct ratings |
| `Movies.PropertyKeyCoercion` | src/store/watchlistStore.js:101-103 | a numeric id and its decimal text index the same rating |
| `Movies.YearOf` | src/utils/recommendations.js:106-112 | a usable release year is never 0 (the `y && !isNaN(y)` filter) |
| `Seqs.Filter` | src/utils/recommendations.js:193 | the result is no longer than the input. It holds exactly the input's elements that satisfy the predicate |
| `Seqs.Take` | src/utils/recommendations.js:197 | `slice(0, n)` is the prefix of length `min(n, len)` (none for `n <= 0`) |
| `Seqs.FilterAppend` | src/components/Navbar.jsx:74 | filtering distributes over concatenation, so relative order is kept |
| `Seqs.FilterKeepsAll` | src/store/watchlistStore.js:52 | a filter that rejects nothing is the identity |
| `Seqs.FilterKeepsUnique` | src/store/watchlistStore.js:52 | filtering a list whose keys are unique leaves them unique |
| `Seqs.MoveToFrontShape` | src/store/watchlistStore.js:111-114 | move-to-front puts the element first and caps the length. No later entry shares its key, and the rest is the old list without that key, in order, truncated |
| `Seqs.MoveToFrontUnique` | src/components/Navbar.jsx:74 | move-to-front keeps keys unique |
| `Text.Trim` | src/components/Navbar.jsx:81-82 | `trim()` is no longer than its input and neither starts nor ends with white space |
| `Text.TrimIdempotent` | src/components/Navbar.jsx:81-82 | trimming twice is trimming once |
| `Text.TrimSpan` | src/utils/helpers.js:56 | `trim()` keeps `s[i..j]` and removes only the white space before `i` and from `j` on |
| `Text.TrimIsSlice` | src/utils/helpers.js:56 | the trimmed text is a contiguous slice surrounded only by white space |
| `Text.JoinHead` | src/utils/recommendations.js:257 | `parts.join(sep)` starts with the first part |
| `Text.NatToDecimal` | src/utils/recommendations.js:177 | the decimal text of a natural number is a non-empty run of digits |
| `Text.IntToDecimal` | src/utils/recommendations.js:164 | `String(n)` starts with `-` exactly for negative `n` |
| `Text.DecimalRoundTrip` | src/utils/helpers.js:23 | the digits of `String(n)` have the value `n` |
| `Text.ParseInt` | src/components/Pagination.jsx:243 | `parseInt` finds a number only when a digit follows the white space and sign, always finds one when that digit does not start a `0x` prefix or when a hexadecimal digit follows the `0x`, and a negative result had a minus sign |
| `Text.ParseFloat` | src/utils/helpers.js:79 | `parseFloat` gives an infinity exactly for the word `Infinity` after the sign, with that sign. A finite result starts with a digit or a point, and a negative one had a minus sign |
| `Text.ParseIntRoundTrip` | src/components/Pagination.jsx:243 | `parseInt(String(n)) == n` for every integer |
| `Text.ParseIntOfDecimalThen` | src/utils/recommendations.js:164 | `parseInt` stops after the digits: `String(n)` followed by a non-digit (not `x`) reads back as `n` |
| `Text.IntToDecimalInjective` | src/store/watchlistStore.js:94 | distinct integers have distinct decimal texts |
| `Text.ParseFloatRoundTrip` | src/utils/helpers.js:79 | `parseFloat(String(n))` is exactly `n` |
| `Text.EncodeUriComponent` | src/pages/MovieDetails.jsx:27 | every output character is unreserved or `%`. Text made only of unreserved characters is unchanged |
| `WatchlistStore.LoadAfterSave` | src/store/watchlistStore.js:4-31 | reading back what `saveToStorage` wrote gives exactly the saved collections |
| `WatchlistStore.InitialData` | src/store/watchlistStore.js:4-24 | with nothing stored or a malformed record, every collection is empty. Otherwise each stored field is taken, and a missing one defaults to empty |
| `WatchlistStore.Store.constructor` | src/store/watchlistStore.js:33-34 | the store starts from `getInitialData`, and storage agrees with memory |
| `WatchlistStore.Store.AddToWatchlist` | src/store/watchlistStore.js:36-46 | returns true and appends exactly when the key is new; otherwise the watchlist and storage are unchanged. The movie is listed afterwards, keys stay unique, the other collections are unchanged, and storage equals the new state |
| `WatchlistStore.Store.RemoveFromWatchlist` | src/store/watchlistStore.js:48-57 | drops exactly the entries with the key, in order (a no-op when absent). `isInWatchlist` is false afterwards, keys stay unique, nothing else changes, and the state is saved |
| `WatchlistStore.Store.AddToFavorites` | src/store/watchlistStore.js:63-73 | as `AddToWatchlist`, for favorites |
| `WatchlistStore.Store.RemoveFromFavorites` | src/store/watchlistStore.js:75-84 | as `RemoveFromWatchlist`, for favorites |
| `WatchlistStore.Store.GetRating` | src/store/watchlistStore.js:101-103 | `ratings[id] \|\| 0`: the stored rating under the id's property name, and 0 for an id never rated |
| `WatchlistStore.Store.SetRating` | src/store/watchlistStore.js:90-103 | `getRating(id)` then yields the rating, and ids with another property name keep theirs. Only the rating map changes, and it is saved |
| `WatchlistStore.Store.AddToRecentlyViewed` | src/store/watchlistStore.js:106-123 | the stamped movie is first and occurs once, with at most 20 entries. The rest is the old list without its key, in order, truncated. Keys stay unique, only this list changes, and it is saved |
| `WatchlistStore.Store.AddToAlreadyWatched` | src/store/watchlistStore.js:130-151 | a new key prepends the stamped movie and saves. A present key changes nothing, including storage. Keys stay unique |
| `WatchlistStore.Store.RemoveFromAlreadyWatched` | src/store/watchlistStore.js:153-162 | as `RemoveFromWatchlist`, for the already-watched list |
| `Recommendations.GenreName` | src/utils/recommendations.js:7-27 | a genre missing from the genre table is named `Unknown`, and no name is empty |
| `Recommendations.CountsOf` | src/utils/recommendations.js:43-49 | the count map has exactly the genres that occur |
| `Recommendations.CountsAppend` | src/utils/recommendations.js:46 | counting one more tag adds one to its genre and leaves the other genres alone |
| `Recommendations.AscendingKeys` | src/utils/recommendations.js:52 | `Object.entries` lists the integer keys in strictly ascending order, each once |
| `Recommendations.Percent` | src/utils/recommendations.js:57 | `Math.round(count / total * 100)` is the integer nearest to `100 count / total`, rounding halves up |
| `Recommendations.PercentAtMost100` | src/utils/recommendations.js:57 | a share of at most the total is a percentage between 0 and 100 |
| `Recommendations.SortByCount` | src/utils/recommendations.js:59 | sorting is a permutation |
| `Recommendations.SortByCountRanked` | src/utils/recommendations.js:52-59 | sorting entries listed by ascending id stably by count puts larger counts first and breaks ties by ascending id |
| `Recommendations.DistributionEntries` | src/utils/recommendations.js:43-58 | each entry gives a genre that occurs, its number of occurrences, its name and its rounded percentage. Every genre that occurs has an entry |
| `Recommendations.DistributionPercentages` | src/utils/recommendations.js:57 | every percentage lies between 0 and 100 |
| `Recommendations.DistributionRanked` | src/utils/recommendations.js:52-59 | the distribution is ordered by count, descending, with ties by ascending id, so ids are distinct |
| `Recommendations.TopGenreIsMostFrequent` | src/utils/recommendations.js:62 | no genre occurs more often than the first top genre |
| `Recommendations.CountGenres` | src/utils/recommendations.js:43-49 | the nested loops compute the count of each genre over all movies' genre lists (a multi-genre movie counts once per genre) and the total number of tags |
| `Recommendations.AnalyzeGenreAffinity` | src/utils/recommendations.js:34-66 | an empty watchlist gives no genres and 0 movies. Otherwise the result is the ranked distribution, its first three entries and the watchlist length |
| `Recommendations.PositiveRatings` | src/utils/recommendations.js:78-80 | every kept rating is some movie's rating and above 0, and every positive movie rating is kept |
| `Recommendations.PositiveRatingsAppend` | src/utils/recommendations.js:78-80 | the ratings of a list are those of its parts in order, so each movie contributes its own rating once and the mean weighs every movie alike |
| `Recommendations.MinReal` | src/utils/recommendations.js:91 | `Math.min(...)` is an element no larger than any other |
| `Recommendations.MaxReal` | src/utils/recommendations.js:92 | `Math.max(...)` is an element no smaller than any other |
| `Recommendations.Mean` | src/utils/recommendations.js:86 | the mean times the count is the sum, and the mean lies between the minimum and the maximum |
| `Recommendations.AnalyzeRatingPreference` | src/utils/recommendations.js:73-94 | no positive rating gives mean 0, not high-rated and no bounds. Otherwise the mean times the count is the sum, min <= mean <= max, and high-rated holds exactly when mean >= 7 |
| `Recommendations.MinInt` | src/utils/recommendations.js:124 | `Math.min(...)` is an element no larger than any other |
| `Recommendations.MaxInt` | src/utils/recommendations.js:125 | `Math.max(...)` is an element no smaller than any other |
| `Recommendations.RoundedMean` | src/utils/recommendations.js:118 | `Math.round(sum / n)` is the integer nearest the mean, rounding halves up |
| `Recommendations.RoundedMeanBetween` | src/utils/recommendations.js:118 | the rounded mean of values between `lo` and `hi` stays between them |
| `Recommendations.ReleaseYears` | src/utils/recommendations.js:106-112 | at most one year per movie, and no year is 0 (the `y && !isNaN(y)` filter) |
| `Recommendations.ReleaseYearsAppend` | src/utils/recommendations.js:106-112 | the years of a list are those of its parts in order, one per movie with a usable year |
| `Recommendations.AnalyzeYearPreference` | src/utils/recommendations.js:101-127 | no usable year gives the current year and prefers recent. Otherwise the average is the rounded mean, oldest <= average <= newest, and prefer-recent holds exactly when average >= current year - 5 |
| `Recommendations.GenresParamLeadsWithPrimary` | src/utils/recommendations.js:154-164 | `with_genres` starts with the primary genre: `parseInt` reads it back |
| `Recommendations.KnownIds` | src/utils/recommendations.js:188-191 | the known ids are exactly the keys of the watchlist and favorites entries |
| `Recommendations.TopGenresPresent` | src/utils/recommendations.js:149 | the top genres are empty exactly when no movie has a genre |
| `Recommendations.ReleasedSinceFiveYearsBefore` | src/utils/recommendations.js:176-177 | the date filter is `<averageYear - 5>-01-01`, whose year `parseInt` reads back |
| `Recommendations.BuildDiscoverQuery` | src/utils/recommendations.js:163-178 | the query has the genres, `vote_average.desc`, page 1, at least 100 votes, a 7.0 or 6.0 minimum average, and the year filter |
| `Recommendations.GetPersonalizedRecommendations` | src/utils/recommendations.js:137-210 | under 3 movies: `not-enough-data`, no query. No genre data: `no-genre-data`, no query. Otherwise the query is built from the three analyses. A failure gives `error` with no movies and the thrown error's message. A success gives the first 8 returned movies not already known, with what they are based on |
| `Recommendations.RecommendationsAreNew` | src/utils/recommendations.js:188-197 | at most 8 are kept, each a returned movie whose id is not the key of any watchlist or favorites entry |
| `Recommendations.UserTasteProfile` | src/utils/recommendations.js:218-231 | enough data exactly with at least 3 movies. `totalMovies` is the watchlist length and `totalFavorites` the favorites length. The genre, rating and year analyses are those of the watchlist, with at most three top genres |
| `Recommendations.GetRecommendationExplanation` | src/utils/recommendations.js:238-258 | pushing the phrases one by one gives the specified explanation |
| `Recommendations.ExplanationNamesTopGenre` | src/utils/recommendations.js:243-257 | with a top genre, the explanation starts `Because you love <genre>` |
| `Recommendations.ExplanationFallback` | src/utils/recommendations.js:239-255 | no basis gives `Recommended for you`. A basis gives `Based on your watchlist` exactly when no field is truthy: no top genre, no non-empty second genre, no preference for recent films |
| `Recommendations.ExplanationBecause` | src/utils/recommendations.js:243-257 | any truthy field of the basis gives a text that starts with `Because ` |
| `Pagination.PageRange` | src/components/Pagination.jsx:14-16 | the pages from `lo` to `hi`, consecutive |
| `Pagination.GetPageNumbers` | src/components/Pagination.jsx:8-56 | the loops build exactly the closed-form selector list |
| `Pagination.SmallPageCount` | src/components/Pagination.jsx:12-16 | with at most 7 pages the list is exactly `1, 2, ..., totalPages` |
| `Pagination.LargePageWindows` | src/components/Pagination.jsx:18-52 | the three windows of a long list, entry by entry |
| `Pagination.LargePageCount` | src/components/Pagination.jsx:18-52 | a long list has exactly 7 entries, starting at page 1 and ending at the last page |
| `Pagination.PageNumbersWellSpaced` | src/components/Pagination.jsx:21-52 | pages strictly increase within `[1, totalPages]`. Neighbouring pages are consecutive, and a marker stands exactly where there is a gap |
| `Pagination.CurrentPageShown` | src/components/Pagination.jsx:21-44 | an existing current page is always listed |
| `Pagination.PageClickTarget` | src/components/Pagination.jsx:58-62 | a click requests a page exactly when it is a page, not the current one, and not loading |
| `Pagination.ClickedPagesAreValid` | src/components/Pagination.jsx:58-62 | every page the selector lets the user request exists and is not the current page |
| `Pagination.PreviousTarget` | src/components/Pagination.jsx:64-69 | requests `currentPage - 1` exactly when that is another existing page and not loading |
| `Pagination.NextTarget` | src/components/Pagination.jsx:71-76 | requests `currentPage + 1` exactly when that is another existing page and not loading |
| `Pagination.FirstTarget` | src/components/Pagination.jsx:78-83 | requests page 1 exactly when it is not the current page and not loading |
| `Pagination.LastTarget` | src/components/Pagination.jsx:85-90 | requests the last page exactly when it is not the current page and not loading |
| `Pagination.JumpTarget` | src/components/Pagination.jsx:241-247 | the typed text jumps exactly when `parseInt` reads another existing page and not loading |
| `Pagination.JumpToTypedPage` | src/components/Pagination.jsx:241-247 | typing another existing page's numeral jumps to it |
| `Pagination.Renders` | src/components/Pagination.jsx:92 | the selector is shown exactly when there are at least two pages to choose between |
| `Helpers.SplitMinutes` | src/utils/helpers.js:26-27 | for `m >= 0`, `60 hours + mins = m` with `0 <= mins < 60`. For negative `m` both parts are non-positive (floor and truncating remainder) |
| `Helpers.MinutesText` | src/utils/helpers.js:29-31 | the text ends in `m` or `h` |
| `Helpers.FormatRuntime` | src/utils/helpers.js:20-32 | a missing runtime or `N/A` gives `N/A`. Text without a number is returned as it is. Otherwise the result is the hours-and-minutes text |
| `Helpers.MinutesTextReadsBack` | src/utils/helpers.js:26-31 | the formatted text of a positive runtime reads back as the same number of minutes |
| `Helpers.TruncateText` | src/utils/helpers.js:54-57 | short or empty text is unchanged. Longer text is at most `maxLength + 3` characters |
| `Helpers.TruncatedIsSlice` | src/utils/helpers.js:56 | a truncated text is `text[i..j]` followed by `...`, where only white space lies before `i` and between `j` and `maxLength`, and the slice neither starts nor ends with white space: the trimmed head |
| `Helpers.YearRange` | src/utils/helpers.js:63-70 | the years from the current one down to 1900, each one less than the last, `currentYear - 1899` of them |
| `Helpers.IsValidRating` | src/utils/helpers.js:77-81 | a rating is valid exactly when it is neither empty nor `N/A` and `parseFloat` reads a number within `[0, 10]` |
| `Helpers.WholeRatingValid` | src/utils/helpers.js:77-81 | a whole-number rating is valid exactly when it lies within `[0, 10]` |
| `Helpers.RatingColor` | src/utils/helpers.js:88-96 | gray exactly for NaN, green from 8, yellow in `[6, 8)`, orange in `[4, 6)`, red below 4 |
| `Helpers.RatingColorMonotone` | src/utils/helpers.js:92-95 | a higher score never gets a lower colour |
| `Helpers.ClassNamesDistinct` | src/utils/helpers.js:90-95 | the five classes are distinct |
| `ThemeStore.InitialTheme` | src/store/themeStore.js:4-16 | `dark` when nothing usable is stored, else the stored theme |
| `ThemeStore.Toggled` | src/store/themeStore.js:21 | `light` exactly after `dark`, and the result is always `dark` or `light` |
| `ThemeStore.ToggleTwice` | src/store/themeStore.js:20-27 | toggling twice from `dark` or `light` returns it |
| `ThemeStore.ToggleSettles` | src/store/themeStore.js:20-27 | after one toggle the theme alternates between the two themes |
| `ThemeStore.Theme.constructor` | src/store/themeStore.js:18-19 | the theme starts as `getInitialTheme` |
| `ThemeStore.Theme.ToggleTheme` | src/store/themeStore.js:20-27 | the theme toggles, and storage holds the new theme, which a reload would read |
| `Navbar.SearchPath` | src/components/Navbar.jsx:83 | the route is `/search?q=` followed by URL-safe characters only |
| `Navbar.SearchBox.constructor` | src/components/Navbar.jsx:27-33 | the recent searches start as the saved list, or empty |
| `Navbar.SearchBox.SaveRecentSearch` | src/components/Navbar.jsx:73-77 | the query is first and occurs once, with at most 5 entries. The rest is the old list without it, in order, truncated. No duplicates appear, and the list is stored |
| `Navbar.SearchBox.HandleSearch` | src/components/Navbar.jsx:79-88 | a blank query does nothing. Any other saves its trimmed text, navigates to its search page and clears the box |
| `Navbar.SearchBox.Autocomplete` | src/components/Navbar.jsx:51-71 | searches only for a trimmed query longer than 2 and shows at most 5 results. Otherwise it clears the results |
| `Navbar.SearchBox.RecentSearchClick` | src/components/Navbar.jsx:97-101 | reruns the search as typed without saving it |
| `Navbar.SearchBox.ClearRecentSearches` | src/components/Navbar.jsx:103-106 | empties the list and removes it from storage |
| `HeroSection.NextIndex` | src/components/HeroSection.jsx:28-31 | the next index stays below `n` and wraps from the last to the first |
| `HeroSection.PrevIndex` | src/components/HeroSection.jsx:33-36 | the previous index stays below `n` and wraps from the first to the last |
| `HeroSection.StepsAreInverse` | src/components/HeroSection.jsx:28-36 | next after previous, and previous after next, restore the index |
| `HeroSection.StepsForwardIsShift` | src/components/HeroSection.jsx:18-31 | `k <= n` rotation steps move the index by `k`, wrapping once |
| `HeroSection.RotationReturns` | src/components/HeroSection.jsx:18-31 | the rotation comes back after exactly `n` steps and not before |
| `HeroSection.HasNavigation` | src/components/HeroSection.jsx:19 | arrows, dots and the timer exist exactly when a step forward or back shows another movie |
| `HeroSection.Carousel.Renders` | src/components/HeroSection.jsx:43 | the carousel renders only over a non-empty list |
| `HeroSection.Carousel.constructor` | src/components/HeroSection.jsx:9-11 | index 0, no direction |
| `HeroSection.Carousel.NextMovie` | src/components/HeroSection.jsx:28-31 | direction 1, next index, and the component still renders |
| `HeroSection.Carousel.PrevMovie` | src/components/HeroSection.jsx:33-36 | direction -1, previous index, and the component still renders |
| `HeroSection.Carousel.GoToMovie` | src/components/HeroSection.jsx:38-41 | the chosen index, with direction 1 when moving right and -1 otherwise |
| `HeroSection.Carousel.SetMovies` | src/components/HeroSection.jsx:9-15 | a new `movies` prop keeps the index and direction, so the carousel renders exactly when the old index is inside the new list |
| `MovieDetails.StreamingUrl` | src/pages/MovieDetails.jsx:24-52 | a listed provider gives its URL around the encoded search text. Any other name gives the Google `watch ... online` search |
| `MovieDetails.StreamingUrlIsSafe` | src/pages/MovieDetails.jsx:25-51 | the URL is a fixed prefix, URL-safe encoded text and a fixed suffix |
| `MovieDetails.ProviderAliases` | src/pages/MovieDetails.jsx:32-36 | `Disney Plus`/`Disney+` and `Apple TV`/`Apple TV Plus` give the same link |
| `MovieDetails.FindTrailer` | src/pages/MovieDetails.jsx:99-101 | the index of the first YouTube trailer, or none when there is none |
| `MovieDetails.SelectTrailer` | src/pages/MovieDetails.jsx:98-103 | no videos give no trailer. Otherwise it is the first YouTube trailer if any, else the first video |
| `MovieDetails.FirstIndex` | src/pages/MovieDetails.jsx:114 | `findIndex` by person id: the first position with that id, or -1 |
| `MovieDetails.FirstOfEachFacts` | src/pages/MovieDetails.jsx:113-115 | the duplicate filter keeps, in order, exactly the first entry of each person id |
| `MovieDetails.KeyCrew` | src/pages/MovieDetails.jsx:108-116 | the first 4 entries of the key-role crew with repeated ids dropped (the first entry of each id kept, in crew order): at most 4, each a key role from the crew, with distinct ids |
| `MovieDetails.KeyCrewComplete` | src/pages/MovieDetails.jsx:108-116 | when at most 4 distinct key people exist, each of them is shown |
| `MovieDetails.FetchMovieData` | src/pages/MovieDetails.jsx:85-141 | a failed load leaves the store alone. A loaded movie sets the view: the movie, the rating read for the route id, the trailer, the first 4 cast, the key crew, and the first 4 similar movies and recommendations. A part whose object is absent keeps the previous movie's value. The movie also moves to the front of recently viewed |
| `MovieDetails.KeyOfKeyedCopy` | src/pages/MovieDetails.jsx:150 | `{ ...movie, id: movieId }` has the same key as the movie |
| `MovieDetails.WatchlistToggle` | src/pages/MovieDetails.jsx:143-153 | flips the movie's watchlist membership, appending or removing its entries, and changes nothing else |
| `MovieDetails.AlreadyWatchedToggle` | src/pages/MovieDetails.jsx:155-165 | flips the movie's already-watched membership, prepending or removing its entries, and changes nothing else |

## Left out

- Network I/O is not modelled. This covers the TMDb/OMDb clients in
  `src/utils/api*.js`, the CORS proxies, retries and timeouts. Their results
  (discover, movie details, search) are inputs.
- `localStorage` and `JSON.parse`/`JSON.stringify` are not modelled. Storage
  is a ghost field. For the two Zustand stores an unreadable record is an
  input case (`Malformed`).
- `Navbar.SearchBox.constructor`: it takes the saved recent searches already
  parsed as a list. A malformed `recent-searches` entry, on which the mount
  effect's unguarded `JSON.parse` throws, and a saved JSON value that is not
  a list are not modelled.
- `Date.now()`, `new Date().getFullYear()` and date-string parsing are
  inputs: a timestamp, the current year, and a release date given as its
  year.
- `Math.random`: only `forceRefresh = false` is modelled (page 1, sorted by
  `vote_average.desc`).
- Timers, debouncing, event listeners and the order in which overlapping
  asynchronous fetches finish are not modelled. Autocomplete is one step
  given the search result.
- Rendering, animation, routing, toasts and the remaining components and
  pages (Home, Watchlist, SearchResults and the presentational components)
  are not modelled. Neither are `handleRating` and `handleShare` on the
  details page.
- The watch providers of the details page are stored for display only and
  are not modelled.
- Floating-point arithmetic is not modelled. Percentages, means and
  `Math.round` use exact rational arithmetic, which can differ from
  doubles at exact `.5` boundaries.
- Numbers are mathematical integers and reals: no 2^53 precision limit, no
  `Infinity` from overflow.
- `Recommendations.AnalyzeRatingPreference`: `averageRating` is the exact
  mean, not the `toFixed(1)` text. The `basedOn.preferredRating` field
  holds the same real.
- `Recommendations.GetPersonalizedRecommendations`: `with_genres` without
  a secondary genre is the number's decimal text, not the number itself.
- `Recommendations.GenreName`: genre ids are natural numbers. Integer-like
  keys of 2^32 - 1 and above, which JavaScript enumerates as strings after
  the others, are not distinguished.
- `Movies.RatingOf`: a rating of `Infinity` in `imdbRating` is treated as
  no rating.
- Inputs that are `null` or not arrays are not modelled. Examples are a
  missing watchlist or a record whose collection field is not a list; the
  watchlist is always a sequence.
- `MovieDetails.StreamingUrl`: the table is a map, so only listed names are
  found. In the code `urls[providerName]` is a plain-object lookup, which
  also finds inherited `Object.prototype` names. For the provider name
  `constructor` the code returns the `Object` function, where the model
  gives the Google search URL.
- `WatchlistStore.Store.GetRating`: the ratings are a map, so an unrated id
  gives 0. In the code `ratings[movieId]` also finds inherited
  `Object.prototype` names, so an id such as `toString` gives a function.
- `Helpers.TruncateText`: lengths and the cut count Unicode scalar values.
  The code's `.length` and `substring` count UTF-16 code units, so a
  character outside the Basic Multilingual Plane counts twice and the cut
  can split it.
- `Navbar.WantsSuggestions`: the more-than-two-characters rule counts
  Unicode scalar values. The code's `.length` counts UTF-16 code units, so
  two such characters already pass it.
- Strings are sequences of Unicode scalar values. Lone UTF-16 surrogates,
  which make `encodeURIComponent` throw, cannot occur.
- White space for `trim` is the common ASCII and Unicode spaces listed in
  `Text.IsWhitespace`.
- `Helpers.FormatRuntime`: a numeric runtime is an integer. Fractional
  numbers are not modelled.
- `formatNumber`, `debounce`, `copyToClipboard`, `shareContent`,
  `isValidImageUrl` and `generateId` in `src/utils/helpers.js` are not
  modelled: they are browser APIs or locale formatting.
- `getRecentlyViewed` and `getAlreadyWatched` only return the stored list
  (or an empty one when it is missing). In the model the lists are never
  missing, so these are the fields themselves.
