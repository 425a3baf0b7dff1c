/**
 * The search box of the navigation bar (`Navbar`): the most-recently-used
 * list of searches (newest first, no repeats, at most five, written to
 * browser storage under `recent-searches`), the submit guard, and the
 * autocomplete rule.
 */
module Navbar {
  import opened Text
  import opened Seqs
  import opened Movies

  /** The number of recent searches kept. */
  const RecentSearchLimit: nat := 5
  /** The number of autocomplete suggestions shown. */
  const SuggestionLimit: nat := 5

  /** The page a submitted search navigates to. */
  function SearchPath(query: string): (path: string)
    ensures |path| >= 10 && path[..10] == "/search?q="
    ensures forall i :: 10 <= i < |path| ==> IsUrlSafe(path[i])
  {
    "/search?q=" + EncodeUriComponent(query)
  }

  /** Autocomplete asks for suggestions only for a query longer than two characters once trimmed. */
  predicate WantsSuggestions(query: string)
  {
    |Trim(query)| > 2
  }

  class SearchBox {
    var searchQuery: string
    var recentSearches: seq<string>
    var searchResults: seq<Movie>
    var showSearchResults: bool
    /** What browser storage holds under `recent-searches` (`None`: no entry). */
    ghost var persisted: Option<seq<string>>

    /** Mounting: the saved list when storage has one, otherwise an empty list. */
    constructor (saved: Option<seq<string>>)
      ensures recentSearches == saved.GetOr([]) && persisted == saved
      ensures searchQuery == "" && searchResults == [] && !showSearchResults
    {
      searchQuery := "";
      recentSearches := if saved.Some? then saved.value else [];
      searchResults := [];
      showSearchResults := false;
      persisted := saved;
    }

    /** `saveRecentSearch`: `query` moves to the front, older copies go, the newest five stay, and the list is stored. */
    method SaveRecentSearch(query: string)
      modifies this
      ensures recentSearches == MoveToFront(old(recentSearches), query, Self, RecentSearchLimit)
      ensures 1 <= |recentSearches| <= RecentSearchLimit && recentSearches[0] == query
      ensures forall i :: 1 <= i < |recentSearches| ==> recentSearches[i] != query
      ensures recentSearches[1..] == Take(Filter(old(recentSearches), KeyIsNot(Self, query)), RecentSearchLimit - 1)
      ensures UniqueBy(old(recentSearches), Self) ==> UniqueBy(recentSearches, Self)
      ensures persisted == Some(recentSearches)
      ensures searchQuery == old(searchQuery) && searchResults == old(searchResults)
      ensures showSearchResults == old(showSearchResults)
    {
      MoveToFrontShape(recentSearches, query, Self, RecentSearchLimit);
      if UniqueBy(recentSearches, Self) {
        MoveToFrontUnique(recentSearches, query, Self, RecentSearchLimit);
      }
      var updated := Take([query] + Filter(recentSearches, KeyIsNot(Self, query)), RecentSearchLimit);
      recentSearches := updated;
      persisted := Some(updated);
    }

    /**
     * `handleSearch`: a query that trims to nothing does nothing; any other
     * query saves its trimmed text, navigates to its search page (returned)
     * and clears the box.
     */
    method HandleSearch() returns (navigateTo: Option<string>)
      modifies this
      ensures Trim(old(searchQuery)) == "" ==>
        navigateTo == None && searchQuery == old(searchQuery) && recentSearches == old(recentSearches)
        && persisted == old(persisted) && showSearchResults == old(showSearchResults)
      ensures Trim(old(searchQuery)) != "" ==>
        var q := Trim(old(searchQuery));
        && navigateTo == Some(SearchPath(q))
        && recentSearches == MoveToFront(old(recentSearches), q, Self, RecentSearchLimit)
        && recentSearches[0] == q
        && persisted == Some(recentSearches)
        && searchQuery == "" && !showSearchResults
      ensures searchResults == old(searchResults)
    {
      var q := Trim(searchQuery);
      if q != "" {
        SaveRecentSearch(q);
        navigateTo := Some(SearchPath(q));
        searchQuery := "";
        showSearchResults := false;
      } else {
        navigateTo := None;
      }
    }

    /**
     * The debounced autocomplete step.  `found` is what the search request
     * yields for the trimmed query (`None`: the request failed).  Returns the
     * query sent, if any.
     */
    method Autocomplete(found: Option<seq<Movie>>) returns (sent: Option<string>)
      modifies this
      ensures WantsSuggestions(old(searchQuery)) ==>
        && sent == Some(Trim(old(searchQuery)))
        && (found.Some? ==> searchResults == Take(found.value, SuggestionLimit) && showSearchResults)
        && (found.None? ==> searchResults == old(searchResults) && showSearchResults == old(showSearchResults))
      ensures !WantsSuggestions(old(searchQuery)) ==>
        sent == None && searchResults == [] && (showSearchResults <==> old(searchQuery) != "")
      ensures searchQuery == old(searchQuery) && recentSearches == old(recentSearches)
      ensures persisted == old(persisted)
    {
      var q := Trim(searchQuery);
      if WantsSuggestions(searchQuery) {
        sent := Some(q);
        if found.Some? {
          searchResults := Take(found.value, SuggestionLimit);
          showSearchResults := true;
        }
      } else {
        sent := None;
        searchResults := [];
        showSearchResults := |searchQuery| > 0;
      }
    }

    /** `handleRecentSearchClick`: re-runs a recent search as typed, without re-saving it. */
    method RecentSearchClick(query: string) returns (navigateTo: string)
      modifies this
      ensures navigateTo == SearchPath(query)
      ensures searchQuery == query && !showSearchResults
      ensures recentSearches == old(recentSearches) && persisted == old(persisted)
      ensures searchResults == old(searchResults)
    {
      searchQuery := query;
      navigateTo := SearchPath(query);
      showSearchResults := false;
    }

    /** `clearRecentSearches`: the list empties and the storage entry is removed. */
    method ClearRecentSearches()
      modifies this
      ensures recentSearches == [] && persisted == None
      ensures searchQuery == old(searchQuery) && searchResults == old(searchResults)
      ensures showSearchResults == old(showSearchResults)
    {
      recentSearches := [];
      persisted := None;
    }
  }
}
