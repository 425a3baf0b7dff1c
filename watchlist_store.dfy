/**
 * The personal collection store (`useWatchlistStore`): the watchlist, the
 * favorites, the already-watched and recently-viewed lists and the rating
 * map, mirrored to browser storage under `watchlist-storage` after every
 * change.  Browser storage is modelled by the ghost field `persisted`,
 * which holds what a reload would parse.
 */
module WatchlistStore {
  import opened Text
  import opened Seqs
  import opened Movies

  /** `slice(0, 20)` on the recently-viewed list. */
  const RecentlyViewedLimit: nat := 20

  /** The five collections, as saved and as held in memory. */
  datatype Snapshot = Snapshot(
    watchlist: seq<Movie>,
    favorites: seq<Movie>,
    ratings: map<string, int>,
    recentlyViewed: seq<Movie>,
    alreadyWatched: seq<Movie>)

  /** The parsed `state` of a stored record; a field missing from it is `None`. */
  datatype StoredState = StoredState(
    watchlist: Option<seq<Movie>>,
    favorites: Option<seq<Movie>>,
    ratings: Option<map<string, int>>,
    recentlyViewed: Option<seq<Movie>>,
    alreadyWatched: Option<seq<Movie>>)

  /**
   * What browser storage yields under the store's key: nothing, text that
   * does not parse to a record with a `state` (the `catch` branch), or a
   * parsed state.
   */
  datatype Stored = NothingStored | Malformed | Parsed(state: StoredState)

  function EmptySnapshot(): Snapshot
  {
    Snapshot([], [], map[], [], [])
  }

  /** `getInitialData`: the stored state with each missing field defaulted to empty. */
  function InitialData(stored: Stored): (s: Snapshot)
    ensures !stored.Parsed? ==> s == EmptySnapshot()
    ensures stored.Parsed? ==>
      && (stored.state.watchlist.Some? ==> s.watchlist == stored.state.watchlist.value)
      && (stored.state.watchlist.None? ==> s.watchlist == [])
      && (stored.state.favorites.Some? ==> s.favorites == stored.state.favorites.value)
      && (stored.state.favorites.None? ==> s.favorites == [])
      && (stored.state.ratings.Some? ==> s.ratings == stored.state.ratings.value)
      && (stored.state.ratings.None? ==> s.ratings == map[])
      && (stored.state.recentlyViewed.Some? ==> s.recentlyViewed == stored.state.recentlyViewed.value)
      && (stored.state.recentlyViewed.None? ==> s.recentlyViewed == [])
      && (stored.state.alreadyWatched.Some? ==> s.alreadyWatched == stored.state.alreadyWatched.value)
      && (stored.state.alreadyWatched.None? ==> s.alreadyWatched == [])
  {
    match stored
    case Parsed(st) =>
      Snapshot(st.watchlist.GetOr([]), st.favorites.GetOr([]), st.ratings.GetOr(map[]),
               st.recentlyViewed.GetOr([]), st.alreadyWatched.GetOr([]))
    case _ => EmptySnapshot()
  }

  /** `saveToStorage`: the record written for a state (every field present). */
  function Save(s: Snapshot): Stored
  {
    Parsed(StoredState(Some(s.watchlist), Some(s.favorites), Some(s.ratings),
                       Some(s.recentlyViewed), Some(s.alreadyWatched)))
  }

  /** Reloading what was saved reproduces the saved state exactly. */
  lemma LoadAfterSave(s: Snapshot)
    ensures InitialData(Save(s)) == s
  {
  }

  class Store {
    var watchlist: seq<Movie>
    var favorites: seq<Movie>
    var ratings: map<string, int>
    var recentlyViewed: seq<Movie>
    var alreadyWatched: seq<Movie>
    /** What browser storage holds for the store. */
    ghost var persisted: Stored

    /** The in-memory collections as one value. */
    function State(): Snapshot
      reads this
    {
      Snapshot(watchlist, favorites, ratings, recentlyViewed, alreadyWatched)
    }

    /** Storage and memory agree: a reload now would reproduce the in-memory state. */
    ghost predicate Valid()
      reads this
    {
      InitialData(persisted) == State()
    }

    /** The store as created at start-up from whatever storage holds. */
    constructor (stored: Stored)
      ensures Valid()
      ensures State() == InitialData(stored) && persisted == stored
    {
      var s := InitialData(stored);
      watchlist, favorites, ratings := s.watchlist, s.favorites, s.ratings;
      recentlyViewed, alreadyWatched := s.recentlyViewed, s.alreadyWatched;
      persisted := stored;
    }

    /** `isInWatchlist(id)`. */
    predicate IsInWatchlist(id: Key)
      reads this
    {
      HasKey(watchlist, id)
    }

    /** `isInFavorites(id)`. */
    predicate IsInFavorites(id: Key)
      reads this
    {
      HasKey(favorites, id)
    }

    /** `isInAlreadyWatched(id)`. */
    predicate IsInAlreadyWatched(id: Key)
      reads this
    {
      HasKey(alreadyWatched, id)
    }

    /** `getRating(id)`: `ratings[id] || 0`, where the id is coerced to a property name. */
    function GetRating(id: Key): (r: int)
      reads this
      ensures PropertyKey(id) !in ratings ==> r == 0
      ensures PropertyKey(id) in ratings ==> r == ratings[PropertyKey(id)]
    {
      var name := PropertyKey(id);
      if name in ratings && ratings[name] != 0 then ratings[name] else 0
    }

    /** `addToWatchlist(movie)`: appends the movie unless its key is already listed. */
    method AddToWatchlist(movie: Movie) returns (added: bool)
      requires Valid()
      modifies this
      ensures Valid()
      ensures added <==> !old(IsInWatchlist(KeyOf(movie)))
      ensures watchlist == if added then old(watchlist) + [movie] else old(watchlist)
      ensures State() == old(State()).(watchlist := watchlist)
      ensures persisted == if added then Save(State()) else old(persisted)
      ensures IsInWatchlist(KeyOf(movie))
      ensures UniqueBy(old(watchlist), KeyOf) ==> UniqueBy(watchlist, KeyOf)
    {
      var key := KeyOf(movie);
      if !HasKey(watchlist, key) {
        watchlist := watchlist + [movie];
        persisted := Save(State());
        LoadAfterSave(State());
        assert KeyOf(watchlist[|watchlist| - 1]) == key;
        added := true;
      } else {
        added := false;
      }
    }

    /** `removeFromWatchlist(id)`: drops every entry with that key, keeps the rest in order, saves. */
    method RemoveFromWatchlist(id: Key)
      modifies this
      ensures Valid()
      ensures watchlist == WithoutKey(old(watchlist), id)
      ensures State() == old(State()).(watchlist := watchlist)
      ensures persisted == Save(State())
      ensures !IsInWatchlist(id)
      ensures !old(IsInWatchlist(id)) ==> watchlist == old(watchlist)
      ensures UniqueBy(old(watchlist), KeyOf) ==> UniqueBy(watchlist, KeyOf)
    {
      if UniqueBy(watchlist, KeyOf) {
        FilterKeepsUnique(watchlist, KeyIsNot(KeyOf, id), KeyOf);
      }
      watchlist := WithoutKey(watchlist, id);
      persisted := Save(State());
      LoadAfterSave(State());
    }

    /** `addToFavorites(movie)`: appends the movie unless its key is already listed. */
    method AddToFavorites(movie: Movie) returns (added: bool)
      requires Valid()
      modifies this
      ensures Valid()
      ensures added <==> !old(IsInFavorites(KeyOf(movie)))
      ensures favorites == if added then old(favorites) + [movie] else old(favorites)
      ensures State() == old(State()).(favorites := favorites)
      ensures persisted == if added then Save(State()) else old(persisted)
      ensures IsInFavorites(KeyOf(movie))
      ensures UniqueBy(old(favorites), KeyOf) ==> UniqueBy(favorites, KeyOf)
    {
      var key := KeyOf(movie);
      if !HasKey(favorites, key) {
        favorites := favorites + [movie];
        persisted := Save(State());
        LoadAfterSave(State());
        assert KeyOf(favorites[|favorites| - 1]) == key;
        added := true;
      } else {
        added := false;
      }
    }

    /** `removeFromFavorites(id)`: drops every entry with that key, keeps the rest in order, saves. */
    method RemoveFromFavorites(id: Key)
      modifies this
      ensures Valid()
      ensures favorites == WithoutKey(old(favorites), id)
      ensures State() == old(State()).(favorites := favorites)
      ensures persisted == Save(State())
      ensures !IsInFavorites(id)
      ensures !old(IsInFavorites(id)) ==> favorites == old(favorites)
      ensures UniqueBy(old(favorites), KeyOf) ==> UniqueBy(favorites, KeyOf)
    {
      if UniqueBy(favorites, KeyOf) {
        FilterKeepsUnique(favorites, KeyIsNot(KeyOf, id), KeyOf);
      }
      favorites := WithoutKey(favorites, id);
      persisted := Save(State());
      LoadAfterSave(State());
    }

    /** `setRating(id, rating)`: overwrites the rating stored under the id's property name, saves. */
    method SetRating(id: Key, rating: int)
      modifies this
      ensures Valid()
      ensures ratings == old(ratings)[PropertyKey(id) := rating]
      ensures State() == old(State()).(ratings := ratings)
      ensures persisted == Save(State())
      ensures GetRating(id) == rating
      ensures forall other: Key :: PropertyKey(other) != PropertyKey(id) ==> GetRating(other) == old(GetRating(other))
    {
      ratings := ratings[PropertyKey(id) := rating];
      persisted := Save(State());
      LoadAfterSave(State());
    }

    /**
     * `addToRecentlyViewed(movie, now)`: drops the older entry with the same
     * key, puts the movie stamped with `viewedAt = now` first, keeps the 20
     * newest entries, saves.
     */
    method AddToRecentlyViewed(movie: Movie, now: int)
      modifies this
      ensures Valid()
      ensures recentlyViewed == MoveToFront(old(recentlyViewed), movie.(viewedAt := Some(now)), KeyOf, RecentlyViewedLimit)
      ensures State() == old(State()).(recentlyViewed := recentlyViewed)
      ensures persisted == Save(State())
      ensures 1 <= |recentlyViewed| <= RecentlyViewedLimit
      ensures recentlyViewed[0] == movie.(viewedAt := Some(now))
      ensures recentlyViewed[1..] == Take(WithoutKey(old(recentlyViewed), KeyOf(movie)), RecentlyViewedLimit - 1)
      ensures forall i :: 1 <= i < |recentlyViewed| ==> KeyOf(recentlyViewed[i]) != KeyOf(movie)
      ensures UniqueBy(old(recentlyViewed), KeyOf) ==> UniqueBy(recentlyViewed, KeyOf)
    {
      var stamped := movie.(viewedAt := Some(now));
      MoveToFrontShape(recentlyViewed, stamped, KeyOf, RecentlyViewedLimit);
      if UniqueBy(recentlyViewed, KeyOf) {
        MoveToFrontUnique(recentlyViewed, stamped, KeyOf, RecentlyViewedLimit);
      }
      recentlyViewed := Take([stamped] + WithoutKey(recentlyViewed, KeyOf(movie)), RecentlyViewedLimit);
      persisted := Save(State());
      LoadAfterSave(State());
    }

    /**
     * `addToAlreadyWatched(movie, now)`: when the key is new, puts the movie
     * stamped with `watchedAt = now` first and saves; otherwise changes
     * nothing at all (no new timestamp, no reordering, no save).
     */
    method AddToAlreadyWatched(movie: Movie, now: int)
      requires Valid()
      modifies this
      ensures Valid()
      ensures old(IsInAlreadyWatched(KeyOf(movie))) ==>
        alreadyWatched == old(alreadyWatched) && persisted == old(persisted)
      ensures !old(IsInAlreadyWatched(KeyOf(movie))) ==>
        alreadyWatched == [movie.(watchedAt := Some(now))] + old(alreadyWatched) && persisted == Save(State())
      ensures State() == old(State()).(alreadyWatched := alreadyWatched)
      ensures IsInAlreadyWatched(KeyOf(movie))
      ensures UniqueBy(old(alreadyWatched), KeyOf) ==> UniqueBy(alreadyWatched, KeyOf)
    {
      var key := KeyOf(movie);
      if HasKey(alreadyWatched, key) {
        return;
      }
      var stamped := movie.(watchedAt := Some(now));
      assert KeyOf(stamped) == key;
      alreadyWatched := [stamped] + alreadyWatched;
      persisted := Save(State());
      LoadAfterSave(State());
      assert alreadyWatched[0] == stamped;
    }

    /** `removeFromAlreadyWatched(id)`: drops every entry with that key, keeps the rest in order, saves. */
    method RemoveFromAlreadyWatched(id: Key)
      modifies this
      ensures Valid()
      ensures alreadyWatched == WithoutKey(old(alreadyWatched), id)
      ensures State() == old(State()).(alreadyWatched := alreadyWatched)
      ensures persisted == Save(State())
      ensures !IsInAlreadyWatched(id)
      ensures !old(IsInAlreadyWatched(id)) ==> alreadyWatched == old(alreadyWatched)
      ensures UniqueBy(old(alreadyWatched), KeyOf) ==> UniqueBy(alreadyWatched, KeyOf)
    {
      if UniqueBy(alreadyWatched, KeyOf) {
        FilterKeepsUnique(alreadyWatched, KeyIsNot(KeyOf, id), KeyOf);
      }
      alreadyWatched := WithoutKey(alreadyWatched, id);
      persisted := Save(State());
      LoadAfterSave(State());
    }
  }
}
