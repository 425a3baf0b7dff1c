/**
 * The featured-movie carousel of the home page (`HeroSection`): an index
 * into the list of featured movies, moved forward and backward modulo the
 * list's length, and the direction of the last move.
 */
module HeroSection {

  /**
   * `(i + 1) % n`.  The operands are non-negative, where JavaScript's
   * truncating remainder and Dafny's Euclidean one agree.
   */
  function NextIndex(i: nat, n: nat): (r: nat)
    requires n >= 1
    ensures r < n
    ensures i < n ==> r == if i == n - 1 then 0 else i + 1
  {
    (i + 1) % n
  }

  /** `(i - 1 + n) % n`, again on non-negative operands. */
  function PrevIndex(i: nat, n: nat): (r: nat)
    requires n >= 1
    ensures r < n
    ensures i < n ==> r == if i == 0 then n - 1 else i - 1
  {
    (i - 1 + n) % n
  }

  /** Stepping forward then back, or back then forward, returns to the same movie. */
  lemma StepsAreInverse(i: nat, n: nat)
    requires i < n
    ensures PrevIndex(NextIndex(i, n), n) == i
    ensures NextIndex(PrevIndex(i, n), n) == i
  {
  }

  /** The index after `k` forward steps (the auto-rotation) from `i`. */
  function StepsForward(i: nat, n: nat, k: nat): (r: nat)
    requires n >= 1
    ensures r < n || (k == 0 && r == i)
  {
    if k == 0 then i else NextIndex(StepsForward(i, n, k - 1), n)
  }

  /** Up to `n` forward steps from a valid index land on `i + k`, wrapping once past the end. */
  lemma {:induction false} StepsForwardIsShift(i: nat, n: nat, k: nat)
    requires i < n && k <= n
    ensures StepsForward(i, n, k) == if i + k < n then i + k else i + k - n
  {
    if k > 0 {
      StepsForwardIsShift(i, n, k - 1);
    }
  }

  /** The rotation shows every other movie before coming back, after exactly `n` steps. */
  lemma RotationReturns(i: nat, n: nat)
    requires i < n
    ensures StepsForward(i, n, n) == i
    ensures forall k :: 0 < k < n ==> StepsForward(i, n, k) != i
  {
    StepsForwardIsShift(i, n, n);
    forall k | 0 < k < n ensures StepsForward(i, n, k) != i {
      StepsForwardIsShift(i, n, k);
    }
  }

  /** The arrows, the dots and the auto-rotation timer exist only for more than one movie. */
  predicate HasNavigation(movieCount: nat): (r: bool)
    ensures movieCount >= 1 ==> (r <==> NextIndex(0, movieCount) != 0 && PrevIndex(0, movieCount) != 0)
  {
    movieCount > 1
  }

  class Carousel {
    /** `movies.length`; the `movies` prop can change while the carousel is mounted. */
    var movieCount: nat
    var currentIndex: nat
    /** The direction of the last move: 1 forward, -1 backward, 0 before any move. */
    var direction: int

    constructor (count: nat)
      ensures movieCount == count && currentIndex == 0 && direction == 0
    {
      movieCount := count;
      currentIndex := 0;
      direction := 0;
    }

    /** The component renders only when `movies[currentIndex]` exists (so never for an empty list). */
    predicate Renders(): (r: bool)
      reads this
      ensures r ==> movieCount >= 1
    {
      currentIndex < movieCount
    }

    /** `nextMovie`, run by the right arrow and by the timer. */
    method NextMovie()
      requires HasNavigation(movieCount)
      modifies this
      ensures movieCount == old(movieCount)
      ensures direction == 1
      ensures currentIndex == NextIndex(old(currentIndex), movieCount)
      ensures Renders()
    {
      direction := 1;
      currentIndex := (currentIndex + 1) % movieCount;
    }

    /** `prevMovie`, run by the left arrow. */
    method PrevMovie()
      requires HasNavigation(movieCount)
      modifies this
      ensures movieCount == old(movieCount)
      ensures direction == -1
      ensures currentIndex == PrevIndex(old(currentIndex), movieCount)
      ensures Renders()
    {
      direction := -1;
      currentIndex := (currentIndex - 1 + movieCount) % movieCount;
    }

    /** `goToMovie(index)`, run by the dot of movie `index`. */
    method GoToMovie(index: nat)
      requires HasNavigation(movieCount) && index < movieCount
      modifies this
      ensures movieCount == old(movieCount)
      ensures direction == if index > old(currentIndex) then 1 else -1
      ensures currentIndex == index
      ensures Renders()
    {
      direction := if index > currentIndex then 1 else -1;
      currentIndex := index;
    }

    /**
     * A new `movies` prop: the index and direction are kept as they are, so
     * the carousel renders afterwards exactly when the old index is still
     * inside the new list.
     */
    method SetMovies(count: nat)
      modifies this
      ensures movieCount == count
      ensures currentIndex == old(currentIndex) && direction == old(direction)
      ensures Renders() <==> old(currentIndex) < count
    {
      movieCount := count;
    }
  }
}
