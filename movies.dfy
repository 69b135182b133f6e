/**
 * The Movies page: the category and title-search filter over the fetched movies,
 * the featured movie of the hero section with its placeholder, the retrying
 * fetch with exponential back-off, and the page's own state.
 */
module Movies {
  import opened Wrappers
  import opened Seqs
  import opened Text
  import opened Catalog

  // ------------------------------------------------------------------ filters

  /** The category drop-down: `(id, name)` pairs. */
  const CATEGORIES: seq<(string, string)> :=
    [("all", "All Movies"), ("action", "Action"), ("drama", "Drama"), ("sci-fi", "Sci-Fi"), ("comedy", "Comedy")]

  /** `selectedCategory === "all" || movie.genre?.genreName?.toLowerCase() === selectedCategory`. */
  predicate MatchesCategory(m: Movie, category: string) {
    category == "all" || (m.genre.Some? && ToLower(m.genre.value) == category)
  }

  /** `movie.title?.toLowerCase().includes(searchQuery.toLowerCase())`; a missing title never matches. */
  predicate MatchesSearch(m: Movie, query: string) {
    m.title.Some? && Contains(ToLower(m.title.value), ToLower(query))
  }

  /** `filteredMovies`. */
  function FilterMovies(movies: seq<Movie>, category: string, query: string): (r: seq<Movie>)
    ensures forall m :: m in r <==>
      m in movies && (category == "all" || (m.genre.Some? && ToLower(m.genre.value) == category)) &&
      m.title.Some? && exists i :: MatchesAt(ToLower(m.title.value), ToLower(query), i)
    ensures IsSubsequence(r, movies)
  {
    Filter(movies, m => MatchesCategory(m, category) && MatchesSearch(m, query))
  }

  /** With the initial filters ("all", empty search) every movie that has a title is listed, in order. */
  lemma InitialFiltersListAllTitled(movies: seq<Movie>)
    requires forall m :: m in movies ==> m.title.Some?
    ensures FilterMovies(movies, "all", "") == movies
  {
    forall m | m in movies ensures MatchesSearch(m, "") {
      ContainsEmpty(ToLower(m.title.value));
    }
    FilterKeepsAll(movies, m => MatchesCategory(m, "all") && MatchesSearch(m, ""));
  }

  /** The search ignores letter case in the query. */
  lemma SearchIgnoresQueryCase(movies: seq<Movie>, category: string, query: string)
    ensures FilterMovies(movies, category, ToLower(query)) == FilterMovies(movies, category, query)
  {
    ToLowerIdempotent(query);
    FilterAgrees(movies, m => MatchesCategory(m, category) && MatchesSearch(m, ToLower(query)),
                 m => MatchesCategory(m, category) && MatchesSearch(m, query));
  }

  /** Typing more characters into the search box never brings a movie back. */
  lemma LongerQueryNarrows(movies: seq<Movie>, category: string, query: string, more: string)
    ensures forall m :: m in FilterMovies(movies, category, query + more) ==> m in FilterMovies(movies, category, query)
  {
    ToLowerAppend(query, more);
    forall m | m in FilterMovies(movies, category, query + more)
      ensures m in FilterMovies(movies, category, query)
    {
      ContainsPrefixOf(ToLower(m.title.value), ToLower(query), ToLower(more));
    }
  }

  // ---------------------------------------------------------- featured movie

  /** `movies[0] || { title: "Loading...", ... }`: a movie object is always truthy. */
  datatype Featured = FirstMovie(movie: Movie) | Placeholder
  {
    function Title(): string {
      match this
      case FirstMovie(m) => if m.title.Some? then m.title.value else ""
      case Placeholder => "Loading..."
    }

    function Synopsis(): string {
      match this
      case FirstMovie(m) => m.synopsis
      case Placeholder => "Please wait while we load the featured movie."
    }

    function Photo(): string {
      match this
      case FirstMovie(m) => m.photo
      case Placeholder => "placeholder-image-url"
    }

    /** `featuredMovie.genre?.genreName || "N/A"`: the placeholder's genre is a bare string, so it shows "N/A". */
    function GenreLabel(): string {
      match this
      case FirstMovie(m) => if m.genre.Some? && m.genre.value != "" then m.genre.value else "N/A"
      case Placeholder => "N/A"
    }
  }

  function FeaturedMovie(movies: seq<Movie>): (f: Featured)
    ensures f.FirstMovie? <==> movies != []
    ensures f.FirstMovie? ==> f.movie == movies[0]
  {
    if movies != [] then FirstMovie(movies[0]) else Placeholder
  }

  /** The hero reads "Loading..." with the placeholder picture exactly while no movie is loaded. */
  lemma HeroPlaceholderIffNoMovies(movies: seq<Movie>)
    requires forall m :: m in movies ==> m.title.Some? && m.title.value != "Loading..."
    ensures FeaturedMovie(movies).Title() == "Loading..." <==> movies == []
  {
    if movies != [] {
      assert movies[0] in movies;
    }
  }

  // -------------------------------------------------------------- fetch retry

  const MAX_RETRIES: nat := 3

  /** What one `fetch` call did: resolved with an ok response, resolved not ok, or threw. */
  datatype Attempt<R, E> = Ok(response: R) | NotOk | Throws(error: E)

  /** How `fetchWithRetry` settles: with a response, with `undefined`, or by rethrowing. */
  datatype Outcome<R, E> = Returned(response: R) | Undefined | Rethrown(error: E)

  /** The outcome, the back-off delays awaited in order, and the number of `fetch` calls. */
  datatype RetryRun<R, E> = RetryRun(outcome: Outcome<R, E>, delays: seq<nat>, calls: nat)

  function Pow2(n: nat): (p: nat)
    ensures p >= 1
  {
    if n == 0 then 1 else 2 * Pow2(n - 1)
  }

  /** `1000 * Math.pow(2, i)` milliseconds. */
  function BackoffDelay(i: nat): nat {
    1000 * Pow2(i)
  }

  /**
   * Attempts `i` to `maxRetries - 1` of the loop, where `attempts[i]` is what the
   * `i`-th call to `fetch` does.
   */
  function RetryFrom<R, E>(attempts: seq<Attempt<R, E>>, i: nat, maxRetries: nat): (run: RetryRun<R, E>)
    requires i <= maxRetries <= |attempts|
    ensures run.calls <= maxRetries - i
    ensures i < maxRetries ==> 1 <= run.calls
    ensures run.calls == 0 || |run.delays| < run.calls
    decreases maxRetries - i
  {
    if i == maxRetries then RetryRun(Undefined, [], 0)
    else match attempts[i]
      case Ok(response) => RetryRun(Returned(response), [], 1)
      case NotOk =>
        var rest := RetryFrom(attempts, i + 1, maxRetries);
        RetryRun(rest.outcome, rest.delays, rest.calls + 1)
      case Throws(error) =>
        if i == maxRetries - 1 then RetryRun(Rethrown(error), [], 1)
        else
          var rest := RetryFrom(attempts, i + 1, maxRetries);
          RetryRun(rest.outcome, [BackoffDelay(i)] + rest.delays, rest.calls + 1)
  }

  /** `fetchWithRetry(url, options, maxRetries)`. */
  method FetchWithRetry<R, E>(attempts: seq<Attempt<R, E>>, maxRetries: nat) returns (run: RetryRun<R, E>)
    requires maxRetries <= |attempts|
    ensures run == RetryFrom(attempts, 0, maxRetries)
  {
    var delays: seq<nat> := [];
    var i := 0;
    while i < maxRetries
      invariant 0 <= i <= maxRetries
      decreases maxRetries - i
      invariant RetryFrom(attempts, 0, maxRetries) ==
        var rest := RetryFrom(attempts, i, maxRetries);
        RetryRun(rest.outcome, delays + rest.delays, i + rest.calls)
    {
      match attempts[i] {
        case Ok(response) =>
          return RetryRun(Returned(response), delays, i + 1);
        case NotOk =>
        case Throws(error) =>
          if i == maxRetries - 1 {
            return RetryRun(Rethrown(error), delays, i + 1);
          }
          assert delays + ([BackoffDelay(i)] + RetryFrom(attempts, i + 1, maxRetries).delays) ==
                 (delays + [BackoffDelay(i)]) + RetryFrom(attempts, i + 1, maxRetries).delays;
          delays := delays + [BackoffDelay(i)];
      }
      i := i + 1;
    }
    return RetryRun(Undefined, delays, i);
  }

  /** Index of the first ok response among attempts `i` to `m - 1`, or `m` when there is none. */
  function FirstOk<R, E>(attempts: seq<Attempt<R, E>>, i: nat, m: nat): (j: nat)
    requires i <= m <= |attempts|
    ensures i <= j <= m
    ensures forall k :: i <= k < j ==> !attempts[k].Ok?
    ensures j < m ==> attempts[j].Ok?
    decreases m - i
  {
    if i == m || attempts[i].Ok? then i else FirstOk(attempts, i + 1, m)
  }

  /** The delays for the attempts `lo` to `hi - 1` that threw. */
  function Waits<R, E>(attempts: seq<Attempt<R, E>>, lo: nat, hi: nat): seq<nat>
    requires hi <= |attempts|
    decreases if lo <= hi then hi - lo else 0
  {
    if lo >= hi then []
    else (if attempts[lo].Throws? then [BackoffDelay(lo)] else []) + Waits(attempts, lo + 1, hi)
  }

  /**
   * The whole behaviour of the retry loop: the first ok response is returned after
   * one call per attempt up to it; with none, the last attempt decides between
   * rethrowing its error and `undefined`; and every attempt that threw, except the
   * last one, was followed by its back-off delay.
   */
  lemma {:induction false} RetryCharacterized<R, E>(attempts: seq<Attempt<R, E>>, i: nat, m: nat)
    requires i <= m <= |attempts|
    ensures var run, j := RetryFrom(attempts, i, m), FirstOk(attempts, i, m);
      (j < m ==> run.outcome == Returned(attempts[j].response) && run.calls == j - i + 1) &&
      (j == m && i < m && attempts[m - 1].Throws? ==> run.outcome == Rethrown(attempts[m - 1].error)) &&
      (j == m && i < m && attempts[m - 1].NotOk? ==> run.outcome == Undefined) &&
      (j == m ==> run.calls == m - i) &&
      (i == m ==> run.outcome == Undefined) &&
      (run.calls == 0 ==> run.delays == []) &&
      (run.calls > 0 ==> run.delays == Waits(attempts, i, i + run.calls - 1))
    decreases m - i
  {
    if i < m && !attempts[i].Ok? && !(attempts[i].Throws? && i == m - 1) {
      RetryCharacterized(attempts, i + 1, m);
    }
  }

  function Sum(xs: seq<nat>): nat {
    if xs == [] then 0 else xs[0] + Sum(xs[1..])
  }

  lemma {:induction false} SumAppend(a: seq<nat>, b: seq<nat>)
    ensures Sum(a + b) == Sum(a) + Sum(b)
  {
    if a == [] {
      assert a + b == b;
    } else {
      assert (a + b)[1..] == a[1..] + b;
      SumAppend(a[1..], b);
    }
  }

  /** The waits of attempts `lo` to `hi - 1` add up to at most `1000 * (2^hi - 2^lo)` ms. */
  lemma {:induction false} WaitsBounded<R, E>(attempts: seq<Attempt<R, E>>, lo: nat, hi: nat)
    requires lo <= hi <= |attempts|
    ensures Sum(Waits(attempts, lo, hi)) <= 1000 * (Pow2(hi) - Pow2(lo))
    decreases hi - lo
  {
    if lo < hi {
      var head: seq<nat> := if attempts[lo].Throws? then [BackoffDelay(lo)] else [];
      SumAppend(head, Waits(attempts, lo + 1, hi));
      WaitsBounded(attempts, lo + 1, hi);
      PowMonotone(lo + 1, hi);
    }
  }

  lemma {:induction false} PowMonotone(a: nat, b: nat)
    requires a <= b
    ensures Pow2(a) <= Pow2(b)
    decreases b - a
  {
    if a < b {
      PowMonotone(a + 1, b);
    }
  }

  /**
   * With the default of three retries `fetch` is called at most three times and
   * the page waits at most 1000 + 2000 = 3000 ms in total.
   */
  lemma DefaultRetryBudget<R, E>(attempts: seq<Attempt<R, E>>)
    requires MAX_RETRIES <= |attempts|
    ensures 1 <= RetryFrom(attempts, 0, MAX_RETRIES).calls <= MAX_RETRIES
    ensures Sum(RetryFrom(attempts, 0, MAX_RETRIES).delays) <= 3000
  {
    var run := RetryFrom(attempts, 0, MAX_RETRIES);
    RetryCharacterized(attempts, 0, MAX_RETRIES);
    WaitsBounded(attempts, 0, run.calls - 1);
    PowMonotone(run.calls - 1, 2);
  }

  // ------------------------------------------------------------------- the page

  /** The message a browser gives for `undefined.json()` (V8 wording). */
  const UNDEFINED_RESPONSE_ERROR := "Cannot read properties of undefined (reading 'json')"

  class MoviesPage {
    var movies: seq<Movie>
    var selectedCategory: string
    var searchQuery: string
    var isLoading: bool
    var isMobileMenuOpen: bool
    var error: Option<string>

    constructor ()
      ensures movies == [] && selectedCategory == "all" && searchQuery == ""
      ensures isLoading && !isMobileMenuOpen && error == None
    {
      movies := [];
      selectedCategory := "all";
      searchQuery := "";
      isLoading := true;
      isMobileMenuOpen := false;
      error := None;
    }

    /** The movie grid. */
    function Listed(): seq<Movie>
      reads this
    {
      FilterMovies(movies, selectedCategory, searchQuery)
    }

    /**
     * `fetchMovies`: the response's JSON becomes the movie list; a rethrown error
     * or the `undefined` left by three non-ok responses ends in the error message.
     * Either way loading stops.
     */
    method FetchMovies(attempts: seq<Attempt<seq<Movie>, string>>)
      requires MAX_RETRIES <= |attempts|
      modifies this`movies, this`isLoading, this`error
      ensures !isLoading
      ensures match RetryFrom(attempts, 0, MAX_RETRIES).outcome
        case Returned(data) => movies == data && error == old(error)
        case Undefined => movies == old(movies) && error == Some(UNDEFINED_RESPONSE_ERROR)
        case Rethrown(e) => movies == old(movies) && error == Some(e)
    {
      var run := FetchWithRetry(attempts, MAX_RETRIES);
      match run.outcome {
        case Returned(data) =>
          movies := data;
        case Undefined =>
          error := Some(UNDEFINED_RESPONSE_ERROR);
        case Rethrown(e) =>
          error := Some(e);
      }
      isLoading := false;
    }

    /** The search box. */
    method Search(query: string)
      modifies this`searchQuery
      ensures searchQuery == query
    {
      searchQuery := query;
    }

    /** The category drop-down. */
    method SelectCategory(category: string)
      modifies this`selectedCategory
      ensures selectedCategory == category
    {
      selectedCategory := category;
    }

    /** The close button of the mobile category menu. */
    method CloseMobileMenu()
      modifies this`isMobileMenuOpen
      ensures !isMobileMenuOpen
    {
      isMobileMenuOpen := false;
    }

    /** A category button of the mobile menu: choose it and close the menu. */
    method PickMobileCategory(category: string)
      modifies this`selectedCategory, this`isMobileMenuOpen
      ensures selectedCategory == category && !isMobileMenuOpen
    {
      selectedCategory := category;
      isMobileMenuOpen := false;
    }
  }

  /**
   * No handler of the page opens the mobile menu: it starts closed, the handlers
   * that do not name it leave it alone, and the two that do close it.
   */
  method MobileMenuStaysClosed(attempts: seq<Attempt<seq<Movie>, string>>, query: string, category: string)
    requires MAX_RETRIES <= |attempts|
  {
    var page := new MoviesPage();
    assert !page.isMobileMenuOpen;
    page.FetchMovies(attempts);
    assert !page.isMobileMenuOpen;
    page.Search(query);
    assert !page.isMobileMenuOpen;
    page.SelectCategory(category);
    assert !page.isMobileMenuOpen;
    page.PickMobileCategory(category);
    assert !page.isMobileMenuOpen && page.selectedCategory == category;
    page.CloseMobileMenu();
    assert !page.isMobileMenuOpen;
  }
}
