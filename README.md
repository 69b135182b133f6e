# CineCity front end — a verified model of its page logic

CineCity is a React front end for a cinema. It has four pages and a navigation bar:
a movie list, a showtime list, a four-step booking wizard, and the navbar. Under
the JSX there is a small amount of real logic. This project models that logic in
Dafny and proves what each piece promises:

- **Booking wizard** (`booking.dfy`, module `BookTickets`)
  - The step machine: steps 1 to 4, Next and Previous, and the Next button gated by
    the current step's completeness test.
  - The ticket counter, clamped at zero, and the total at 350 per ticket.
  - The 8 × 12 seat grid, drawn from a fixed list of occupied seats.
  - The seat-toggle rule, which caps the selection at the ticket count.
  - The movie cards and the showtime buttons, both built from the showtimes grouped
    by movie.
- **Showtimes page** (`showtimes.dfy`, module `Showtimes`)
  - The date and genre filters.
  - The sorted, duplicate-free option lists of the two drop-downs.
  - The 24-hour to 12-hour time formatter.
  - The three-band seat-availability label.
  - The hall quality badge.
  - The "Clear Filters" button.
- **Movies page** (`movies.dfy`, module `Movies`)
  - The category and case-insensitive title search.
  - The featured movie and its placeholder.
  - `fetchWithRetry`: at most three attempts, exponential back-off after a thrown
    error, rethrow on the last attempt, and `undefined` after repeated non-ok
    responses.
  - The page's own state.
- **Navigation bar** (`navbar.dfy`, module `Navbar`)
  - The link target of each menu label, and which label is highlighted for a path.
  - The mobile menu, and the body scroll lock that follows it.
- **Grouping** (`grouping.dfy`)
  - The two `reduce` calls that bucket showtimes by movie id and, inside a movie,
    by date. Both are loops over an accumulator, proved against a ghost
    specification of the accumulator.
  - `Object.values` and `Object.entries` list the keys in ECMAScript's order for
    ordinary objects: array-index keys (integers from 0 to 2^32 - 2) in ascending
    numeric order, then every other key in insertion order. Movie ids in that range
    therefore come in ascending order; a negative id, a larger one, or a date such
    as "7" falls into the other group.
  - A date that names a property of `Object.prototype` ("constructor",
    "toString", …) makes the date `reduce` throw; the model returns `None` there.

Supporting modules:
- `wrappers.dfy`: `Option`.
- `seqs.dfy`: `filter`, `Set`, duplicate-freedom.
- `text.dfy`:
  - `toLowerCase`, `includes`, `split`, and `replace` with a one-character pattern.
  - Decimal rendering of numbers.
- `ordering.dfy`: the default string sort.
- `catalog.dfy`: the `Movie` and `Showtime` records.

State that handlers replace is a class per page: `BookingWizard`, `ShowtimesPage`,
`MoviesPage` and `NavbarState`. React effects are folded into the handler that
triggers them. For example, navigating closes the mobile menu and unlocks scrolling
in the same method.

Three behaviours are modelled as the code has them:
- `fetchWithRetry` retries a non-ok response at once, with no delay. When no
  attempt is ok and the last attempt is a non-ok response, it returns `undefined`
  whatever the earlier attempts did (three non-ok responses, or two thrown errors
  and then a non-ok response, for example). The caller then calls `.json()` on
  `undefined`, so the page shows that TypeError's message as its error.
- `getSeatAvailability` with zero total seats divides by zero.
  - With zero booked seats the result is NaN.
  - With a positive booked count it is −Infinity.
  - Both give "Almost Full". Only a negative booked count would give +Infinity and
    "Available".
- No handler of the Movies page ever sets `isMobileMenuOpen` to true. Its mobile
  category menu therefore never appears: the model checks, after the constructor
  and after each handler in turn, that the menu is closed.

## Model

| member | source | states |
|---|---|---|
| Seqs.Filter | src/pages/Showtimes.jsx:43-47 | `Array.prototype.filter`: the result holds exactly the elements satisfying the predicate, as an order-preserving subsequence. |
| Seqs.FilterMultiset | src/pages/Showtimes.jsx:43-47 | Filtering keeps each wanted element exactly as often as it occurs and drops every other element. |
| Seqs.Distinct | src/pages/Showtimes.jsx:39 | `[...new Set(xs)]`: no element twice, and exactly the members of `xs`. |
| Seqs.FilterOutAt | src/pages/BookTickets.jsx:219 | Filtering a duplicate-free list by `id !== xs[i]` removes exactly position `i` and keeps the rest in order. |
| Seqs.FilterTwice | src/pages/Showtimes.jsx:43-47 | Filtering by `p` then by `q` equals filtering once by `p && q`. |
| Seqs.FilterKeepsAll | src/pages/Showtimes.jsx:43-47 | A predicate true on every element leaves the list unchanged. |
| Text.ToLower | src/pages/Movies.jsx:115-118 | `toLowerCase` on ASCII works character by character and keeps the length. |
| Text.ToLowerLetters | src/pages/Movies.jsx:115-118 | After lower-casing no upper-case letter is left, A–Z have moved to a–z, and every other character is unchanged. |
| Text.Contains | src/pages/Showtimes.jsx:100-102 | `includes`: true exactly when the needle occurs at some position of the string. |
| Text.ContainsPrefixOf | src/pages/Movies.jsx:116-118 | A string that contains `a + b` contains `a`. |
| Text.ReplaceFirst | src/components/Navbar.jsx:50 | `replace(" ", "-")`: the character at `i` becomes the replacement exactly when it is the first occurrence of the pattern; the length is kept. |
| Text.FieldBefore | src/pages/Showtimes.jsx:63 | The first field of `split(':')` has no colon, and when a colon exists the string is that field, the colon, then the rest. |
| Text.ReplaceFirstJoin | src/components/Navbar.jsx:50 | In `a + c + b` with no `c` in `a`, `replace` swaps exactly that separator. |
| Text.FieldsOfJoin | src/pages/Showtimes.jsx:63 | Splitting `a + ":" + b` at its first colon gives back `a` and `b` when `a` has no colon. |
| Text.DecimalString | src/pages/BookTickets.jsx:206 | `${n}` for a natural number: non-empty, all digits, no leading zero, several digits exactly when `n >= 10`. |
| Text.DecimalRoundTrip | src/pages/BookTickets.jsx:206 | Reading the decimal text of `n` back gives `n`. |
| Text.DecimalInjective | src/pages/BookTickets.jsx:206 | Two numbers with the same decimal text are equal. |
| Ordering.LexLessTransitive | src/pages/Showtimes.jsx:39-40 | The default sort's order on strings is transitive. |
| Ordering.LexLessTotal | src/pages/Showtimes.jsx:39-40 | Any two different strings are ordered one way or the other. |
| Ordering.LexLessAsymmetric | src/pages/Showtimes.jsx:39-40 | No two strings are each below the other. |
| Ordering.Sort | src/pages/Showtimes.jsx:39-40 | `.sort()`: the result is sorted and a permutation of the input. |
| Ordering.UniqueSorted | src/pages/Showtimes.jsx:39-40 | `[...new Set(xs)].sort()`: strictly ascending, duplicate-free, exactly the members of `xs`. |
| Ordering.StrictlySortedUnique | src/pages/Showtimes.jsx:39-40 | Two strictly ascending lists with the same members are equal, so the option list depends only on the values present. |
| Grouping.Select | src/pages/Showtimes.jsx:58 | The showtimes of one key: exactly those with that key, in their original order. |
| Grouping.KeysInOrder | src/pages/Showtimes.jsx:280-288 | The keys in order of first appearance: duplicate-free, and exactly the keys some showtime has. |
| Grouping.BucketsAreSelections | src/pages/Showtimes.jsx:50-60 | After the whole `reduce`, a key has a bucket exactly when some showtime has that key, and its bucket is that key's selection. |
| Grouping.BucketStep | src/pages/Showtimes.jsx:52-58 | Carries the loop step of the `reduce`: the accumulator after `xs[i]` is the previous one with `xs[i]` appended to its key's bucket, a key has a bucket exactly when it was already added, and a new key is appended to the insertion order. |
| Grouping.PartitionSizes | src/pages/Showtimes.jsx:50-60 | The bucket sizes add up to the number of showtimes, so the grouping is a partition. |
| Grouping.GroupByMovie | src/pages/Showtimes.jsx:50-60 | The movie `reduce`, also at src/pages/BookTickets.jsx:87-97. Its keys are exactly the movie ids present; each group is that movie's showtimes in order, is non-empty, and carries the movie of its first showtime. |
| Grouping.DateAccumulator | src/pages/Showtimes.jsx:281-287 | The date `reduce` throws exactly when some date names an inherited `Object.prototype` property; otherwise its buckets are the dates' selections and its keys were added in order of first appearance. |
| Grouping.GroupByDate | src/pages/Showtimes.jsx:280-288 | `Object.entries` of the date `reduce`: `None` exactly when the `reduce` throws, otherwise one entry per date in the object's key order, each with exactly that date's showtimes in order. |
| Grouping.SortBy | src/pages/BookTickets.jsx:123 | The array-index keys of an object in the order they are listed: strictly ascending by value, each key once, exactly the keys given. |
| Grouping.AscendingUnique | src/pages/BookTickets.jsx:123 | Two strictly ascending key lists with the same members are equal, so the listing order depends only on the key set. |
| Grouping.OwnKeysOrder | src/pages/BookTickets.jsx:123 | `Object.keys` order: exactly the keys, each once; every array-index key comes before every other key and the index keys ascend; the other keys keep their insertion order. |
| Grouping.IndexKeyFirst | src/pages/Showtimes.jsx:280-288 | An array-index key added after another key is listed before it. |
| Grouping.MovieGroupsInOrder | src/pages/Showtimes.jsx:235 | `Object.values` of the movie `reduce`: one group per movie id present, in the object's key order, each with exactly that movie's showtimes, non-empty, and the movie of its first showtime. |
| Grouping.IndexIdsAscending | src/pages/BookTickets.jsx:123 | When every movie id is an array index, the groups come in strictly ascending id order. |
| Grouping.OtherIdListedLast | src/pages/BookTickets.jsx:87-97 | A movie id that is not an array index (such as -1) is listed after an index id even when its showtime comes first. |
| Grouping.IndexDateListedFirst | src/pages/Showtimes.jsx:280-288 | A date that is an array index is listed before a date that is not, even when its showtime comes second. |
| Grouping.IndexDateExamples | src/pages/Showtimes.jsx:280-288 | "7" is an array-index key; "2024-05-01" and "07" are not. |
| Text.CanonicalDigits | src/pages/Showtimes.jsx:280-288 | Digits with no leading zero are the decimal text of their value, so two array-index strings with one value are one string. |
| BookTickets.RowSeats | src/pages/BookTickets.jsx:203-210 | One row: 12 seats, seat `i` has id row + `i+1` and number `i+1`, is occupied iff its id is in the fixed list, and is selected iff its id is selected. |
| BookTickets.GenerateSeats | src/pages/BookTickets.jsx:186-211 | Eight rows A–H in order, each of 12 seats, with every seat's id, number, occupied and selected flags as in `RowSeats`. |
| BookTickets.SeatIdsDistinct | src/pages/BookTickets.jsx:205-206 | Two grid places with the same id are the same row and number. |
| BookTickets.OccupiedSeatsOnGrid | src/pages/BookTickets.jsx:189-200 | Every id in the occupied list is a place on the 8 × 12 grid. |
| BookTickets.ToggleSeat | src/pages/BookTickets.jsx:217-223 | A selected seat is removed and nothing else; an unselected seat is appended when fewer than `ticketCount` are selected; otherwise nothing changes. |
| BookTickets.ToggleRemovesExactlyThatSeat | src/pages/BookTickets.jsx:218-219 | Deselecting the seat at position `i` of a duplicate-free selection gives the selection without position `i`, order kept. |
| BookTickets.ToggleKeepsSelectionSound | src/pages/BookTickets.jsx:217-223 | A click keeps the selection duplicate-free and within the ticket count, and adds no seat except the clicked one. |
| BookTickets.ClicksKeepSelectionSound | src/pages/BookTickets.jsx:217-223 | Any sequence of seat-button clicks keeps the selection duplicate-free and free of occupied seats, and within the ticket count if it started within it. |
| BookTickets.OccupiedSeatNeverSelected | src/pages/BookTickets.jsx:488-491 | An occupied seat stays out of the selection whatever seats are clicked. |
| BookTickets.MovieChoices | src/pages/BookTickets.jsx:121-126 | The movie cards: one per movie id present, in the grouping object's key order, each the movie of that id's first showtime; every fetched showtime's movie has a card. |
| BookTickets.ShowtimeChoices | src/pages/BookTickets.jsx:161-166 | The showtime buttons are exactly the chosen movie's selection: its showtimes in fetched order, each as often as it was fetched. |
| BookTickets.ClickSeatButton | src/pages/BookTickets.jsx:488-491 | Clicking an occupied seat changes nothing, and a click never brings an occupied seat into a selection free of them. |
| BookTickets.BookingWizard.CanProceed | src/pages/BookTickets.jsx:233-253 | The wizard can only proceed from steps 1 to 4; passing step 1 means a non-zero total, and passing step 3 means one seat per ticket paid for. |
| BookTickets.WithSetsOnlyThatField | src/pages/BookTickets.jsx:600-605 | `{ ...bookingData, [field]: value }` sets that field and leaves the other five unchanged. |
| BookTickets.CompleteIffNoEmptyField | src/pages/BookTickets.jsx:241-249 | The payment step is complete exactly when none of the six fields is empty. |
| BookTickets.BookingWizard.constructor | src/pages/BookTickets.jsx:16-28 | Step 1, no tickets, no movie or showtime, no seats, all six payment fields empty. |
| BookTickets.BookingWizard.TotalPrice | src/pages/BookTickets.jsx:215 | The total is non-negative, a multiple of 350, and exactly `ticketCount` tickets' worth. |
| BookTickets.BookingWizard.SelectMovie | src/pages/BookTickets.jsx:126 | Sets the chosen movie; the wizard invariant holds. |
| BookTickets.BookingWizard.SelectShowtime | src/pages/BookTickets.jsx:166 | Sets the chosen showtime; the wizard invariant holds. |
| BookTickets.BookingWizard.DecrementTickets | src/pages/BookTickets.jsx:382-384 | `Math.max(0, ticketCount - 1)`: one less, never below zero; nothing else changes. |
| BookTickets.BookingWizard.IncrementTickets | src/pages/BookTickets.jsx:393 | One more ticket; nothing else changes. |
| BookTickets.BookingWizard.ClickSeat | src/pages/BookTickets.jsx:488-491 | The selection becomes the guarded toggle of the clicked seat; it stays duplicate-free and free of occupied seats, and within the ticket count if it was. |
| BookTickets.BookingWizard.UpdateField | src/pages/BookTickets.jsx:600-605 | One payment input replaces exactly its own field. |
| BookTickets.BookingWizard.HandleNext | src/pages/BookTickets.jsx:225-227 | One step forward below step 4, otherwise no change; only the step changes and it stays in 1..4. |
| BookTickets.BookingWizard.HandlePrevious | src/pages/BookTickets.jsx:229-231 | One step back above step 1, otherwise no change; every selection is kept. |
| BookTickets.BookingWizard.PressForward | src/pages/BookTickets.jsx:716-724 | The Next / Confirm button does nothing unless `canProceed()`; then it confirms on step 4 and advances one step otherwise. |
| Showtimes.FilterShowtimes | src/pages/Showtimes.jsx:43-47 | A showtime is listed iff (no date chosen or its date matches) and (no genre chosen or its genre matches); order is kept. |
| Showtimes.ClearedFiltersListAll | src/pages/Showtimes.jsx:43-47 | With both filters empty every showtime is listed, in order. |
| Showtimes.FiltersCompose | src/pages/Showtimes.jsx:43-47 | Filtering by date and genre together equals filtering by date and then by genre. |
| Showtimes.DatesOf | src/pages/Showtimes.jsx:39 | `showtimes.map(s => s.date)` holds exactly the dates of the showtimes. |
| Showtimes.GenresOf | src/pages/Showtimes.jsx:40 | `showtimes.map(s => s.movie.genre.genreName)` holds exactly the genres of the showtimes. |
| Showtimes.UniqueDates | src/pages/Showtimes.jsx:39 | The date options are strictly ascending and are exactly the dates present. |
| Showtimes.UniqueGenres | src/pages/Showtimes.jsx:40 | The genre options are strictly ascending and are exactly the genres present. |
| Showtimes.UniqueDatesCharacterized | src/pages/Showtimes.jsx:39 | Any strictly ascending list of exactly the dates present is the date option list. |
| Showtimes.UniqueGenresCharacterized | src/pages/Showtimes.jsx:40 | Any strictly ascending list of exactly the genres present is the genre option list. |
| Showtimes.OfferedDateIsNonEmpty | src/pages/Showtimes.jsx:39-47 | Choosing any offered date, with no genre chosen, lists at least one showtime. |
| Showtimes.OfferedGenreIsNonEmpty | src/pages/Showtimes.jsx:40-47 | Choosing any offered genre, with no date chosen, lists at least one showtime. |
| Showtimes.Clock12 | src/pages/Showtimes.jsx:64-66 | `hour24 % 12 \|\| 12` is in 1..12, PM iff `hour24 >= 12`, and below 24 the pair gives back `hour24`. |
| Showtimes.FormatTime | src/pages/Showtimes.jsx:62-68 | The hour field is the 12-hour hour, the minutes field is copied verbatim, and the text ends in " PM" iff the hour is at least 12. |
| Showtimes.ClockTextShape | src/pages/Showtimes.jsx:67 | In `${hour}:${minutes} ${ampm}` the hour, minutes and suffix sit at fixed, recoverable places. |
| Showtimes.ReadClockText | src/pages/Showtimes.jsx:62-68 | Reading back the text of a 12-hour hour, a minutes field and the AM/PM flag gives the 24-hour hour and the minutes. |
| Showtimes.FormatTimeRoundTrip | src/pages/Showtimes.jsx:62-68 | For hours below 24, reading the 12-hour text back gives the original hour and minutes. |
| Showtimes.ExceedsIsPercent | src/pages/Showtimes.jsx:81-87 | The integer cross-multiplied test agrees with `((total - booked) / total) * 100 > pct` over the reals. |
| Showtimes.SeatAvailability | src/pages/Showtimes.jsx:80-97 | "Available" iff over 60% free, "Filling Fast" iff over 20% and at most 60%, "Almost Full" otherwise. With no seats it is "Available" only for a negative booked count. |
| Showtimes.AvailabilityMonotone | src/pages/Showtimes.jsx:80-97 | In a hall with seats, booking more never moves a showtime to a better band. |
| Showtimes.AvailabilityExtremes | src/pages/Showtimes.jsx:80-97 | An empty hall is "Available" and a sold-out hall "Almost Full". |
| Showtimes.QualityBadge | src/pages/Showtimes.jsx:99-104 | IMAX iff the name contains "IMAX"; Premium iff it contains "Premium" but not "IMAX"; Dolby iff it contains "Dolby" but neither of those. |
| Showtimes.StandardIffNoFormat | src/pages/Showtimes.jsx:99-104 | The badge is Standard exactly when the name contains none of the three words. |
| Showtimes.ShowtimesPage.constructor | src/pages/Showtimes.jsx:10-14 | No showtimes and both filters empty. |
| Showtimes.ShowtimesPage.Load | src/pages/Showtimes.jsx:29-30 | A successful fetch replaces the showtime list. |
| Showtimes.ShowtimesPage.SelectDate | src/pages/Showtimes.jsx:182 | The date filter becomes the chosen option. |
| Showtimes.ShowtimesPage.SelectGenre | src/pages/Showtimes.jsx:202 | The genre filter becomes the chosen option. |
| Showtimes.ShowtimesPage.ClearFilters | src/pages/Showtimes.jsx:228 | Both filters become empty and the listed showtimes are all showtimes again. |
| Showtimes.ShowtimesPage.MovieCards | src/pages/Showtimes.jsx:220-263 | One card per listed movie, in the grouping object's key order; each card shows the movie of its first showtime (title and genre) and exactly that movie's listed showtimes; "No Movies Found" shows exactly when nothing is listed. |
| Movies.FilterMovies | src/pages/Movies.jsx:112-120 | A movie is listed iff its category matches ("all", or the lower-cased genre equals the category) and it has a title whose lower-case form contains the lower-cased query; order is kept. |
| Movies.InitialFiltersListAllTitled | src/pages/Movies.jsx:112-120 | With category "all" and an empty search every movie is listed when all have titles. |
| Movies.SearchIgnoresQueryCase | src/pages/Movies.jsx:116-118 | Lower-casing the query first changes nothing. |
| Movies.LongerQueryNarrows | src/pages/Movies.jsx:116-118 | Typing more characters never brings a movie back into the list. |
| Movies.FeaturedMovie | src/pages/Movies.jsx:122-129 | The featured movie is the first movie when there is one, and the placeholder otherwise. |
| Movies.HeroPlaceholderIffNoMovies | src/pages/Movies.jsx:122-129 | When every movie has a title other than "Loading...", the hero reads "Loading..." exactly while no movie is loaded. |
| Movies.RetryFrom | src/pages/Movies.jsx:33-45 | The attempt-by-attempt reference definition of the loop: at most one `fetch` call per remaining attempt, at least one when any attempt remains, and fewer waits than calls. |
| Movies.FetchWithRetry | src/pages/Movies.jsx:33-45 | The loop's outcome, delays and call count are those of the attempt-by-attempt definition. |
| Movies.RetryCharacterized | src/pages/Movies.jsx:33-45 | The first ok response is returned after one call per attempt up to it. With none, the last attempt decides: rethrow its error, or `undefined` after a non-ok response. Every thrown attempt but the last waits `1000 * 2^i` ms. |
| Movies.WaitsBounded | src/pages/Movies.jsx:40-42 | The waits of attempts `lo` to `hi - 1` add up to at most `1000 * (2^hi - 2^lo)` ms. |
| Movies.DefaultRetryBudget | src/pages/Movies.jsx:33-42 | With three retries, `fetch` is called one to three times and the waits total at most 3000 ms. |
| Movies.MoviesPage.constructor | src/pages/Movies.jsx:16-21 | Category "all", empty search, loading, menu closed, no error, no movies. |
| Movies.MoviesPage.FetchMovies | src/pages/Movies.jsx:48-65 | A returned response becomes the movie list; `undefined` or a rethrown error becomes the error message; loading stops either way. |
| Movies.MoviesPage.Search | src/pages/Movies.jsx:221 | The search box sets the query. |
| Movies.MoviesPage.SelectCategory | src/pages/Movies.jsx:229 | The drop-down sets the category. |
| Movies.MoviesPage.CloseMobileMenu | src/pages/Movies.jsx:401 | The close button closes the mobile menu. |
| Movies.MoviesPage.PickMobileCategory | src/pages/Movies.jsx:408-411 | A mobile category button sets the category and closes the menu. |
| Navbar.Slug | src/components/Navbar.jsx:50 | The slug has the label's length and no upper-case letter. |
| Navbar.LinkTarget | src/components/Navbar.jsx:84-88 | A link target is a non-empty path starting with "/". |
| Navbar.IsActiveRoute | src/components/Navbar.jsx:46-53 | The highlight is always one of the two class strings. |
| Navbar.ActiveIffAtLinkTarget | src/components/Navbar.jsx:46-53 | A label is highlighted exactly when the path equals its own link target, so `isActiveRoute` and the link rule agree. |
| Navbar.OneWordTarget | src/components/Navbar.jsx:87 | A one-word label links to "/" plus its lower-case form. |
| Navbar.TwoWordTarget | src/components/Navbar.jsx:87 | A two-word label links to "/" plus its lower-case words joined by one dash. |
| Navbar.BookTicketsTarget | src/components/Navbar.jsx:87 | The fourth label, "Book Tickets", links to "/book-tickets". |
| Navbar.NavTargets | src/components/Navbar.jsx:55 | The five labels link to "/", "/movies", "/showtimes", "/book-tickets" and "/about". |
| Navbar.NavTargetsAreRoutes | src/App.jsx:15-22 | Every menu link leads to a path the router serves. |
| Navbar.TargetsDistinct | src/components/Navbar.jsx:55 | Different menu labels lead to different paths. |
| Navbar.AtMostOneActive | src/components/Navbar.jsx:46-55 | For any path at most one label is highlighted. |
| Navbar.NoneActiveOnLogin | src/components/Navbar.jsx:46-55 | `isActiveRoute` highlights no label for "/login". The router serves that page outside the Navbar layout (src/App.jsx:22), so this only says what the highlight rule gives for that path. |
| Navbar.NavbarState.constructor | src/components/Navbar.jsx:5-6 | Menu closed, not scrolled, scrolling unlocked. |
| Navbar.NavbarState.ToggleMenu | src/components/Navbar.jsx:132 | The hamburger flips the menu, and scrolling is locked exactly when it is open. |
| Navbar.NavbarState.CloseMenu | src/components/Navbar.jsx:168 | The close button shuts the menu and unlocks scrolling. |
| Navbar.NavbarState.Navigate | src/components/Navbar.jsx:30-32 | A route change sets the path, closes the menu and unlocks scrolling. |
| Navbar.NavbarState.FollowLink | src/components/Navbar.jsx:199 | A menu link closes the menu, goes to its target, and its own label becomes the highlighted one. |
| Navbar.NavbarState.ScrollSettled | src/components/Navbar.jsx:15-17 | `scrolled` becomes `scrollY > 20`. |
| Navbar.NavbarState.Unmount | src/components/Navbar.jsx:41-43 | The effect cleanup leaves scrolling unlocked. |

## Left out

- All `fetch` calls, `response.json()`, `blob()`, and the object-URL lifecycle of cover images: network and browser resources. Only the retry control flow is modelled, over a sequence giving what each `fetch` call does. A successful response's JSON is taken to be the data itself.
- Movies.RetryFrom: the attempt sequence must be at least `maxRetries` long. It stands for the environment, not for a demand on callers.
- Real timers: the back-off delays are returned as numbers, not awaited. The navbar's 100 ms scroll debounce is reduced to the moment it fires (`ScrollSettled`).
- `formatDate` on both pages and the booking wizard's own `formatTime`: they call the locale library (`toLocaleDateString`, `toLocaleTimeString`), which is not part of this model.
- Showtimes.FormatTime: requires the time to contain a colon and the hour field to be a non-empty run of digits. A time without a colon, which the code renders as "h:undefined AM", is not modelled, nor is `parseInt`'s handling of signs, spaces and non-numeric text (NaN).
- Movie ids are exact integers. JSON numbers above 2^53 lose precision in JavaScript and could merge two ids into one key; that is not modelled.
- Showtimes.SeatAvailability: the percentage is compared exactly, as a rational number. Floating-point rounding at the band edges is not modelled.
- Text.ToLower: only ASCII letters are lower-cased. Other Unicode case mappings are not modelled.
- Ordering.Sort: JavaScript compares strings by UTF-16 code units. The model compares by characters, which agrees for the date and genre strings involved.
- Showtimes.HasGenre: the Showtimes page reads `showtime.movie.genre.genreName` without a guard. The model's `genre` is `None` in two cases that the code treats differently. When the movie has no genre object, the read throws. When the genre object has no `genreName`, the read gives `undefined`: the genre list gains an `undefined` entry and no chosen genre matches that showtime. The model handles neither case: the genre list, a non-empty genre filter and `Load` require every showtime to have a genre name.
- The summary's price per ticket (`selectedShowtime.price`) is not reconciled with its total, which the code computes as `ticketCount * 350`; only the total is modelled.
- JSX rendering and CSS classes other than the navbar's two highlight classes. Also `alert("Booking Confirmed!")`, which the model reports as `PressForward` returning true, and `window.location.reload`.
- The Showtimes page's `selectedMovie` state: it is declared but its setter is never called.
- Home, About, Login and MovieCard pages: static content, a fake form submit, and an image fetch with a fallback; none holds logic to model.
