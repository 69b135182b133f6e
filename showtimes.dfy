/**
 * The Showtimes page: the date and genre filters over the fetched showtimes, the
 * sorted option lists of the two drop-downs, and the per-showtime formatters (12-hour
 * clock, seat-availability band, hall quality badge).
 */
module Showtimes {
  import opened Wrappers
  import opened Seqs
  import opened Text
  import opened Ordering
  import opened Catalog
  import opened Grouping

  // ------------------------------------------------------------------ filters

  /** The page reads `showtime.movie.genre.genreName` without a guard. */
  predicate HasGenre(s: Showtime) {
    s.movie.genre.Some?
  }

  predicate AllHaveGenres(xs: seq<Showtime>) {
    forall s :: s in xs ==> HasGenre(s)
  }

  function GenreOf(s: Showtime): string
    requires HasGenre(s)
  {
    s.movie.genre.value
  }

  /** One showtime against the two filters; an empty filter (`''` is falsy) lets everything through. */
  predicate MatchesFilters(s: Showtime, date: string, genre: string) {
    (date == "" || s.date == date) && (genre == "" || (HasGenre(s) && GenreOf(s) == genre))
  }

  /** `filteredShowtimes`. */
  function FilterShowtimes(xs: seq<Showtime>, date: string, genre: string): (r: seq<Showtime>)
    requires genre == "" || AllHaveGenres(xs)
    ensures forall s :: s in r <==> s in xs && (date == "" || s.date == date) && (genre == "" || GenreOf(s) == genre)
    ensures IsSubsequence(r, xs)
  {
    Filter(xs, s => MatchesFilters(s, date, genre))
  }

  /** With both filters cleared every showtime is listed, in order. */
  lemma ClearedFiltersListAll(xs: seq<Showtime>)
    ensures FilterShowtimes(xs, "", "") == xs
  {
    FilterKeepsAll(xs, s => MatchesFilters(s, "", ""));
  }

  /** Filtering by date and genre together is filtering by date, then by genre. */
  lemma FiltersCompose(xs: seq<Showtime>, date: string, genre: string)
    requires genre == "" || AllHaveGenres(xs)
    ensures genre == "" || AllHaveGenres(FilterShowtimes(xs, date, ""))
    ensures FilterShowtimes(FilterShowtimes(xs, date, ""), "", genre) == FilterShowtimes(xs, date, genre)
  {
    FilterTwice(xs, s => MatchesFilters(s, date, ""), s => MatchesFilters(s, "", genre),
                s => MatchesFilters(s, date, genre));
  }

  // ---------------------------------------------------------------- drop-downs

  function DatesOf(xs: seq<Showtime>): (ds: seq<string>)
    ensures forall d :: d in ds <==> exists s :: s in xs && s.date == d
  {
    var ds := seq(|xs|, i requires 0 <= i < |xs| => xs[i].date);
    assert forall s :: s in xs ==> s.date in ds by {
      forall s | s in xs ensures s.date in ds {
        var i :| 0 <= i < |xs| && xs[i] == s;
        assert ds[i] == s.date;
      }
    }
    ds
  }

  function GenresOf(xs: seq<Showtime>): (gs: seq<string>)
    requires AllHaveGenres(xs)
    ensures forall g :: g in gs <==> exists s :: s in xs && GenreOf(s) == g
  {
    var gs := seq(|xs|, i requires 0 <= i < |xs| => GenreOf(xs[i]));
    assert forall s :: s in xs ==> GenreOf(s) in gs by {
      forall s | s in xs ensures GenreOf(s) in gs {
        var i :| 0 <= i < |xs| && xs[i] == s;
        assert gs[i] == GenreOf(s);
      }
    }
    gs
  }

  /** `uniqueDates`: every date once, in ascending string order. */
  function UniqueDates(xs: seq<Showtime>): (r: seq<string>)
    ensures StrictlySorted(r)
    ensures forall d :: d in r <==> exists s :: s in xs && s.date == d
  {
    UniqueSorted(DatesOf(xs))
  }

  /** `uniqueGenres`: every genre name once, in ascending string order. */
  function UniqueGenres(xs: seq<Showtime>): (r: seq<string>)
    requires AllHaveGenres(xs)
    ensures StrictlySorted(r)
    ensures forall g :: g in r <==> exists s :: s in xs && GenreOf(s) == g
  {
    UniqueSorted(GenresOf(xs))
  }

  /** The date options are the only strictly ascending list of exactly the dates present. */
  lemma UniqueDatesCharacterized(xs: seq<Showtime>, ds: seq<string>)
    requires StrictlySorted(ds)
    requires forall d :: d in ds <==> exists s :: s in xs && s.date == d
    ensures ds == UniqueDates(xs)
  {
    StrictlySortedUnique(ds, UniqueDates(xs));
  }

  /** The genre options are the only strictly ascending list of exactly the genres present. */
  lemma UniqueGenresCharacterized(xs: seq<Showtime>, gs: seq<string>)
    requires AllHaveGenres(xs)
    requires StrictlySorted(gs)
    requires forall g :: g in gs <==> exists s :: s in xs && GenreOf(s) == g
    ensures gs == UniqueGenres(xs)
  {
    StrictlySortedUnique(gs, UniqueGenres(xs));
  }

  /** Choosing any offered date (with no genre chosen) leaves at least one showtime listed. */
  lemma OfferedDateIsNonEmpty(xs: seq<Showtime>, date: string)
    requires date in UniqueDates(xs)
    ensures FilterShowtimes(xs, date, "") != []
  {
    var s :| s in xs && s.date == date;
    assert s in FilterShowtimes(xs, date, "");
  }

  /** Choosing any offered genre (with no date chosen) leaves at least one showtime listed. */
  lemma OfferedGenreIsNonEmpty(xs: seq<Showtime>, genre: string)
    requires AllHaveGenres(xs) && genre in UniqueGenres(xs)
    ensures FilterShowtimes(xs, "", genre) != []
  {
    var s :| s in xs && GenreOf(s) == genre;
    assert s in FilterShowtimes(xs, "", genre);
  }

  // ------------------------------------------------------------------ formatTime

  /** A time string the backend sends: a numeric hour field before the first colon. */
  predicate WellFormedTime(t: string) {
    ':' in t && FieldBefore(t, ':') != [] && AllDigits(FieldBefore(t, ':'))
  }

  /** `parseInt(hours)`. */
  function HourOf(t: string): nat
    requires WellFormedTime(t)
  {
    DigitsValue(FieldBefore(t, ':'))
  }

  /** `minutes`: the second field of `t.split(':')`. */
  function MinutesOf(t: string): string
    requires ':' in t
  {
    FieldBefore(FieldAfter(t, ':'), ':')
  }

  /** The 24-hour hour a 12-hour hour and an AM/PM flag stand for. */
  function Hour24(hour12: nat, pm: bool): nat {
    hour12 % 12 + (if pm then 12 else 0)
  }

  /** `hour24 % 12 || 12` together with `hour24 >= 12`. */
  function Clock12(hour24: nat): (c: (nat, bool))
    ensures 1 <= c.0 <= 12
    ensures c.1 <==> hour24 >= 12
    ensures hour24 < 24 ==> Hour24(c.0, c.1) == hour24
  {
    (if hour24 % 12 == 0 then 12 else hour24 % 12, hour24 >= 12)
  }

  /** `formatTime(timeString)`: "13:05:00" becomes "1:05 PM". */
  function FormatTime(t: string): (r: string)
    requires WellFormedTime(t)
    ensures FieldBefore(r, ':') == DecimalString(Clock12(HourOf(t)).0)
    ensures |r| >= |FieldBefore(r, ':')| + 4
    ensures r[|FieldBefore(r, ':')| + 1..|r| - 3] == MinutesOf(t)
    ensures r[|r| - 3..] == if HourOf(t) >= 12 then " PM" else " AM"
  {
    var c := Clock12(HourOf(t));
    AmPmShape(c.1);
    ClockTextShape(DecimalString(c.0), MinutesOf(t), AmPm(c.1));
    ClockText(c.0, MinutesOf(t), c.1)
  }

  /** `${hour}:${minutes} ${ampm}`. */
  function ClockText(hour12: nat, minutes: string, pm: bool): string {
    DecimalString(hour12) + [':'] + minutes + AmPm(pm)
  }

  /** The suffix after the minutes: `hour24 >= 12 ? "PM" : "AM"`, with its leading space. */
  function AmPm(pm: bool): string {
    if pm then " PM" else " AM"
  }

  lemma AmPmShape(pm: bool)
    ensures |AmPm(pm)| == 3 && AmPm(pm) in {" AM", " PM"}
    ensures AmPm(pm) == " PM" <==> pm
  {
    assert " AM"[1] != " PM"[1];
  }

  /** Where the parts of "h:mm AM" sit in the joined string. */
  lemma ClockTextShape(hour: string, minutes: string, suffix: string)
    requires ':' !in hour && |suffix| == 3
    ensures var r := hour + [':'] + minutes + suffix;
      FieldBefore(r, ':') == hour && |r| == |hour| + |minutes| + 4 &&
      r[|hour| + 1..|r| - 3] == minutes && r[|r| - 3..] == suffix
  {
    var r := hour + [':'] + minutes + suffix;
    assert r == hour + [':'] + (minutes + suffix);
    FieldsOfJoin(hour, ':', minutes + suffix);
    assert r[|hour| + 1..] == minutes + suffix;
  }

  /** Reading a 12-hour "h:mm AM" string back into the 24-hour hour and the minutes field. */
  function ReadClock(r: string): Option<(nat, string)> {
    var h := FieldBefore(r, ':');
    if ':' in r && h != [] && AllDigits(h) && |r| >= |h| + 4 && r[|r| - 3..] in {" AM", " PM"} then
      Some((Hour24(DigitsValue(h), r[|r| - 3..] == " PM"), r[|h| + 1..|r| - 3]))
    else
      None
  }

  /** On a 24-hour clock value nothing is lost: the 12-hour text reads back to the same hour and minutes. */
  lemma FormatTimeRoundTrip(t: string)
    requires WellFormedTime(t) && HourOf(t) < 24
    ensures ReadClock(FormatTime(t)) == Some((HourOf(t), MinutesOf(t)))
  {
    var c := Clock12(HourOf(t));
    ReadClockText(c.0, MinutesOf(t), c.1);
  }

  /** Reading back a clock text built from a 12-hour hour, a minutes field and the AM/PM flag. */
  lemma ReadClockText(hour12: nat, minutes: string, pm: bool)
    ensures ReadClock(ClockText(hour12, minutes, pm)) == Some((Hour24(hour12, pm), minutes))
  {
    var hour := DecimalString(hour12);
    var r := ClockText(hour12, minutes, pm);
    AmPmShape(pm);
    ClockTextShape(hour, minutes, AmPm(pm));
    DecimalRoundTrip(hour12);
    assert ':' in r by {
      assert r[|hour|] == ':';
    }
    assert FieldBefore(r, ':') == hour && hour != [] && AllDigits(hour);
    assert r[|r| - 3..] == AmPm(pm);
  }

  // --------------------------------------------------------- seat availability

  datatype Availability = Available | FillingFast | AlmostFull
  {
    function Text(): string {
      match this
      case Available => "Available"
      case FillingFast => "Filling Fast"
      case AlmostFull => "Almost Full"
    }

    /** 2 for the best band, 0 for the worst. */
    function Rank(): nat {
      match this
      case Available => 2
      case FillingFast => 1
      case AlmostFull => 0
    }
  }

  /** `((totalSeats - bookedSeats) / totalSeats) * 100`, over the reals. */
  function Percent(totalSeats: int, bookedSeats: int): real
    requires totalSeats != 0
  {
    ((totalSeats - bookedSeats) as real / totalSeats as real) * 100.0
  }

  /**
   * `availability > pct` with the division carried out exactly: cross-multiplied by
   * the sign of `totalSeats`, and with `x / 0` as +Infinity, -Infinity or NaN by the
   * sign of `x` (NaN compares false).
   */
  predicate Exceeds(totalSeats: int, bookedSeats: int, pct: int) {
    var free := totalSeats - bookedSeats;
    if totalSeats > 0 then free * 100 > pct * totalSeats
    else if totalSeats < 0 then free * 100 < pct * totalSeats
    else free > 0
  }

  lemma ExceedsIsPercent(totalSeats: int, bookedSeats: int, pct: int)
    ensures totalSeats != 0 ==> (Exceeds(totalSeats, bookedSeats, pct) <==> Percent(totalSeats, bookedSeats) > pct as real)
  {
    if totalSeats == 0 { return; }
    var f, t := (totalSeats - bookedSeats) as real, totalSeats as real;
    var q := f / t;
    assert q * t == f;
    assert Percent(totalSeats, bookedSeats) == q * 100.0;
    if t > 0.0 {
      assert q * 100.0 > pct as real <==> q * 100.0 * t > pct as real * t;
    } else {
      assert q * 100.0 > pct as real <==> q * 100.0 * t < pct as real * t;
    }
  }

  /** `getSeatAvailability(totalSeats, bookedSeats)`: over 60% free, over 20% free, or the rest. */
  function SeatAvailability(totalSeats: int, bookedSeats: int): (a: Availability)
    ensures totalSeats != 0 ==>
      (a == Available <==> Percent(totalSeats, bookedSeats) > 60.0) &&
      (a == FillingFast <==> 20.0 < Percent(totalSeats, bookedSeats) <= 60.0) &&
      (a == AlmostFull <==> Percent(totalSeats, bookedSeats) <= 20.0)
    ensures totalSeats == 0 ==> (a == Available <==> bookedSeats < 0) && a != FillingFast
  {
    ExceedsIsPercent(totalSeats, bookedSeats, 60);
    ExceedsIsPercent(totalSeats, bookedSeats, 20);
    if Exceeds(totalSeats, bookedSeats, 60) then Available
    else if Exceeds(totalSeats, bookedSeats, 20) then FillingFast
    else AlmostFull
  }

  /** In a hall with seats, booking more never moves a showtime to a better band. */
  lemma AvailabilityMonotone(totalSeats: int, booked1: int, booked2: int)
    requires totalSeats > 0 && booked1 <= booked2
    ensures SeatAvailability(totalSeats, booked2).Rank() <= SeatAvailability(totalSeats, booked1).Rank()
  {
  }

  /** An empty hall is Available and a sold-out one Almost Full. */
  lemma AvailabilityExtremes(totalSeats: int)
    requires totalSeats > 0
    ensures SeatAvailability(totalSeats, 0) == Available
    ensures SeatAvailability(totalSeats, totalSeats) == AlmostFull
  {
  }

  // --------------------------------------------------------------- quality badge

  datatype Quality = Imax | Premium | Dolby | Standard
  {
    function Text(): string {
      match this
      case Imax => "IMAX"
      case Premium => "Premium"
      case Dolby => "Dolby Atmos"
      case Standard => "Standard"
    }
  }

  /** `getQualityBadge(cinema)`: the first of IMAX, Premium, Dolby that the hall name contains. */
  function QualityBadge(cinemaName: string): (q: Quality)
    ensures q == Imax <==> Contains(cinemaName, "IMAX")
    ensures q == Premium <==> !Contains(cinemaName, "IMAX") && Contains(cinemaName, "Premium")
    ensures q == Dolby <==> !Contains(cinemaName, "IMAX") && !Contains(cinemaName, "Premium") && Contains(cinemaName, "Dolby")
  {
    if Contains(cinemaName, "IMAX") then Imax
    else if Contains(cinemaName, "Premium") then Premium
    else if Contains(cinemaName, "Dolby") then Dolby
    else Standard
  }

  /** A hall is Standard exactly when its name mentions none of the three formats. */
  lemma StandardIffNoFormat(cinemaName: string)
    ensures QualityBadge(cinemaName) == Standard <==>
      forall i :: !MatchesAt(cinemaName, "IMAX", i) && !MatchesAt(cinemaName, "Premium", i) && !MatchesAt(cinemaName, "Dolby", i)
  {
  }

  // ------------------------------------------------------------------- the page

  class ShowtimesPage {
    var showtimes: seq<Showtime>
    var selectedDate: string
    var selectedGenre: string

    ghost predicate Valid()
      reads this
    {
      AllHaveGenres(showtimes)
    }

    constructor ()
      ensures Valid() && showtimes == [] && selectedDate == "" && selectedGenre == ""
    {
      showtimes := [];
      selectedDate := "";
      selectedGenre := "";
    }

    /** The showtimes currently listed. */
    function Listed(): (r: seq<Showtime>)
      reads this
      requires Valid()
    {
      FilterShowtimes(showtimes, selectedDate, selectedGenre)
    }

    /** A successful fetch: `setShowtimes(data)`. */
    method Load(data: seq<Showtime>)
      requires AllHaveGenres(data)
      modifies this`showtimes
      ensures Valid() && showtimes == data
    {
      showtimes := data;
    }

    method SelectDate(date: string)
      requires Valid()
      modifies this`selectedDate
      ensures Valid() && selectedDate == date
    {
      selectedDate := date;
    }

    method SelectGenre(genre: string)
      requires Valid()
      modifies this`selectedGenre
      ensures Valid() && selectedGenre == genre
    {
      selectedGenre := genre;
    }

    /** The "Clear Filters" button: both filters reset, so every showtime is listed again. */
    method ClearFilters()
      requires Valid()
      modifies this`selectedDate, this`selectedGenre
      ensures Valid() && selectedDate == "" && selectedGenre == ""
      ensures Listed() == showtimes
    {
      selectedDate := "";
      selectedGenre := "";
      ClearedFiltersListAll(showtimes);
    }

    /**
     * The movie cards, `Object.values(groupedShowtimes)` over the listed showtimes: one
     * card per listed movie in the key order of the grouping object, each showing the
     * movie of its first showtime and exactly that movie's listed showtimes; and
     * whether the "No Movies Found" panel shows instead.
     */
    method MovieCards() returns (cards: seq<MovieGroup>, noneFound: bool)
      requires Valid()
      ensures |cards| == |MovieKeyOrder(Listed())|
      ensures forall i :: 0 <= i < |cards| ==>
        cards[i].movie.id == MovieKeyOrder(Listed())[i] &&
        cards[i].showtimes == Select(Listed(), MovieIdOf, cards[i].movie.id) &&
        cards[i].showtimes != [] && cards[i].movie == cards[i].showtimes[0].movie
      ensures noneFound <==> Listed() == []
    {
      var listed := Listed();
      cards := MovieGroupsInOrder(listed);
      noneFound := |cards| == 0;
      if listed != [] {
        assert MovieIdOf(listed[0]) in KeysInOrder(listed, MovieIdOf);
      } else {
        assert KeysInOrder(listed, MovieIdOf) == [];
      }
    }
  }
}
