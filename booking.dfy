/**
 * The booking wizard page: a four-step flow (movie and ticket count, showtime,
 * seats, payment) whose state the click handlers replace, the seat grid it draws
 * from a fixed list of occupied seats, and the seat-toggle rule that caps the
 * selection at the ticket count.
 */
module BookTickets {
  import opened Wrappers
  import opened Seqs
  import opened Text
  import opened Catalog
  import opened Grouping

  const TICKET_PRICE: int := 350
  const FIRST_STEP: int := 1
  const LAST_STEP: int := 4
  const ROWS: seq<string> := ["A", "B", "C", "D", "E", "F", "G", "H"]
  const SEATS_PER_ROW: nat := 12
  const OCCUPIED_SEATS: seq<string> := ["A5", "A6", "B8", "C3", "C4", "D10", "E2", "F7", "F8", "F9"]

  // ---------------------------------------------------------------- seat grid

  datatype Seat = Seat(id: string, number: nat, occupied: bool, selected: bool)

  datatype SeatRow = SeatRow(row: string, seats: seq<Seat>)

  /** The seat label `${row}${number}`. */
  function SeatId(row: string, number: nat): string {
    row + DecimalString(number)
  }

  predicate IsOccupied(seatId: string) {
    seatId in OCCUPIED_SEATS
  }

  function MakeSeat(row: string, number: nat, selected: seq<string>): Seat {
    var id := SeatId(row, number);
    Seat(id, number, IsOccupied(id), id in selected)
  }

  /** One row of `generateSeats()`: seats numbered 1 to 12. */
  function RowSeats(row: string, selected: seq<string>): (seats: seq<Seat>)
    ensures |seats| == SEATS_PER_ROW
    ensures forall i :: 0 <= i < |seats| ==>
      seats[i].id == SeatId(row, i + 1) && seats[i].number == i + 1 &&
      (seats[i].occupied <==> IsOccupied(seats[i].id)) && (seats[i].selected <==> seats[i].id in selected)
  {
    seq(SEATS_PER_ROW, i requires 0 <= i < SEATS_PER_ROW => MakeSeat(row, i + 1, selected))
  }

  /** `generateSeats()`: eight rows of twelve seats, flagged from the occupied list and the selection. */
  function GenerateSeats(selected: seq<string>): (layout: seq<SeatRow>)
    ensures |layout| == |ROWS|
    ensures forall k :: 0 <= k < |layout| ==> layout[k].row == ROWS[k] && |layout[k].seats| == SEATS_PER_ROW
    ensures forall k, i :: 0 <= k < |layout| && 0 <= i < |layout[k].seats| ==>
      layout[k].seats[i].id == SeatId(ROWS[k], i + 1) &&
      layout[k].seats[i].number == i + 1 &&
      (layout[k].seats[i].occupied <==> IsOccupied(layout[k].seats[i].id)) &&
      (layout[k].seats[i].selected <==> layout[k].seats[i].id in selected)
  {
    var layout := seq(|ROWS|, k requires 0 <= k < |ROWS| => SeatRow(ROWS[k], RowSeats(ROWS[k], selected)));
    assert forall k :: 0 <= k < |layout| ==> layout[k].seats == RowSeats(ROWS[k], selected);
    layout
  }

  /** No two places of the grid share a label. */
  lemma SeatIdsDistinct(k1: nat, n1: nat, k2: nat, n2: nat)
    requires k1 < |ROWS| && k2 < |ROWS|
    requires SeatId(ROWS[k1], n1) == SeatId(ROWS[k2], n2)
    ensures k1 == k2 && n1 == n2
  {
    assert forall k :: 0 <= k < |ROWS| ==> |ROWS[k]| == 1 && ROWS[k][0] as int == 'A' as int + k;
    assert SeatId(ROWS[k1], n1)[0] == ROWS[k1][0];
    assert SeatId(ROWS[k1], n1)[1..] == DecimalString(n1);
    assert SeatId(ROWS[k2], n2)[1..] == DecimalString(n2);
    DecimalInjective(n1, n2);
  }

  /** A label is a place on the grid. */
  predicate OnGrid(seatId: string) {
    exists k, n :: 0 <= k < |ROWS| && 1 <= n <= SEATS_PER_ROW && seatId == SeatId(ROWS[k], n)
  }

  /** Every seat of the occupied list is a seat of the grid, so the grid shows all of them as taken. */
  lemma OccupiedSeatsOnGrid()
    ensures forall id :: id in OCCUPIED_SEATS ==> OnGrid(id)
  {
    var places := [(0, 5), (0, 6), (1, 8), (2, 3), (2, 4), (3, 10), (4, 2), (5, 7), (5, 8), (5, 9)];
    assert DecimalString(10) == "10";
    assert forall d :: 0 <= d < 10 ==> DecimalString(d) == [Digit(d)];
    assert forall i :: 0 <= i < |places| ==>
      0 <= places[i].0 < |ROWS| && 1 <= places[i].1 <= SEATS_PER_ROW &&
      OCCUPIED_SEATS[i] == SeatId(ROWS[places[i].0], places[i].1);
  }

  // ---------------------------------------------------------- seat selection

  /**
   * `handleSeatClick(seatId)`: a selected seat is deselected; an unselected one is
   * appended while fewer than `ticketCount` seats are chosen, and ignored otherwise.
   */
  function ToggleSeat(selected: seq<string>, ticketCount: int, seatId: string): (r: seq<string>)
    ensures seatId in selected ==> seatId !in r && forall id :: id in r <==> id in selected && id != seatId
    ensures seatId in selected ==> IsSubsequence(r, selected)
    ensures seatId !in selected && |selected| < ticketCount ==> r == selected + [seatId]
    ensures seatId !in selected && |selected| >= ticketCount ==> r == selected
  {
    if seatId in selected then Filter(selected, id => id != seatId)
    else if |selected| < ticketCount then selected + [seatId]
    else selected
  }

  /** Deselecting drops exactly that seat and keeps the other seats in their order. */
  lemma ToggleRemovesExactlyThatSeat(selected: seq<string>, ticketCount: int, i: nat)
    requires NoDup(selected) && i < |selected|
    ensures ToggleSeat(selected, ticketCount, selected[i]) == selected[..i] + selected[i + 1..]
  {
    var seatId := selected[i];
    FilterOutAt(selected, i, id => id != seatId);
  }

  /** A click never creates a duplicate and never pushes the selection past the ticket count. */
  lemma ToggleKeepsSelectionSound(selected: seq<string>, ticketCount: int, seatId: string)
    requires NoDup(selected)
    ensures NoDup(ToggleSeat(selected, ticketCount, seatId))
    ensures |selected| <= ticketCount ==> |ToggleSeat(selected, ticketCount, seatId)| <= ticketCount
    ensures forall id :: id in ToggleSeat(selected, ticketCount, seatId) ==> id in selected || id == seatId
  {
    if seatId in selected {
      var i :| 0 <= i < |selected| && selected[i] == seatId;
      ToggleRemovesExactlyThatSeat(selected, ticketCount, i);
      NoDupDropAt(selected, i);
    }
  }

  /** The seat button: `!seat.occupied && handleSeatClick(seat.id)`. */
  function ClickSeatButton(selected: seq<string>, ticketCount: int, seatId: string): (r: seq<string>)
    ensures IsOccupied(seatId) ==> r == selected
    ensures (forall id :: id in selected ==> !IsOccupied(id)) ==> forall id :: id in r ==> !IsOccupied(id)
  {
    if IsOccupied(seatId) then selected else ToggleSeat(selected, ticketCount, seatId)
  }

  /** The selection after a run of seat-button clicks. */
  function ApplyClicks(selected: seq<string>, ticketCount: int, clicks: seq<string>): seq<string>
    decreases |clicks|
  {
    if clicks == [] then selected
    else ApplyClicks(ClickSeatButton(selected, ticketCount, clicks[0]), ticketCount, clicks[1..])
  }

  /** What a selection must satisfy: no repeats, nothing occupied. */
  predicate SoundSelection(selected: seq<string>) {
    NoDup(selected) && forall id :: id in selected ==> !IsOccupied(id)
  }

  /**
   * Any run of clicks keeps the selection free of repeats and of occupied seats,
   * and keeps it within the ticket count when it started within it.
   */
  lemma {:induction false} ClicksKeepSelectionSound(selected: seq<string>, ticketCount: int, clicks: seq<string>)
    requires SoundSelection(selected)
    decreases |clicks|
    ensures SoundSelection(ApplyClicks(selected, ticketCount, clicks))
    ensures |selected| <= ticketCount ==> |ApplyClicks(selected, ticketCount, clicks)| <= ticketCount
  {
    if clicks != [] {
      var next := ClickSeatButton(selected, ticketCount, clicks[0]);
      ToggleKeepsSelectionSound(selected, ticketCount, clicks[0]);
      ClicksKeepSelectionSound(next, ticketCount, clicks[1..]);
    }
  }

  /** An occupied seat stays out of the selection however often it is clicked. */
  lemma {:induction false} OccupiedSeatNeverSelected(selected: seq<string>, ticketCount: int, clicks: seq<string>, seatId: string)
    requires IsOccupied(seatId) && seatId !in selected && NoDup(selected)
    requires forall id :: id in selected ==> !IsOccupied(id)
    ensures seatId !in ApplyClicks(selected, ticketCount, clicks)
  {
    ClicksKeepSelectionSound(selected, ticketCount, clicks);
  }

  // ------------------------------------------------------ movie and showtime

  /**
   * The movie cards of step 1, `Object.values(groupedShowtimes)`: one card per movie
   * that has a showtime, in the key order of the grouping object, each carrying the
   * movie object of that movie's first showtime.
   */
  method MovieChoices(showtimes: seq<Showtime>) returns (movies: seq<Movie>)
    ensures |movies| == |MovieKeyOrder(showtimes)|
    ensures forall i :: 0 <= i < |movies| ==>
      movies[i].id == MovieKeyOrder(showtimes)[i] &&
      Select(showtimes, MovieIdOf, movies[i].id) != [] &&
      movies[i] == Select(showtimes, MovieIdOf, movies[i].id)[0].movie
    ensures forall s :: s in showtimes ==> exists i :: 0 <= i < |movies| && movies[i].id == MovieIdOf(s)
  {
    var groups := MovieGroupsInOrder(showtimes);
    movies := seq(|groups|, i requires 0 <= i < |groups| => groups[i].movie);
    forall s | s in showtimes ensures exists i :: 0 <= i < |movies| && movies[i].id == MovieIdOf(s) {
      assert MovieIdOf(s) in KeysInOrder(showtimes, MovieIdOf);
      var i :| 0 <= i < |MovieKeyOrder(showtimes)| && MovieKeyOrder(showtimes)[i] == MovieIdOf(s);
      assert movies[i].id == MovieIdOf(s);
    }
  }

  /**
   * The showtime buttons of step 2, `groupedShowtimes[selectedMovie.id].showtimes`:
   * exactly the chosen movie's showtimes, in the order they were fetched, as many
   * times as they were fetched. The movie was picked from the cards, so it has a group.
   */
  method ShowtimeChoices(showtimes: seq<Showtime>, movie: Movie) returns (choices: seq<Showtime>)
    requires exists s :: s in showtimes && s.movie.id == movie.id
    ensures choices == Select(showtimes, MovieIdOf, movie.id)
  {
    var groups := GroupByMovie(showtimes);
    var s :| s in showtimes && s.movie.id == movie.id;
    assert MovieIdOf(s) in groups;
    choices := groups[movie.id].showtimes;
  }

  // ------------------------------------------------------------ payment form

  datatype PaymentField = Name | Email | Phone | CardNumber | ExpiryDate | Cvv

  datatype PaymentForm = PaymentForm(name: string, email: string, phone: string,
                                     cardNumber: string, expiryDate: string, cvv: string)
  {
    /** Every field is a non-empty (truthy) string. */
    predicate Complete() {
      name != "" && email != "" && phone != "" && cardNumber != "" && expiryDate != "" && cvv != ""
    }

    /** `{ ...bookingData, [field]: value }`. */
    function With(field: PaymentField, value: string): PaymentForm {
      match field
      case Name => this.(name := value)
      case Email => this.(email := value)
      case Phone => this.(phone := value)
      case CardNumber => this.(cardNumber := value)
      case ExpiryDate => this.(expiryDate := value)
      case Cvv => this.(cvv := value)
    }

    function Get(field: PaymentField): string {
      match field
      case Name => name
      case Email => email
      case Phone => phone
      case CardNumber => cardNumber
      case ExpiryDate => expiryDate
      case Cvv => cvv
    }
  }

  const EMPTY_FORM := PaymentForm("", "", "", "", "", "")

  /** Editing one field sets that field and leaves the other five as they were. */
  lemma WithSetsOnlyThatField(form: PaymentForm, field: PaymentField, value: string)
    ensures form.With(field, value).Get(field) == value
    ensures forall other :: other != field ==> form.With(field, value).Get(other) == form.Get(other)
  {
  }

  /** The form is complete exactly when no field is empty. */
  lemma CompleteIffNoEmptyField(form: PaymentForm)
    ensures form.Complete() <==> forall f: PaymentField :: form.Get(f) != ""
  {
    if !form.Complete() {
      if form.name == "" { assert form.Get(Name) == ""; }
      else if form.email == "" { assert form.Get(Email) == ""; }
      else if form.phone == "" { assert form.Get(Phone) == ""; }
      else if form.cardNumber == "" { assert form.Get(CardNumber) == ""; }
      else if form.expiryDate == "" { assert form.Get(ExpiryDate) == ""; }
      else { assert form.Get(Cvv) == ""; }
    }
  }

  // ------------------------------------------------------------------ wizard

  class BookingWizard {
    var currentStep: int
    var ticketCount: int
    var selectedMovie: Option<Movie>
    var selectedShowtime: Option<Showtime>
    var selectedSeats: seq<string>
    var bookingData: PaymentForm

    ghost predicate Valid()
      reads this
    {
      FIRST_STEP <= currentStep <= LAST_STEP && ticketCount >= 0 && SoundSelection(selectedSeats)
    }

    constructor ()
      ensures Valid()
      ensures currentStep == FIRST_STEP && ticketCount == 0
      ensures selectedMovie == None && selectedShowtime == None
      ensures selectedSeats == [] && bookingData == EMPTY_FORM
    {
      currentStep := FIRST_STEP;
      ticketCount := 0;
      selectedMovie := None;
      selectedShowtime := None;
      selectedSeats := [];
      bookingData := EMPTY_FORM;
    }

    /**
     * `canProceed()`: the completeness test of the current step. Passing it on step 1
     * means a non-zero total; on step 3, that every ticket paid for has its seat.
     */
    predicate CanProceed(): (ok: bool)
      reads this
      requires Valid()
      ensures ok ==> FIRST_STEP <= currentStep <= LAST_STEP
      ensures ok && currentStep == FIRST_STEP ==> TotalPrice() > 0
      ensures ok && currentStep == 3 ==> TotalPrice() == |selectedSeats| * TICKET_PRICE
    {
      match currentStep
      case 1 => selectedMovie.Some? && ticketCount > 0
      case 2 => selectedShowtime.Some?
      case 3 => |selectedSeats| == ticketCount
      case 4 => bookingData.Complete()
      case _ => false
    }

    /** `totalPrice`: the ticket count at the fixed price. */
    function TotalPrice(): (total: int)
      reads this
      requires Valid()
      ensures total >= 0 && total % TICKET_PRICE == 0
      ensures total / TICKET_PRICE == ticketCount
    {
      ticketCount * TICKET_PRICE
    }

    method SelectMovie(movie: Movie)
      requires Valid()
      modifies this`selectedMovie
      ensures Valid() && selectedMovie == Some(movie)
    {
      selectedMovie := Some(movie);
    }

    method SelectShowtime(showtime: Showtime)
      requires Valid()
      modifies this`selectedShowtime
      ensures Valid() && selectedShowtime == Some(showtime)
    {
      selectedShowtime := Some(showtime);
    }

    /** The "-" button: `Math.max(0, ticketCount - 1)`. */
    method DecrementTickets()
      requires Valid()
      modifies this`ticketCount
      ensures Valid()
      ensures ticketCount == if old(ticketCount) > 0 then old(ticketCount) - 1 else 0
    {
      ticketCount := if ticketCount - 1 > 0 then ticketCount - 1 else 0;
    }

    /** The "+" button. */
    method IncrementTickets()
      requires Valid()
      modifies this`ticketCount
      ensures Valid() && ticketCount == old(ticketCount) + 1
    {
      ticketCount := ticketCount + 1;
    }

    /** A seat button: occupied seats ignore the click, others go through `handleSeatClick`. */
    method ClickSeat(seatId: string)
      requires Valid()
      modifies this`selectedSeats
      ensures Valid()
      ensures selectedSeats == ClickSeatButton(old(selectedSeats), ticketCount, seatId)
      ensures old(|selectedSeats|) <= ticketCount ==> |selectedSeats| <= ticketCount
    {
      if !IsOccupied(seatId) {
        ToggleKeepsSelectionSound(selectedSeats, ticketCount, seatId);
        selectedSeats := ToggleSeat(selectedSeats, ticketCount, seatId);
      }
    }

    /** One payment input's `onChange`. */
    method UpdateField(field: PaymentField, value: string)
      requires Valid()
      modifies this`bookingData
      ensures Valid() && bookingData == old(bookingData).With(field, value)
    {
      bookingData := bookingData.With(field, value);
    }

    /** `handleNext`: one step forward, never past the last. */
    method HandleNext()
      requires Valid()
      modifies this`currentStep
      ensures Valid()
      ensures currentStep == if old(currentStep) < LAST_STEP then old(currentStep) + 1 else old(currentStep)
    {
      if currentStep < LAST_STEP {
        currentStep := currentStep + 1;
      }
    }

    /** `handlePrevious`: one step back, never before the first; every selection is kept. */
    method HandlePrevious()
      requires Valid()
      modifies this`currentStep
      ensures Valid()
      ensures currentStep == if old(currentStep) > FIRST_STEP then old(currentStep) - 1 else old(currentStep)
    {
      if currentStep > FIRST_STEP {
        currentStep := currentStep - 1;
      }
    }

    /**
     * The Next / Confirm Booking button: disabled unless `canProceed()`; on the last
     * step it confirms instead of advancing.
     */
    method PressForward() returns (confirmed: bool)
      requires Valid()
      modifies this`currentStep
      ensures Valid()
      ensures confirmed <==> old(CanProceed()) && old(currentStep) == LAST_STEP
      ensures currentStep == if old(CanProceed()) && old(currentStep) < LAST_STEP then old(currentStep) + 1 else old(currentStep)
    {
      confirmed := false;
      if CanProceed() {
        if currentStep == LAST_STEP {
          confirmed := true;
        } else {
          HandleNext();
        }
      }
    }
  }

  /** A walk through the step gates: nothing advances until the step is complete. */
  method StepGateWalkthrough()
  {
    var w := new BookingWizard();
    var movie := Movie(7, Some("Dune"), 166, "", Some("Sci-Fi"), None, "");
    var show := Showtime(1, movie, "2024-05-01", "19:30:00", "IMAX Hall", 350, 100, 10);
    var done := w.PressForward();
    assert w.currentStep == 1 && !done;
    w.SelectMovie(movie);
    w.IncrementTickets();
    assert w.TotalPrice() == 350;
    done := w.PressForward();
    assert w.currentStep == 2;
    done := w.PressForward();
    assert w.currentStep == 2;
    w.SelectShowtime(show);
    done := w.PressForward();
    assert w.currentStep == 3;
    done := w.PressForward();
    assert w.currentStep == 3 && !done;
    w.HandlePrevious();
    assert w.currentStep == 2 && w.selectedShowtime == Some(show) && w.ticketCount == 1;
  }

  /** A walk through the seat buttons with two tickets. */
  method SeatClickWalkthrough()
  {
    var w := new BookingWizard();
    w.IncrementTickets();
    w.IncrementTickets();
    WalkthroughSeats();
    w.ClickSeat("A5");
    assert w.selectedSeats == [];
    w.ClickSeat("A1");
    assert w.selectedSeats == ["A1"];
    w.ClickSeat("A2");
    assert w.selectedSeats == ["A1", "A2"];
    w.ClickSeat("A3");
    assert w.selectedSeats == ["A1", "A2"];
  }

  lemma WalkthroughSeats()
    ensures IsOccupied("A5")
    ensures !IsOccupied("A1") && !IsOccupied("A2") && !IsOccupied("A3")
  {
  }

  /** Clicking a chosen seat again frees it and keeps the other seat. */
  method SeatDeselectWalkthrough()
  {
    var w := new BookingWizard();
    w.IncrementTickets();
    w.IncrementTickets();
    WalkthroughSeats();
    w.ClickSeat("A1");
    w.ClickSeat("A2");
    assert w.selectedSeats == ["A1", "A2"];
    ToggleRemovesExactlyThatSeat(["A1", "A2"], 2, 0);
    w.ClickSeat("A1");
    assert w.selectedSeats == ["A2"];
  }
}
