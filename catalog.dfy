/**
 * The records the booking API returns, as the pages read them. Fields the
 * Movies page reads through optional chaining (`movie.title?.`,
 * `movie.genre?.genreName?.`) are options; `genre` is `None` when either the
 * genre object or its `genreName` is missing.
 */
module Catalog {
  import opened Wrappers

  datatype Movie = Movie(
    id: int,
    title: Option<string>,
    duration: int,
    synopsis: string,
    genre: Option<string>,
    rating: Option<string>,
    photo: string)

  /** One screening of a movie in a cinema; `movieCinemaId` is its key. */
  datatype Showtime = Showtime(
    movieCinemaId: int,
    movie: Movie,
    date: string,
    time: string,
    cinemaName: string,
    price: int,
    totalSeats: int,
    bookedSeats: int)

  function MovieIdOf(s: Showtime): int { s.movie.id }

  function DateOf(s: Showtime): string { s.date }
}
