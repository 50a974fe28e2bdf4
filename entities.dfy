/** The records exchanged between the pages, the dialogs and the REST
    routes (the `User`, `Movie`, `Screening` and `Reservation` interfaces of
    lib/api-services.ts), and the mode a create/edit/view dialog is opened in.
    Money is an exact `real`: no arithmetic is ever done on it. */
module Entities {

  datatype Role = Admin | Client
  datatype AccountStatus = Active | Inactive

  datatype User = User(
    id: int,
    name: string,
    email: string,
    password: string,
    role: Role,
    registeredDate: string,
    status: AccountStatus)

  datatype MovieStatus = Showing | Upcoming | Ended

  datatype Movie = Movie(
    id: int,
    title: string,
    description: string,
    image: string,
    genre: string,
    duration: string,
    releaseDate: string,
    status: MovieStatus)

  datatype Screening = Screening(
    id: int,
    movieId: int,
    movieTitle: string,
    theater: string,
    date: string,
    time: string,
    capacity: int,
    booked: int)

  datatype ReservationStatus = Confirmed | Cancelled

  datatype Reservation = Reservation(
    id: string,
    userId: int,
    userName: string,
    movieId: int,
    movieTitle: string,
    date: string,
    time: string,
    seats: seq<string>,
    totalPrice: real,
    status: ReservationStatus,
    createdAt: string)

  /** The mode the admin dialogs are opened in. */
  datatype DialogMode = Create | Edit | View

  function UserId(u: User): int { u.id }
  function MovieId(m: Movie): int { m.id }
  function ScreeningId(s: Screening): int { s.id }
  function ReservationId(r: Reservation): string { r.id }
}
