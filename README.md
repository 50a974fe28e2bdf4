# Cinema booking front end — a Dafny model of its data logic

This project models the small pieces of sequential data logic in a movie-theater
ticketing web application (a Next.js front end with stub REST routes) and proves
their properties in Dafny. Each source file gets one module:

- **SeatSelection** (`components/seat-selection.tsx`): the 8 × 12 grid of seat
  labels ("A1" … "H12"), the fixed list of booked seats, and the seat picker whose
  `toggleSeat` appends a seat the customer has not selected and removes one they have.
- **MovieCarousel** (`components/movie-carousel.tsx`): the window index moved by the
  next/previous buttons with wrap-around, the visible count chosen from the viewport
  width, and the wrapped window of cards.
- **MoviesRoute**, **ScreeningsRoute**, **ReservationsRoute** (`app/api/*/route.ts`):
  the module-level arrays that stand in for a database, with GET (whole table) and
  POST (append). Movies and screenings get `id = max(ids, 0) + 1` (module
  **IdAllocation**). Reservations get `"RES-" + r` for a random `r` in 0..9999, a
  time stamp and the status `confirmed`.
- **AdminPage** (`app/admin/page.tsx`): the dashboard's four entity lists. They are
  kept in step with the server's answers by create (append), update (replace by id)
  and delete (filter by id). The dialogs' `onSave`/`onConfirm` choose a handler by
  dialog mode and delete type.
- **MoviesPage** (`app/movies/page.tsx`): showtimes grouped under their distinct
  dates, and the booking link of each showtime.
- **Navbar** (`components/navbar.tsx`): avatar initials computed with JavaScript
  `split(" ")` semantics, and the active-link class.
- **ScreeningDialog** (`components/admin/screening-dialog.tsx`): the screening form.
  It is reset from the screening or from defaults, changed one field at a time, or
  given a picked movie's id and title.

The shared modules are **Common** (an option type, the no-duplicates
predicate), **Decimal** (the decimal text of a non-negative number, with its
read-back) and **Entities** (the `User`, `Movie`, `Screening` and
`Reservation` records of `lib/api-services.ts`).

Where the source updates state in place, the model has a class. The seat picker,
the carousel, the three route tables, the dashboard and the screening form each
have their fields and `modifies` clauses. The pure expressions they use (`filter`,
`map`, `reduce`, array spread, `split`, `find`) are functions, and lemmas prove what
the code promises about them.

Nondeterminism and the outside world become parameters:
- `Math.floor(Math.random() * 10000)` is the parameter `r <= 9999`.
- `new Date().toISOString()` is an opaque string `now`.
- The viewport width is `Option<int>`, with `None` when there is no `window`.
- An awaited API call's result is `Answered(v)` or `Failed`.
- The callback `onSelectSeats` is the value the toggle returns.

## Model

| member | source | states |
|---|---|---|
| Decimal.Digits | components/seat-selection.tsx:50 | the decimal text of a number is non-empty, made of digits, and has no leading zero |
| Decimal.ValueOfDigits | components/seat-selection.tsx:50 | reading the decimal text of n back gives n |
| Decimal.DigitsInjective | components/seat-selection.tsx:50 | different numbers have different decimal texts |
| Decimal.DigitsLength | app/api/reservations/route.ts:81 | a number below 10^k has at most k digits |
| SeatSelection.Label | components/seat-selection.tsx:50 | a seat label is the row letter followed by decimal digits that read back as the seat number |
| SeatSelection.Grid | components/seat-selection.tsx:44-50 | the grid lists rows × seats-per-row = 96 labels |
| SeatSelection.GridMembership | components/seat-selection.tsx:48-50 | a label is on the grid exactly when it is a row letter A..H followed by a number 1..12 |
| SeatSelection.LabelInjective | components/seat-selection.tsx:50 | equal labels come from the same row and seat number |
| SeatSelection.GridDistinct | components/seat-selection.tsx:8-9 | the 96 grid labels are pairwise distinct |
| SeatSelection.GridAt | components/seat-selection.tsx:44-50 | seat n of row r is at position r·12 + n − 1 of the grid |
| SeatSelection.BookedSeatsOnGrid | components/seat-selection.tsx:12 | every pre-booked seat is a grid label |
| SeatSelection.FrontBookedOnGrid | components/seat-selection.tsx:12 | the booked seats of rows A to D are grid labels |
| SeatSelection.BackBookedOnGrid | components/seat-selection.tsx:12 | the booked seats of rows E to H are grid labels |
| SeatSelection.TwoDigitBookedOnGrid | components/seat-selection.tsx:12 | the booked seats E10, F11 and F12 are grid labels |
| SeatSelection.IsSeatBooked | components/seat-selection.tsx:33 | true exactly for the listed booked seats, and then the seat is on the grid |
| SeatSelection.Without | components/seat-selection.tsx:23 | the filter keeps exactly the elements different from the seat and never grows |
| SeatSelection.Toggled | components/seat-selection.tsx:21-31 | after a toggle the seat is selected exactly when it was not before; every other seat keeps its status |
| SeatSelection.WithoutConcat | components/seat-selection.tsx:23 | the filter distributes over concatenation, so the remaining seats keep their relative order |
| SeatSelection.WithoutAbsent | components/seat-selection.tsx:23 | filtering out an absent seat changes nothing |
| SeatSelection.ToggleUnselected | components/seat-selection.tsx:26-27 | toggling an unselected seat appends it at the end and keeps every earlier entry |
| SeatSelection.ToggleSelected | components/seat-selection.tsx:22-23 | toggling the seat at position i of a duplicate-free selection removes exactly that entry |
| SeatSelection.ToggleTwice | components/seat-selection.tsx:21-31 | toggling the same unselected seat twice gives back the original selection |
| SeatSelection.WithoutNoDuplicates | components/seat-selection.tsx:23 | filtering keeps a selection free of duplicates |
| SeatSelection.ToggleNoDuplicates | components/seat-selection.tsx:21-31 | a toggle never introduces a duplicate |
| SeatSelection.SeatPicker.constructor | components/seat-selection.tsx:19 | the picker starts with an empty selection, which satisfies its invariant |
| SeatSelection.SeatPicker.IsSeatSelected | components/seat-selection.tsx:34 | true exactly for seats in the current selection |
| SeatSelection.SeatPicker.ToggleSeat | components/seat-selection.tsx:21-31 | the new selection is the toggle of the old one, and the callback receives exactly the new selection |
| SeatSelection.SeatPicker.Click | components/seat-selection.tsx:64-65 | a booked seat's button is disabled: nothing changes and nothing is reported. Otherwise the seat toggles. The invariant (no duplicates, grid seats only, never a booked seat) is preserved |
| MovieCarousel.VisibleCountFor | components/movie-carousel.tsx:53-63 | 1 card below 640 px, 2 from 640 up to 1024 px, 3 from 1024 px on |
| MovieCarousel.VisibleCountMonotonic | components/movie-carousel.tsx:53-63 | a wider viewport never shows fewer cards |
| MovieCarousel.NextIndex | components/movie-carousel.tsx:72 | from a position of the list, the next index is again a position of the list; it is index + 1 while the window does not reach the end |
| MovieCarousel.PrevIndex | components/movie-carousel.tsx:76 | from a position of the list, the previous index is again a position of the list; it is index − 1 except at 0 |
| MovieCarousel.StepInRange | components/movie-carousel.tsx:71-77 | one next or previous press keeps the index in [0, n−1] |
| MovieCarousel.RunInRange | components/movie-carousel.tsx:71-77 | any run of presses keeps the index in [0, n−1], even when the visible count changes between presses |
| MovieCarousel.RunFullWindow | components/movie-carousel.tsx:71-77 | with a fixed visible count v ≤ n, an index starting in [0, n−v] stays there |
| MovieCarousel.NextPrevInverse | components/movie-carousel.tsx:71-77 | on [0, n−v], previous undoes next and next undoes previous |
| MovieCarousel.Slice | components/movie-carousel.tsx:79 | `slice` clamps its end to the length and yields the elements from `start` on |
| MovieCarousel.Carousel.constructor | components/movie-carousel.tsx:50-51 | the carousel starts at index 0 with 3 cards over the five sample movies |
| MovieCarousel.Carousel.UpdateVisibleCount | components/movie-carousel.tsx:53-63 | the count becomes the threshold value for the width, and stays unchanged without a window |
| MovieCarousel.Carousel.NextSlide | components/movie-carousel.tsx:71-73 | the index goes to 0 when index + count ≥ n, else to index + 1, and the invariant holds |
| MovieCarousel.Carousel.PrevSlide | components/movie-carousel.tsx:75-77 | the index goes from 0 to max(0, n − count), else to index − 1, and the invariant holds |
| MovieCarousel.Carousel.VisibleMovies | components/movie-carousel.tsx:79-84 | when count ≤ n, the window has count cards and card k is movie (index + k) mod n |
| IdAllocation.MaxId | app/api/movies/route.ts:70 | the reduce gives a value ≥ 0, at least every id, and equal to 0 or to some id |
| IdAllocation.NextId | app/api/movies/route.ts:70-71 | the new id is ≥ 1, greater than every existing id, and 1 for an empty table |
| IdAllocation.AppendKeepsUnique | app/api/screenings/route.ts:66-70 | appending a record with the allocated id keeps the ids pairwise distinct |
| MoviesRoute.SeedMovies | app/api/movies/route.ts:5-60 | the five seed movies have ids 1..5 |
| MoviesRoute.WithAllocatedId | app/api/movies/route.ts:71 | the stored movie has the allocated id, and every other field is copied from the request body |
| MoviesRoute.MovieTable.constructor | app/api/movies/route.ts:5-60 | the table starts as the seed movies, with distinct positive ids |
| MoviesRoute.MovieTable.Get | app/api/movies/route.ts:62-64 | GET returns the whole current table |
| MoviesRoute.MovieTable.Post | app/api/movies/route.ts:66-77 | POST appends exactly the returned record at the end. Its id is larger than every earlier id and overrides the body's. Earlier records are unchanged and ids stay distinct |
| ScreeningsRoute.SeedScreenings | app/api/screenings/route.ts:5-56 | the five seed screenings have ids 1..5 |
| ScreeningsRoute.WithAllocatedId | app/api/screenings/route.ts:67 | the stored screening has the allocated id, and every other field is copied from the request body |
| ScreeningsRoute.ScreeningTable.constructor | app/api/screenings/route.ts:5-56 | the table starts as the seed screenings, with distinct positive ids |
| ScreeningsRoute.ScreeningTable.Get | app/api/screenings/route.ts:58-60 | GET returns the whole current table |
| ScreeningsRoute.ScreeningTable.Post | app/api/screenings/route.ts:62-73 | POST appends exactly the returned record at the end, with a fresh id larger than every earlier id. Earlier records are unchanged |
| ReservationsRoute.SeedReservations | app/api/reservations/route.ts:5-71 | all five seed reservations are confirmed and have pairwise distinct ids |
| ReservationsRoute.NewReservationId | app/api/reservations/route.ts:81 | the id is "RES-" followed by the canonical decimal text of r: 1 to 4 digits, no leading zero unless r is 0, reading back as r |
| ReservationsRoute.NewReservationIdInjective | app/api/reservations/route.ts:81 | equal ids come from equal draws, so ids collide exactly when the draws do |
| ReservationsRoute.Stamped | app/api/reservations/route.ts:84-89 | the stored record is confirmed, carries the drawn id and the time stamp, and agrees with the body on every other field |
| ReservationsRoute.ReservationTable.constructor | app/api/reservations/route.ts:5-71 | the table starts as the seed reservations, all confirmed |
| ReservationsRoute.ReservationTable.Get | app/api/reservations/route.ts:73-75 | GET returns the whole current table |
| ReservationsRoute.ReservationTable.Post | app/api/reservations/route.ts:77-95 | POST appends exactly the returned stamped record at the end. Earlier records are unchanged and every stored reservation stays confirmed |
| AdminPage.ReplaceById | app/admin/page.tsx:94 | the map keeps the list's length |
| AdminPage.ReplaceByIdAt | app/admin/page.tsx:125 | after an update, element k is the returned item if its id matches, and the old element otherwise |
| AdminPage.ReplaceByIdAbsent | app/admin/page.tsx:156 | an update with an id no element has changes nothing |
| AdminPage.RemoveById | app/admin/page.tsx:104 | after a delete no element has the id, and the list never grows |
| AdminPage.RemoveByIdMembers | app/admin/page.tsx:135 | a delete keeps exactly the elements whose id differs |
| AdminPage.RemoveByIdConcat | app/admin/page.tsx:166 | a delete distributes over concatenation, so the survivors keep their order |
| AdminPage.RemoveByIdAbsent | app/admin/page.tsx:187 | a delete with an id no element has changes nothing |
| AdminPage.Dashboard.constructor | app/admin/page.tsx:28-52 | the dashboard starts with empty lists, closed dialogs, no selection, create mode, user delete type and loading on |
| AdminPage.Dashboard.FetchData | app/admin/page.tsx:55-78 | on success all four lists are set from the answers, on failure none changes, and loading ends either way |
| AdminPage.Dashboard.HandleCreateUser | app/admin/page.tsx:81-89 | sends the create request. On an answer, appends the returned user and closes the dialog. On failure the list and the dialog are unchanged |
| AdminPage.Dashboard.HandleUpdateUser | app/admin/page.tsx:91-99 | sends the update request. On an answer, replaces the users with that id by the returned user and closes the dialog. On failure nothing changes |
| AdminPage.Dashboard.HandleDeleteUser | app/admin/page.tsx:101-109 | sends the delete request. On success, removes the users with that id and closes the dialog. On failure nothing changes |
| AdminPage.Dashboard.HandleCreateMovie | app/admin/page.tsx:112-120 | as for users, on the movie list |
| AdminPage.Dashboard.HandleUpdateMovie | app/admin/page.tsx:122-130 | as for users, on the movie list |
| AdminPage.Dashboard.HandleDeleteMovie | app/admin/page.tsx:132-140 | as for users, on the movie list |
| AdminPage.Dashboard.HandleCreateScreening | app/admin/page.tsx:143-151 | as for users, on the screening list |
| AdminPage.Dashboard.HandleUpdateScreening | app/admin/page.tsx:153-161 | as for users, on the screening list |
| AdminPage.Dashboard.HandleDeleteScreening | app/admin/page.tsx:163-171 | as for users, on the screening list |
| AdminPage.Dashboard.HandleUpdateReservation | app/admin/page.tsx:174-182 | as for users, on the reservation list keyed by its string id |
| AdminPage.Dashboard.HandleDeleteReservation | app/admin/page.tsx:184-192 | as for users, on the reservation list keyed by its string id |
| AdminPage.Dashboard.OnSaveUser | app/admin/page.tsx:641-647 | create mode creates. Edit mode with a selected user updates that user's id. Either way the dialog closes exactly when the server answers. View mode, or edit mode without a selection, sends nothing and changes nothing |
| AdminPage.Dashboard.OnSaveMovie | app/admin/page.tsx:656-662 | the same dispatch for movies, closing the movie dialog exactly when the server answers |
| AdminPage.Dashboard.OnSaveScreening | app/admin/page.tsx:672-678 | the same dispatch for screenings, closing the screening dialog exactly when the server answers |
| AdminPage.Dashboard.OnSaveReservation | app/admin/page.tsx:687-691 | never creates. Updates only in edit mode with a selected reservation, closing the dialog exactly when the server answers. Otherwise it sends nothing and changes nothing |
| AdminPage.Dashboard.OnConfirmDelete | app/admin/page.tsx:699-714 | deletes only from the list `deleteType` names, only when that kind has a selection, by the selected id, and closes the delete dialog exactly on success. The other lists never change |
| MoviesPage.Dates | app/movies/page.tsx:117 | the dates are the showtimes' dates, position by position |
| MoviesPage.FirstIndex | app/movies/page.tsx:117 | the position of the first occurrence of a date |
| MoviesPage.Distinct | app/movies/page.tsx:117 | the set-then-array of dates has no repeats and holds exactly the dates that occur |
| MoviesPage.DistinctFirstOccurrenceOrder | app/movies/page.tsx:117 | the distinct dates come in the order of their first occurrence |
| MoviesPage.DistinctExtends | app/movies/page.tsx:117 | adding one date to the input adds it to the end of the distinct dates when it is new, and changes nothing otherwise |
| MoviesPage.LastFirstOccurrence | app/movies/page.tsx:117 | a date seen for the first time at the end has its first occurrence there |
| MoviesPage.OnDate | app/movies/page.tsx:124-125 | a date's filter keeps exactly the showtimes on that date |
| MoviesPage.OnDateConcat | app/movies/page.tsx:124-125 | the filter distributes over concatenation, so a group keeps the original order |
| MoviesPage.GroupsFor | app/movies/page.tsx:117-126 | group g carries date g and that date's showtimes |
| MoviesPage.Groups | app/movies/page.tsx:117-126 | no group is empty and no date heading repeats |
| MoviesPage.GroupDates | app/movies/page.tsx:117 | the headings are dates that occur, in first-occurrence order |
| MoviesPage.ShowtimeInItsOwnGroup | app/movies/page.tsx:117-126 | every showtime has a heading for its date, and it is listed under that heading and no other |
| MoviesPage.GroupsPartition | app/movies/page.tsx:117-126 | the groups together hold every showtime exactly as often as the movie lists it |
| MoviesPage.BookingHref | app/movies/page.tsx:127 | the link `/movies/{movieId}/book?showtimeId={showtimeId}` reads back as the two ids |
| MoviesPage.ParseBookingHref | app/movies/page.tsx:127 | this model's own inverse of the link, not the booking page's `Number.parseInt` reading: only text of the form `/movies/{m}/book?showtimeId={s}` with both numbers in canonical decimal parses, and as (m, s) |
| MoviesPage.ParseBookingHrefRoundTrip | app/movies/page.tsx:127 | the text of the link reads back as the two ids |
| MoviesPage.LinkFromStages | app/movies/page.tsx:127 | the four stages of a successful parse put the link `/movies/{movieId}/book?showtimeId={showtimeId}` back together |
| MoviesPage.Reassemble | app/movies/page.tsx:127 | the prefix, the movie number, the query and the showtime number concatenate to the link |
| Navbar.Split | components/navbar.tsx:120 | `split(" ")` yields at least one part |
| Navbar.SplitNoSpace | components/navbar.tsx:120 | no part of the split contains a space |
| Navbar.JoinSplit | components/navbar.tsx:120 | joining the parts with spaces gives back the name |
| Navbar.SplitSingle | components/navbar.tsx:121 | there is exactly one part when the name has no space |
| Navbar.SplitFirst | components/navbar.tsx:120 | the first part is the text before the first space |
| Navbar.SplitLast | components/navbar.tsx:123 | the last part is the text after the last space |
| Navbar.CharAt0 | components/navbar.tsx:121 | `charAt(0)` is the first character, or "" for the empty text |
| Navbar.UpperChar | components/navbar.tsx:121 | ASCII lower-case letters map to upper case and every other character is unchanged |
| Navbar.Upper | components/navbar.tsx:123 | upper-casing keeps the length and maps each character |
| Navbar.Initials | components/navbar.tsx:117-124 | the initials have at most 2 characters, and are "U" when the name is absent or empty |
| Navbar.InitialsOneWord | components/navbar.tsx:121 | a name without a space gives its first character upper-cased |
| Navbar.InitialsSeveralWords | components/navbar.tsx:123 | a name with a space gives the upper-cased first characters of the text before the first space and of the text after the last space |
| Navbar.InitialsOfParts | components/navbar.tsx:121-123 | the initials read from the parts have at most two characters |
| Navbar.InitialsFromEnds | components/navbar.tsx:123 | a name of several parts takes its initials from the first and the last part |
| Navbar.SplitLastStep | components/navbar.tsx:120 | the last part of a text is the last part of the text after its first character, unless that character extends a single remaining part |
| Navbar.LastSpaceAfterFirst | components/navbar.tsx:123 | the text after the last space is the same, seen from the text after the first character |
| Navbar.SplitLastOnlyFirst | components/navbar.tsx:120-123 | when a leading space is the only space, the last part is everything after it |
| Navbar.InitialsOnlySpaces | components/navbar.tsx:120-123 | a name made only of spaces gives empty initials |
| Navbar.IsActive | components/navbar.tsx:92-94 | "font-bold" exactly when the pathname equals the path, and "" otherwise |
| ScreeningDialog.FormFor | components/admin/screening-dialog.tsx:34-56 | with a screening, the form holds its seven fields unchanged (together with the id it is the screening again). Without one, the defaults are the first movie's id and title (0 and "" for no movie), "Theater 1", empty date and time, capacity 100, booked 0 |
| ScreeningDialog.WithField | components/admin/screening-dialog.tsx:58-60 | a change sets only the named field |
| ScreeningDialog.WithFieldCommutes | components/admin/screening-dialog.tsx:58-60 | changes of different fields can be made in either order |
| ScreeningDialog.WithFieldLastWins | components/admin/screening-dialog.tsx:58-60 | a second change of the same field overrides the first |
| ScreeningDialog.FindMovie | components/admin/screening-dialog.tsx:63 | finds nothing exactly when no movie has the id, and otherwise the first movie with that id |
| ScreeningDialog.AfterMovieChange | components/admin/screening-dialog.tsx:62-71 | a found movie sets the movie id and title and nothing else. An unknown id leaves the form unchanged |
| ScreeningDialog.MovieChangeListed | components/admin/screening-dialog.tsx:62-69 | picking a listed movie (ids unique) copies its id and title |
| ScreeningDialog.Title | components/admin/screening-dialog.tsx:79 | "Add Screening", "Edit Screening" and "Screening Details" exactly for create, edit and view |
| ScreeningDialog.ScreeningFormState.constructor | components/admin/screening-dialog.tsx:23-31 | the form starts with movie 0, empty texts, capacity 100 and booked 0 |
| ScreeningDialog.ScreeningFormState.Reset | components/admin/screening-dialog.tsx:34-56 | the form becomes the copy or the defaults |
| ScreeningDialog.ScreeningFormState.HandleChange | components/admin/screening-dialog.tsx:58-60 | the form changes in the named field only |
| ScreeningDialog.ScreeningFormState.HandleMovieChange | components/admin/screening-dialog.tsx:62-71 | the form takes the found movie's id and title, or stays unchanged |
| ScreeningDialog.ScreeningFormState.HandleSubmit | components/admin/screening-dialog.tsx:73-76 | `onSave` receives exactly the current form |

## Left out

- Seat holds, commits, expiry, per-showtime locking and a booked count kept in step with bookings: the code has none of these.
- Any relation between a screening's `booked` and its `capacity`: the code enforces none (only an HTML `max` hint on the input).
- Network and storage plumbing (`lib/api-services.ts`, the auth and user services, `localStorage`): the server's answers are parameters, and the requests sent are recorded in `AdminPage.Dashboard.requests`.
- What the server does with update and delete requests (the `[id]` routes): those files are not part of this model.
- Concurrency among the dashboard's async handlers: each handler runs to completion on the list state it sees. Stale captured state from interleaved awaits is not modelled.
- The row and header buttons that set `selectedX`, `dialogMode`, `deleteType` and the open flags: these are plain field assignments, and callers set the corresponding fields directly.
- The tables' `user_id`/`movie_id` row keys: the handlers' `id` is modelled.
- Request bodies and `Partial`/`Omit` payloads: each is a full record of its entity. Fields the body lacks take any value, and the routes overwrite them.
- Reservation id uniqueness: draws can repeat, so ids can collide. The model proves only that equal ids mean equal draws.
- `Math.random` and `Date`: the parameters `r` and `now`. The time stamp is opaque text.
- Date formatting with `toLocaleDateString` and prices with `toFixed(2)`: a price is an exact `real` with no arithmetic.
- Navbar.UpperChar: ASCII upper-casing only, not full Unicode `toUpperCase`.
- Navbar.CharAt0: a string here is a sequence of Unicode characters, while JavaScript's `charAt(0)` returns one UTF-16 code unit. For a name that starts outside the Basic Multilingual Plane (an emoji, say), the source yields a lone surrogate and the model yields the whole character.
- Navbar.Initials: the bound of at most two characters relies on the ASCII-only upper-casing. JavaScript's `toUpperCase` can lengthen text ("ß" becomes "SS"), so the source gives "SSSS" for "ßa ßb".
- MoviesPage.ParseBookingHref: this is not the parsing the booking page does with `Number.parseInt`; that page is not part of this model. The parser exists only to show that the link determines its two ids.
- Rendering, JSX, dialogs, page shells and the thin form pages (sign-in, register, profile, reservations).
- The carousel's `resize` listener and React effect timing: `UpdateVisibleCount` is a call with the current width.
- MoviesPage.BookingHref: movie and showtime ids are non-negative (they are positive in the source's data). Negative numbers in the link are not modelled.
- ScreeningDialog.WithField: only the seven form fields. `keyof Screening` also allows `id`, which no caller passes, and `Number.parseInt` giving `NaN` for an empty input is not modelled.
- MovieCarousel.Carousel.VisibleMovies: the wrapped-window property is stated for `visibleCount <= n`, which always holds in the source (at most 3 cards over 5 movies).
