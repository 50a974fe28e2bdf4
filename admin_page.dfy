/** The admin dashboard of app/admin/page.tsx: four entity lists kept in step
    with the server's answers by create/update/delete handlers, and the
    dialog callbacks that choose which handler runs. The server is outside the
    model: each handler receives the answer its request got (`Answered(v)`, or
    `Failed` when the awaited call throws), and the requests it sends are
    recorded in `requests`. */
module AdminPage {
  import opened Common
  import opened Entities

  /** What an awaited API call produced. */
  datatype Answer<T> = Answered(value: T) | Failed

  /** A request the dashboard sends to the API. */
  datatype ApiRequest =
    | CreateUser(user: User) | UpdateUser(userId: int, userPatch: User) | DeleteUser(userId: int)
    | CreateMovie(movie: Movie) | UpdateMovie(movieId: int, moviePatch: Movie) | DeleteMovie(movieId: int)
    | CreateScreening(screening: Screening) | UpdateScreening(screeningId: int, screeningPatch: Screening)
    | DeleteScreening(screeningId: int)
    | UpdateReservation(reservationId: string, reservationPatch: Reservation) | DeleteReservation(reservationId: string)

  /** The kind of entity the delete-confirmation dialog is about. */
  datatype DeleteType = UserDelete | MovieDelete | ScreeningDelete | ReservationDelete

  /** `xs.map((x) => (x.id === id ? item : x))`. */
  function ReplaceById<T, K(==)>(xs: seq<T>, id: K, item: T, key: T -> K): (r: seq<T>)
    ensures |r| == |xs|
  {
    if xs == [] then []
    else [if key(xs[0]) == id then item else xs[0]] + ReplaceById(xs[1..], id, item, key)
  }

  /** `xs.filter((x) => x.id !== id)`. */
  function RemoveById<T, K(==)>(xs: seq<T>, id: K, key: T -> K): (r: seq<T>)
    ensures |r| <= |xs|
    ensures forall k :: 0 <= k < |r| ==> key(r[k]) != id
  {
    if xs == [] then []
    else if key(xs[0]) == id then RemoveById(xs[1..], id, key)
    else [xs[0]] + RemoveById(xs[1..], id, key)
  }

  /** Update replaces exactly the elements whose id matches and keeps every other one in place. */
  lemma {:induction false} ReplaceByIdAt<T, K>(xs: seq<T>, id: K, item: T, key: T -> K, k: nat)
    requires k < |xs|
    ensures ReplaceById(xs, id, item, key)[k] == if key(xs[k]) == id then item else xs[k]
    decreases |xs|
  {
    if k > 0 {
      ReplaceByIdAt(xs[1..], id, item, key, k - 1);
    }
  }

  /** When no element has the id, update changes nothing. */
  lemma {:induction false} ReplaceByIdAbsent<T, K>(xs: seq<T>, id: K, item: T, key: T -> K)
    requires forall k :: 0 <= k < |xs| ==> key(xs[k]) != id
    ensures ReplaceById(xs, id, item, key) == xs
    decreases |xs|
  {
    if xs != [] {
      ReplaceByIdAbsent(xs[1..], id, item, key);
    }
  }

  /** Delete keeps exactly the elements without the id. */
  lemma {:induction false} RemoveByIdMembers<T, K>(xs: seq<T>, id: K, key: T -> K, y: T)
    ensures y in RemoveById(xs, id, key) <==> y in xs && key(y) != id
    decreases |xs|
  {
    if xs != [] {
      RemoveByIdMembers(xs[1..], id, key, y);
      assert y in xs <==> y == xs[0] || y in xs[1..];
    }
  }

  /** Delete distributes over concatenation, so the survivors keep their order. */
  lemma {:induction false} RemoveByIdConcat<T, K>(a: seq<T>, b: seq<T>, id: K, key: T -> K)
    ensures RemoveById(a + b, id, key) == RemoveById(a, id, key) + RemoveById(b, id, key)
    decreases |a|
  {
    if a == [] {
      assert a + b == b;
    } else {
      assert (a + b)[0] == a[0] && (a + b)[1..] == a[1..] + b;
      RemoveByIdConcat(a[1..], b, id, key);
    }
  }

  /** When no element has the id, delete changes nothing. */
  lemma {:induction false} RemoveByIdAbsent<T, K>(xs: seq<T>, id: K, key: T -> K)
    requires forall k :: 0 <= k < |xs| ==> key(xs[k]) != id
    ensures RemoveById(xs, id, key) == xs
    decreases |xs|
  {
    if xs != [] {
      RemoveByIdAbsent(xs[1..], id, key);
    }
  }

  class Dashboard {
    var users: seq<User>
    var movies: seq<Movie>
    var screenings: seq<Screening>
    var reservations: seq<Reservation>

    var userDialogOpen: bool
    var movieDialogOpen: bool
    var screeningDialogOpen: bool
    var reservationDialogOpen: bool
    var deleteDialogOpen: bool

    var selectedUser: Option<User>
    var selectedMovie: Option<Movie>
    var selectedScreening: Option<Screening>
    var selectedReservation: Option<Reservation>

    var dialogMode: DialogMode
    var deleteType: DeleteType

    var isLoading: bool

    /** The requests sent so far, oldest first. */
    var requests: seq<ApiRequest>

    /** The dashboard before its first fetch: empty lists, closed dialogs, nothing selected. */
    constructor ()
      ensures users == [] && movies == [] && screenings == [] && reservations == []
      ensures !userDialogOpen && !movieDialogOpen && !screeningDialogOpen && !reservationDialogOpen && !deleteDialogOpen
      ensures selectedUser == None && selectedMovie == None && selectedScreening == None && selectedReservation == None
      ensures dialogMode == Create && deleteType == UserDelete && isLoading && requests == []
    {
      isLoading := true;
      users, movies, screenings, reservations := [], [], [], [];
      userDialogOpen, movieDialogOpen, screeningDialogOpen, reservationDialogOpen, deleteDialogOpen := false, false, false, false, false;
      selectedUser, selectedMovie, selectedScreening, selectedReservation := None, None, None, None;
      dialogMode, deleteType := Create, UserDelete;
      requests := [];
    }

    /** The first fetch: the four lists are set together when all four calls
        answer (`Promise.all`), and none is set when any call fails; loading ends either way. */
    method FetchData(answer: Answer<(seq<User>, seq<Movie>, seq<Screening>, seq<Reservation>)>)
      modifies this`users, this`movies, this`screenings, this`reservations, this`isLoading
      ensures !isLoading
      ensures answer.Answered? ==>
        users == answer.value.0 && movies == answer.value.1 &&
        screenings == answer.value.2 && reservations == answer.value.3
      ensures answer.Failed? ==>
        users == old(users) && movies == old(movies) && screenings == old(screenings) && reservations == old(reservations)
    {
      isLoading := true;
      if answer.Answered? {
        users := answer.value.0;
        movies := answer.value.1;
        screenings := answer.value.2;
        reservations := answer.value.3;
      }
      isLoading := false;
    }

    // ---- users ----

    method HandleCreateUser(user: User, answer: Answer<User>)
      modifies this`users, this`userDialogOpen, this`requests
      ensures requests == old(requests) + [CreateUser(user)]
      ensures answer.Answered? ==> users == old(users) + [answer.value] && !userDialogOpen
      ensures answer.Failed? ==> users == old(users) && userDialogOpen == old(userDialogOpen)
    {
      requests := requests + [CreateUser(user)];
      if answer.Answered? {
        users := users + [answer.value];
        userDialogOpen := false;
      }
    }

    method HandleUpdateUser(id: int, user: User, answer: Answer<User>)
      modifies this`users, this`userDialogOpen, this`requests
      ensures requests == old(requests) + [UpdateUser(id, user)]
      ensures answer.Answered? ==> users == ReplaceById(old(users), id, answer.value, UserId) && !userDialogOpen
      ensures answer.Failed? ==> users == old(users) && userDialogOpen == old(userDialogOpen)
    {
      requests := requests + [UpdateUser(id, user)];
      if answer.Answered? {
        users := ReplaceById(users, id, answer.value, UserId);
        userDialogOpen := false;
      }
    }

    method HandleDeleteUser(id: int, ok: bool)
      modifies this`users, this`deleteDialogOpen, this`requests
      ensures requests == old(requests) + [DeleteUser(id)]
      ensures ok ==> users == RemoveById(old(users), id, UserId) && !deleteDialogOpen
      ensures !ok ==> users == old(users) && deleteDialogOpen == old(deleteDialogOpen)
    {
      requests := requests + [DeleteUser(id)];
      if ok {
        users := RemoveById(users, id, UserId);
        deleteDialogOpen := false;
      }
    }

    // ---- movies ----

    method HandleCreateMovie(movie: Movie, answer: Answer<Movie>)
      modifies this`movies, this`movieDialogOpen, this`requests
      ensures requests == old(requests) + [CreateMovie(movie)]
      ensures answer.Answered? ==> movies == old(movies) + [answer.value] && !movieDialogOpen
      ensures answer.Failed? ==> movies == old(movies) && movieDialogOpen == old(movieDialogOpen)
    {
      requests := requests + [CreateMovie(movie)];
      if answer.Answered? {
        movies := movies + [answer.value];
        movieDialogOpen := false;
      }
    }

    method HandleUpdateMovie(id: int, movie: Movie, answer: Answer<Movie>)
      modifies this`movies, this`movieDialogOpen, this`requests
      ensures requests == old(requests) + [UpdateMovie(id, movie)]
      ensures answer.Answered? ==> movies == ReplaceById(old(movies), id, answer.value, MovieId) && !movieDialogOpen
      ensures answer.Failed? ==> movies == old(movies) && movieDialogOpen == old(movieDialogOpen)
    {
      requests := requests + [UpdateMovie(id, movie)];
      if answer.Answered? {
        movies := ReplaceById(movies, id, answer.value, MovieId);
        movieDialogOpen := false;
      }
    }

    method HandleDeleteMovie(id: int, ok: bool)
      modifies this`movies, this`deleteDialogOpen, this`requests
      ensures requests == old(requests) + [DeleteMovie(id)]
      ensures ok ==> movies == RemoveById(old(movies), id, MovieId) && !deleteDialogOpen
      ensures !ok ==> movies == old(movies) && deleteDialogOpen == old(deleteDialogOpen)
    {
      requests := requests + [DeleteMovie(id)];
      if ok {
        movies := RemoveById(movies, id, MovieId);
        deleteDialogOpen := false;
      }
    }

    // ---- screenings ----

    method HandleCreateScreening(screening: Screening, answer: Answer<Screening>)
      modifies this`screenings, this`screeningDialogOpen, this`requests
      ensures requests == old(requests) + [CreateScreening(screening)]
      ensures answer.Answered? ==> screenings == old(screenings) + [answer.value] && !screeningDialogOpen
      ensures answer.Failed? ==> screenings == old(screenings) && screeningDialogOpen == old(screeningDialogOpen)
    {
      requests := requests + [CreateScreening(screening)];
      if answer.Answered? {
        screenings := screenings + [answer.value];
        screeningDialogOpen := false;
      }
    }

    method HandleUpdateScreening(id: int, screening: Screening, answer: Answer<Screening>)
      modifies this`screenings, this`screeningDialogOpen, this`requests
      ensures requests == old(requests) + [UpdateScreening(id, screening)]
      ensures answer.Answered? ==> screenings == ReplaceById(old(screenings), id, answer.value, ScreeningId) && !screeningDialogOpen
      ensures answer.Failed? ==> screenings == old(screenings) && screeningDialogOpen == old(screeningDialogOpen)
    {
      requests := requests + [UpdateScreening(id, screening)];
      if answer.Answered? {
        screenings := ReplaceById(screenings, id, answer.value, ScreeningId);
        screeningDialogOpen := false;
      }
    }

    method HandleDeleteScreening(id: int, ok: bool)
      modifies this`screenings, this`deleteDialogOpen, this`requests
      ensures requests == old(requests) + [DeleteScreening(id)]
      ensures ok ==> screenings == RemoveById(old(screenings), id, ScreeningId) && !deleteDialogOpen
      ensures !ok ==> screenings == old(screenings) && deleteDialogOpen == old(deleteDialogOpen)
    {
      requests := requests + [DeleteScreening(id)];
      if ok {
        screenings := RemoveById(screenings, id, ScreeningId);
        deleteDialogOpen := false;
      }
    }

    // ---- reservations (the dashboard never creates one) ----

    method HandleUpdateReservation(id: string, reservation: Reservation, answer: Answer<Reservation>)
      modifies this`reservations, this`reservationDialogOpen, this`requests
      ensures requests == old(requests) + [UpdateReservation(id, reservation)]
      ensures answer.Answered? ==>
        reservations == ReplaceById(old(reservations), id, answer.value, ReservationId) && !reservationDialogOpen
      ensures answer.Failed? ==> reservations == old(reservations) && reservationDialogOpen == old(reservationDialogOpen)
    {
      requests := requests + [UpdateReservation(id, reservation)];
      if answer.Answered? {
        reservations := ReplaceById(reservations, id, answer.value, ReservationId);
        reservationDialogOpen := false;
      }
    }

    method HandleDeleteReservation(id: string, ok: bool)
      modifies this`reservations, this`deleteDialogOpen, this`requests
      ensures requests == old(requests) + [DeleteReservation(id)]
      ensures ok ==> reservations == RemoveById(old(reservations), id, ReservationId) && !deleteDialogOpen
      ensures !ok ==> reservations == old(reservations) && deleteDialogOpen == old(deleteDialogOpen)
    {
      requests := requests + [DeleteReservation(id)];
      if ok {
        reservations := RemoveById(reservations, id, ReservationId);
        deleteDialogOpen := false;
      }
    }

    // ---- dialog callbacks ----

    /** The user dialog's `onSave`: create in "create" mode, update the selected
        user in "edit" mode, nothing otherwise. */
    method OnSaveUser(form: User, answer: Answer<User>)
      modifies this`users, this`userDialogOpen, this`requests
      ensures dialogMode == Create ==>
        requests == old(requests) + [CreateUser(form)] &&
        users == (if answer.Answered? then old(users) + [answer.value] else old(users)) &&
        userDialogOpen == (if answer.Answered? then false else old(userDialogOpen))
      ensures dialogMode == Edit && selectedUser.Some? ==>
        requests == old(requests) + [UpdateUser(selectedUser.value.id, form)] &&
        users == (if answer.Answered? then ReplaceById(old(users), selectedUser.value.id, answer.value, UserId) else old(users)) &&
        userDialogOpen == (if answer.Answered? then false else old(userDialogOpen))
      ensures dialogMode == View || (dialogMode == Edit && selectedUser.None?) ==>
        requests == old(requests) && users == old(users) && userDialogOpen == old(userDialogOpen)
    {
      if dialogMode == Create {
        HandleCreateUser(form, answer);
      } else if dialogMode == Edit && selectedUser.Some? {
        HandleUpdateUser(selectedUser.value.id, form, answer);
      }
    }

    /** The movie dialog's `onSave`. */
    method OnSaveMovie(form: Movie, answer: Answer<Movie>)
      modifies this`movies, this`movieDialogOpen, this`requests
      ensures dialogMode == Create ==>
        requests == old(requests) + [CreateMovie(form)] &&
        movies == (if answer.Answered? then old(movies) + [answer.value] else old(movies)) &&
        movieDialogOpen == (if answer.Answered? then false else old(movieDialogOpen))
      ensures dialogMode == Edit && selectedMovie.Some? ==>
        requests == old(requests) + [UpdateMovie(selectedMovie.value.id, form)] &&
        movies == (if answer.Answered? then ReplaceById(old(movies), selectedMovie.value.id, answer.value, MovieId) else old(movies)) &&
        movieDialogOpen == (if answer.Answered? then false else old(movieDialogOpen))
      ensures dialogMode == View || (dialogMode == Edit && selectedMovie.None?) ==>
        requests == old(requests) && movies == old(movies) && movieDialogOpen == old(movieDialogOpen)
    {
      if dialogMode == Create {
        HandleCreateMovie(form, answer);
      } else if dialogMode == Edit && selectedMovie.Some? {
        HandleUpdateMovie(selectedMovie.value.id, form, answer);
      }
    }

    /** The screening dialog's `onSave`. */
    method OnSaveScreening(form: Screening, answer: Answer<Screening>)
      modifies this`screenings, this`screeningDialogOpen, this`requests
      ensures dialogMode == Create ==>
        requests == old(requests) + [CreateScreening(form)] &&
        screenings == (if answer.Answered? then old(screenings) + [answer.value] else old(screenings)) &&
        screeningDialogOpen == (if answer.Answered? then false else old(screeningDialogOpen))
      ensures dialogMode == Edit && selectedScreening.Some? ==>
        requests == old(requests) + [UpdateScreening(selectedScreening.value.id, form)] &&
        screenings == (if answer.Answered?
                       then ReplaceById(old(screenings), selectedScreening.value.id, answer.value, ScreeningId)
                       else old(screenings)) &&
        screeningDialogOpen == (if answer.Answered? then false else old(screeningDialogOpen))
      ensures dialogMode == View || (dialogMode == Edit && selectedScreening.None?) ==>
        requests == old(requests) && screenings == old(screenings) && screeningDialogOpen == old(screeningDialogOpen)
    {
      if dialogMode == Create {
        HandleCreateScreening(form, answer);
      } else if dialogMode == Edit && selectedScreening.Some? {
        HandleUpdateScreening(selectedScreening.value.id, form, answer);
      }
    }

    /** The reservation dialog's `onSave`: never creates; updates only in "edit" mode with a selection. */
    method OnSaveReservation(form: Reservation, answer: Answer<Reservation>)
      modifies this`reservations, this`reservationDialogOpen, this`requests
      ensures dialogMode == Edit && selectedReservation.Some? ==>
        requests == old(requests) + [UpdateReservation(selectedReservation.value.id, form)] &&
        reservations == (if answer.Answered?
                         then ReplaceById(old(reservations), selectedReservation.value.id, answer.value, ReservationId)
                         else old(reservations)) &&
        reservationDialogOpen == (if answer.Answered? then false else old(reservationDialogOpen))
      ensures !(dialogMode == Edit && selectedReservation.Some?) ==>
        requests == old(requests) && reservations == old(reservations) && reservationDialogOpen == old(reservationDialogOpen)
    {
      if dialogMode == Edit && selectedReservation.Some? {
        HandleUpdateReservation(selectedReservation.value.id, form, answer);
      }
    }

    /** The delete dialog's `onConfirm`: deletes the selected entity of the kind
        `deleteType` names, and only when there is such a selection; the other
        three lists never change. */
    method OnConfirmDelete(ok: bool)
      modifies this`users, this`movies, this`screenings, this`reservations, this`deleteDialogOpen, this`requests
      ensures deleteType == UserDelete && selectedUser.Some? ==>
        requests == old(requests) + [DeleteUser(selectedUser.value.id)] &&
        users == (if ok then RemoveById(old(users), selectedUser.value.id, UserId) else old(users)) &&
        deleteDialogOpen == (if ok then false else old(deleteDialogOpen))
      ensures deleteType == MovieDelete && selectedMovie.Some? ==>
        requests == old(requests) + [DeleteMovie(selectedMovie.value.id)] &&
        movies == (if ok then RemoveById(old(movies), selectedMovie.value.id, MovieId) else old(movies)) &&
        deleteDialogOpen == (if ok then false else old(deleteDialogOpen))
      ensures deleteType == ScreeningDelete && selectedScreening.Some? ==>
        requests == old(requests) + [DeleteScreening(selectedScreening.value.id)] &&
        screenings == (if ok then RemoveById(old(screenings), selectedScreening.value.id, ScreeningId) else old(screenings)) &&
        deleteDialogOpen == (if ok then false else old(deleteDialogOpen))
      ensures deleteType == ReservationDelete && selectedReservation.Some? ==>
        requests == old(requests) + [DeleteReservation(selectedReservation.value.id)] &&
        reservations == (if ok then RemoveById(old(reservations), selectedReservation.value.id, ReservationId) else old(reservations)) &&
        deleteDialogOpen == (if ok then false else old(deleteDialogOpen))
      ensures deleteType != UserDelete ==> users == old(users)
      ensures deleteType != MovieDelete ==> movies == old(movies)
      ensures deleteType != ScreeningDelete ==> screenings == old(screenings)
      ensures deleteType != ReservationDelete ==> reservations == old(reservations)
      ensures (deleteType == UserDelete && selectedUser.None?) || (deleteType == MovieDelete && selectedMovie.None?) ||
              (deleteType == ScreeningDelete && selectedScreening.None?) ||
              (deleteType == ReservationDelete && selectedReservation.None?) ==>
        requests == old(requests) && users == old(users) && movies == old(movies) &&
        screenings == old(screenings) && reservations == old(reservations) && deleteDialogOpen == old(deleteDialogOpen)
    {
      match deleteType
      case UserDelete =>
        if selectedUser.Some? { HandleDeleteUser(selectedUser.value.id, ok); }
      case MovieDelete =>
        if selectedMovie.Some? { HandleDeleteMovie(selectedMovie.value.id, ok); }
      case ScreeningDelete =>
        if selectedScreening.Some? { HandleDeleteScreening(selectedScreening.value.id, ok); }
      case ReservationDelete =>
        if selectedReservation.Some? { HandleDeleteReservation(selectedReservation.value.id, ok); }
    }
  }
}
