/** The form state of components/admin/screening-dialog.tsx: filled from the
    screening being edited or viewed, or with defaults taken from the first
    movie, then changed field by field or by picking a movie. The `movies`
    list is the dialog's prop and is passed to each operation. */
module ScreeningDialog {
  import opened Common
  import opened Entities

  /** `formData`: the screening's fields without `id`. */
  datatype ScreeningForm = ScreeningForm(
    movieId: int,
    movieTitle: string,
    theater: string,
    date: string,
    time: string,
    capacity: int,
    booked: int)

  /** A field name of `handleChange` together with its new value. */
  datatype FieldValue =
    | MovieIdValue(movieId: int) | MovieTitleValue(movieTitle: string) | TheaterValue(theater: string)
    | DateValue(date: string) | TimeValue(time: string) | CapacityValue(capacity: int) | BookedValue(booked: int)

  /** The state before the reset effect first runs (`useState`'s argument). */
  const InitialForm := ScreeningForm(0, "", "", "", "", 100, 0)

  /** The form the reset effect sets: a copy of the screening, or defaults
      taken from the first movie. */
  function FormFor(screening: Option<Screening>, movies: seq<Movie>): (f: ScreeningForm)
    ensures screening.Some? ==> ToScreening(f, screening.value.id) == screening.value
    ensures screening.None? ==> f.theater == "Theater 1" && f.date == "" && f.time == "" && f.capacity == 100 && f.booked == 0
    ensures screening.None? && movies != [] ==> f.movieId == movies[0].id && f.movieTitle == movies[0].title
    ensures screening.None? && movies == [] ==> f.movieId == 0 && f.movieTitle == ""
  {
    match screening
    case Some(s) => ScreeningForm(s.movieId, s.movieTitle, s.theater, s.date, s.time, s.capacity, s.booked)
    case None =>
      ScreeningForm(
        if |movies| > 0 then movies[0].id else 0,
        if |movies| > 0 then movies[0].title else "",
        "Theater 1", "", "", 100, 0)
  }

  /** The screening a form describes, given the id it is saved under. */
  function ToScreening(f: ScreeningForm, id: int): Screening {
    Screening(id, f.movieId, f.movieTitle, f.theater, f.date, f.time, f.capacity, f.booked)
  }

  /** `{ ...prev, [field]: value }`. */
  function WithField(f: ScreeningForm, v: FieldValue): (g: ScreeningForm)
    ensures v.MovieIdValue? ==> g == f.(movieId := v.movieId)
    ensures v.MovieTitleValue? ==> g == f.(movieTitle := v.movieTitle)
    ensures v.TheaterValue? ==> g == f.(theater := v.theater)
    ensures v.DateValue? ==> g == f.(date := v.date)
    ensures v.TimeValue? ==> g == f.(time := v.time)
    ensures v.CapacityValue? ==> g == f.(capacity := v.capacity)
    ensures v.BookedValue? ==> g == f.(booked := v.booked)
  {
    match v
    case MovieIdValue(x) => f.(movieId := x)
    case MovieTitleValue(x) => f.(movieTitle := x)
    case TheaterValue(x) => f.(theater := x)
    case DateValue(x) => f.(date := x)
    case TimeValue(x) => f.(time := x)
    case CapacityValue(x) => f.(capacity := x)
    case BookedValue(x) => f.(booked := x)
  }

  /** Which field a change names. */
  function FieldIndex(v: FieldValue): nat {
    match v
    case MovieIdValue(_) => 0
    case MovieTitleValue(_) => 1
    case TheaterValue(_) => 2
    case DateValue(_) => 3
    case TimeValue(_) => 4
    case CapacityValue(_) => 5
    case BookedValue(_) => 6
  }

  /** Changes of different fields do not interfere: either order gives the same form. */
  lemma WithFieldCommutes(f: ScreeningForm, v: FieldValue, w: FieldValue)
    requires FieldIndex(v) != FieldIndex(w)
    ensures WithField(WithField(f, v), w) == WithField(WithField(f, w), v)
  {
  }

  /** A second change of the same field overrides the first. */
  lemma WithFieldLastWins(f: ScreeningForm, v: FieldValue, w: FieldValue)
    requires FieldIndex(v) == FieldIndex(w)
    ensures WithField(WithField(f, v), w) == WithField(f, w)
  {
  }

  /** `movies.find((m) => m.id === movieId)`: the first movie with that id. */
  function FindMovie(movies: seq<Movie>, movieId: int): (r: Option<Movie>)
    ensures r.None? <==> forall k :: 0 <= k < |movies| ==> movies[k].id != movieId
    ensures r.Some? ==> r.value in movies && r.value.id == movieId
    ensures forall k ::
      (0 <= k < |movies| && movies[k].id == movieId && forall j :: 0 <= j < k ==> movies[j].id != movieId)
      ==> r == Some(movies[k])
  {
    if movies == [] then None
    else if movies[0].id == movieId then Some(movies[0])
    else
      var r := FindMovie(movies[1..], movieId);
      assert forall k :: 1 <= k < |movies| ==> movies[k] == movies[1..][k - 1];
      r
  }

  /** The form after `handleMovieChange(movieId)`. */
  function AfterMovieChange(f: ScreeningForm, movies: seq<Movie>, movieId: int): (g: ScreeningForm)
    ensures FindMovie(movies, movieId).Some? ==>
      g == f.(movieId := movieId, movieTitle := FindMovie(movies, movieId).value.title)
    ensures FindMovie(movies, movieId).None? ==> g == f
  {
    match FindMovie(movies, movieId)
    case Some(m) => f.(movieId := movieId, movieTitle := m.title)
    case None => f
  }

  /** A movie listed in `movies` is found, and the form takes its id and title. */
  lemma MovieChangeListed(f: ScreeningForm, movies: seq<Movie>, k: nat)
    requires k < |movies| && forall j :: 0 <= j < |movies| && movies[j].id == movies[k].id ==> movies[j] == movies[k]
    ensures AfterMovieChange(f, movies, movies[k].id) == f.(movieId := movies[k].id, movieTitle := movies[k].title)
  {
  }

  /** The dialog title for each mode. */
  function Title(mode: DialogMode): (t: string)
    ensures mode == Create <==> t == "Add Screening"
    ensures mode == Edit <==> t == "Edit Screening"
    ensures mode == View <==> t == "Screening Details"
  {
    match mode
    case Create => "Add Screening"
    case Edit => "Edit Screening"
    case View => "Screening Details"
  }

  class ScreeningFormState {
    var formData: ScreeningForm

    constructor ()
      ensures formData == InitialForm
    {
      formData := InitialForm;
    }

    /** The reset effect, run when the screening, the movie list or `open` changes. */
    method Reset(screening: Option<Screening>, movies: seq<Movie>)
      modifies this
      ensures formData == FormFor(screening, movies)
    {
      formData := FormFor(screening, movies);
    }

    /** `handleChange(field, value)`. */
    method HandleChange(v: FieldValue)
      modifies this
      ensures formData == WithField(old(formData), v)
    {
      formData := WithField(formData, v);
    }

    /** `handleMovieChange(movieId)`. */
    method HandleMovieChange(movies: seq<Movie>, movieId: int)
      modifies this
      ensures formData == AfterMovieChange(old(formData), movies, movieId)
    {
      var selectedMovie := FindMovie(movies, movieId);
      if selectedMovie.Some? {
        formData := formData.(movieId := movieId, movieTitle := selectedMovie.value.title);
      }
    }

    /** `handleSubmit`: what `onSave` receives. */
    method HandleSubmit() returns (saved: ScreeningForm)
      ensures saved == formData
    {
      saved := formData;
    }
  }
}
