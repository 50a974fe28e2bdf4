/** The listing of app/movies/page.tsx: each movie's showtimes grouped under
    their distinct dates (`Array.from(new Set(dates))`, then one `filter` per
    date), and the link each showtime button points to. */
module MoviesPage {
  import opened Common
  import opened Decimal

  datatype Showtime = Showtime(id: nat, date: string, time: string)

  /** One date heading with the showtimes listed under it. */
  datatype DateGroup = DateGroup(date: string, showtimes: seq<Showtime>)

  /** `showtimes.map((st) => st.date)`. */
  function Dates(sts: seq<Showtime>): (ds: seq<string>)
    ensures |ds| == |sts|
    ensures forall i :: 0 <= i < |sts| ==> ds[i] == sts[i].date
  {
    if sts == [] then [] else [sts[0].date] + Dates(sts[1..])
  }

  /** The position of the first occurrence of `x`. */
  function FirstIndex(s: seq<string>, x: string): (i: nat)
    requires x in s
    ensures i < |s| && s[i] == x
    ensures forall j :: 0 <= j < i ==> s[j] != x
  {
    if s[0] == x then 0 else 1 + FirstIndex(s[1..], x)
  }

  /** `Array.from(new Set(s))`: each value once, in insertion order. */
  function Distinct(s: seq<string>): (r: seq<string>)
    ensures NoDuplicates(r)
    ensures forall x :: x in r <==> x in s
  {
    if s == [] then []
    else
      var prefix := Distinct(s[..|s| - 1]);
      var last := s[|s| - 1];
      assert forall x :: x in s <==> x in s[..|s| - 1] || x == last;
      if last in prefix then prefix
      else
        NoDuplicatesAppend(prefix, last);
        prefix + [last]
  }

  /** First occurrences in a prefix are first occurrences in the whole sequence. */
  lemma FirstIndexPrefix(s: seq<string>, m: nat, x: string)
    requires m <= |s| && x in s[..m]
    ensures FirstIndex(s, x) == FirstIndex(s[..m], x) < m
  {
    var a, b := FirstIndex(s, x), FirstIndex(s[..m], x);
    assert s[b] == s[..m][b] == x;
    assert a <= b;
    assert s[..m][a] == s[a] == x;
  }

  /** The distinct dates come in the order of their first occurrence. */
  lemma {:induction false} DistinctFirstOccurrenceOrder(s: seq<string>, i: nat, j: nat)
    requires i < j < |Distinct(s)|
    ensures FirstIndex(s, Distinct(s)[i]) < FirstIndex(s, Distinct(s)[j])
    decreases |s|
  {
    var n := |s|;
    var init := s[..n - 1];
    var prefix := Distinct(init);
    var r := Distinct(s);
    DistinctExtends(s, init, prefix);
    assert r[i] == prefix[i];
    assert prefix[i] in prefix;
    FirstIndexPrefix(s, n - 1, r[i]);
    if j < |prefix| {
      assert r[j] == prefix[j];
      assert prefix[j] in prefix;
      DistinctFirstOccurrenceOrder(init, i, j);
      FirstIndexPrefix(s, n - 1, r[j]);
    } else {
      LastFirstOccurrence(s);
    }
  }

  /** The distinct values of `s` extend those of its initial part `init` by at
      most the last element, which is new when it is added. */
  lemma DistinctExtends(s: seq<string>, init: seq<string>, prefix: seq<string>)
    requires s != [] && init == s[..|s| - 1] && prefix == Distinct(init)
    ensures |prefix| <= |Distinct(s)| <= |prefix| + 1
    ensures Distinct(s)[..|prefix|] == prefix
    ensures |Distinct(s)| == |prefix| + 1 ==> Distinct(s)[|prefix|] == s[|s| - 1] && s[|s| - 1] !in init
  {
  }

  /** A last element that occurs nowhere before first occurs at the end. */
  lemma LastFirstOccurrence(s: seq<string>)
    requires s != [] && s[|s| - 1] !in s[..|s| - 1]
    ensures FirstIndex(s, s[|s| - 1]) == |s| - 1
  {
    assert forall k :: 0 <= k < |s| - 1 ==> s[..|s| - 1][k] == s[k];
  }

  /** `showtimes.filter((st) => st.date === date)`. */
  function OnDate(sts: seq<Showtime>, date: string): (r: seq<Showtime>)
    ensures forall st :: st in r <==> st in sts && st.date == date
  {
    if sts == [] then []
    else if sts[0].date == date then [sts[0]] + OnDate(sts[1..], date)
    else OnDate(sts[1..], date)
  }

  /** Filtering distributes over concatenation, so a group keeps the original order. */
  lemma {:induction false} OnDateConcat(a: seq<Showtime>, b: seq<Showtime>, date: string)
    ensures OnDate(a + b, date) == OnDate(a, date) + OnDate(b, date)
    decreases |a|
  {
    if a == [] {
      assert a + b == b;
    } else {
      assert (a + b)[0] == a[0] && (a + b)[1..] == a[1..] + b;
      OnDateConcat(a[1..], b, date);
    }
  }

  /** One group per date of `dates`, in that order. */
  function GroupsFor(sts: seq<Showtime>, dates: seq<string>): (gs: seq<DateGroup>)
    ensures |gs| == |dates|
    ensures forall g :: 0 <= g < |gs| ==> gs[g] == DateGroup(dates[g], OnDate(sts, dates[g]))
  {
    if dates == [] then []
    else GroupsFor(sts, dates[..|dates| - 1]) + [DateGroup(dates[|dates| - 1], OnDate(sts, dates[|dates| - 1]))]
  }

  /** The date headings of a movie, each with its showtimes. */
  function Groups(sts: seq<Showtime>): (gs: seq<DateGroup>)
    ensures forall g :: 0 <= g < |gs| ==> gs[g].showtimes != []
    ensures forall g, h :: 0 <= g < h < |gs| ==> gs[g].date != gs[h].date
  {
    var dates := Distinct(Dates(sts));
    var gs := GroupsFor(sts, dates);
    forall g | 0 <= g < |gs| ensures gs[g].showtimes != [] {
      assert dates[g] in Dates(sts);
      var k :| 0 <= k < |sts| && Dates(sts)[k] == dates[g];
      assert sts[k] in gs[g].showtimes;
    }
    gs
  }

  /** The headings are exactly the dates that occur, in first-occurrence order. */
  lemma GroupDates(sts: seq<Showtime>, g: nat, h: nat)
    requires g < h < |Groups(sts)|
    ensures Groups(sts)[g].date in Dates(sts) && Groups(sts)[h].date in Dates(sts)
    ensures FirstIndex(Dates(sts), Groups(sts)[g].date) < FirstIndex(Dates(sts), Groups(sts)[h].date)
  {
    DistinctFirstOccurrenceOrder(Dates(sts), g, h);
  }

  /** Every showtime is listed under its own date's heading and under no other. */
  lemma ShowtimeInItsOwnGroup(sts: seq<Showtime>, k: nat)
    requires k < |sts|
    ensures exists g :: 0 <= g < |Groups(sts)| && Groups(sts)[g].date == sts[k].date
    ensures forall g :: 0 <= g < |Groups(sts)| ==>
      (sts[k] in Groups(sts)[g].showtimes <==> Groups(sts)[g].date == sts[k].date)
  {
    var dates := Distinct(Dates(sts));
    assert Dates(sts)[k] == sts[k].date;
    assert sts[k].date in Dates(sts);
    assert sts[k].date in dates;
    var g :| 0 <= g < |dates| && dates[g] == sts[k].date;
    assert Groups(sts)[g].date == sts[k].date;
  }

  /** Concatenation of the groups' showtimes. */
  function Flatten(gs: seq<DateGroup>): seq<Showtime> {
    if gs == [] then [] else Flatten(gs[..|gs| - 1]) + gs[|gs| - 1].showtimes
  }

  /** The showtimes whose date is one of `dates`, in their original order. */
  function OnDates(sts: seq<Showtime>, dates: seq<string>): seq<Showtime> {
    if sts == [] then []
    else if sts[0].date in dates then [sts[0]] + OnDates(sts[1..], dates)
    else OnDates(sts[1..], dates)
  }

  lemma {:induction false} OnDatesAll(sts: seq<Showtime>, dates: seq<string>)
    requires forall k :: 0 <= k < |sts| ==> sts[k].date in dates
    ensures OnDates(sts, dates) == sts
    decreases |sts|
  {
    if sts != [] {
      OnDatesAll(sts[1..], dates);
    }
  }

  lemma {:induction false} OnDatesExtend(sts: seq<Showtime>, dates: seq<string>, d: string)
    requires d !in dates
    ensures multiset(OnDates(sts, dates + [d])) == multiset(OnDates(sts, dates)) + multiset(OnDate(sts, d))
    decreases |sts|
  {
    if sts != [] {
      OnDatesExtend(sts[1..], dates, d);
      assert sts[0].date in dates + [d] <==> sts[0].date in dates || sts[0].date == d;
    }
  }

  lemma {:induction false} FlattenGroupsFor(sts: seq<Showtime>, dates: seq<string>)
    requires NoDuplicates(dates)
    ensures multiset(Flatten(GroupsFor(sts, dates))) == multiset(OnDates(sts, dates))
    decreases |dates|
  {
    if dates == [] {
      OnDatesNone(sts, dates);
    } else {
      var init, d := dates[..|dates| - 1], dates[|dates| - 1];
      assert dates == init + [d];
      var gs := GroupsFor(sts, dates);
      assert gs[..|gs| - 1] == GroupsFor(sts, init);
      FlattenGroupsFor(sts, init);
      OnDatesExtend(sts, init, d);
    }
  }

  lemma {:induction false} OnDatesNone(sts: seq<Showtime>, dates: seq<string>)
    requires dates == []
    ensures OnDates(sts, dates) == []
    decreases |sts|
  {
    if sts != [] {
      OnDatesNone(sts[1..], dates);
    }
  }

  /** The groups partition the showtimes: together they hold every showtime
      exactly as often as the movie lists it. */
  lemma GroupsPartition(sts: seq<Showtime>)
    ensures multiset(Flatten(Groups(sts))) == multiset(sts)
  {
    var dates := Distinct(Dates(sts));
    FlattenGroupsFor(sts, dates);
    forall k | 0 <= k < |sts| ensures sts[k].date in dates {
      assert Dates(sts)[k] == sts[k].date;
    }
    OnDatesAll(sts, dates);
  }

  const MoviesPath := "/movies/"
  const BookQuery := "/book?showtimeId="

  /** `/movies/${movie.id}/book?showtimeId=${showtime.id}`: a link that reads back
      as the two ids it carries. */
  function BookingHref(movieId: nat, showtimeId: nat): (h: string)
    ensures ParseBookingHref(h) == Some((movieId, showtimeId))
  {
    ParseBookingHrefRoundTrip(movieId, showtimeId);
    MoviesPath + Digits(movieId) + BookQuery + Digits(showtimeId)
  }

  /** The length of the run of digits that starts `s`. */
  function DigitRun(s: string): (k: nat)
    ensures k <= |s| && AllDigits(s[..k])
    ensures k < |s| ==> !IsDigit(s[k])
  {
    if s == [] || !IsDigit(s[0]) then 0
    else
      var k := 1 + DigitRun(s[1..]);
      assert forall i :: 1 <= i < k ==> s[..k][i] == s[1..][..k - 1][i - 1];
      k
  }

  lemma {:induction false} DigitRunOf(a: string, b: string)
    requires AllDigits(a) && (b != [] ==> !IsDigit(b[0]))
    ensures DigitRun(a + b) == |a|
    decreases |a|
  {
    if a == [] {
      assert a + b == b;
    } else {
      assert (a + b)[0] == a[0] && (a + b)[1..] == a[1..] + b;
      DigitRunOf(a[1..], b);
    }
  }

  /** The text after `prefix`, when `s` starts with it. */
  function StripPrefix(prefix: string, s: string): (r: Option<string>)
    ensures r.Some? <==> exists t :: s == prefix + t
    ensures r.Some? ==> s == prefix + r.value
  {
    if |s| >= |prefix| && s[..|prefix|] == prefix then
      assert s == prefix + s[|prefix|..];
      Some(s[|prefix|..])
    else
      assert forall t :: s == prefix + t ==> s[..|prefix|] == prefix;
      None
  }

  /** The number written in canonical decimal at the start of `s`, and what follows it. */
  function LeadingNumber(s: string): (r: Option<(nat, string)>)
    ensures r.Some? ==> s == Digits(r.value.0) + r.value.1
  {
    var k := DigitRun(s);
    if k == 0 || s[..k] != Digits(Value(s[..k])) then None
    else
      assert s == s[..k] + s[k..];
      Some((Value(s[..k]), s[k..]))
  }

  lemma LeadingNumberOf(n: nat, t: string)
    requires t != [] ==> !IsDigit(t[0])
    ensures LeadingNumber(Digits(n) + t) == Some((n, t))
  {
    var s := Digits(n) + t;
    DigitRunOf(Digits(n), t);
    assert s[..|Digits(n)|] == Digits(n) && s[|Digits(n)|..] == t;
    ValueOfDigits(n);
  }

  /** The number `s` writes in canonical decimal, if it is one. */
  function WholeNumber(s: string): (r: Option<nat>)
    ensures r.Some? <==> AllDigits(s) && s != [] && s == Digits(Value(s))
    ensures r.Some? ==> s == Digits(r.value)
  {
    if AllDigits(s) && s != [] && s == Digits(Value(s)) then Some(Value(s)) else None
  }

  /** Reading a booking link back: the movie id and the showtime id, or `None`
      for any text that is not such a link. Only a link built from two ids in
      canonical decimal parses, and it parses as those ids. */
  function ParseBookingHref(h: string): (r: Option<(nat, nat)>)
    ensures r.Some? ==> h == MoviesPath + Digits(r.value.0) + BookQuery + Digits(r.value.1)
  {
    match StripPrefix(MoviesPath, h)
    case None => None
    case Some(rest) =>
      match LeadingNumber(rest)
      case None => None
      case Some((movieId, tail)) =>
        match StripPrefix(BookQuery, tail)
        case None => None
        case Some(showtimeText) =>
          match WholeNumber(showtimeText)
          case None => None
          case Some(showtimeId) =>
            LinkFromStages(h, rest, tail, showtimeText, movieId, showtimeId);
            Some((movieId, showtimeId))
  }

  /** The text of every booking link reads back as the ids it was built from. */
  lemma ParseBookingHrefRoundTrip(movieId: nat, showtimeId: nat)
    ensures ParseBookingHref(MoviesPath + Digits(movieId) + BookQuery + Digits(showtimeId)) == Some((movieId, showtimeId))
  {
    var h := MoviesPath + Digits(movieId) + BookQuery + Digits(showtimeId);
    var m, s := Digits(movieId), Digits(showtimeId);
    assert h == MoviesPath + (m + (BookQuery + s));
    assert StripPrefix(MoviesPath, h) == Some(m + (BookQuery + s));
    LeadingNumberOf(movieId, BookQuery + s);
    assert StripPrefix(BookQuery, BookQuery + s) == Some(s);
    ValueOfDigits(showtimeId);
    assert WholeNumber(s) == Some(showtimeId);
  }

  /** The four stages of a successful parse put the link back together. */
  lemma LinkFromStages(h: string, rest: string, tail: string, showtimeText: string, movieId: nat, showtimeId: nat)
    requires StripPrefix(MoviesPath, h) == Some(rest)
    requires LeadingNumber(rest) == Some((movieId, tail))
    requires StripPrefix(BookQuery, tail) == Some(showtimeText)
    requires WholeNumber(showtimeText) == Some(showtimeId)
    ensures h == MoviesPath + Digits(movieId) + BookQuery + Digits(showtimeId)
  {
    var m, s := Digits(movieId), Digits(showtimeId);
    assert h == MoviesPath + rest;
    assert rest == m + tail;
    assert tail == BookQuery + s;
    Reassemble(h, rest, tail, m, s);
  }

  /** Putting the three pieces of a link back together. */
  lemma Reassemble(h: string, rest: string, tail: string, m: string, s: string)
    requires h == MoviesPath + rest && rest == m + tail && tail == BookQuery + s
    ensures h == MoviesPath + m + BookQuery + s
  {
    assert MoviesPath + m + BookQuery + s == MoviesPath + (m + (BookQuery + s));
  }
}
