/** The seat picker of components/seat-selection.tsx: a fixed grid of seat
    labels, a fixed list of seats that are already booked, and the list of
    seats the customer has selected, which a click on a seat toggles. */
module SeatSelection {
  import opened Common
  import opened Decimal

  const Rows: seq<char> := ['A', 'B', 'C', 'D', 'E', 'F', 'G', 'H']
  const SeatsPerRow: nat := 12

  /** The label of seat `number` in row `row`, e.g. "C4": the row letter, then
      the seat number in decimal, which reads back as `number`. */
  function Label(row: char, number: nat): (s: string)
    ensures 2 <= |s| && s[0] == row
    ensures AllDigits(s[1..]) && Value(s[1..]) == number
  {
    ValueOfDigits(number);
    assert ([row] + Digits(number))[1..] == Digits(number);
    [row] + Digits(number)
  }

  /** Every seat of the auditorium, row by row, seats numbered from 1. */
  function Grid(): (g: seq<string>)
    ensures |g| == |Rows| * SeatsPerRow == 96
  {
    seq(|Rows| * SeatsPerRow, i requires 0 <= i < |Rows| * SeatsPerRow =>
      Label(Rows[i / SeatsPerRow], i % SeatsPerRow + 1))
  }

  const BookedSeats: seq<string> :=
    ["A3", "A4", "B5", "B6", "C7", "C8", "D1", "D2", "E9", "E10", "F11", "F12", "G3", "G4", "H7", "H8"]

  /** Two labels are equal only for the same row and number. */
  lemma LabelInjective(r1: char, n1: nat, r2: char, n2: nat)
    requires Label(r1, n1) == Label(r2, n2)
    ensures r1 == r2 && n1 == n2
  {
    assert Label(r1, n1)[0] == r1;
    assert Label(r1, n1)[1..] == Digits(n1);
    assert Label(r2, n2)[1..] == Digits(n2);
    DigitsInjective(n1, n2);
  }

  /** The position of a seat in the grid. */
  lemma GridAt(ri: nat, n: nat)
    requires ri < |Rows| && 1 <= n <= SeatsPerRow
    ensures (ri * SeatsPerRow + n - 1) < |Grid()|
    ensures Grid()[ri * SeatsPerRow + n - 1] == Label(Rows[ri], n)
  {
    var i := ri * SeatsPerRow + n - 1;
    assert i / SeatsPerRow == ri && i % SeatsPerRow == n - 1;
  }

  /** A label is on the grid exactly when it is a row letter A..H followed by a number 1..12. */
  lemma GridMembership(s: string)
    ensures s in Grid() <==> exists r, n :: r in Rows && 1 <= n <= SeatsPerRow && s == Label(r, n)
  {
    if s in Grid() {
      var i :| 0 <= i < |Grid()| && Grid()[i] == s;
      assert s == Label(Rows[i / SeatsPerRow], i % SeatsPerRow + 1);
    }
    if exists r, n :: r in Rows && 1 <= n <= SeatsPerRow && s == Label(r, n) {
      var r, n :| r in Rows && 1 <= n <= SeatsPerRow && s == Label(r, n);
      var ri :| 0 <= ri < |Rows| && Rows[ri] == r;
      GridAt(ri, n);
    }
  }

  /** The 96 labels of the grid are pairwise distinct. */
  lemma GridDistinct()
    ensures NoDuplicates(Grid())
  {
    var g := Grid();
    forall i, j | 0 <= i < j < |g| ensures g[i] != g[j] {
      var ri, rj := i / SeatsPerRow, j / SeatsPerRow;
      var ni, nj := i % SeatsPerRow + 1, j % SeatsPerRow + 1;
      assert g[i] == Label(Rows[ri], ni) && g[j] == Label(Rows[rj], nj);
      if ri == rj {
        assert ni != nj;
        ValueOfDigits(ni);
        ValueOfDigits(nj);
        assert g[i][1..] == Digits(ni) && g[j][1..] == Digits(nj);
      } else {
        assert g[i][0] == Rows[ri] && g[j][0] == Rows[rj];
      }
    }
  }

  lemma OnGrid(ri: nat, n: nat, s: string)
    requires ri < |Rows| && 1 <= n <= SeatsPerRow && s == Label(Rows[ri], n)
    ensures s in Grid()
  {
    GridAt(ri, n);
  }

  /** Every pre-booked seat is a seat of the grid. */
  lemma BookedSeatsOnGrid()
    ensures forall b :: b in BookedSeats ==> b in Grid()
  {
    FrontBookedOnGrid();
    BackBookedOnGrid();
  }

  /** The booked seats of rows A to D are on the grid. */
  lemma FrontBookedOnGrid()
    ensures forall b :: b in BookedSeats[..8] ==> b in Grid()
  {
    OnGrid(0, 3, "A3"); OnGrid(0, 4, "A4");
    OnGrid(1, 5, "B5"); OnGrid(1, 6, "B6");
    OnGrid(2, 7, "C7"); OnGrid(2, 8, "C8");
    OnGrid(3, 1, "D1"); OnGrid(3, 2, "D2");
  }

  /** The booked seats of rows E to H are on the grid. */
  lemma BackBookedOnGrid()
    ensures forall b :: b in BookedSeats[8..] ==> b in Grid()
  {
    TwoDigitBookedOnGrid();
    OnGrid(4, 9, "E9");
    OnGrid(6, 3, "G3"); OnGrid(6, 4, "G4");
    OnGrid(7, 7, "H7"); OnGrid(7, 8, "H8");
  }

  /** The booked seats numbered 10 and above are on the grid. */
  lemma TwoDigitBookedOnGrid()
    ensures "E10" in Grid() && "F11" in Grid() && "F12" in Grid()
  {
    OnGrid(4, 10, "E10");
    OnGrid(5, 11, "F11");
    OnGrid(5, 12, "F12");
  }

  /** `bookedSeats.includes(seat)`. */
  function IsSeatBooked(seat: string): (b: bool)
    ensures b <==> seat in BookedSeats
    ensures b ==> seat in Grid()
  {
    BookedSeatsOnGrid();
    seat in BookedSeats
  }

  /** `s.filter((t) => t !== x)`. */
  function Without(s: seq<string>, x: string): (r: seq<string>)
    ensures forall y :: y in r <==> y in s && y != x
    ensures |r| <= |s|
  {
    if s == [] then []
    else if s[0] == x then Without(s[1..], x)
    else [s[0]] + Without(s[1..], x)
  }

  /** The selection after `toggleSeat(seat)`: a selected seat is filtered out,
      any other seat is appended at the end. */
  function Toggled(selected: seq<string>, seat: string): (r: seq<string>)
    ensures seat in r <==> seat !in selected
    ensures forall y :: y != seat ==> (y in r <==> y in selected)
  {
    if seat in selected then Without(selected, seat) else selected + [seat]
  }

  /** Filtering distributes over concatenation, so it keeps the relative order. */
  lemma {:induction false} WithoutConcat(a: seq<string>, b: seq<string>, x: string)
    ensures Without(a + b, x) == Without(a, x) + Without(b, x)
  {
    if a != [] {
      assert (a + b)[0] == a[0] && (a + b)[1..] == a[1..] + b;
      WithoutConcat(a[1..], b, x);
    } else {
      assert a + b == b;
    }
  }

  /** Removing an absent element changes nothing. */
  lemma {:induction false} WithoutAbsent(s: seq<string>, x: string)
    requires x !in s
    ensures Without(s, x) == s
  {
    if s != [] {
      WithoutAbsent(s[1..], x);
    }
  }

  /** Toggling an unselected seat appends it and keeps every earlier entry. */
  lemma ToggleUnselected(selected: seq<string>, seat: string)
    requires seat !in selected
    ensures |Toggled(selected, seat)| == |selected| + 1
    ensures Toggled(selected, seat)[..|selected|] == selected
    ensures Toggled(selected, seat)[|selected|] == seat
  {
    assert Toggled(selected, seat) == selected + [seat];
  }

  /** Toggling a seat selected (once) at position i removes exactly that entry;
      the others keep their order. */
  lemma ToggleSelected(selected: seq<string>, seat: string, i: nat)
    requires NoDuplicates(selected) && i < |selected| && selected[i] == seat
    ensures Toggled(selected, seat) == selected[..i] + selected[i + 1..]
  {
    var before, after := selected[..i], selected[i + 1..];
    assert selected == before + [seat] + after;
    assert seat !in before && seat !in after;
    WithoutConcat(before + [seat], after, seat);
    WithoutConcat(before, [seat], seat);
    WithoutAbsent(before, seat);
    WithoutAbsent(after, seat);
  }

  /** Toggling the same unselected seat twice restores the selection. */
  lemma ToggleTwice(selected: seq<string>, seat: string)
    requires seat !in selected
    ensures Toggled(Toggled(selected, seat), seat) == selected
  {
    WithoutConcat(selected, [seat], seat);
    WithoutAbsent(selected, seat);
  }

  /** Filtering keeps a sequence free of duplicates. */
  lemma {:induction false} WithoutNoDuplicates(s: seq<string>, x: string)
    requires NoDuplicates(s)
    ensures NoDuplicates(Without(s, x))
  {
    if s != [] {
      assert NoDuplicates(s[1..]);
      WithoutNoDuplicates(s[1..], x);
      if s[0] != x {
        assert s[0] !in s[1..];
        var r := [s[0]] + Without(s[1..], x);
        forall i, j | 0 <= i < j < |r| ensures r[i] != r[j] {
          if i == 0 {
            assert r[j] in Without(s[1..], x);
          }
        }
      }
    }
  }

  /** A toggle never introduces a duplicate. */
  lemma ToggleNoDuplicates(selected: seq<string>, seat: string)
    requires NoDuplicates(selected)
    ensures NoDuplicates(Toggled(selected, seat))
  {
    if seat in selected {
      WithoutNoDuplicates(selected, seat);
    } else {
      NoDuplicatesAppend(selected, seat);
    }
  }

  /** The component's state. `selected` is the `selectedSeats` state; every
      change is reported to the parent through `onSelectSeats`, modelled as the
      value the toggle returns. */
  class SeatPicker {
    var selected: seq<string>

    /** What the picker maintains: no seat twice, only grid seats, never a booked seat. */
    ghost predicate Valid()
      reads this
    {
      && NoDuplicates(selected)
      && (forall s :: s in selected ==> s in Grid())
      && (forall s :: s in selected ==> s !in BookedSeats)
    }

    constructor ()
      ensures Valid() && selected == []
    {
      selected := [];
    }

    /** `isSeatSelected(seat)`. */
    function IsSeatSelected(seat: string): (b: bool)
      reads this
      ensures b <==> seat in selected
    {
      seat in selected
    }

    /** `toggleSeat(seat)`: replaces the selection and returns the list handed to `onSelectSeats`. */
    method ToggleSeat(seat: string) returns (notified: seq<string>)
      modifies this
      ensures selected == Toggled(old(selected), seat)
      ensures notified == selected
    {
      selected := Toggled(selected, seat);
      notified := selected;
    }

    /** A click on the button of grid seat `seat`: the button of a booked seat is
        disabled, so nothing happens and nothing is reported. */
    method Click(seat: string) returns (notified: Option<seq<string>>)
      requires Valid() && seat in Grid()
      modifies this
      ensures Valid()
      ensures IsSeatBooked(seat) ==> selected == old(selected) && notified == None
      ensures !IsSeatBooked(seat) ==> selected == Toggled(old(selected), seat) && notified == Some(selected)
    {
      if IsSeatBooked(seat) {
        notified := None;
      } else {
        ToggleNoDuplicates(selected, seat);
        var n := ToggleSeat(seat);
        notified := Some(n);
      }
    }
  }
}
