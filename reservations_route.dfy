/** app/api/reservations/route.ts: the module-level `reservations` array,
    its GET handler and its POST handler. The random number and the clock that
    POST reads are parameters: `r` stands for `Math.floor(Math.random() * 10000)`
    and `now` for `new Date().toISOString()`. */
module ReservationsRoute {
  import opened Common
  import opened Decimal
  import opened Entities

  /** The table's contents when the server starts. */
  function SeedReservations(): (rs: seq<Reservation>)
    ensures |rs| == 5
    ensures forall i :: 0 <= i < |rs| ==> rs[i].status == Confirmed
    ensures forall i, j :: 0 <= i < j < |rs| ==> rs[i].id != rs[j].id
  {
    [ Reservation("RES-1234", 1, "John Doe", 1, "Interstellar", "2025-04-28", "18:00", ["C4", "C5"], 25.98, Confirmed, "2025-04-20T10:30:00Z"),
      Reservation("RES-5678", 2, "Jane Smith", 2, "The Dark Knight", "2025-04-28", "19:30", ["D7", "D8", "D9"], 38.97, Confirmed, "2025-04-21T14:45:00Z"),
      Reservation("RES-9012", 3, "Robert Johnson", 1, "Interstellar", "2025-04-28", "14:30", ["F3", "F4"], 25.98, Confirmed, "2025-04-22T09:15:00Z"),
      Reservation("RES-3456", 4, "Emily Davis", 2, "The Dark Knight", "2025-04-28", "15:00", ["B5", "B6"], 25.98, Confirmed, "2025-04-23T16:20:00Z"),
      Reservation("RES-7890", 5, "Michael Wilson", 1, "Interstellar", "2025-04-28", "21:30", ["G8", "G9", "G10"], 38.97, Confirmed, "2025-04-24T11:10:00Z") ]
  }

  const Prefix := "RES-"

  /** `RES-${r}`: the prefix followed by the canonical decimal text of `r` (one to
      four digits, no leading zero), which reads back as `r`. */
  function NewReservationId(r: nat): (id: string)
    requires r <= 9999
    ensures 5 <= |id| <= 8
    ensures id[..4] == Prefix
    ensures AllDigits(id[4..]) && Value(id[4..]) == r
    ensures id[4..] == Digits(r)
    ensures id[4] == '0' ==> r == 0
  {
    DigitsLength(r, 4);
    ValueOfDigits(r);
    assert (Prefix + Digits(r))[4..] == Digits(r);
    Prefix + Digits(r)
  }

  /** Different random draws give different ids (equal draws, equal ids: ids can collide). */
  lemma NewReservationIdInjective(r1: nat, r2: nat)
    requires r1 <= 9999 && r2 <= 9999 && NewReservationId(r1) == NewReservationId(r2)
    ensures r1 == r2
  {
    assert NewReservationId(r1)[4..] == NewReservationId(r2)[4..];
  }

  /** The record a POST stores: the body with `id`, `createdAt` and `status` overridden. */
  function Stamped(body: Reservation, r: nat, now: string): (res: Reservation)
    requires r <= 9999
    ensures res.status == Confirmed && res.createdAt == now && res.id == NewReservationId(r)
    ensures res.(id := body.id, createdAt := body.createdAt, status := body.status) == body
  {
    body.(id := NewReservationId(r), createdAt := now, status := Confirmed)
  }

  class ReservationTable {
    var reservations: seq<Reservation>

    /** Every stored reservation is confirmed: the seeds are, and POST forces it. */
    ghost predicate Valid()
      reads this
    {
      forall i :: 0 <= i < |reservations| ==> reservations[i].status == Confirmed
    }

    constructor ()
      ensures Valid() && reservations == SeedReservations()
    {
      reservations := SeedReservations();
    }

    /** `GET`: the whole table. */
    method Get() returns (all: seq<Reservation>)
      ensures all == reservations
    {
      all := reservations;
    }

    /** `POST`: stores the stamped body at the end of the table and answers with it. */
    method Post(body: Reservation, r: nat, now: string) returns (created: Reservation)
      requires Valid() && r <= 9999
      modifies this
      ensures Valid()
      ensures created == Stamped(body, r, now)
      ensures reservations == old(reservations) + [created]
    {
      var reservationWithId := Stamped(body, r, now);
      reservations := reservations + [reservationWithId];
      created := reservationWithId;
    }
  }
}
