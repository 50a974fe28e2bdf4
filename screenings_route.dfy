/** app/api/screenings/route.ts: the module-level `screenings` array, its GET
    handler and its POST handler. */
module ScreeningsRoute {
  import opened Entities
  import opened IdAllocation

  /** The table's contents when the server starts. */
  function SeedScreenings(): (ss: seq<Screening>)
    ensures |ss| == 5 && UniqueIds(ss, ScreeningId)
    ensures forall i :: 0 <= i < |ss| ==> ss[i].id == i + 1
  {
    [ Screening(1, 1, "Interstellar", "Theater 1", "2025-04-28", "14:30", 120, 45),
      Screening(2, 1, "Interstellar", "Theater 1", "2025-04-28", "18:00", 120, 78),
      Screening(3, 1, "Interstellar", "Theater 1", "2025-04-28", "21:30", 120, 32),
      Screening(4, 2, "The Dark Knight", "Theater 2", "2025-04-28", "15:00", 100, 67),
      Screening(5, 2, "The Dark Knight", "Theater 2", "2025-04-28", "19:30", 100, 89) ]
  }

  /** The record a POST stores: every body field copied, `id` replaced by the allocated one. */
  function WithAllocatedId(table: seq<Screening>, body: Screening): (s: Screening)
    ensures s.id == NextId(table, ScreeningId)
    ensures s.(id := body.id) == body
  {
    body.(id := MaxId(table, ScreeningId) + 1)
  }

  class ScreeningTable {
    var screenings: seq<Screening>

    /** Ids are positive and pairwise distinct. */
    ghost predicate Valid()
      reads this
    {
      UniqueIds(screenings, ScreeningId) && forall i :: 0 <= i < |screenings| ==> screenings[i].id >= 1
    }

    constructor ()
      ensures Valid() && screenings == SeedScreenings()
    {
      screenings := SeedScreenings();
    }

    /** `GET`: the whole table. */
    method Get() returns (all: seq<Screening>)
      ensures all == screenings
    {
      all := screenings;
    }

    /** `POST`: stores the body under a fresh id at the end of the table and
        answers with the stored record. */
    method Post(body: Screening) returns (created: Screening)
      requires Valid()
      modifies this
      ensures Valid()
      ensures created == WithAllocatedId(old(screenings), body)
      ensures forall i :: 0 <= i < |old(screenings)| ==> old(screenings)[i].id < created.id
      ensures screenings == old(screenings) + [created]
    {
      var screeningWithId := WithAllocatedId(screenings, body);
      AppendKeepsUnique(screenings, ScreeningId, screeningWithId);
      screenings := screenings + [screeningWithId];
      created := screeningWithId;
    }
  }
}
