/** app/api/movies/route.ts: the module-level `movies` array that stands in
    for a database, its GET handler and its POST handler. */
module MoviesRoute {
  import opened Entities
  import opened IdAllocation

  const Description1 := "A team of explorers travel through a wormhole in space in an attempt to ensure humanity's survival."
  const Description2 := "When the menace known as the Joker wreaks havoc and chaos on the people of Gotham, Batman must accept one of the greatest psychological and physical tests of his ability to fight injustice."
  const Description3 := "A thief who steals corporate secrets through the use of dream-sharing technology is given the inverse task of planting an idea into the mind of a C.E.O."
  const Description4 := "The lives of two mob hitmen, a boxer, a gangster and his wife, and a pair of diner bandits intertwine in four tales of violence and redemption."
  const Description5 := "The aging patriarch of an organized crime dynasty transfers control of his clandestine empire to his reluctant son."
  const Poster := "/placeholder.svg?height=500&width=300"

  /** The table's contents when the server starts. */
  function SeedMovies(): (ms: seq<Movie>)
    ensures |ms| == 5 && UniqueIds(ms, MovieId)
    ensures forall i :: 0 <= i < |ms| ==> ms[i].id == i + 1
  {
    [ Movie(1, "Interstellar", Description1, Poster, "Sci-Fi", "2h 49m", "2025-01-10", Showing),
      Movie(2, "The Dark Knight", Description2, Poster, "Action", "2h 32m", "2025-02-15", Showing),
      Movie(3, "Inception", Description3, Poster, "Sci-Fi", "2h 28m", "2025-03-01", Showing),
      Movie(4, "Pulp Fiction", Description4, Poster, "Crime", "2h 34m", "2025-03-20", Upcoming),
      Movie(5, "The Godfather", Description5, Poster, "Crime", "2h 55m", "2025-04-05", Upcoming) ]
  }

  /** The record a POST stores: the request body with its `id` replaced by the allocated one. */
  function WithAllocatedId(table: seq<Movie>, body: Movie): (m: Movie)
    ensures m.id == NextId(table, MovieId)
    ensures m.(id := body.id) == body
  {
    body.(id := MaxId(table, MovieId) + 1)
  }

  class MovieTable {
    var movies: seq<Movie>

    /** Ids are positive and pairwise distinct. */
    ghost predicate Valid()
      reads this
    {
      UniqueIds(movies, MovieId) && forall i :: 0 <= i < |movies| ==> movies[i].id >= 1
    }

    constructor ()
      ensures Valid() && movies == SeedMovies()
    {
      movies := SeedMovies();
    }

    /** `GET`: the whole table. */
    method Get() returns (all: seq<Movie>)
      ensures all == movies
    {
      all := movies;
    }

    /** `POST`: stores the body under a fresh id, larger than every id so far,
        at the end of the table, and answers with the stored record. */
    method Post(body: Movie) returns (created: Movie)
      requires Valid()
      modifies this
      ensures Valid()
      ensures created == WithAllocatedId(old(movies), body)
      ensures forall i :: 0 <= i < |old(movies)| ==> old(movies)[i].id < created.id
      ensures movies == old(movies) + [created]
    {
      var movieWithId := WithAllocatedId(movies, body);
      AppendKeepsUnique(movies, MovieId, movieWithId);
      movies := movies + [movieWithId];
      created := movieWithId;
    }
  }
}
