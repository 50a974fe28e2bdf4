/** The id rule shared by the movie and screening POST routes:
    `table.reduce((max, x) => (x.id > max ? x.id : max), 0) + 1`. */
module IdAllocation {

  /** The reduce: a left fold from 0 that keeps the larger of the accumulator and each id. */
  function MaxId<T>(xs: seq<T>, id: T -> int): (m: int)
    ensures 0 <= m
    ensures forall i :: 0 <= i < |xs| ==> id(xs[i]) <= m
    ensures m == 0 || exists i :: 0 <= i < |xs| && id(xs[i]) == m
  {
    if xs == [] then 0
    else
      var acc := MaxId(xs[..|xs| - 1], id);
      var last := xs[|xs| - 1];
      if id(last) > acc then id(last) else acc
  }

  /** The id a POST gives the new record. */
  function NextId<T>(xs: seq<T>, id: T -> int): (n: int)
    ensures 1 <= n
    ensures forall i :: 0 <= i < |xs| ==> id(xs[i]) < n
    ensures xs == [] ==> n == 1
  {
    MaxId(xs, id) + 1
  }

  predicate UniqueIds<T>(xs: seq<T>, id: T -> int) {
    forall i, j :: 0 <= i < j < |xs| ==> id(xs[i]) != id(xs[j])
  }

  /** Appending a record carrying the allocated id keeps ids pairwise distinct. */
  lemma AppendKeepsUnique<T>(xs: seq<T>, id: T -> int, x: T)
    requires UniqueIds(xs, id) && id(x) == NextId(xs, id)
    ensures UniqueIds(xs + [x], id)
  {
    var ys := xs + [x];
    forall i, j | 0 <= i < j < |ys| ensures id(ys[i]) != id(ys[j]) {
      assert ys[i] == xs[i];
      if j < |xs| {
        assert ys[j] == xs[j];
      }
    }
  }
}
