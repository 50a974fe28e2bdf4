/** The home-page carousel of components/movie-carousel.tsx: a window of
    `visibleCount` movies starting at `currentIndex`, moved one step by the
    next/previous buttons with wrap-around, and sized from the viewport width. */
module MovieCarousel {
  import opened Common

  datatype CarouselMovie = CarouselMovie(id: nat, title: string, image: string, genre: string, duration: string)

  const SampleMovies: seq<CarouselMovie> := [
    CarouselMovie(1, "Interstellar", "/placeholder.svg?height=500&width=300", "Sci-Fi", "2h 49m"),
    CarouselMovie(2, "The Dark Knight", "/placeholder.svg?height=500&width=300", "Action", "2h 32m"),
    CarouselMovie(3, "Inception", "/placeholder.svg?height=500&width=300", "Sci-Fi", "2h 28m"),
    CarouselMovie(4, "Pulp Fiction", "/placeholder.svg?height=500&width=300", "Crime", "2h 34m"),
    CarouselMovie(5, "The Godfather", "/placeholder.svg?height=500&width=300", "Crime", "2h 55m")
  ]

  /** The number of cards shown for a viewport `width` pixels wide. */
  function VisibleCountFor(width: int): (c: nat)
    ensures c == 1 <==> width < 640
    ensures c == 2 <==> 640 <= width < 1024
    ensures c == 3 <==> 1024 <= width
  {
    if width < 640 then 1 else if width < 1024 then 2 else 3
  }

  /** A wider viewport never shows fewer cards. */
  lemma VisibleCountMonotonic(w1: int, w2: int)
    requires w1 <= w2
    ensures 1 <= VisibleCountFor(w1) <= VisibleCountFor(w2) <= 3
  {
  }

  /** The index after "next": back to 0 once the window reaches the end. */
  function NextIndex(index: int, visibleCount: int, n: nat): (r: int)
    ensures 0 <= index < n && 1 <= visibleCount ==> 0 <= r < n
    ensures 0 <= index && index + visibleCount < n ==> r == index + 1
  {
    if index + visibleCount >= n then 0 else index + 1
  }

  /** The index after "previous": from 0 to the last full window. */
  function PrevIndex(index: int, visibleCount: int, n: nat): (r: int)
    ensures 0 <= index < n && 1 <= visibleCount ==> 0 <= r < n
    ensures 0 < index ==> r == index - 1
  {
    if index == 0 then (if n - visibleCount > 0 then n - visibleCount else 0) else index - 1
  }

  /** One press of a button, with the `visibleCount` in force at that moment. */
  datatype Press = NextPress(visibleCount: int) | PrevPress(visibleCount: int)

  function Step(index: int, p: Press, n: nat): int {
    match p
    case NextPress(v) => NextIndex(index, v, n)
    case PrevPress(v) => PrevIndex(index, v, n)
  }

  /** The index after a run of presses. */
  function Run(index: int, presses: seq<Press>, n: nat): int
    decreases |presses|
  {
    if presses == [] then index else Run(Step(index, presses[0], n), presses[1..], n)
  }

  /** One press keeps the index a position of the list. */
  lemma StepInRange(index: int, p: Press, n: nat)
    requires 1 <= n && 0 <= index < n && 1 <= p.visibleCount
    ensures 0 <= Step(index, p, n) < n
  {
  }

  /** Any run of presses keeps the index in [0, n-1], even when `visibleCount`
      changes between presses. */
  lemma {:induction false} RunInRange(index: int, presses: seq<Press>, n: nat)
    requires 1 <= n && 0 <= index < n
    requires forall k :: 0 <= k < |presses| ==> 1 <= presses[k].visibleCount
    ensures 0 <= Run(index, presses, n) < n
    decreases |presses|
  {
    if presses != [] {
      StepInRange(index, presses[0], n);
      RunInRange(Step(index, presses[0], n), presses[1..], n);
    }
  }

  /** With a fixed `visibleCount` no larger than the list, the index stays a
      start of a full window: in [0, n - visibleCount]. */
  lemma {:induction false} RunFullWindow(index: int, presses: seq<Press>, n: nat, v: int)
    requires 1 <= v <= n && 0 <= index <= n - v
    requires forall k :: 0 <= k < |presses| ==> presses[k].visibleCount == v
    ensures 0 <= Run(index, presses, n) <= n - v
    decreases |presses|
  {
    if presses != [] {
      RunFullWindow(Step(index, presses[0], n), presses[1..], n, v);
    }
  }

  /** On the full-window positions, "previous" undoes "next" and "next" undoes
      "previous": the buttons rotate through n - v + 1 positions. */
  lemma NextPrevInverse(index: int, n: nat, v: int)
    requires 1 <= v <= n && 0 <= index <= n - v
    ensures PrevIndex(NextIndex(index, v, n), v, n) == index
    ensures NextIndex(PrevIndex(index, v, n), v, n) == index
  {
  }

  /** `array.slice(start, end)` for non-negative bounds. */
  function Slice<T>(s: seq<T>, start: nat, end: nat): (r: seq<T>)
    ensures |r| == if start < Min(end, |s|) then Min(end, |s|) - start else 0
    ensures forall k :: 0 <= k < |r| ==> start + k < |s| && r[k] == s[start + k]
  {
    if start < Min(end, |s|) then s[start..Min(end, |s|)] else []
  }

  function Min(a: int, b: int): int {
    if a <= b then a else b
  }

  lemma ModSmall(a: int, n: int)
    requires 0 <= a < n
    ensures a % n == a
  {
  }

  lemma ModWrap(a: int, n: int)
    requires 0 < n <= a < 2 * n
    ensures a % n == a - n
  {
    assert a == n + (a - n);
  }

  class Carousel {
    const movies: seq<CarouselMovie>
    var currentIndex: int
    var visibleCount: int

    ghost predicate Valid()
      reads this
    {
      1 <= |movies| && 0 <= currentIndex < |movies| && 1 <= visibleCount
    }

    /** The component as first rendered: index 0, three cards. */
    constructor ()
      ensures Valid()
      ensures movies == SampleMovies && currentIndex == 0 && visibleCount == 3
    {
      movies := SampleMovies;
      currentIndex := 0;
      visibleCount := 3;
    }

    /** `updateVisibleCount`; `width` is `None` when there is no `window` (server rendering). */
    method UpdateVisibleCount(width: Option<int>)
      requires Valid()
      modifies this`visibleCount
      ensures Valid()
      ensures visibleCount == if width.Some? then VisibleCountFor(width.value) else old(visibleCount)
    {
      if width.Some? {
        visibleCount := VisibleCountFor(width.value);
      }
    }

    method NextSlide()
      requires Valid()
      modifies this`currentIndex
      ensures Valid()
      ensures currentIndex == NextIndex(old(currentIndex), visibleCount, |movies|)
    {
      currentIndex := NextIndex(currentIndex, visibleCount, |movies|);
    }

    method PrevSlide()
      requires Valid()
      modifies this`currentIndex
      ensures Valid()
      ensures currentIndex == PrevIndex(old(currentIndex), visibleCount, |movies|)
    {
      currentIndex := PrevIndex(currentIndex, visibleCount, |movies|);
    }

    /** The cards shown: the slice from `currentIndex`, padded from the front of
        the list when it runs past the end, so that the window wraps. */
    method VisibleMovies() returns (shown: seq<CarouselMovie>)
      requires Valid()
      ensures visibleCount <= |movies| ==> |shown| == visibleCount
      ensures visibleCount <= |movies| ==>
        forall k :: 0 <= k < |shown| ==> shown[k] == movies[(currentIndex + k) % |movies|]
    {
      var n, i, v := |movies|, currentIndex, visibleCount;
      shown := Slice(movies, i, i + v);
      if |shown| < v {
        var head := shown;
        assert |head| == n - i;
        var tail := Slice(movies, 0, v - |head|);
        shown := head + tail;
        if v <= n {
          assert |tail| == v - (n - i);
          forall k | 0 <= k < |shown| ensures shown[k] == movies[(i + k) % n] {
            if k < |head| {
              assert shown[k] == head[k];
              ModSmall(i + k, n);
            } else {
              assert shown[k] == tail[k - |head|] == movies[i + k - n];
              ModWrap(i + k, n);
            }
          }
        }
      } else {
        assert |shown| == v;
        forall k | 0 <= k < |shown| ensures shown[k] == movies[(i + k) % n] {
          ModSmall(i + k, n);
        }
      }
    }
  }
}
