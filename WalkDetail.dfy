/**
  * The walk page: the list of the walk's places with their visited marks,
  * the transforms the page applies to it (mark, remove, move the visited
  * ones to the end), the progress figure, and the two flags that
  * `startWalk` and `completeWalk` flip.
  */
module WalkDetail {

  /** A place of the walk as the page holds it. */
  datatype Stop = Stop(id: nat, title: string, visited: bool)

  /** `places.filter(p => p.visited === v)`. */
  function WithMark(ps: seq<Stop>, v: bool): (r: seq<Stop>)
    ensures |r| <= |ps|
    ensures forall x :: x in r <==> x in ps && x.visited == v
  {
    if ps == [] then []
    else (if ps[0].visited == v then [ps[0]] else []) + WithMark(ps[1..], v)
  }

  lemma {:induction false} WithMarkAppend(a: seq<Stop>, b: seq<Stop>, v: bool)
    ensures WithMark(a + b, v) == WithMark(a, v) + WithMark(b, v)
    decreases |a|
  {
    if a == [] {
      assert a + b == b;
    } else {
      assert (a + b)[1..] == a[1..] + b;
      WithMarkAppend(a[1..], b, v);
    }
  }

  /** Filtering a list whose marks are all `v`. */
  lemma {:induction false} WithMarkUniform(ps: seq<Stop>, v: bool)
    requires forall x :: x in ps ==> x.visited == v
    ensures WithMark(ps, v) == ps
    ensures WithMark(ps, !v) == []
    decreases |ps|
  {
    if ps != [] {
      WithMarkUniform(ps[1..], v);
    }
  }

  // ---------------------------------------------------------------------
  // moveVisitedToEnd
  // ---------------------------------------------------------------------

  /** `[...notVisitedPlaces, ...visitedPlaces]`. */
  function MoveVisitedToEnd(ps: seq<Stop>): seq<Stop> {
    WithMark(ps, false) + WithMark(ps, true)
  }

  /** The two groups together hold every place as often as before. */
  lemma {:induction false} SplitIsPermutation(ps: seq<Stop>)
    ensures multiset(WithMark(ps, false)) + multiset(WithMark(ps, true)) == multiset(ps)
    decreases |ps|
  {
    if ps != [] {
      SplitIsPermutation(ps[1..]);
      assert ps == [ps[0]] + ps[1..];
    }
  }

  /** The result is a permutation of the places; the unvisited ones come
      first and the visited ones last; and each group keeps its order (the
      places with a given mark are the same list before and after). */
  lemma MoveVisitedToEndSpec(ps: seq<Stop>)
    ensures multiset(MoveVisitedToEnd(ps)) == multiset(ps)
    ensures var r, k := MoveVisitedToEnd(ps), |WithMark(ps, false)|;
            && (forall i :: 0 <= i < k ==> !r[i].visited)
            && (forall i :: k <= i < |r| ==> r[i].visited)
    ensures WithMark(MoveVisitedToEnd(ps), false) == WithMark(ps, false)
    ensures WithMark(MoveVisitedToEnd(ps), true) == WithMark(ps, true)
  {
    SplitIsPermutation(ps);
    var nv, vs := WithMark(ps, false), WithMark(ps, true);
    var r := nv + vs;
    forall i | 0 <= i < |r| ensures r[i].visited == (i >= |nv|) {
      if i < |nv| {
        assert r[i] in nv;
      } else {
        assert r[i] == vs[i - |nv|];
        assert r[i] in vs;
      }
    }
    WithMarkAppend(nv, vs, false);
    WithMarkAppend(nv, vs, true);
    WithMarkUniform(nv, false);
    WithMarkUniform(vs, true);
    assert nv + [] == nv && [] + vs == vs;
  }

  /** Moving twice is moving once. */
  lemma MoveVisitedToEndIdempotent(ps: seq<Stop>)
    ensures MoveVisitedToEnd(MoveVisitedToEnd(ps)) == MoveVisitedToEnd(ps)
  {
    MoveVisitedToEndSpec(ps);
  }

  // ---------------------------------------------------------------------
  // Progress
  // ---------------------------------------------------------------------

  /** `Math.round(visitedCount / places.length * 100)`, 0 for no places,
      over integers: `100·v/n` rounded to the nearest integer, halves up. */
  function Progress(ps: seq<Stop>): (p: int)
    ensures |ps| == 0 ==> p == 0
    ensures |ps| > 0 ==> var n, v := |ps|, |WithMark(ps, true)|;
                        2 * n * p <= 200 * v + n < 2 * n * p + 2 * n
  {
    if |ps| == 0 then 0
    else
      var n, v := |ps|, |WithMark(ps, true)|;
      DivBounds(200 * v + n, 2 * n);
      (200 * v + n) / (2 * n)
  }

  lemma DivBounds(a: int, b: int)
    requires b > 0
    ensures b * (a / b) <= a < b * (a / b) + b
  {
  }

  /** Progress is a percentage. */
  lemma ProgressInRange(ps: seq<Stop>)
    ensures 0 <= Progress(ps) <= 100
  {
    if |ps| > 0 {
      var n, v, p := |ps|, |WithMark(ps, true)|, Progress(ps);
      assert v <= n;
      if p > 100 {
        assert 2 * n * p >= 2 * n * 101 by {
          MulMono(2 * n, 101, p);
        }
        assert false;
      }
      if p < 0 {
        assert 2 * n * p + 2 * n <= 0 by {
          MulMono(2 * n, p, -1);
        }
        assert false;
      }
    }
  }

  lemma MulMono(c: nat, x: int, y: int)
    requires x <= y
    ensures c * x <= c * y
  {
  }

  /** `places.length > 0 && places.every(p => p.visited)`. */
  predicate AllPlacesVisited(ps: seq<Stop>) {
    |ps| > 0 && forall i :: 0 <= i < |ps| ==> ps[i].visited
  }

  /** Every place visited reads 100; none visited reads 0. */
  lemma ProgressEnds(ps: seq<Stop>)
    ensures AllPlacesVisited(ps) ==> Progress(ps) == 100
    ensures (forall i :: 0 <= i < |ps| ==> !ps[i].visited) ==> Progress(ps) == 0
  {
    if AllPlacesVisited(ps) {
      ProgressAllVisited(ps);
    }
    if |ps| > 0 && forall i :: 0 <= i < |ps| ==> !ps[i].visited {
      ProgressNoneVisited(ps);
    }
  }

  lemma ProgressAllVisited(ps: seq<Stop>)
    requires AllPlacesVisited(ps)
    ensures Progress(ps) == 100
  {
    var n := |ps|;
    WithMarkUniform(ps, true);
    assert Progress(ps) == (200 * n + n) / (2 * n);
    DivUnique(200 * n + n, 2 * n, 100, n);
  }

  lemma ProgressNoneVisited(ps: seq<Stop>)
    requires |ps| > 0 && forall i :: 0 <= i < |ps| ==> !ps[i].visited
    ensures Progress(ps) == 0
  {
    var n := |ps|;
    WithMarkUniform(ps, false);
    assert |WithMark(ps, true)| == 0;
    assert Progress(ps) == n / (2 * n);
    DivUnique(n, 2 * n, 0, n);
  }

  lemma DivUnique(a: int, b: int, q: int, r: int)
    requires b > 0 && 0 <= r < b && a == b * q + r
    ensures a / b == q
  {
    DivBounds(a, b);
    var d := a / b;
    if d > q {
      MulMono(b, q + 1, d);
    }
    if d < q {
      MulMono(b, d + 1, q);
    }
  }

  /** Rounding lets an unfinished walk read 100: 199 of 200 places. */
  lemma ProgressHundredBeforeTheEnd(ps: seq<Stop>)
    requires |ps| == 200 && |WithMark(ps, true)| == 199
    ensures Progress(ps) == 100 && !AllPlacesVisited(ps)
  {
    var i :| 0 <= i < |ps| && !ps[i].visited by {
      if forall i :: 0 <= i < |ps| ==> ps[i].visited {
        WithMarkUniform(ps, true);
      }
    }
  }

  /** All places are visited exactly when there are places and every one
      of them is in the visited group. */
  lemma AllVisitedIffCount(ps: seq<Stop>)
    ensures AllPlacesVisited(ps) <==> |ps| > 0 && |WithMark(ps, true)| == |ps|
  {
    SplitIsPermutation(ps);
    if AllPlacesVisited(ps) {
      WithMarkUniform(ps, true);
    }
    if |ps| > 0 && |WithMark(ps, true)| == |ps| {
      assert |multiset(WithMark(ps, false))| == 0;
      forall i | 0 <= i < |ps| ensures ps[i].visited {
      }
    }
  }

  // ---------------------------------------------------------------------
  // Marking and removing
  // ---------------------------------------------------------------------

  /** `prev.map(place => place.id === placeId ? { ...place, visited } : place)`. */
  function MarkVisited(ps: seq<Stop>, placeId: nat, visited: bool): (r: seq<Stop>)
    ensures |r| == |ps|
    ensures forall i :: 0 <= i < |ps| ==>
              r[i] == if ps[i].id == placeId then ps[i].(visited := visited) else ps[i]
  {
    seq(|ps|, i requires 0 <= i < |ps| => if ps[i].id == placeId then ps[i].(visited := visited) else ps[i])
  }

  /** Marking changes only the mark of the entries with that id. */
  lemma MarkVisitedOnlyMark(ps: seq<Stop>, placeId: nat, visited: bool)
    ensures var r := MarkVisited(ps, placeId, visited);
            forall i :: 0 <= i < |ps| ==>
              && r[i].id == ps[i].id && r[i].title == ps[i].title
              && r[i].visited == (if ps[i].id == placeId then visited else ps[i].visited)
  {
  }

  /** `prev.filter(place => place.id !== placeId)`. */
  function RemovePlace(ps: seq<Stop>, placeId: nat): (r: seq<Stop>)
    ensures forall x :: x in r <==> x in ps && x.id != placeId
  {
    if ps == [] then []
    else (if ps[0].id != placeId then [ps[0]] else []) + RemovePlace(ps[1..], placeId)
  }

  /** How many entries carry the id. */
  function CountId(ps: seq<Stop>, placeId: nat): nat {
    if ps == [] then 0 else (if ps[0].id == placeId then 1 else 0) + CountId(ps[1..], placeId)
  }

  lemma {:induction false} RemovePlaceCount(ps: seq<Stop>, placeId: nat)
    ensures |RemovePlace(ps, placeId)| == |ps| - CountId(ps, placeId)
    ensures CountId(ps, placeId) == 0 ==> RemovePlace(ps, placeId) == ps
    decreases |ps|
  {
    if ps != [] {
      RemovePlaceCount(ps[1..], placeId);
      var head := if ps[0].id != placeId then [ps[0]] else [];
      assert RemovePlace(ps, placeId) == head + RemovePlace(ps[1..], placeId);
      assert CountId(ps, placeId) == (if ps[0].id == placeId then 1 else 0) + CountId(ps[1..], placeId);
      assert ps == [ps[0]] + ps[1..];
    }
  }

  lemma {:induction false} RemovePlaceAppend(a: seq<Stop>, b: seq<Stop>, placeId: nat)
    ensures RemovePlace(a + b, placeId) == RemovePlace(a, placeId) + RemovePlace(b, placeId)
    decreases |a|
  {
    if a == [] {
      assert a + b == b;
    } else {
      assert (a + b)[1..] == a[1..] + b;
      RemovePlaceAppend(a[1..], b, placeId);
    }
  }

  /** Removal drops exactly the entries with that id: it removes as many
      entries as carry the id, leaves a list without the id unchanged, and
      works piecewise, so the remaining entries keep their order. */
  lemma RemovePlaceExact(ps: seq<Stop>, placeId: nat)
    ensures |RemovePlace(ps, placeId)| == |ps| - CountId(ps, placeId)
    ensures CountId(ps, placeId) == 0 ==> RemovePlace(ps, placeId) == ps
    ensures forall a, b :: ps == a + b ==> RemovePlace(ps, placeId) == RemovePlace(a, placeId) + RemovePlace(b, placeId)
  {
    RemovePlaceCount(ps, placeId);
    forall a, b | ps == a + b
      ensures RemovePlace(ps, placeId) == RemovePlace(a, placeId) + RemovePlace(b, placeId)
    {
      RemovePlaceAppend(a, b, placeId);
    }
  }

  // ---------------------------------------------------------------------
  // The page state
  // ---------------------------------------------------------------------

  /** The page's list and its two flags. */
  class WalkView {
    var places: seq<Stop>
    var isActive: bool
    var showCompletion: bool

    /** The page never shows the completion banner during an active walk. */
    predicate Valid()
      reads this
    {
      !(isActive && showCompletion)
    }

    constructor (places: seq<Stop>)
      ensures Valid()
      ensures this.places == places && !isActive && !showCompletion
    {
      this.places := places;
      isActive := false;
      showCompletion := false;
    }

    /** `startWalk`. */
    method StartWalk()
      modifies this
      ensures Valid() && isActive && !showCompletion && places == old(places)
    {
      isActive := true;
      showCompletion := false;
    }

    /** `completeWalk`. */
    method CompleteWalk()
      modifies this
      ensures Valid() && !isActive && showCompletion && places == old(places)
    {
      isActive := false;
      showCompletion := true;
    }

    /** The completion banner's close button: `setShowCompletion(false)`. */
    method CloseCompletion()
      modifies this
      ensures Valid() && !showCompletion
      ensures isActive == old(isActive) && places == old(places)
    {
      showCompletion := false;
    }

    /** `markPlaceAsVisited` once the server has accepted the mark. */
    method MarkPlaceAsVisited(placeId: nat, visited: bool)
      requires Valid()
      modifies this
      ensures Valid() && places == MarkVisited(old(places), placeId, visited)
      ensures isActive == old(isActive) && showCompletion == old(showCompletion)
    {
      places := MarkVisited(places, placeId, visited);
    }

    /** `removePlace` once the server has removed it. */
    method RemovePlaceFromWalk(placeId: nat)
      requires Valid()
      modifies this
      ensures Valid() && places == RemovePlace(old(places), placeId)
      ensures isActive == old(isActive) && showCompletion == old(showCompletion)
    {
      places := RemovePlace(places, placeId);
    }

    /** `moveVisitedToEnd`. */
    method MoveVisitedToEndOfList()
      requires Valid()
      modifies this
      ensures Valid() && places == MoveVisitedToEnd(old(places))
      ensures isActive == old(isActive) && showCompletion == old(showCompletion)
    {
      places := MoveVisitedToEnd(places);
    }
  }
}
