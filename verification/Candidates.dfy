/** Choosing opponents: the FindCandidates and ComposeDuel queries
    (internal/database/queries/duels.sql).

    ORDER BY leaves the order of ties open, and LIMIT then leaves open which films are cut,
    so a query is a relation: any ordering consistent with distance may be the one used. */
module Candidates {
  import opened Tables

  function Abs(x: real): real { if x < 0.0 then -x else x }

  function Max(a: int, b: int): int { if a <= b then b else a }

  function Distance(films: Films, winner: int, f: int): real
    requires winner in films && f in films
  {
    Abs(films[f].rating - films[winner].rating)
  }

  function Others(films: Films, winner: int): set<int> {
    films.Keys - {winner}
  }

  predicate InWindow(films: Films, winner: int, window: real, f: int)
    requires winner in films && f in films
  {
    Distance(films, winner, f) <= window
  }

  /** W: the films within the rating window of the winner, in the whole catalogue. */
  function WindowSet(films: Films, winner: int, window: real): set<int>
    requires winner in films
  {
    set f | f in Others(films, winner) && InWindow(films, winner, window, f)
  }

  // ---------- ORDER BY distance ----------

  ghost predicate SortedByDistance(films: Films, winner: int, xs: seq<int>)
    requires winner in films && forall x :: x in xs ==> x in films
  {
    forall i, j :: 0 <= i < j < |xs| ==> Distance(films, winner, xs[i]) <= Distance(films, winner, xs[j])
  }

  function Elements(xs: seq<int>): set<int> {
    set x | x in xs
  }

  /** xs is one of the orders in which ORDER BY distance may return the rows of `from`. */
  ghost predicate IsOrderBy(films: Films, winner: int, from: set<int>, xs: seq<int>)
    requires winner in films && from <= films.Keys
  {
    && NoRepeats(xs) && Elements(xs) == from
    && (forall x :: x in xs ==> x in films)
    && SortedByDistance(films, winner, xs)
  }

  /** LIMIT n. */
  function Limit(xs: seq<int>, n: nat): seq<int> {
    xs[..Min(n, |xs|)]
  }

  function CountInWindow(films: Films, winner: int, window: real, xs: seq<int>): nat
    requires winner in films && forall x :: x in xs ==> x in films
  {
    |set x | x in xs && InWindow(films, winner, window, x)|
  }

  /** FindCandidates: order all other films by distance and keep `max`; order those again and
      keep as many as are in the window, but at least `min`.  Each ORDER BY may break ties in
      its own way.  Without the winner's row the join is empty. */
  ghost predicate FindCandidates(films: Films, winner: int, min: nat, max: nat, window: real, result: seq<int>) {
    if winner !in films then result == []
    else
      exists xs, ys ::
        && IsOrderBy(films, winner, Others(films, winner), xs)
        && IsOrderBy(films, winner, Elements(Limit(xs, max)), ys)
        && result == Limit(ys, Max(CountInWindow(films, winner, window, ys), min))
  }

  // ---------- the one-line specification ----------

  /** The `size` films nearest to the winner, nearest first: no film left out is strictly
      closer than one returned. */
  ghost predicate Nearest(films: Films, winner: int, from: set<int>, size: int, result: seq<int>)
    requires winner in films && from <= films.Keys
  {
    && |result| == size && NoRepeats(result) && Elements(result) <= from
    && (forall x :: x in result ==> x in films)
    && SortedByDistance(films, winner, result)
    && forall x, f :: x in result && f in from && f !in result ==>
         Distance(films, winner, x) <= Distance(films, winner, f)
  }

  function PoolSize(films: Films, winner: int, min: nat, max: nat, window: real): int
    requires winner in films
  {
    Min(|films| - 1, Min(max, Max(min, |WindowSet(films, winner, window)|)))
  }

  // ---------- sizes ----------

  lemma {:induction false} ElementsSize(xs: seq<int>)
    requires NoRepeats(xs)
    ensures |Elements(xs)| == |xs|
  {
    if xs != [] {
      var n := |xs| - 1;
      ElementsSize(xs[..n]);
      assert Elements(xs) == Elements(xs[..n]) + {xs[n]} by {
        assert xs == xs[..n] + [xs[n]];
      }
      assert xs[n] !in xs[..n];
    }
  }

  lemma OthersSize(films: Films, winner: int)
    requires winner in films
    ensures |Others(films, winner)| == |films| - 1
  {
    assert films.Keys == Others(films, winner) + {winner};
    assert |films| == |films.Keys|;
  }

  // ---------- orders and cuts ----------

  function InsertByDistance(films: Films, winner: int, xs: seq<int>, x: int): seq<int>
    requires winner in films && x in films && forall y :: y in xs ==> y in films
  {
    if xs == [] then [x]
    else
      assert xs[0] in xs;
      assert forall y :: y in xs[1..] ==> y in xs;
      if Distance(films, winner, x) <= Distance(films, winner, xs[0]) then [x] + xs
      else [xs[0]] + InsertByDistance(films, winner, xs[1..], x)
  }

  lemma {:induction false} InsertKeepsElements(films: Films, winner: int, xs: seq<int>, x: int)
    requires winner in films && x in films && forall y :: y in xs ==> y in films
    ensures forall y :: y in InsertByDistance(films, winner, xs, x) <==> y == x || y in xs
    decreases |xs|
  {
    if xs != [] {
      assert xs[0] in xs;
      assert forall y :: y in xs[1..] ==> y in xs;
      assert xs == [xs[0]] + xs[1..];
      InsertKeepsElements(films, winner, xs[1..], x);
    }
  }

  lemma {:induction false} InsertKeepsOrder(films: Films, winner: int, xs: seq<int>, x: int)
    requires winner in films && x in films && forall y :: y in xs ==> y in films
    requires NoRepeats(xs) && SortedByDistance(films, winner, xs) && x !in xs
    ensures var zs := InsertByDistance(films, winner, xs, x);
            NoRepeats(zs) && (forall y :: y in zs ==> y in films) && SortedByDistance(films, winner, zs)
    decreases |xs|
  {
    InsertKeepsElements(films, winner, xs, x);
    if xs != [] {
      assert xs[0] in xs;
      assert forall y :: y in xs[1..] ==> y in xs;
      if Distance(films, winner, x) > Distance(films, winner, xs[0]) {
        InsertKeepsOrder(films, winner, xs[1..], x);
        InsertKeepsElements(films, winner, xs[1..], x);
        ConsKeepsOrder(films, winner, xs, x, InsertByDistance(films, winner, xs[1..], x));
      }
    }
  }

  lemma ConsKeepsOrder(films: Films, winner: int, xs: seq<int>, x: int, rest: seq<int>)
    requires winner in films && x in films && forall y :: y in xs ==> y in films
    requires xs != [] && NoRepeats(xs) && SortedByDistance(films, winner, xs) && x !in xs
    requires forall y :: y in rest <==> y == x || y in xs[1..]
    requires (forall y :: y in rest ==> y in films) && NoRepeats(rest) && SortedByDistance(films, winner, rest)
    requires Distance(films, winner, xs[0]) < Distance(films, winner, x)
    ensures var zs := [xs[0]] + rest;
            NoRepeats(zs) && (forall y :: y in zs ==> y in films) && SortedByDistance(films, winner, zs)
  {
    assert xs[0] in xs;
    forall i | 0 <= i < |rest|
      ensures xs[0] != rest[i] && Distance(films, winner, xs[0]) <= Distance(films, winner, rest[i])
    {
      assert rest[i] in rest;
      if rest[i] != x {
        var j :| 0 <= j < |xs[1..]| && xs[1..][j] == rest[i];
        assert xs[j + 1] == rest[i];
      }
    }
  }

  /** Every set of films has an order by distance. */
  lemma {:induction false} OrderExists(films: Films, winner: int, from: set<int>) returns (xs: seq<int>)
    requires winner in films && from <= films.Keys
    ensures IsOrderBy(films, winner, from, xs)
    decreases |from|
  {
    if from == {} {
      xs := [];
    } else {
      HasElement(from);
      var x :| x in from;
      var rest := OrderExists(films, winner, from - {x});
      assert x !in Elements(rest);
      assert forall y :: y in rest ==> y in Elements(rest);
      InsertKeepsElements(films, winner, rest, x);
      InsertKeepsOrder(films, winner, rest, x);
      xs := InsertByDistance(films, winner, rest, x);
      forall y ensures y in Elements(xs) <==> y in from {
        assert y in Elements(rest) <==> y in from - {x};
      }
    }
  }

  /** A limit of an order keeps the nearest. */
  lemma LimitIsNearest(films: Films, winner: int, from: set<int>, xs: seq<int>, n: nat)
    requires winner in films && from <= films.Keys && IsOrderBy(films, winner, from, xs)
    ensures |xs| == |from|
    ensures Nearest(films, winner, from, Min(n, |from|), Limit(xs, n))
  {
    ElementsSize(xs);
    var kept := Limit(xs, n);
    assert forall x :: x in kept ==> x in xs;
    assert forall m :: 0 <= m < |kept| ==> kept[m] in kept && kept[m] == xs[m];
    forall x, f | x in kept && f in from && f !in kept
      ensures Distance(films, winner, x) <= Distance(films, winner, f)
    {
      var i :| 0 <= i < |kept| && kept[i] == x;
      assert f in Elements(xs);
      var j :| 0 <= j < |xs| && xs[j] == f;
      assert kept[i] == xs[i];
    }
  }

  /** Conversely, the nearest films are a limit of some order. */
  lemma NearestIsLimit(films: Films, winner: int, from: set<int>, size: nat, result: seq<int>) returns (xs: seq<int>)
    requires winner in films && from <= films.Keys && Nearest(films, winner, from, size, result)
    ensures IsOrderBy(films, winner, from, xs) && result <= xs
  {
    var rest := OrderExists(films, winner, from - Elements(result));
    xs := result + rest;
    forall i | 0 <= i < |rest| ensures rest[i] in from && rest[i] !in result && rest[i] in films {
      assert rest[i] in Elements(rest);
    }
    assert Elements(xs) == from by {
      assert forall x :: x in xs <==> x in result || x in rest;
      assert forall x :: x in rest <==> x in Elements(rest);
    }
    forall i, j | 0 <= i < j < |xs|
      ensures xs[i] != xs[j] && xs[i] in films && xs[j] in films
              && Distance(films, winner, xs[i]) <= Distance(films, winner, xs[j])
    {
      if i < |result| && |result| <= j {
        assert result[i] in result;
      }
    }
    forall x | x in xs ensures x in films {
      assert x in Elements(xs);
    }
  }

  /** The nearest of the nearest are the nearest. */
  lemma NearestOfNearest(films: Films, winner: int, from: set<int>, kept: seq<int>, size: int, result: seq<int>)
    requires winner in films && from <= films.Keys && Elements(kept) <= films.Keys
    requires Nearest(films, winner, from, |kept|, kept)
    requires Nearest(films, winner, Elements(kept), size, result)
    ensures Nearest(films, winner, from, size, result)
  {
    forall x, f | x in result && f in from && f !in result
      ensures Distance(films, winner, x) <= Distance(films, winner, f)
    {
      assert x in Elements(result);
      assert x in kept;
      if f in kept { assert f in Elements(kept); }
    }
  }

  /** Cutting to the nearest keeps the window's films as far as they fit. */
  lemma WindowOfNearest(films: Films, winner: int, window: real, kept: seq<int>)
    requires winner in films
    requires Nearest(films, winner, Others(films, winner), |kept|, kept)
    ensures CountInWindow(films, winner, window, kept) == Min(|WindowSet(films, winner, window)|, |kept|)
    ensures |kept| < |WindowSet(films, winner, window)| ==>
              forall x :: x in kept ==> InWindow(films, winner, window, x)
    ensures |WindowSet(films, winner, window)| <= |kept| ==>
              forall f :: f in WindowSet(films, winner, window) ==> f in kept
  {
    var all := WindowSet(films, winner, window);
    var inside := set x | x in kept && InWindow(films, winner, window, x);
    ElementsSize(kept);
    forall x | x in inside ensures x in all {
      assert x in Elements(kept);
    }
    SubsetSize(inside, all);
    SubsetSize(inside, Elements(kept));
    if f :| f in all && f !in kept {
      assert forall x :: x in kept ==> InWindow(films, winner, window, x);
      assert inside == Elements(kept);
    } else {
      assert inside == all;
    }
  }

  // ---------- the refinement ----------

  /** Ties or no ties, FindCandidates returns the nearest min(n - 1, max, max(min, W)) other
      films, nearest first; and every such list is a possible answer. */
  lemma FindCandidatesIsNearest(films: Films, winner: int, min: nat, max: nat, window: real, result: seq<int>)
    requires winner in films && 0 < min <= max
    ensures FindCandidates(films, winner, min, max, window, result)
            <==> Nearest(films, winner, Others(films, winner), PoolSize(films, winner, min, max, window), result)
  {
    if FindCandidates(films, winner, min, max, window, result) {
      var xs, ys :| && IsOrderBy(films, winner, Others(films, winner), xs)
                    && IsOrderBy(films, winner, Elements(Limit(xs, max)), ys)
                    && result == Limit(ys, Max(CountInWindow(films, winner, window, ys), min));
      AnswerIsNearest(films, winner, min, max, window, xs, ys);
    }
    if Nearest(films, winner, Others(films, winner), PoolSize(films, winner, min, max, window), result) {
      NearestIsAnswer(films, winner, min, max, window, result);
    }
  }

  lemma AnswerIsNearest(films: Films, winner: int, min: nat, max: nat, window: real, xs: seq<int>, ys: seq<int>)
    requires winner in films && 0 < min <= max
    requires IsOrderBy(films, winner, Others(films, winner), xs)
    requires IsOrderBy(films, winner, Elements(Limit(xs, max)), ys)
    ensures Nearest(films, winner, Others(films, winner), PoolSize(films, winner, min, max, window),
                    Limit(ys, Max(CountInWindow(films, winner, window, ys), min)))
  {
    var others, closest := Others(films, winner), Limit(xs, max);
    OthersSize(films, winner);
    LimitIsNearest(films, winner, others, xs, max);
    ElementsSize(closest);
    var n := Max(CountInWindow(films, winner, window, ys), min);
    LimitIsNearest(films, winner, Elements(closest), ys, n);
    SameCount(films, winner, window, closest, ys);
    WindowOfNearest(films, winner, window, closest);
    NearestOfNearest(films, winner, others, closest, Min(n, |closest|), Limit(ys, n));
  }

  lemma SameCount(films: Films, winner: int, window: real, xs: seq<int>, ys: seq<int>)
    requires winner in films && Elements(xs) == Elements(ys) && Elements(xs) <= films.Keys
    requires (forall x :: x in xs ==> x in films) && (forall y :: y in ys ==> y in films)
    ensures CountInWindow(films, winner, window, xs) == CountInWindow(films, winner, window, ys)
  {
    assert forall x :: x in xs <==> x in Elements(xs);
    assert forall x :: x in ys <==> x in Elements(ys);
    assert (set x | x in xs && InWindow(films, winner, window, x))
           == (set x | x in ys && InWindow(films, winner, window, x));
  }

  lemma NearestIsAnswer(films: Films, winner: int, min: nat, max: nat, window: real, result: seq<int>)
    requires winner in films && 0 < min <= max
    requires Nearest(films, winner, Others(films, winner), PoolSize(films, winner, min, max, window), result)
    ensures FindCandidates(films, winner, min, max, window, result)
  {
    var others := Others(films, winner);
    OthersSize(films, winner);
    var xs := NearestIsLimit(films, winner, others, |result|, result);
    OwnPoolIsAnswer(films, winner, min, max, window, xs);
    assert result == Limit(xs, PoolSize(films, winner, min, max, window));
  }

  /** The second stage may keep the order of the first. */
  lemma OwnPoolIsAnswer(films: Films, winner: int, min: nat, max: nat, window: real, xs: seq<int>)
    requires winner in films && 0 < min <= max && IsOrderBy(films, winner, Others(films, winner), xs)
    ensures FindCandidates(films, winner, min, max, window, Limit(xs, PoolSize(films, winner, min, max, window)))
  {
    var closest := Limit(xs, max);
    OthersSize(films, winner);
    LimitIsNearest(films, winner, Others(films, winner), xs, max);
    ElementsSize(xs);
    WindowOfNearest(films, winner, window, closest);
    LimitIsOrdered(films, winner, Others(films, winner), xs, max);
    PoolIsLimit(films, winner, min, max, window, closest);
    var n := Max(CountInWindow(films, winner, window, closest), min);
    assert Limit(xs, PoolSize(films, winner, min, max, window)) == Limit(closest, n);
  }

  lemma LimitIsOrdered(films: Films, winner: int, from: set<int>, xs: seq<int>, n: nat)
    requires winner in films && from <= films.Keys && IsOrderBy(films, winner, from, xs)
    ensures Elements(Limit(xs, n)) <= films.Keys
    ensures IsOrderBy(films, winner, Elements(Limit(xs, n)), Limit(xs, n))
  {
    assert forall x :: x in Limit(xs, n) ==> x in xs;
  }

  lemma PoolIsLimit(films: Films, winner: int, min: nat, max: nat, window: real, closest: seq<int>)
    requires winner in films && 0 < min <= max && |closest| == Min(|films| - 1, max)
    requires forall x :: x in closest ==> x in films
    requires CountInWindow(films, winner, window, closest) == Min(|WindowSet(films, winner, window)|, |closest|)
    ensures PoolSize(films, winner, min, max, window)
            == Min(Max(CountInWindow(films, winner, window, closest), min), |closest|)
  {
  }

  /** The list is empty exactly when the winner is unknown or is the only film. */
  lemma NoCandidatesIff(films: Films, winner: int, min: nat, max: nat, window: real, result: seq<int>)
    requires 0 < min <= max && FindCandidates(films, winner, min, max, window, result)
    ensures result == [] <==> winner !in films || films.Keys == {winner}
    ensures forall x :: x in result ==> x in films && x != winner
  {
    if winner in films {
      FindCandidatesIsNearest(films, winner, min, max, window, result);
      OthersSize(films, winner);
      if |films| == 1 {
        assert Others(films, winner) == {};
        assert films.Keys == Others(films, winner) + {winner};
      }
      forall x | x in result ensures x in films && x != winner {
        assert x in Elements(result);
      }
    }
  }

  /** Padding: a film outside the window is returned only when fewer than `min` films are in
      it, and then all of those are returned. */
  lemma PaddingLaw(films: Films, winner: int, min: nat, max: nat, window: real, result: seq<int>, f: int)
    requires winner in films && 0 < min <= max
    requires FindCandidates(films, winner, min, max, window, result)
    requires f in result && f in films && !InWindow(films, winner, window, f)
    ensures |WindowSet(films, winner, window)| < min
    ensures forall x :: x in WindowSet(films, winner, window) ==> x in result
  {
    FindCandidatesIsNearest(films, winner, min, max, window, result);
    WindowOfNearest(films, winner, window, result);
    var all := WindowSet(films, winner, window);
    var inside := set x | x in result && InWindow(films, winner, window, x);
    ElementsSize(result);
    if |result| <= |all| {
      assert |inside| == |result|;
      SubsetSize(inside, Elements(result));
      assert f in Elements(result);
    }
  }

  // ---------- ComposeDuel ----------

  const CLOSEST_LIMIT: nat := 40

  /** The in_window rows of ComposeDuel, written with BETWEEN. */
  function BetweenSet(films: Films, winner: int, window: real): set<int>
    requires winner in films
  {
    set f | f in Others(films, winner)
            && films[winner].rating - window <= films[f].rating <= films[winner].rating + window
  }

  /** The films ComposeDuel may draw: those in the window or, if there are none, the closest
      forty. */
  ghost predicate ComposeEligible(films: Films, winner: int, window: real, eligible: set<int>)
    requires winner in films
  {
    if BetweenSet(films, winner, window) != {} then eligible == BetweenSet(films, winner, window)
    else
      exists xs :: IsOrderBy(films, winner, Others(films, winner), xs) && eligible == Elements(Limit(xs, CLOSEST_LIMIT))
  }

  lemma BetweenIsWindow(films: Films, winner: int, window: real)
    requires winner in films
    ensures BetweenSet(films, winner, window) == WindowSet(films, winner, window)
  {
  }

  /** With no film in the window ComposeDuel draws from the forty nearest, or from all others
      if there are fewer, whatever way ties break. */
  lemma ComposeFallsBack(films: Films, winner: int, window: real, eligible: set<int>)
    requires winner in films && WindowSet(films, winner, window) == {}
    ensures ComposeEligible(films, winner, window, eligible)
            <==> exists result ::
                   Nearest(films, winner, Others(films, winner), Min(|films| - 1, 40), result) && eligible == Elements(result)
  {
    var others := Others(films, winner);
    BetweenIsWindow(films, winner, window);
    OthersSize(films, winner);
    if ComposeEligible(films, winner, window, eligible) {
      var xs :| IsOrderBy(films, winner, others, xs) && eligible == Elements(Limit(xs, CLOSEST_LIMIT));
      LimitIsNearest(films, winner, others, xs, CLOSEST_LIMIT);
    }
    if result :| Nearest(films, winner, others, Min(|films| - 1, 40), result) && eligible == Elements(result) {
      var xs := NearestIsLimit(films, winner, others, Min(|films| - 1, 40), result);
      ElementsSize(xs);
      assert Limit(xs, CLOSEST_LIMIT) == result;
    }
  }

  /** With min <= W <= max the two ways of choosing an opponent agree: FindCandidates returns
      exactly the films ComposeDuel draws from. */
  lemma QueriesAgree(films: Films, winner: int, min: nat, max: nat, window: real, result: seq<int>, eligible: set<int>)
    requires winner in films && 0 < min <= max
    requires min <= |WindowSet(films, winner, window)| <= max
    requires FindCandidates(films, winner, min, max, window, result)
    requires ComposeEligible(films, winner, window, eligible)
    ensures Elements(result) == eligible
  {
    var all := WindowSet(films, winner, window);
    BetweenIsWindow(films, winner, window);
    FindCandidatesIsNearest(films, winner, min, max, window, result);
    OthersSize(films, winner);
    SubsetSize(all, Others(films, winner));
    WindowOfNearest(films, winner, window, result);
    ElementsSize(result);
    assert all <= Elements(result);
    SubsetSize(all, Elements(result));
  }
}
