/** What a history of any length can do to the ratings: bounds that lift the laws of one
    vote to the whole table and to a single film. */
module Drift {
  import opened Elo
  import opened Tables
  import opened History

  // ---------- sums over a film table ----------

  ghost function Sum(films: Films, measure: FilmRow -> real): real
    decreases |films|
  {
    if films.Keys == {} then 0.0
    else
      HasElement(films.Keys);
      var id :| id in films.Keys;
      measure(films[id]) + Sum(films - {id}, measure)
  }

  lemma {:induction false} SumRemove(films: Films, measure: FilmRow -> real, id: int)
    requires id in films
    ensures Sum(films, measure) == measure(films[id]) + Sum(films - {id}, measure)
    decreases |films|
  {
    var first :| first in films && Sum(films, measure) == measure(films[first]) + Sum(films - {first}, measure);
    if first != id {
      SumRemove(films - {first}, measure, id);
      SumRemove(films - {id}, measure, first);
      assert films - {first} - {id} == films - {id} - {first};
    }
  }

  lemma SumPut(films: Films, measure: FilmRow -> real, id: int, row: FilmRow)
    ensures Sum(films[id := row], measure)
            == Sum(films, measure) - (if id in films then measure(films[id]) else 0.0) + measure(row)
  {
    SumRemove(films[id := row], measure, id);
    if id in films {
      SumRemove(films, measure, id);
      assert films[id := row] - {id} == films - {id};
    } else {
      assert films[id := row] - {id} == films;
    }
  }

  function RatingOf(row: FilmRow): real { row.rating }

  function CountOf(row: FilmRow): real { row.duelCount as real }

  /** The excess K a film has had in its first `n` duels: 20 + 19 + .. */
  function Spent(n: int): nat
    decreases n
  {
    if n <= 0 then 0 else Spent(n - 1) + Excess(n - 1)
  }

  lemma {:induction false} SpentClosedForm(n: nat)
    ensures Spent(n) == if n <= 20 then n * (41 - n) / 2 else 210
    ensures Spent(n) <= 210
  {
    if n > 0 {
      SpentClosedForm(n - 1);
      if n <= 20 {
        assert n * (41 - n) == (n - 1) * (42 - n) + 2 * (21 - n);
      }
    }
  }

  function SpentOf(row: FilmRow): real { Spent(row.duelCount) as real }

  ghost predicate CountsNonNegative(films: Films) {
    forall id :: id in films ==> films[id].duelCount >= 0
  }

  /** What one vote does to the sum of any measure of the rows. */
  lemma SettleSum(g: Curve, films: Films, v: VoteRow, measure: FilmRow -> real)
    requires Explained(g, films, v)
    ensures var after := Settle(g, films, v.winner, v.loser);
            Sum(after, measure) - Sum(films, measure)
            == (measure(after[v.winner]) - measure(films[v.winner]))
               + (measure(after[v.loser]) - measure(films[v.loser]))
  {
    var after := Settle(g, films, v.winner, v.loser);
    var mid := films[v.winner := after[v.winner]];
    SumPut(films, measure, v.winner, after[v.winner]);
    SumPut(mid, measure, v.loser, after[v.loser]);
    assert after == mid[v.loser := after[v.loser]];
  }

  lemma ScaleUp(d: real, s: real, e: real)
    requires 0.0 < e < 1.0 && 0.0 <= d <= s
    ensures 0.0 <= d * e
    ensures d * e <= s
  {
    assert d * e <= d;
  }

  lemma ScaleDown(d: real, s: real, e: real)
    requires 0.0 < e < 1.0 && -s <= d <= 0.0
    ensures -s <= d * e
    ensures d * e <= 0.0
  {
    assert d <= d * e;
  }

  /** The fraction e of a quantity within s of zero is within s of zero. */
  lemma ScaleWithin(d: real, s: real, e: real)
    requires 0.0 < e < 1.0 && -s <= d <= s
    ensures -s <= d * e
    ensures d * e <= s
  {
    if d >= 0.0 { ScaleUp(d, s, e); } else { ScaleDown(d, s, e); }
  }

  /** The total moves by at most the excess K the two films have left, and not at all once
      neither has any. */
  lemma ShiftOfOneVote(g: Curve, winner: real, loser: real, winnerCount: nat, loserCount: nat)
    ensures var (w, l) := CalculateRatings(g, winner, loser, FilmK(winnerCount), FilmK(loserCount));
            var shift := (w - winner) + (l - loser);
            var paid := (Excess(winnerCount) + Excess(loserCount)) as real;
            && -paid <= shift <= paid
            && (winnerCount >= 20 && loserCount >= 20 ==> shift == 0.0)
  {
    var kw, kl := FilmK(winnerCount), FilmK(loserCount);
    KIsBasePlusExcess(winnerCount);
    KIsBasePlusExcess(loserCount);
    VoteExchange(g, winner, loser, kw, kl);
    ScaleWithin((kw - kl) as real, (Excess(winnerCount) + Excess(loserCount)) as real,
                Expected(g, loser, winner));
  }

  /** One vote moves the total rating by (Kw - Kl) * Eb, which is no more than the excess K
      that the two films give up by it; and it adds two to the total of the duel counts. */
  lemma DriftOfOneVote(g: Curve, films: Films, v: VoteRow)
    requires Explained(g, films, v) && CountsNonNegative(films)
    ensures var after := Settle(g, films, v.winner, v.loser);
            var shift := Sum(after, RatingOf) - Sum(films, RatingOf);
            var paid := Sum(after, SpentOf) - Sum(films, SpentOf);
            && CountsNonNegative(after)
            && -paid <= shift <= paid
            && Sum(after, CountOf) == Sum(films, CountOf) + 2.0
            && (films[v.winner].duelCount >= 20 && films[v.loser].duelCount >= 20 ==> shift == 0.0)
  {
    var w, l := films[v.winner], films[v.loser];
    SettleSum(g, films, v, RatingOf);
    SettleSum(g, films, v, SpentOf);
    SettleSum(g, films, v, CountOf);
    SettlePerFilm(g, films, v, v.winner);
    SettlePerFilm(g, films, v, v.loser);
    ShiftOfOneVote(g, w.rating, l.rating, w.duelCount, l.duelCount);
  }

  /** Over any history the total rating has drifted by no more than the excess K spent. */
  lemma {:induction false} DriftWithinSpent(g: Curve, films: Films, votes: seq<VoteRow>)
    requires CountsNonNegative(films) && Replay(g, films, votes).Some?
    ensures var after := Replay(g, films, votes).value;
            var paid := Sum(after, SpentOf) - Sum(films, SpentOf);
            && CountsNonNegative(after)
            && -paid <= Sum(after, RatingOf) - Sum(films, RatingOf) <= paid
            && Sum(after, CountOf) == Sum(films, CountOf) + 2.0 * |votes| as real
    decreases |votes|
  {
    if votes != [] {
      var n := |votes| - 1;
      var before, v := votes[..n], votes[n];
      assert votes == before + [v];
      ReplaySnoc(g, films, before, v);
      DriftWithinSpent(g, films, before);
      DriftOfOneVote(g, Replay(g, films, before).value, v);
    }
  }

  lemma {:induction false} SpentBounds(films: Films)
    requires CountsNonNegative(films)
    ensures 0.0 <= Sum(films, SpentOf) <= 210.0 * |films| as real
    decreases |films|
  {
    if films.Keys != {} {
      HasElement(films.Keys);
      var id :| id in films.Keys;
      SumRemove(films, SpentOf, id);
      SpentClosedForm(films[id].duelCount);
      assert |films - {id}| == |films| - 1 by {
        assert (films - {id}).Keys == films.Keys - {id};
      }
      SpentBounds(films - {id});
    }
  }

  /** The drift never exceeds 210 points a film, however long the history. */
  lemma DriftBounded(g: Curve, films: Films, votes: seq<VoteRow>)
    requires CountsNonNegative(films) && Replay(g, films, votes).Some?
    ensures var drift := Sum(Replay(g, films, votes).value, RatingOf) - Sum(films, RatingOf);
            -210.0 * |films| as real <= drift <= 210.0 * |films| as real
  {
    var after := Replay(g, films, votes).value;
    DriftWithinSpent(g, films, votes);
    SpentBounds(films);
    SpentBounds(after);
    ReplayPerFilm(g, films, votes, 0);
    assert |after| == |after.Keys| == |films.Keys| == |films|;
  }

  /** Once every film has twenty duels, the total rating is constant for good. */
  lemma {:induction false} SettledTotalIsConstant(g: Curve, films: Films, votes: seq<VoteRow>)
    requires forall id :: id in films ==> films[id].duelCount >= 20
    requires Replay(g, films, votes).Some?
    ensures var after := Replay(g, films, votes).value;
            && (forall id :: id in after ==> after[id].duelCount >= 20)
            && Sum(after, RatingOf) == Sum(films, RatingOf)
    decreases |votes|
  {
    if votes != [] {
      var n := |votes| - 1;
      var before, v := votes[..n], votes[n];
      assert votes == before + [v];
      ReplaySnoc(g, films, before, v);
      SettledTotalIsConstant(g, films, before);
      DriftOfOneVote(g, Replay(g, films, before).value, v);
    }
  }

  // ---------- one film ----------

  /** The most a film can move in its first `n` duels: K(0) + K(1) + .. + K(n - 1). */
  function Reach(n: nat): nat {
    if n == 0 then 0 else Reach(n - 1) + BASE_K + Excess(n - 1)
  }

  lemma {:induction false} ReachClosedForm(n: nat)
    ensures Reach(n) == if n <= 20 then n * (81 - n) / 2 else 210 + 20 * n
    ensures n == 20 ==> Reach(n) == 210 + 20 * n
  {
    if n > 0 {
      ReachClosedForm(n - 1);
      if n <= 20 {
        assert n * (81 - n) == (n - 1) * (82 - n) + 2 * (41 - n);
      }
    }
  }

  ghost predicate Within(x: real, bound: nat) {
    -(bound as real) <= x <= bound as real
  }

  ghost predicate StrictlyWithin(x: real, bound: nat) {
    -(bound as real) < x < bound as real
  }

  lemma MoveOfOneVote(g: Curve, films: Films, v: VoteRow, film: int)
    requires Explained(g, films, v) && v.Names(film) && CountsNonNegative(films)
    ensures StrictlyWithin(RatingAfter(v, film) - films[film].rating, BASE_K + Excess(films[film].duelCount))
  {
    var w, l := films[v.winner], films[v.loser];
    KIsBasePlusExcess(w.duelCount);
    KIsBasePlusExcess(l.duelCount);
    VoteExchange(g, w.rating, l.rating, FilmK(w.duelCount), FilmK(l.duelCount));
  }

  /** A film that entered with no duels is, after n votes naming it, within Reach(n) of its
      initial rating, and strictly so once it has a vote. */
  lemma {:induction false} FilmStaysInReach(g: Curve, films: Films, votes: seq<VoteRow>, film: int)
    requires CountsNonNegative(films) && film in films && films[film].duelCount == 0
    requires Replay(g, films, votes).Some?
    ensures film in Replay(g, films, votes).value
    ensures var moved := Replay(g, films, votes).value[film].rating - films[film].rating;
            var n := CountNaming(votes, film);
            Within(moved, Reach(n)) && (n > 0 ==> StrictlyWithin(moved, Reach(n)))
    decreases |votes|
  {
    ReplayPerFilm(g, films, votes, film);
    if votes != [] {
      var n := |votes| - 1;
      var before, v := votes[..n], votes[n];
      assert votes == before + [v];
      ReplaySnoc(g, films, before, v);
      FilmStaysInReach(g, films, before, film);
      ReplayPerFilm(g, films, before, film);
      if v.Names(film) {
        DriftWithinSpent(g, films, before);
        MoveOfOneVote(g, Replay(g, films, before).value, v, film);
      }
    }
  }
}
