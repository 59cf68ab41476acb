/** Votes applied one at a time to a table of films: the serial meaning that every
    interleaving of RegisterVote calls is compared with. */
module History {
  import opened Elo
  import opened Tables

  /** The ratings one vote writes, from the rows it reads under lock. */
  function After(g: Curve, films: Films, winner: int, loser: int): (real, real)
    requires winner in films && loser in films
  {
    CalculateRatings(g, films[winner].rating, films[loser].rating,
                     FilmK(films[winner].duelCount), FilmK(films[loser].duelCount))
  }

  /** The film table after one vote: both rows counted and both ratings overwritten. */
  function Settle(g: Curve, films: Films, winner: int, loser: int): Films
    requires winner in films && loser in films && winner != loser
  {
    var (w, l) := After(g, films, winner, loser);
    films[winner := films[winner].(rating := w, duelCount := films[winner].duelCount + 1)]
         [loser := films[loser].(rating := l, duelCount := films[loser].duelCount + 1)]
  }

  /** The vote row stores exactly the ratings that voting on `films` produces. */
  predicate Explained(g: Curve, films: Films, v: VoteRow) {
    && v.winner in films && v.loser in films && v.winner != v.loser
    && (v.winnerAfter, v.loserAfter) == After(g, films, v.winner, v.loser)
  }

  /** Replays vote rows one at a time, recomputing every rating; None as soon as a row's
      stored ratings differ from the recomputed ones. */
  function Replay(g: Curve, films: Films, votes: seq<VoteRow>): Option<Films> {
    if votes == [] then Some(films)
    else if Explained(g, films, votes[0]) then
      Replay(g, Settle(g, films, votes[0].winner, votes[0].loser), votes[1..])
    else None
  }

  lemma {:induction false} ReplayConcat(g: Curve, films: Films, xs: seq<VoteRow>, ys: seq<VoteRow>)
    ensures Replay(g, films, xs + ys)
            == match Replay(g, films, xs) case None => None case Some(mid) => Replay(g, mid, ys)
  {
    if xs == [] {
      assert xs + ys == ys;
    } else {
      assert (xs + ys)[1..] == xs[1..] + ys;
      if Explained(g, films, xs[0]) {
        ReplayConcat(g, Settle(g, films, xs[0].winner, xs[0].loser), xs[1..], ys);
      }
    }
  }

  lemma ReplaySnoc(g: Curve, films: Films, xs: seq<VoteRow>, v: VoteRow)
    ensures Replay(g, films, xs + [v])
            == match Replay(g, films, xs)
               case None => None
               case Some(mid) =>
                 if Explained(g, mid, v) then Some(Settle(g, mid, v.winner, v.loser)) else None
  {
    ReplayConcat(g, films, xs, [v]);
    match Replay(g, films, xs)
    case None =>
    case Some(mid) =>
      if Explained(g, mid, v) {
        assert [v][1..] == [];
      }
  }

  // ---------- reordering ----------

  /** Two adjacent votes on disjoint pairs of films can be exchanged. */
  lemma VotesCommute(g: Curve, films: Films, u: VoteRow, v: VoteRow)
    requires !u.Shares(v)
    ensures Replay(g, films, [u, v]) == Replay(g, films, [v, u])
  {
    ReplayPair(g, films, u, v);
    ReplayPair(g, films, v, u);
    if Explained(g, films, u) && Explained(g, films, v) {
      var fu := Settle(g, films, u.winner, u.loser);
      var fv := Settle(g, films, v.winner, v.loser);
      assert After(g, fu, v.winner, v.loser) == After(g, films, v.winner, v.loser);
      assert After(g, fv, u.winner, u.loser) == After(g, films, u.winner, u.loser);
      assert Settle(g, fu, v.winner, v.loser) == Settle(g, fv, u.winner, u.loser);
    }
  }

  lemma ReplayPair(g: Curve, films: Films, u: VoteRow, v: VoteRow)
    ensures Replay(g, films, [u, v])
            == if Explained(g, films, u) && Explained(g, Settle(g, films, u.winner, u.loser), v)
               then Some(Settle(g, Settle(g, films, u.winner, u.loser), v.winner, v.loser)) else None
  {
    assert [u, v] == [u] + [v];
    ReplaySnoc(g, films, [u], v);
    assert [u] == [] + [u];
    ReplaySnoc(g, films, [], u);
  }

  /** A vote that shares no film with any of `ts` may be taken before or after them all. */
  lemma {:induction false} VoteMovesLast(g: Curve, films: Films, v: VoteRow, ts: seq<VoteRow>)
    requires forall t :: t in ts ==> !v.Shares(t)
    ensures Replay(g, films, [v] + ts) == Replay(g, films, ts + [v])
  {
    if ts == [] {
      assert [v] + ts == ts + [v];
    } else {
      var t, rest := ts[0], ts[1..];
      assert [v] + ts == [v, t] + rest;
      assert ts + [v] == [t] + (rest + [v]);
      assert [t, v] + rest == [t] + ([v] + rest);
      ReplayConcat(g, films, [v, t], rest);
      ReplayConcat(g, films, [t, v], rest);
      VotesCommute(g, films, v, t);
      ReplayConcat(g, films, [t], [v] + rest);
      ReplayConcat(g, films, [t], rest + [v]);
      match Replay(g, films, [t])
      case None =>
      case Some(mid) => VoteMovesLast(g, mid, v, rest);
    }
  }

  /** Votes naming a common film carry sequence numbers in list order. */
  ghost predicate ConflictsOrdered(votes: seq<VoteRow>) {
    forall i, j :: 0 <= i < j < |votes| && votes[i].Shares(votes[j]) ==> votes[i].appliedSeq < votes[j].appliedSeq
  }

  ghost predicate SortedBySeq(votes: seq<VoteRow>) {
    forall i, j :: 0 <= i < j < |votes| ==> votes[i].appliedSeq <= votes[j].appliedSeq
  }

  lemma SplitAround(sorted: seq<VoteRow>, v: VoteRow) returns (head: seq<VoteRow>, tail: seq<VoteRow>)
    requires v in sorted
    ensures sorted == head + [v] + tail
  {
    var k :| 0 <= k < |sorted| && sorted[k] == v;
    head, tail := sorted[..k], sorted[k + 1..];
  }

  lemma SortedWithout(head: seq<VoteRow>, v: VoteRow, tail: seq<VoteRow>)
    requires SortedBySeq(head + [v] + tail)
    ensures SortedBySeq(head + tail)
    ensures forall t :: t in tail ==> v.appliedSeq <= t.appliedSeq
  {
    var all := head + [v] + tail;
    forall i | 0 <= i < |tail| ensures v.appliedSeq <= tail[i].appliedSeq {
      assert all[|head|] == v && all[|head| + 1 + i] == tail[i];
    }
    forall i, j | 0 <= i < j < |head + tail| ensures (head + tail)[i].appliedSeq <= (head + tail)[j].appliedSeq {
      var i', j' := if i < |head| then i else i + 1, if j < |head| then j else j + 1;
      assert all[i'] == (head + tail)[i] && all[j'] == (head + tail)[j];
    }
  }

  lemma RemoveFromBoth(listed: seq<VoteRow>, before: seq<VoteRow>, v: VoteRow, head: seq<VoteRow>, tail: seq<VoteRow>)
    requires listed == before + [v]
    requires multiset(listed) == multiset(head + [v] + tail)
    ensures multiset(before) == multiset(head + tail)
    ensures forall t :: t in tail ==> t in before
  {
    assert multiset(before + [v]) == multiset(before) + multiset{v};
    assert multiset(head + [v] + tail) == multiset(head + tail) + multiset{v};
    assert multiset(before) == multiset(listed) - multiset{v};
    forall t | t in tail ensures t in before {
      assert t in head + tail;
      assert t in multiset(head + tail);
      assert t in multiset(before);
    }
  }

  /** Nothing sorted behind the last listed vote shares a film with it. */
  lemma TailDoesNotShare(listed: seq<VoteRow>, before: seq<VoteRow>, v: VoteRow, tail: seq<VoteRow>)
    requires ConflictsOrdered(listed) && listed == before + [v]
    requires forall t :: t in tail ==> v.appliedSeq <= t.appliedSeq && t in before
    ensures forall t :: t in tail ==> !v.Shares(t)
  {
    forall t | t in tail ensures !v.Shares(t) {
      var i :| 0 <= i < |before| && before[i] == t;
      assert listed[i] == t && listed[|before|] == v;
      assert !listed[i].Shares(listed[|before|]);
    }
  }

  /** Conflict serializability: if every two votes that share a film are listed in
      sequence order, then replaying the list and replaying its rows sorted by sequence
      number have the same outcome. */
  lemma {:induction false} SortingPreservesReplay(g: Curve, films: Films, listed: seq<VoteRow>, sorted: seq<VoteRow>)
    requires ConflictsOrdered(listed) && SortedBySeq(sorted)
    requires multiset(listed) == multiset(sorted)
    ensures Replay(g, films, sorted) == Replay(g, films, listed)
    decreases |listed|
  {
    if listed == [] {
      assert |multiset(sorted)| == 0;
      assert sorted == [];
    } else {
      var n := |listed| - 1;
      var before, v := listed[..n], listed[n];
      assert listed == before + [v];
      assert v in multiset(sorted);
      var head, tail := SplitAround(sorted, v);
      SortedWithout(head, v, tail);
      RemoveFromBoth(listed, before, v, head, tail);
      TailDoesNotShare(listed, before, v, tail);
      SortingPreservesReplay(g, films, before, head + tail);
      ReplayConcat(g, films, before, [v]);
      ReplayConcat(g, films, head + tail, [v]);
      VoteMovesToEnd(g, films, head, v, tail);
    }
  }

  lemma VoteMovesToEnd(g: Curve, films: Films, head: seq<VoteRow>, v: VoteRow, tail: seq<VoteRow>)
    requires forall t :: t in tail ==> !v.Shares(t)
    ensures Replay(g, films, head + [v] + tail) == Replay(g, films, (head + tail) + [v])
  {
    assert head + [v] + tail == head + ([v] + tail);
    assert (head + tail) + [v] == head + (tail + [v]);
    ReplayConcat(g, films, head, [v] + tail);
    ReplayConcat(g, films, head, tail + [v]);
    match Replay(g, films, head)
    case None =>
    case Some(mid) => VoteMovesLast(g, mid, v, tail);
  }

  // ---------- what a history says about one film ----------

  /** The number of votes naming the film. */
  function CountNaming(votes: seq<VoteRow>, film: int): nat {
    if votes == [] then 0
    else CountNaming(votes[..|votes| - 1], film) + if votes[|votes| - 1].Names(film) then 1 else 0
  }

  function RatingAfter(v: VoteRow, film: int): real {
    if film == v.winner then v.winnerAfter else v.loserAfter
  }

  /** The rating_after of the last listed vote naming the film, `initial` if there is none. */
  function LastRating(votes: seq<VoteRow>, film: int, initial: real): real {
    if votes == [] then initial
    else
      var v := votes[|votes| - 1];
      if v.Names(film) then RatingAfter(v, film) else LastRating(votes[..|votes| - 1], film, initial)
  }

  lemma SettlePerFilm(g: Curve, films: Films, v: VoteRow, film: int)
    requires Explained(g, films, v)
    ensures Settle(g, films, v.winner, v.loser).Keys == films.Keys
    ensures film in films ==>
              Settle(g, films, v.winner, v.loser)[film]
              == if v.Names(film)
                 then films[film].(duelCount := films[film].duelCount + 1, rating := RatingAfter(v, film))
                 else films[film]
  {
  }

  /** A successful replay keeps the catalogue, and leaves each film with one count per vote
      naming it, the rating_after of its last vote, and its other columns untouched. */
  lemma {:induction false} ReplayPerFilm(g: Curve, films: Films, votes: seq<VoteRow>, film: int)
    requires Replay(g, films, votes).Some?
    ensures Replay(g, films, votes).value.Keys == films.Keys
    ensures film in films ==>
              Replay(g, films, votes).value[film]
              == films[film].(duelCount := films[film].duelCount + CountNaming(votes, film),
                              rating := LastRating(votes, film, films[film].rating))
    decreases |votes|
  {
    if votes != [] {
      var n := |votes| - 1;
      var before, v := votes[..n], votes[n];
      assert votes == before + [v];
      ReplaySnoc(g, films, before, v);
      ReplayPerFilm(g, films, before, film);
      var mid := Replay(g, films, before).value;
      SettlePerFilm(g, mid, v, film);
    }
  }

  // ---------- what a vote pays ----------

  /** The stored ratings in figures: with odds of g(winner - loser) to one, the winner gains
      and the loser loses one in 1 + odds of its own K, which is 40 less its duels so far and
      20 from the twentieth duel on. */
  ghost predicate PaidAtOdds(g: Curve, films: Films, v: VoteRow) {
    && v.winner in films && v.loser in films
    && (v.winnerAfter - films[v.winner].rating) * (1.0 + g(films[v.winner].rating - films[v.loser].rating))
       == (if films[v.winner].duelCount < 20 then 40 - films[v.winner].duelCount else 20) as real
    && (films[v.loser].rating - v.loserAfter) * (1.0 + g(films[v.winner].rating - films[v.loser].rating))
       == (if films[v.loser].duelCount < 20 then 40 - films[v.loser].duelCount else 20) as real
  }

  lemma ExplainedIsPaid(g: Curve, films: Films, v: VoteRow)
    requires Explained(g, films, v)
    requires films[v.winner].duelCount >= 0 && films[v.loser].duelCount >= 0
    ensures PaidAtOdds(g, films, v)
  {
    var w, l := films[v.winner], films[v.loser];
    KInFigures(w.duelCount);
    KInFigures(l.duelCount);
    ExchangeAtOdds(g, w.rating, l.rating, FilmK(w.duelCount), FilmK(l.duelCount));
  }

  /** Every vote of a history pays at the odds of the table it was cast on. */
  lemma ReplayPaysAtOdds(g: Curve, films: Films, votes: seq<VoteRow>, i: nat)
    requires Replay(g, films, votes).Some? && i < |votes|
    requires forall f :: f in films ==> films[f].duelCount >= 0
    ensures Replay(g, films, votes[..i]).Some?
    ensures PaidAtOdds(g, Replay(g, films, votes[..i]).value, votes[i])
  {
    var v := votes[i];
    assert votes == (votes[..i] + [v]) + votes[i + 1..];
    ReplayConcat(g, films, votes[..i] + [v], votes[i + 1..]);
    ReplaySnoc(g, films, votes[..i], v);
    ReplayPerFilm(g, films, votes[..i], v.winner);
    ReplayPerFilm(g, films, votes[..i], v.loser);
    ExplainedIsPaid(g, Replay(g, films, votes[..i]).value, v);
  }

  /** When conflicting votes are listed in sequence order, the last vote naming a film is
      its vote with the greatest sequence number. */
  lemma {:induction false} LastIsGreatest(votes: seq<VoteRow>, film: int, initial: real, v: VoteRow)
    requires ConflictsOrdered(votes)
    requires v in votes && v.Names(film)
    requires forall u :: u in votes && u.Names(film) ==> u.appliedSeq <= v.appliedSeq
    ensures LastRating(votes, film, initial) == RatingAfter(v, film)
    decreases |votes|
  {
    var n := |votes| - 1;
    var last := votes[n];
    var i :| 0 <= i <= n && votes[i] == v;
    assert last in votes;
    if last.Names(film) {
      if i < n {
        assert votes[i].Shares(votes[n]);
      }
    } else {
      assert votes[..n][i] == v;
      LastIsGreatest(votes[..n], film, initial, v);
    }
  }

  lemma {:induction false} UnnamedKeepsRating(votes: seq<VoteRow>, film: int, initial: real)
    requires forall u :: u in votes ==> !u.Names(film)
    ensures LastRating(votes, film, initial) == initial && CountNaming(votes, film) == 0
    decreases |votes|
  {
    if votes != [] {
      assert votes[|votes| - 1] in votes;
      UnnamedKeepsRating(votes[..|votes| - 1], film, initial);
    }
  }
}
