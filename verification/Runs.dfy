/** The laws of every run, from the empty database, under every schedule. */
module Runs {
  import opened Elo
  import opened Tables
  import opened History
  import opened Drift
  import opened Catalogue
  import opened Engine
  import opened Invariant
  import opened Preservation
  import opened Atomicity

  // ---------- serializability ----------

  /** Replaying the committed votes one at a time in applied_seq order, from the films as
      they were inserted, recomputes every stored winner/loser rating_after and ends in
      exactly the stored film table. */
  lemma SerializableBySeq(g: Curve, es: seq<Event>, sorted: seq<VoteRow>)
    requires multiset(sorted) == multiset(Run(g, EMPTY, es).db.votes) && SortedBySeq(sorted)
    ensures Replay(g, Run(g, EMPTY, es).born, sorted) == Some(Run(g, EMPTY, es).db.films)
  {
    ReachableInv(g, es);
    var s := Run(g, EMPTY, es);
    SortingPreservesReplay(g, s.born, s.db.votes, sorted);
  }

  function InsertBySeq(votes: seq<VoteRow>, v: VoteRow): seq<VoteRow> {
    if votes == [] then [v]
    else if v.appliedSeq <= votes[0].appliedSeq then [v] + votes
    else [votes[0]] + InsertBySeq(votes[1..], v)
  }

  /** The votes in applied_seq order. */
  function InSeqOrder(votes: seq<VoteRow>): seq<VoteRow> {
    if votes == [] then [] else InsertBySeq(InSeqOrder(votes[1..]), votes[0])
  }

  lemma {:induction false} InsertBySeqKeepsRows(votes: seq<VoteRow>, v: VoteRow)
    ensures multiset(InsertBySeq(votes, v)) == multiset(votes) + multiset{v}
  {
    if votes != [] && v.appliedSeq > votes[0].appliedSeq {
      InsertBySeqKeepsRows(votes[1..], v);
      assert votes == [votes[0]] + votes[1..];
    }
  }

  lemma {:induction false} InsertBySeqSorts(votes: seq<VoteRow>, v: VoteRow)
    requires SortedBySeq(votes)
    ensures SortedBySeq(InsertBySeq(votes, v))
  {
    if votes != [] && v.appliedSeq > votes[0].appliedSeq {
      var rest := InsertBySeq(votes[1..], v);
      InsertBySeqSorts(votes[1..], v);
      InsertBySeqKeepsRows(votes[1..], v);
      forall i | 0 <= i < |rest| ensures votes[0].appliedSeq <= rest[i].appliedSeq {
        assert rest[i] in multiset(rest);
        assert rest[i] == v || rest[i] in votes[1..];
      }
    }
  }

  lemma {:induction false} InSeqOrderSorts(votes: seq<VoteRow>)
    ensures SortedBySeq(InSeqOrder(votes)) && multiset(InSeqOrder(votes)) == multiset(votes)
  {
    if votes != [] {
      InSeqOrderSorts(votes[1..]);
      InsertBySeqSorts(InSeqOrder(votes[1..]), votes[0]);
      InsertBySeqKeepsRows(InSeqOrder(votes[1..]), votes[0]);
      assert votes == [votes[0]] + votes[1..];
    }
  }

  /** The same with the order computed: every run is equivalent to a serial one. */
  lemma EveryRunIsSerial(g: Curve, es: seq<Event>)
    ensures var s := Run(g, EMPTY, es);
            Replay(g, s.born, InSeqOrder(s.db.votes)) == Some(s.db.films)
  {
    InSeqOrderSorts(Run(g, EMPTY, es).db.votes);
    SerializableBySeq(g, es, InSeqOrder(Run(g, EMPTY, es).db.votes));
  }

  /** Every stored vote pays at the odds of the ratings that the votes before it in
      applied_seq order had left, by the duel counts they had left. */
  lemma VotesPayAtOdds(g: Curve, es: seq<Event>, i: nat)
    requires i < |InSeqOrder(Run(g, EMPTY, es).db.votes)|
    ensures var s := Run(g, EMPTY, es);
            var votes := InSeqOrder(s.db.votes);
            && Replay(g, s.born, votes[..i]).Some?
            && PaidAtOdds(g, Replay(g, s.born, votes[..i]).value, votes[i])
  {
    ReachableInv(g, es);
    EveryRunIsSerial(g, es);
    ReplayPaysAtOdds(g, Run(g, EMPTY, es).born, InSeqOrder(Run(g, EMPTY, es).db.votes), i);
  }

  /** The vote a transaction has inserted, committed or not. */
  function Inserted(tx: Tx): Option<VoteRow> {
    if tx.phase.Committed? then Some(tx.phase.vote) else Pending(tx)
  }

  /** Sequence numbers are only drawn upwards: the transactions from `first` on hold none
      below `floor`. */
  ghost predicate NumberedFrom(s: State, first: nat, floor: nat) {
    && floor <= s.nextSeq
    && forall t :: first <= t < |s.txs| && Inserted(s.txs[t]).Some? ==> floor <= Inserted(s.txs[t]).value.appliedSeq
  }

  /** A statement gives its transaction no vote, the one it had, or one newly numbered. */
  lemma AdvanceNumbersUp(g: Curve, s: State, u: nat)
    requires u < |s.txs| && !s.txs[u].Finished()
    ensures var s' := AdvanceTx(g, s, u);
            && |s'.txs| == |s.txs| && s.nextSeq <= s'.nextSeq
            && (forall t :: 0 <= t < |s.txs| && t != u ==> s'.txs[t] == s.txs[t])
            && (Inserted(s'.txs[u]).None? || Inserted(s'.txs[u]) == Inserted(s.txs[u])
                || Inserted(s'.txs[u]).value.appliedSeq == s.nextSeq)
  {
    match s.txs[u].phase
    case Begun =>
    case LowLocked(_) =>
    case BothLocked(_, _) =>
    case Rated(_) =>
    case Voted(_) =>
    case WinnerWritten(_) =>
    case LoserWritten(_) =>
  }

  lemma StepNumbersUp(g: Curve, s: State, e: Event, first: nat, floor: nat)
    requires NumberedFrom(s, first, floor)
    ensures NumberedFrom(Step(g, s, e), first, floor)
  {
    if e.Advance? && Enabled(s, e) {
      AdvanceNumbersUp(g, s, e.t);
    }
  }

  lemma {:induction false} RunNumbersUp(g: Curve, s: State, es: seq<Event>)
    ensures NumberedFrom(Run(g, s, es), |s.txs|, s.nextSeq)
    decreases |es|
  {
    if es != [] {
      RunNumbersUp(g, s, es[..|es| - 1]);
      StepNumbersUp(g, Run(g, s, es[..|es| - 1]), es[|es| - 1], |s.txs|, s.nextSeq);
    }
  }

  /** The serial order is that of real time too: a vote that was committed before another
      call began has the smaller applied_seq. */
  lemma SerialOrderRespectsTime(g: Curve, es: seq<Event>, more: seq<Event>, v: VoteRow, t: nat)
    requires v in Run(g, EMPTY, es).db.votes
    requires |Run(g, EMPTY, es).txs| <= t < |Run(g, EMPTY, es + more).txs|
    requires Run(g, EMPTY, es + more).txs[t].phase.Committed?
    ensures var u := Run(g, EMPTY, es + more).txs[t].phase.vote;
            u in Run(g, EMPTY, es + more).db.votes && v.appliedSeq < u.appliedSeq
  {
    var s, later := Run(g, EMPTY, es), Run(g, EMPTY, es + more);
    ReachableInv(g, es);
    ReachableInv(g, es + more);
    RunConcat(g, EMPTY, es, more);
    RunNumbersUp(g, s, more);
    assert TxOk(g, later.db, later.nextSeq, later.txs[t]);
    assert Inserted(later.txs[t]).Some?;
  }

  // ---------- one film's history ----------

  /** In every reachable state a film's duel_count is the number of committed votes naming
      it, and its rating is the rating_after in its vote with the greatest applied_seq, or
      the rating it was inserted with if it has none. */
  lemma FilmHistory(g: Curve, es: seq<Event>, film: int)
    requires film in Run(g, EMPTY, es).db.films
    ensures var s := Run(g, EMPTY, es);
            && film in s.born
            && s.db.films[film].duelCount == CountNaming(s.db.votes, film)
            && (forall v :: v in s.db.votes && v.Names(film)
                            && (forall u :: u in s.db.votes && u.Names(film) ==> u.appliedSeq <= v.appliedSeq) ==>
                  s.db.films[film].rating == RatingAfter(v, film))
            && ((forall u :: u in s.db.votes ==> !u.Names(film)) ==>
                  s.db.films[film] == s.born[film])
  {
    ReachableInv(g, es);
    var s := Run(g, EMPTY, es);
    ReplayPerFilm(g, s.born, s.db.votes, film);
    forall v | v in s.db.votes && v.Names(film)
               && (forall u :: u in s.db.votes && u.Names(film) ==> u.appliedSeq <= v.appliedSeq)
      ensures s.db.films[film].rating == RatingAfter(v, film)
    {
      LastIsGreatest(s.db.votes, film, s.born[film].rating, v);
    }
    if forall u :: u in s.db.votes ==> !u.Names(film) {
      UnnamedKeepsRating(s.db.votes, film, s.born[film].rating);
    }
  }

  // ---------- bounds ----------

  /** However many votes are cast, the total rating stays within 210 points a film of the
      total the films were inserted with. */
  lemma TotalDriftBounded(g: Curve, es: seq<Event>)
    ensures var s := Run(g, EMPTY, es);
            var drift := Sum(s.db.films, RatingOf) - Sum(s.born, RatingOf);
            -210.0 * |s.db.films| as real <= drift <= 210.0 * |s.db.films| as real
  {
    ReachableInv(g, es);
    var s := Run(g, EMPTY, es);
    DriftBounded(g, s.born, s.db.votes);
    assert |s.born| == |s.born.Keys| == |s.db.films.Keys| == |s.db.films|;
  }

  /** A film with n duels is within n(81 - n)/2 of its initial rating for n <= 20, within
      210 + 20n after that, and strictly so once n >= 1. */
  lemma FilmRatingBounded(g: Curve, es: seq<Event>, film: int)
    requires film in Run(g, EMPTY, es).db.films
    ensures var s := Run(g, EMPTY, es);
            var n := s.db.films[film].duelCount;
            && film in s.born && n >= 0
            && var moved := s.db.films[film].rating - s.born[film].rating;
               var bound: nat := if n <= 20 then n * (81 - n) / 2 else 210 + 20 * n;
               Within(moved, bound) && (n >= 1 ==> StrictlyWithin(moved, bound))
  {
    ReachableInv(g, es);
    var s := Run(g, EMPTY, es);
    FilmHistory(g, es, film);
    FilmStaysInReach(g, s.born, s.db.votes, film);
    ReachClosedForm(s.db.films[film].duelCount);
  }

  // ---------- histories only grow ----------

  lemma StepExtendsHistory(g: Curve, s: State, e: Event)
    ensures s.db.votes <= Step(g, s, e).db.votes
  {
    if Enabled(s, e) && e.InsertFilms? {
      BatchInsertsAbsent(s.db, e.params);
    }
  }

  lemma {:induction false} RunExtendsHistory(g: Curve, s: State, es: seq<Event>)
    ensures s.db.votes <= Run(g, s, es).db.votes
    decreases |es|
  {
    if es != [] {
      RunExtendsHistory(g, s, es[..|es| - 1]);
      StepExtendsHistory(g, Run(g, s, es[..|es| - 1]), es[|es| - 1]);
    }
  }

  /** A step that leaves a film's duel_count leaves its whole row, and no step lowers it. */
  lemma StepMovesRow(g: Curve, s: State, e: Event, film: int)
    requires Inv(g, s) && film in s.db.films
    ensures var after := Step(g, s, e).db.films;
            && film in after
            && after[film].duelCount >= s.db.films[film].duelCount
            && (after[film].duelCount == s.db.films[film].duelCount ==> after[film] == s.db.films[film])
  {
    if Enabled(s, e) {
      if e.Advance? && s.txs[e.t].phase.LoserWritten? {
        CommitSettles(g, s, e.t);
        SettlePerFilm(g, s.db.films, s.txs[e.t].phase.vote, film);
      } else {
        OnlyCommitPublishes(g, s, e);
      }
    }
  }

  /** Over any run a film's rating moves only together with its duel_count. */
  lemma {:induction false} RatingMovesOnlyWithCount(g: Curve, es: seq<Event>, more: seq<Event>, film: int)
    requires film in Run(g, EMPTY, es).db.films
    ensures var before, after := Run(g, EMPTY, es).db.films, Run(g, EMPTY, es + more).db.films;
            && film in after
            && after[film].duelCount >= before[film].duelCount
            && (after[film].duelCount == before[film].duelCount ==> after[film] == before[film])
    decreases |more|
  {
    if more == [] {
      assert es + more == es;
    } else {
      var n := |more| - 1;
      RatingMovesOnlyWithCount(g, es, more[..n], film);
      ReachableInv(g, es + more[..n]);
      StepMovesRow(g, Run(g, EMPTY, es + more[..n]), more[n], film);
      RunSnoc(g, EMPTY, es + more[..n], more[n]);
      assert es + more == es + more[..n] + [more[n]];
    }
  }

  /** Once every film has twenty duels the total rating is exactly constant, on every
      continuation that inserts no film. */
  lemma SettledTotalStaysConstant(g: Curve, es: seq<Event>, more: seq<Event>)
    requires forall f :: f in Run(g, EMPTY, es).db.films ==> Run(g, EMPTY, es).db.films[f].duelCount >= 20
    requires Run(g, EMPTY, es + more).born == Run(g, EMPTY, es).born
    ensures Sum(Run(g, EMPTY, es + more).db.films, RatingOf) == Sum(Run(g, EMPTY, es).db.films, RatingOf)
  {
    var s, s' := Run(g, EMPTY, es), Run(g, EMPTY, es + more);
    var rest := LaterVotes(g, es, more);
    SettledTotalIsConstant(g, s.db.films, rest);
  }

  /** The votes a continuation commits, replayed on the table it started from, give its
      final table, if it inserts no film. */
  lemma LaterVotes(g: Curve, es: seq<Event>, more: seq<Event>) returns (rest: seq<VoteRow>)
    requires Run(g, EMPTY, es + more).born == Run(g, EMPTY, es).born
    ensures Run(g, EMPTY, es + more).db.votes == Run(g, EMPTY, es).db.votes + rest
    ensures Replay(g, Run(g, EMPTY, es).db.films, rest) == Some(Run(g, EMPTY, es + more).db.films)
  {
    var s, s' := Run(g, EMPTY, es), Run(g, EMPTY, es + more);
    ReachableInv(g, es);
    ReachableInv(g, es + more);
    RunConcat(g, EMPTY, es, more);
    RunExtendsHistory(g, s, more);
    rest := s'.db.votes[|s.db.votes|..];
    assert s'.db.votes == s.db.votes + rest;
    ReplayConcat(g, s.born, s.db.votes, rest);
  }

  // ---------- counting ----------

  /** CountPendingDuels: the duels no vote refers to. */
  function PendingDuels(db: Db): set<int> {
    set d | d in db.duels && !DuelVoted(db.votes, d)
  }

  function VotedDuels(votes: seq<VoteRow>): set<int> {
    set v | v in votes :: v.duel
  }

  lemma {:induction false} VotedDuelsCount(votes: seq<VoteRow>)
    requires Distinct(votes)
    ensures |VotedDuels(votes)| == |votes|
  {
    if votes != [] {
      var n := |votes| - 1;
      var before, v := votes[..n], votes[n];
      VotedDuelsCount(before);
      assert VotedDuels(votes) == VotedDuels(before) + {v.duel} by {
        assert votes == before + [v];
      }
      assert v.duel !in VotedDuels(before) by {
        assert forall i :: 0 <= i < n ==> votes[i].duel != votes[n].duel;
      }
    }
  }

  lemma PendingDuelsCount(db: Db)
    requires Distinct(db.votes) && VotesOk(db)
    ensures |PendingDuels(db)| == |db.duels| - |db.votes|
  {
    VotedDuelsCount(db.votes);
    assert db.duels.Keys == PendingDuels(db) + VotedDuels(db.votes) by {
      forall d | d in db.duels.Keys && d !in PendingDuels(db) ensures d in VotedDuels(db.votes) {
        var v :| v in db.votes && v.duel == d;
      }
    }
    assert PendingDuels(db) !! VotedDuels(db.votes);
    assert |db.duels| == |db.duels.Keys|;
  }

  /** In every reachable state: a duel has at most one vote, whose films are the duel's two
      films; duel_counts sum to twice the number of votes; and the pending duels number the
      duels less the votes. */
  lemma CountingLaws(g: Curve, es: seq<Event>)
    ensures var s := Run(g, EMPTY, es);
            && Distinct(s.db.votes) && VotesOk(s.db)
            && Sum(s.db.films, CountOf) == 2.0 * |s.db.votes| as real
            && |PendingDuels(s.db)| == |s.db.duels| - |s.db.votes|
  {
    ReachableInv(g, es);
    var s := Run(g, EMPTY, es);
    DriftWithinSpent(g, s.born, s.db.votes);
    CountsStartAtZero(s.born);
    PendingDuelsCount(s.db);
  }

  lemma {:induction false} CountsStartAtZero(films: Films)
    requires forall f :: f in films ==> films[f].duelCount == 0
    ensures Sum(films, CountOf) == 0.0
    decreases |films|
  {
    if films.Keys != {} {
      HasElement(films.Keys);
      var f :| f in films.Keys;
      SumRemove(films, CountOf, f);
      CountsStartAtZero(films - {f});
    }
  }
}
