/** One RegisterVote call that nobody interferes with: the engine's seven statements amount
    to a one-line specification, failures included. */
module SerialCall {
  import opened Elo
  import opened Tables
  import opened History
  import opened Catalogue
  import opened Engine
  import opened Invariant
  import opened Preservation
  import opened Atomicity

  /** What refuses a vote, in the order the call finds out; None if nothing does. */
  function Refusal(db: Db, duel: int, winner: int): Option<Error> {
    if duel !in db.duels then Some(NotEnoughFilms)
    else if winner != db.duels[duel].filmA && winner != db.duels[duel].filmB then Some(FilmNotInDuel)
    else if DuelVoted(db.votes, duel) then Some(DuplicateEntry)
    else if !Countable(db, db.duels[duel]) then Some(DatabaseFailure)
    else None
  }

  /** Both duel counts can still be incremented in their column. */
  predicate Countable(db: Db, d: DuelRow) {
    && d.filmA in db.films && db.films[d.filmA].duelCount < MAX_INT32
    && d.filmB in db.films && db.films[d.filmB].duelCount < MAX_INT32
  }

  function Opponent(d: DuelRow, winner: int): int {
    if winner == d.filmA then d.filmB else d.filmA
  }

  /** The vote row a call stores when it is not refused. */
  function SerialVote(g: Curve, db: Db, nextSeq: nat, duel: int, winner: int): VoteRow
    requires DuelsOk(db) && Refusal(db, duel, winner).None?
  {
    var loser := Opponent(db.duels[duel], winner);
    var (w, l) := After(g, db.films, winner, loser);
    VoteRow(duel, winner, loser, w, l, nextSeq)
  }

  /** n statements of t and nothing else. */
  function Alone(t: nat, n: nat): seq<Event> {
    seq(n, i => Advance(t))
  }

  /** Where they lead. */
  function Solo(g: Curve, s: State, t: nat, n: nat): State {
    Run(g, s, Alone(t, n))
  }

  lemma AloneSnoc(g: Curve, s: State, t: nat, n: nat)
    ensures Solo(g, s, t, n + 1) == Step(g, Solo(g, s, t, n), Advance(t))
  {
    assert Alone(t, n + 1) == Alone(t, n) + [Advance(t)];
    RunSnoc(g, s, Alone(t, n), Advance(t));
  }

  lemma {:induction false} FinishedRunsNothing(g: Curve, s: State, t: nat, n: nat)
    requires t < |s.txs| && s.txs[t].Finished()
    ensures Solo(g, s, t, n) == s
  {
    if n > 0 {
      FinishedRunsNothing(g, s, t, n - 1);
      AloneSnoc(g, s, t, n - 1);
    }
  }

  lemma AloneConcat(g: Curve, s: State, t: nat, n: nat)
    ensures Solo(g, s, t, n + 1) == Solo(g, Step(g, s, Advance(t)), t, n)
  {
    assert Alone(t, n + 1) == [Advance(t)] + Alone(t, n);
    RunConcat(g, s, [Advance(t)], Alone(t, n));
    RunOne(g, s, Advance(t));
  }

  // ---------- the statements, one at a time ----------

  /** The state of a call under way by itself: no table has changed, and no film of its duel
      is locked by anyone else. */
  ghost predicate Under(g: Curve, s: State, db: Db, nextSeq: nat, t: nat, duel: int, winner: int) {
    && Inv(g, s) && s.db == db && s.nextSeq == nextSeq
    && t < |s.txs| && s.txs[t].duel == duel && s.txs[t].winner == winner
    && (duel in db.duels ==>
          && (db.duels[duel].filmA in s.locks ==> s.locks[db.duels[duel].filmA] == t)
          && (db.duels[duel].filmB in s.locks ==> s.locks[db.duels[duel].filmB] == t))
  }

  ghost predicate Refused(s: State, db: Db, t: nat, e: Error) {
    t < |s.txs| && s.txs[t].phase == RolledBack(e) && s.db == db
  }

  lemma LocksBoth(g: Curve, s: State, db: Db, nextSeq: nat, t: nat, duel: int, winner: int)
    requires Under(g, s, db, nextSeq, t, duel, winner) && s.txs[t].phase.Begun?
    ensures duel !in db.duels ==> Refused(Step(g, s, Advance(t)), db, t, NotEnoughFilms)
    ensures duel in db.duels ==>
              var locked := Step(g, Step(g, s, Advance(t)), Advance(t));
              Under(g, locked, db, nextSeq, t, duel, winner) && locked.txs[t].phase.BothLocked?
  {
    if duel in db.duels {
      var first := Step(g, s, Advance(t));
      FirstLock(g, s, db, nextSeq, t, duel, winner);
      SecondLock(g, first, db, nextSeq, t, duel, winner);
    }
  }

  lemma FirstLock(g: Curve, s: State, db: Db, nextSeq: nat, t: nat, duel: int, winner: int)
    requires Under(g, s, db, nextSeq, t, duel, winner) && s.txs[t].phase.Begun? && duel in db.duels
    ensures var first := Step(g, s, Advance(t));
            Under(g, first, db, nextSeq, t, duel, winner) && first.txs[t].phase.LowLocked?
  {
    StepKeeps(g, s, Advance(t));
  }

  lemma SecondLock(g: Curve, s: State, db: Db, nextSeq: nat, t: nat, duel: int, winner: int)
    requires Under(g, s, db, nextSeq, t, duel, winner) && s.txs[t].phase.LowLocked? && duel in db.duels
    ensures var second := Step(g, s, Advance(t));
            Under(g, second, db, nextSeq, t, duel, winner) && second.txs[t].phase.BothLocked?
  {
    assert !Blocked(s, t);
    StepKeeps(g, s, Advance(t));
  }

  lemma Rates(g: Curve, s: State, db: Db, nextSeq: nat, t: nat, duel: int, winner: int)
    requires Under(g, s, db, nextSeq, t, duel, winner) && s.txs[t].phase.BothLocked? && duel in db.duels
    ensures var rated := Step(g, s, Advance(t));
            if winner == db.duels[duel].filmA || winner == db.duels[duel].filmB
            then Under(g, rated, db, nextSeq, t, duel, winner) && rated.txs[t].phase.Rated?
            else Refused(rated, db, t, FilmNotInDuel)
  {
    ReadsTheDuel(g, s, db, nextSeq, t, duel, winner);
    StepKeeps(g, s, Advance(t));
  }

  lemma ReadsTheDuel(g: Curve, s: State, db: Db, nextSeq: nat, t: nat, duel: int, winner: int)
    requires Under(g, s, db, nextSeq, t, duel, winner) && s.txs[t].phase.BothLocked? && duel in db.duels
    ensures var (low, high) := (s.txs[t].phase.low.id, s.txs[t].phase.high.id);
            {low, high} == {db.duels[duel].filmA, db.duels[duel].filmB}
  {
    assert TxOk(g, s.db, s.nextSeq, s.txs[t]);
  }

  /** The vote about to be inserted is the serial one, and what its statement checks is what
      is left of `Refusal`. */
  lemma DraftIsSerial(g: Curve, s: State, t: nat)
    requires Inv(g, s) && t < |s.txs| && s.txs[t].phase.Rated?
    ensures DuelsOk(s.db) && s.txs[t].duel in s.db.duels
    ensures InsertError(s, s.txs[t], s.txs[t].phase.draft) == Refusal(s.db, s.txs[t].duel, s.txs[t].winner)
    ensures Refusal(s.db, s.txs[t].duel, s.txs[t].winner).None? ==>
              s.txs[t].phase.draft.Numbered(s.nextSeq)
              == SerialVote(g, s.db, s.nextSeq, s.txs[t].duel, s.txs[t].winner)
  {
    var d := s.txs[t].phase.draft;
    assert TxOk(g, s.db, s.nextSeq, s.txs[t]);
    assert Explained(g, s.db.films, d.Numbered(0));
    assert d.loser == Opponent(s.db.duels[d.duel], d.winner);
  }

  lemma InsertStep(g: Curve, s: State, t: nat)
    requires t < |s.txs| && s.txs[t].phase.Rated?
    ensures var err := InsertError(s, s.txs[t], s.txs[t].phase.draft);
            var after := Step(g, s, Advance(t));
            && after == InsertVote(s, t) && after.db == s.db && |after.txs| == |s.txs|
            && after.txs[t].phase == (if err.Some? then RolledBack(err.value)
                                      else Voted(s.txs[t].phase.draft.Numbered(s.nextSeq)))
  {
  }

  lemma Inserts(g: Curve, s: State, db: Db, nextSeq: nat, t: nat, duel: int, winner: int)
    requires Under(g, s, db, nextSeq, t, duel, winner) && s.txs[t].phase.Rated?
    ensures DuelsOk(db) && duel in db.duels
    ensures var voted := Step(g, s, Advance(t));
            match Refusal(db, duel, winner)
            case Some(e) => Refused(voted, db, t, e)
            case None => Inv(g, voted) && voted.db == db && t < |voted.txs|
                         && voted.txs[t].phase == Voted(SerialVote(g, db, nextSeq, duel, winner))
  {
    DraftIsSerial(g, s, t);
    InsertStep(g, s, t);
    if Refusal(db, duel, winner).None? {
      VotedKeeps(g, s, t);
    }
  }

  /** A vote whose rows are written is the serial one on the tables as they are, whatever
      has been committed since it was rated. */
  lemma PendingIsSerial(g: Curve, s: State, t: nat)
    requires Inv(g, s) && t < |s.txs| && s.txs[t].phase.LoserWritten?
    ensures DuelsOk(s.db) && Refusal(s.db, s.txs[t].duel, s.txs[t].winner).None?
    ensures var v := s.txs[t].phase.vote;
            v == SerialVote(g, s.db, v.appliedSeq, s.txs[t].duel, s.txs[t].winner)
  {
    var v := s.txs[t].phase.vote;
    assert TxOk(g, s.db, s.nextSeq, s.txs[t]);
    assert Explained(g, s.db.films, DraftOf(v).Numbered(0));
    assert v.loser == Opponent(s.db.duels[v.duel], v.winner);
  }

  lemma WritesWinner(g: Curve, s: State, t: nat, v: VoteRow)
    requires Inv(g, s) && t < |s.txs| && s.txs[t].phase == Voted(v)
    ensures var after := Step(g, s, Advance(t));
            Inv(g, after) && after.db == s.db && t < |after.txs| && after.txs[t].phase == WinnerWritten(v)
  {
    WriteWinnerKeeps(g, s, t);
  }

  lemma WritesLoser(g: Curve, s: State, t: nat, v: VoteRow)
    requires Inv(g, s) && t < |s.txs| && s.txs[t].phase == WinnerWritten(v)
    ensures var after := Step(g, s, Advance(t));
            Inv(g, after) && after.db == s.db && t < |after.txs| && after.txs[t].phase == LoserWritten(v)
  {
    WriteLoserKeeps(g, s, t);
  }

  ghost predicate Done(g: Curve, s: State, db: Db, t: nat, v: VoteRow) {
    && t < |s.txs| && s.txs[t].phase == Committed(v)
    && Explained(g, db.films, v)
    && s.db == db.(films := Settle(g, db.films, v.winner, v.loser), votes := db.votes + [v])
  }

  lemma Commits(g: Curve, s: State, t: nat, v: VoteRow)
    requires Inv(g, s) && t < |s.txs| && s.txs[t].phase == LoserWritten(v)
    ensures Done(g, Step(g, s, Advance(t)), s.db, t, v)
  {
    CommitSettles(g, s, t);
  }

  lemma ThreeSteps(g: Curve, s: State, t: nat)
    ensures Solo(g, s, t, 3) == Step(g, Step(g, Step(g, s, Advance(t)), Advance(t)), Advance(t))
  {
    var s1 := Step(g, s, Advance(t));
    AloneConcat(g, s, t, 2);
    AloneConcat(g, s1, t, 1);
    AloneConcat(g, Step(g, s1, Advance(t)), t, 0);
    assert Alone(t, 0) == [];
  }

  lemma Finishes(g: Curve, s: State, db: Db, t: nat, v: VoteRow)
    requires Inv(g, s) && s.db == db && t < |s.txs| && s.txs[t].phase == Voted(v)
    ensures Done(g, Solo(g, s, t, 3), db, t, v)
  {
    WritesWinner(g, s, t, v);
    var s1 := Step(g, s, Advance(t));
    WritesLoser(g, s1, t, v);
    var s2 := Step(g, s1, Advance(t));
    Commits(g, s2, t, v);
    ThreeSteps(g, s, t);
  }

  // ---------- the call ----------

  lemma BeginsUnder(g: Curve, s: State, duel: int, winner: int)
    requires Inv(g, s)
    requires duel in s.db.duels ==> s.db.duels[duel].filmA !in s.locks && s.db.duels[duel].filmB !in s.locks
    ensures Under(g, Step(g, s, Begin(duel, winner)), s.db, s.nextSeq, |s.txs|, duel, winner)
  {
    BeginKeeps(g, s, duel, winner);
  }

  /** What the call has come to, in terms of the tables it met: refused without a trace, or
      one serial vote with all its effects. */
  ghost predicate Answered(g: Curve, db: Db, nextSeq: nat, duel: int, winner: int, done: State, t: nat)
    requires DuelsOk(db)
  {
    match Refusal(db, duel, winner)
    case Some(e) => Refused(done, db, t, e)
    case None => Done(g, done, db, t, SerialVote(g, db, nextSeq, duel, winner))
  }

  /** From any state in which the duel's films are not locked, a call by itself is refused
      exactly as `Refusal` says, leaving the tables alone, and otherwise commits exactly the
      serial vote. */
  lemma UncontendedCall(g: Curve, s: State, duel: int, winner: int)
    requires Inv(g, s)
    requires duel in s.db.duels ==> s.db.duels[duel].filmA !in s.locks && s.db.duels[duel].filmB !in s.locks
    ensures DuelsOk(s.db)
    ensures var begun := Step(g, s, Begin(duel, winner));
            Answered(g, s.db, s.nextSeq, duel, winner, Solo(g, begun, |s.txs|, 7), |s.txs|)
  {
    BeginsUnder(g, s, duel, winner);
    FromBegun(g, Step(g, s, Begin(duel, winner)), s.db, s.nextSeq, |s.txs|, duel, winner);
  }

  lemma FromBegun(g: Curve, s: State, db: Db, nextSeq: nat, t: nat, duel: int, winner: int)
    requires Under(g, s, db, nextSeq, t, duel, winner) && s.txs[t].phase.Begun?
    requires DuelsOk(db)
    ensures Answered(g, db, nextSeq, duel, winner, Solo(g, s, t, 7), t)
  {
    LocksBoth(g, s, db, nextSeq, t, duel, winner);
    if duel !in db.duels {
      AloneConcat(g, s, t, 6);
      FinishedRunsNothing(g, Step(g, s, Advance(t)), t, 6);
    } else {
      var locked := Step(g, Step(g, s, Advance(t)), Advance(t));
      FromBothLocked(g, locked, db, nextSeq, t, duel, winner);
      TwoThenFive(g, s, t);
    }
  }

  lemma TwoThenFive(g: Curve, s: State, t: nat)
    ensures Solo(g, s, t, 7) == Solo(g, Step(g, Step(g, s, Advance(t)), Advance(t)), t, 5)
  {
    AloneConcat(g, s, t, 6);
    AloneConcat(g, Step(g, s, Advance(t)), t, 5);
  }

  lemma FromBothLocked(g: Curve, s: State, db: Db, nextSeq: nat, t: nat, duel: int, winner: int)
    requires Under(g, s, db, nextSeq, t, duel, winner) && s.txs[t].phase.BothLocked? && duel in db.duels
    requires DuelsOk(db)
    ensures Answered(g, db, nextSeq, duel, winner, Solo(g, s, t, 5), t)
  {
    var rated := Step(g, s, Advance(t));
    AloneConcat(g, s, t, 4);
    Rates(g, s, db, nextSeq, t, duel, winner);
    if winner != db.duels[duel].filmA && winner != db.duels[duel].filmB {
      FinishedRunsNothing(g, rated, t, 4);
    } else {
      FromRated(g, rated, db, nextSeq, t, duel, winner);
    }
  }

  lemma FromRated(g: Curve, s: State, db: Db, nextSeq: nat, t: nat, duel: int, winner: int)
    requires Under(g, s, db, nextSeq, t, duel, winner) && s.txs[t].phase.Rated?
    requires DuelsOk(db)
    ensures Answered(g, db, nextSeq, duel, winner, Solo(g, s, t, 4), t)
  {
    var voted := Step(g, s, Advance(t));
    AloneConcat(g, s, t, 3);
    Inserts(g, s, db, nextSeq, t, duel, winner);
    if Refusal(db, duel, winner).Some? {
      FinishedRunsNothing(g, voted, t, 3);
    } else {
      Finishes(g, voted, db, t, SerialVote(g, db, nextSeq, duel, winner));
    }
  }

  // ---------- however many statements it is given ----------

  lemma AloneSplit(g: Curve, s: State, t: nat, a: nat, b: nat, n: nat)
    requires n == a + b
    ensures Solo(g, s, t, n) == Solo(g, Solo(g, s, t, a), t, b)
  {
    assert Alone(t, n) == Alone(t, a) + Alone(t, b);
    RunConcat(g, s, Alone(t, a), Alone(t, b));
  }

  lemma {:induction false} BlockedRunsNothing(g: Curve, s: State, t: nat, n: nat)
    requires t < |s.txs| && Blocked(s, t)
    ensures Solo(g, s, t, n) == s
  {
    if n > 0 {
      BlockedRunsNothing(g, s, t, n - 1);
      AloneSnoc(g, s, t, n - 1);
    }
  }

  lemma FinishedStaysAfter(g: Curve, s: State, t: nat, a: nat, b: nat)
    requires a <= b
    requires t < |Solo(g, s, t, a).txs| && Solo(g, s, t, a).txs[t].Finished()
    ensures Solo(g, s, t, b) == Solo(g, s, t, a)
  {
    AloneSplit(g, s, t, a, b - a, b);
    FinishedRunsNothing(g, Solo(g, s, t, a), t, b - a);
  }

  lemma BlockedStaysAfter(g: Curve, s: State, t: nat, a: nat, b: nat)
    requires a <= b
    requires t < |Solo(g, s, t, a).txs| && Blocked(Solo(g, s, t, a), t)
    ensures Solo(g, s, t, b) == Solo(g, s, t, a)
  {
    AloneSplit(g, s, t, a, b - a, b);
    BlockedRunsNothing(g, Solo(g, s, t, a), t, b - a);
  }

  /** Any number of statements that leave the call finished leave it as seven do. */
  lemma FinishedAsAfterSeven(g: Curve, s: State, t: nat, n: nat)
    requires t < |Solo(g, s, t, n).txs| && Solo(g, s, t, n).txs[t].Finished()
    requires t < |Solo(g, s, t, 7).txs| && Solo(g, s, t, 7).txs[t].Finished()
    ensures Solo(g, s, t, n) == Solo(g, s, t, 7)
  {
    if n <= 7 {
      FinishedStaysAfter(g, s, t, n, 7);
    } else {
      FinishedStaysAfter(g, s, t, 7, n);
    }
  }

  /** A call that seven statements finish is finished whenever it looks to be waiting. */
  lemma NeverWaits(g: Curve, s: State, t: nat, n: nat)
    requires t < |Solo(g, s, t, 7).txs| && Solo(g, s, t, 7).txs[t].Finished()
    requires t < |Solo(g, s, t, n).txs| && Blocked(Solo(g, s, t, n), t)
    ensures Solo(g, s, t, n).txs[t].Finished()
  {
    if n <= 7 {
      BlockedStaysAfter(g, s, t, n, 7);
    } else {
      FinishedStaysAfter(g, s, t, 7, n);
    }
  }
}
