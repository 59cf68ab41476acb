/** Every step of every transaction keeps the invariant, so it holds on every run. */
module Preservation {
  import opened Elo
  import opened Tables
  import opened History
  import opened Catalogue
  import opened Engine
  import opened Invariant

  lemma RollbackKeeps(g: Curve, s: State, t: nat, e: Error)
    requires Inv(g, s) && t < |s.txs|
    ensures Inv(g, Rollback(s, t, e))
  {
    var tx := s.txs[t].(phase := RolledBack(e), writes := map[]);
    LocksReleased(s, t, tx);
    LocalStep(g, s, t, tx, Rollback(s, t, e));
  }

  /** A film that an unblocked transaction wants and does not hold is free. */
  lemma WantedIsFree(s: State, t: nat, f: int)
    requires LocksOk(s) && t < |s.txs| && f !in Held(s.txs[t])
    requires f in s.locks ==> s.locks[f] == t
    ensures f !in s.locks
  {
  }

  lemma LockLowKeeps(g: Curve, s: State, t: nat)
    requires Inv(g, s) && Enabled(s, Advance(t)) && s.txs[t].phase.Begun?
    ensures Inv(g, LockLow(s, t))
  {
    var tx := s.txs[t];
    var after := LockLow(s, t);
    if after.txs[t].phase.RolledBack? {
      RollbackKeeps(g, s, t, NotEnoughFilms);
    } else {
      var f := Low(s.db.duels[tx.duel]);
      WantedIsFree(s, t, f);
      LocksAcquired(s, t, after.txs[t], f);
      assert TxOk(g, s.db, s.nextSeq, tx);
      LocalStep(g, s, t, after.txs[t], after);
    }
  }

  lemma LockHighKeeps(g: Curve, s: State, t: nat)
    requires Inv(g, s) && Enabled(s, Advance(t)) && s.txs[t].phase.LowLocked?
    ensures Inv(g, LockHigh(s, t))
  {
    var tx := s.txs[t];
    var after := LockHigh(s, t);
    assert TxOk(g, s.db, s.nextSeq, tx);
    if after.txs[t].phase.RolledBack? {
      RollbackKeeps(g, s, t, NotEnoughFilms);
    } else {
      var d := s.db.duels[tx.duel];
      assert Low(d) != High(d);
      WantedIsFree(s, t, High(d));
      LocksAcquired(s, t, after.txs[t], High(d));
      LocalStep(g, s, t, after.txs[t], after);
    }
  }

  lemma RateKeeps(g: Curve, s: State, t: nat)
    requires Inv(g, s) && t < |s.txs| && s.txs[t].phase.BothLocked?
    ensures Inv(g, Rate(g, s, t))
  {
    var tx := s.txs[t];
    assert TxOk(g, s.db, s.nextSeq, tx);
    if tx.winner == tx.phase.low.id {
      RatedKeeps(g, s, t, tx.phase.low, tx.phase.high);
    } else if tx.winner == tx.phase.high.id {
      RatedKeeps(g, s, t, tx.phase.high, tx.phase.low);
    } else {
      RollbackKeeps(g, s, t, FilmNotInDuel);
    }
  }

  lemma RatedKeeps(g: Curve, s: State, t: nat, winner: FilmRating, loser: FilmRating)
    requires Inv(g, s) && t < |s.txs| && Held(s.txs[t]) == {winner.id, loser.id}
    requires ReadOk(s.db, winner) && ReadOk(s.db, loser)
    requires s.txs[t].duel in s.db.duels && IsPair(s.db.duels[s.txs[t].duel], winner.id, loser.id)
    requires s.txs[t].winner == winner.id && s.txs[t].writes == map[]
    ensures Inv(g, SetTx(s, t, s.txs[t].(phase := Rated(DraftVote(g, s.txs[t].duel, winner, loser)))))
  {
    var draft := DraftVote(g, s.txs[t].duel, winner, loser);
    var tx := s.txs[t].(phase := Rated(draft));
    RatedDraftOk(g, s.db, s.txs[t], winner, loser);
    assert Held(tx) == Held(s.txs[t]);
    LocalStep(g, s, t, tx, SetTx(s, t, tx));
  }

  lemma RatedDraftOk(g: Curve, db: Db, tx: Tx, winner: FilmRating, loser: FilmRating)
    requires DuelsOk(db) && tx.duel in db.duels && IsPair(db.duels[tx.duel], winner.id, loser.id)
    requires ReadOk(db, winner) && ReadOk(db, loser) && tx.winner == winner.id
    ensures DraftOk(g, db, tx, DraftVote(g, tx.duel, winner, loser))
  {
  }

  lemma InsertVoteKeeps(g: Curve, s: State, t: nat)
    requires Inv(g, s) && t < |s.txs| && s.txs[t].phase.Rated?
    ensures Inv(g, InsertVote(s, t))
  {
    if InsertError(s, s.txs[t], s.txs[t].phase.draft).Some? {
      RefusedVoteKeeps(g, s, t);
    } else {
      VotedKeeps(g, s, t);
    }
  }

  lemma RefusedVoteKeeps(g: Curve, s: State, t: nat)
    requires Inv(g, s) && t < |s.txs| && s.txs[t].phase.Rated?
    requires InsertError(s, s.txs[t], s.txs[t].phase.draft).Some?
    ensures Inv(g, InsertVote(s, t))
  {
    BurnKeeps(g, s);
    RollbackKeeps(g, Step(g, s, BurnSeq), t, InsertError(s, s.txs[t], s.txs[t].phase.draft).value);
  }

  lemma VotedKeeps(g: Curve, s: State, t: nat)
    requires Inv(g, s) && t < |s.txs| && s.txs[t].phase.Rated?
    requires InsertError(s, s.txs[t], s.txs[t].phase.draft).None?
    ensures Inv(g, InsertVote(s, t))
  {
    var after := InsertVote(s, t);
    var tx := after.txs[t];
    VotedState(s, t);
    VotedTxOk(g, s, t);
    LocksUntouched(s, t, tx, after);
    LocalStep(g, s, t, tx, after);
  }

  lemma VotedState(s: State, t: nat)
    requires t < |s.txs| && s.txs[t].phase.Rated?
    requires InsertError(s, s.txs[t], s.txs[t].phase.draft).None?
    ensures var after := InsertVote(s, t);
            && after.db == s.db && after.born == s.born && after.locks == s.locks
            && after.nextSeq == s.nextSeq + 1
            && |after.txs| == |s.txs| && after.txs == s.txs[t := after.txs[t]]
            && Held(after.txs[t]) == Held(s.txs[t])
            && Pending(after.txs[t]) == Some(s.txs[t].phase.draft.Numbered(s.nextSeq))
  {
  }

  lemma VotedTxOk(g: Curve, s: State, t: nat)
    requires Inv(g, s) && t < |s.txs| && s.txs[t].phase.Rated?
    requires InsertError(s, s.txs[t], s.txs[t].phase.draft).None?
    ensures TxOk(g, s.db, s.nextSeq + 1, InsertVote(s, t).txs[t])
  {
    var tx := s.txs[t];
    var d := tx.phase.draft;
    assert TxOk(g, s.db, s.nextSeq, tx);
    var v := d.Numbered(s.nextSeq);
    assert DraftOf(v) == d;
    assert InsertVote(s, t).txs[t].writes == Counted(s.db.films, v);
  }

  lemma WriteWinnerKeeps(g: Curve, s: State, t: nat)
    requires Inv(g, s) && t < |s.txs| && s.txs[t].phase.Voted?
    ensures Inv(g, AdvanceTx(g, s, t)) && AdvanceTx(g, s, t).txs[t].phase.WinnerWritten?
  {
    var tx := s.txs[t];
    var v := tx.phase.vote;
    var after := AdvanceTx(g, s, t);
    assert TxOk(g, s.db, s.nextSeq, tx);
    assert after.txs[t].writes == Counted(s.db.films, v)[v.winner := WinnerRow(s.db.films, v)];
    assert Held(after.txs[t]) == Held(tx);
    LocalStep(g, s, t, after.txs[t], after);
  }

  lemma BothRowsWritten(films: Films, v: VoteRow, writes: Films)
    requires v.winner in films && v.loser in films && v.winner != v.loser
    requires writes == Counted(films, v)[v.winner := WinnerRow(films, v)]
    ensures v.loser in writes
    ensures writes[v.loser := writes[v.loser].(rating := v.loserAfter)]
            == map[v.winner := WinnerRow(films, v), v.loser := LoserRow(films, v)]
  {
  }

  lemma WriteLoserKeeps(g: Curve, s: State, t: nat)
    requires Inv(g, s) && t < |s.txs| && s.txs[t].phase.WinnerWritten?
    ensures Inv(g, AdvanceTx(g, s, t)) && AdvanceTx(g, s, t).txs[t].phase.LoserWritten?
  {
    var tx := s.txs[t];
    var v := tx.phase.vote;
    var after := AdvanceTx(g, s, t);
    assert TxOk(g, s.db, s.nextSeq, tx);
    BothRowsWritten(s.db.films, v, tx.writes);
    assert Held(after.txs[t]) == Held(tx);
    LocalStep(g, s, t, after.txs[t], after);
  }

  // ---------- commit ----------

  /** The committed vote and films are those of one serial vote on the committed table. */
  lemma CommitSettles(g: Curve, s: State, t: nat)
    requires Inv(g, s) && t < |s.txs| && s.txs[t].phase.LoserWritten?
    ensures var v := s.txs[t].phase.vote;
            && Explained(g, s.db.films, v)
            && Commit(s, t).db == s.db.(films := Settle(g, s.db.films, v.winner, v.loser), votes := s.db.votes + [v])
  {
    var v := s.txs[t].phase.vote;
    assert TxOk(g, s.db, s.nextSeq, s.txs[t]);
    assert Explained(g, s.db.films, DraftOf(v).Numbered(0));
    assert s.db.films + s.txs[t].writes == Settle(g, s.db.films, v.winner, v.loser);
  }

  lemma CommitKeepsReplay(g: Curve, s: State, t: nat)
    requires Inv(g, s) && t < |s.txs| && s.txs[t].phase.LoserWritten?
    ensures Replay(g, s.born, Commit(s, t).db.votes) == Some(Commit(s, t).db.films)
    ensures Commit(s, t).db.films.Keys == s.born.Keys
  {
    var v := s.txs[t].phase.vote;
    CommitSettles(g, s, t);
    ReplaySnoc(g, s.born, s.db.votes, v);
    SettlePerFilm(g, s.db.films, v, 0);
  }

  lemma CommitKeepsOrder(g: Curve, s: State, t: nat)
    requires Inv(g, s) && t < |s.txs| && s.txs[t].phase.LoserWritten?
    ensures ConflictsOrdered(Commit(s, t).db.votes) && Distinct(Commit(s, t).db.votes)
    ensures forall v :: v in Commit(s, t).db.votes ==> v.appliedSeq < s.nextSeq
  {
    var v := s.txs[t].phase.vote;
    assert TxOk(g, s.db, s.nextSeq, s.txs[t]);
    assert Pending(s.txs[t]) == Some(v);
    var votes := s.db.votes + [v];
    forall i | 0 <= i < |s.db.votes|
      ensures votes[i].duel != v.duel && votes[i].appliedSeq != v.appliedSeq
      ensures votes[i].Shares(v) ==> votes[i].appliedSeq < v.appliedSeq
    {
      assert votes[i] in s.db.votes;
    }
  }

  lemma CommitKeepsNumbers(g: Curve, s: State, t: nat)
    requires Inv(g, s) && t < |s.txs| && s.txs[t].phase.LoserWritten?
    ensures NumbersFresh(Commit(s, t))
  {
    var v := s.txs[t].phase.vote;
    assert Pending(s.txs[t]) == Some(v);
    var after := Commit(s, t);
    forall u, w | 0 <= u < |after.txs| && Pending(after.txs[u]).Some? && w in after.db.votes
      ensures w.appliedSeq != Pending(after.txs[u]).value.appliedSeq
    {
      assert u != t;
      if w !in s.db.votes { assert w == v; }
    }
  }

  /** A transaction holding any lock holds that of its duel's lower film. */
  lemma HoldsLow(g: Curve, db: Db, nextSeq: nat, tx: Tx)
    requires TxOk(g, db, nextSeq, tx) && Held(tx) != {}
    ensures tx.duel in db.duels && Low(db.duels[tx.duel]) in Held(tx)
  {
  }

  /** No two transactions holding locks vote on the same duel. */
  lemma OtherDuel(g: Curve, s: State, t: nat, u: nat)
    requires Inv(g, s) && t < |s.txs| && u < |s.txs| && t != u
    requires Held(s.txs[t]) != {} && Held(s.txs[u]) != {}
    ensures s.txs[u].duel != s.txs[t].duel
  {
    HeldDisjoint(s, t, u);
    HoldsLow(g, s.db, s.nextSeq, s.txs[t]);
    HoldsLow(g, s.db, s.nextSeq, s.txs[u]);
  }

  lemma CommitKeepsOther(g: Curve, s: State, t: nat, u: nat)
    requires Inv(g, s) && t < |s.txs| && s.txs[t].phase.LoserWritten? && u < |s.txs| && u != t
    ensures TxOk(g, Commit(s, t).db, s.nextSeq, s.txs[u])
  {
    var v := s.txs[t].phase.vote;
    assert TxOk(g, s.db, s.nextSeq, s.txs[t]);
    assert TxOk(g, s.db, s.nextSeq, s.txs[u]);
    HeldDisjoint(s, t, u);
    assert v.winner in Held(s.txs[t]) && v.loser in Held(s.txs[t]);
    if Held(s.txs[u]) != {} {
      OtherDuel(g, s, t, u);
      TxFrame(g, s.db, s.nextSeq, Commit(s, t).db, s.nextSeq, s.txs[u]);
    } else {
      IdleFrame(g, s.db, s.nextSeq, Commit(s, t).db, s.nextSeq, s.txs[u]);
    }
  }

  lemma CommitKeepsTxs(g: Curve, s: State, t: nat)
    requires Inv(g, s) && t < |s.txs| && s.txs[t].phase.LoserWritten?
    ensures TxsOk(g, Commit(s, t))
  {
    var after := Commit(s, t);
    assert TxOk(g, s.db, s.nextSeq, s.txs[t]);
    forall u | 0 <= u < |after.txs| ensures TxOk(g, after.db, after.nextSeq, after.txs[u]) {
      if u != t {
        CommitKeepsOther(g, s, t, u);
      }
    }
  }

  lemma IdlePhases(tx: Tx)
    ensures Held(tx) == {} ==> tx.phase.Begun? || tx.Finished()
  {
    match tx.phase
    case LowLocked(low) => assert low.id in Held(tx);
    case BothLocked(low, _) => assert low.id in Held(tx);
    case Rated(d) => assert d.winner in Held(tx);
    case Voted(v) => assert v.winner in Held(tx);
    case WinnerWritten(v) => assert v.winner in Held(tx);
    case LoserWritten(v) => assert v.winner in Held(tx);
    case _ =>
  }

  /** A transaction that holds nothing has no stake in the tables, except its own vote. */
  lemma IdleFrame(g: Curve, db: Db, nextSeq: nat, after: Db, nextSeq': nat, tx: Tx)
    requires TxOk(g, db, nextSeq, tx) && Held(tx) == {}
    requires forall v :: v in db.votes ==> v in after.votes
    ensures TxOk(g, after, nextSeq', tx)
  {
    IdlePhases(tx);
  }

  lemma CommitKeepsTables(g: Curve, s: State, t: nat)
    requires Inv(g, s) && t < |s.txs| && s.txs[t].phase.LoserWritten?
    ensures FilmsOk(Commit(s, t).db) && DuelsOk(Commit(s, t).db) && VotesOk(Commit(s, t).db)
  {
    var v := s.txs[t].phase.vote;
    assert TxOk(g, s.db, s.nextSeq, s.txs[t]);
    CommitSettles(g, s, t);
    var after := Commit(s, t).db;
    forall id | id in after.films
      ensures id in s.db.films && 0 <= after.films[id].duelCount <= MAX_INT32
      ensures after.films[id].popularity == s.db.films[id].popularity
      ensures after.films[id].director == s.db.films[id].director
    {
      SettlePerFilm(g, s.db.films, v, id);
    }
  }

  lemma CommitKeepsLocks(s: State, t: nat)
    requires LocksOk(s) && t < |s.txs| && s.txs[t].phase.LoserWritten?
    ensures LocksOk(Commit(s, t))
  {
    LocksReleased(s, t, Commit(s, t).txs[t]);
  }

  lemma CommitKeeps(g: Curve, s: State, t: nat)
    requires Inv(g, s) && t < |s.txs| && s.txs[t].phase.LoserWritten?
    ensures Inv(g, Commit(s, t))
  {
    CommitKeepsTables(g, s, t);
    CommitKeepsReplay(g, s, t);
    CommitKeepsOrder(g, s, t);
    CommitKeepsNumbers(g, s, t);
    CommitKeepsTxs(g, s, t);
    CommitKeepsLocks(s, t);
  }

  // ---------- the other writers ----------

  /** Replaying on a larger catalogue gives the same outcome with the extra films as they were. */
  lemma {:induction false} ReplayExtend(g: Curve, films: Films, extra: Films, votes: seq<VoteRow>)
    requires films.Keys !! extra.Keys && Replay(g, films, votes).Some?
    ensures Replay(g, films + extra, votes) == Some(Replay(g, films, votes).value + extra)
    decreases |votes|
  {
    if votes != [] {
      var n := |votes| - 1;
      var before, v := votes[..n], votes[n];
      assert votes == before + [v];
      ReplaySnoc(g, films, before, v);
      ReplaySnoc(g, films + extra, before, v);
      ReplayPerFilm(g, films, before, 0);
      ReplayExtend(g, films, extra, before);
      SettleExtend(g, Replay(g, films, before).value, extra, v);
    }
  }

  lemma SettleExtend(g: Curve, films: Films, extra: Films, v: VoteRow)
    requires films.Keys !! extra.Keys && Explained(g, films, v)
    ensures Explained(g, films + extra, v)
    ensures Settle(g, films + extra, v.winner, v.loser) == Settle(g, films, v.winner, v.loser) + extra
  {
  }

  lemma AddedFilms(films: Films, born: Films, after: Films) returns (extra: Films)
    requires born.Keys == films.Keys && films.Keys <= after.Keys
    requires forall f :: f in films ==> after[f] == films[f]
    ensures extra.Keys !! films.Keys
    ensures after == films + extra
    ensures after + born == born + extra
    ensures forall f :: f in extra ==> f in after && f !in films && extra[f] == after[f]
  {
    extra := map f | f in after && f !in films :: after[f];
    assert (films + extra).Keys == after.Keys;
    assert forall f :: f in after ==> (films + extra)[f] == after[f];
  }

  lemma BatchExtends(g: Curve, s: State, ps: seq<FilmParams>) returns (extra: Films)
    requires Inv(g, s) && Enabled(s, InsertFilms(ps))
    ensures var after := Step(g, s, InsertFilms(ps));
            && extra.Keys !! s.db.films.Keys
            && after.born == s.born + extra
            && after.db.films == s.db.films + extra
            && after.db.votes == s.db.votes
            && after.nextSeq == s.nextSeq
    ensures forall f :: f in extra ==> extra[f].duelCount == 0
  {
    BatchInsertsAbsent(s.db, ps);
    BatchRowsOk(s.db, ps);
    extra := AddedFilms(s.db.films, s.born, RunBatch(s.db, ps).db.films);
  }

  lemma InsertFilmsKeepsHistory(g: Curve, s: State, ps: seq<FilmParams>)
    requires Inv(g, s) && Enabled(s, InsertFilms(ps))
    ensures HistoryOk(g, Step(g, s, InsertFilms(ps)))
  {
    var extra := BatchExtends(g, s, ps);
    ReplayExtend(g, s.born, extra, s.db.votes);
  }

  lemma InsertFilmsKeepsTxs(g: Curve, s: State, ps: seq<FilmParams>)
    requires TxsOk(g, s) && Enabled(s, InsertFilms(ps))
    ensures TxsOk(g, Step(g, s, InsertFilms(ps)))
  {
    var after := Step(g, s, InsertFilms(ps));
    BatchInsertsAbsent(s.db, ps);
    forall t | 0 <= t < |after.txs| ensures TxOk(g, after.db, after.nextSeq, after.txs[t]) {
      TxFrame(g, s.db, s.nextSeq, after.db, after.nextSeq, s.txs[t]);
    }
  }

  lemma InsertFilmsKeepsTables(g: Curve, s: State, ps: seq<FilmParams>)
    requires FilmsOk(s.db) && DuelsOk(s.db) && VotesOk(s.db) && Enabled(s, InsertFilms(ps))
    ensures var after := Step(g, s, InsertFilms(ps)).db;
            FilmsOk(after) && DuelsOk(after) && VotesOk(after) && after.votes == s.db.votes
  {
    BatchInsertsAbsent(s.db, ps);
    BatchRowsOk(s.db, ps);
  }

  lemma InsertFilmsKeepsOthers(g: Curve, s: State, ps: seq<FilmParams>)
    requires LocksOk(s) && NumbersFresh(s) && Enabled(s, InsertFilms(ps))
    requires Step(g, s, InsertFilms(ps)).db.votes == s.db.votes
    ensures LocksOk(Step(g, s, InsertFilms(ps))) && NumbersFresh(Step(g, s, InsertFilms(ps)))
  {
  }

  lemma InsertFilmsKeeps(g: Curve, s: State, ps: seq<FilmParams>)
    requires Inv(g, s) && Enabled(s, InsertFilms(ps))
    ensures Inv(g, Step(g, s, InsertFilms(ps)))
  {
    InsertFilmsKeepsTables(g, s, ps);
    InsertFilmsKeepsOthers(g, s, ps);
    InsertFilmsKeepsHistory(g, s, ps);
    InsertFilmsKeepsTxs(g, s, ps);
  }

  /** The films a batch adds satisfy the column constraints and start without duels. */
  lemma BatchRowsOk(db: Db, ps: seq<FilmParams>)
    requires FilmsOk(db) && RunBatch(db, ps).err.None?
    ensures FilmsOk(RunBatch(db, ps).db)
    ensures forall f :: f in RunBatch(db, ps).db.films && f !in db.films ==>
              RunBatch(db, ps).db.films[f].duelCount == 0
  {
    BatchInsertsAbsent(db, ps);
    BatchFailsIffInvalid(db, ps);
    var after := RunBatch(db, ps).db;
    forall f | f in after.films && f !in db.films
      ensures after.films[f].duelCount == 0 && after.films[f].popularity >= 0.0
              && after.films[f].director in after.directors && -0x8000_0000 <= f <= MAX_INT32
    {
      FirstRowOk(ps, f);
    }
  }

  lemma {:induction false} FirstRowOk(ps: seq<FilmParams>, id: int)
    requires FirstRow(ps, id).Some? && AllValid(ps)
    ensures var row := FirstRow(ps, id).value;
            row.duelCount == 0 && row.popularity >= 0.0 && row.director in DirectorIds(ps)
    ensures -0x8000_0000 <= id <= MAX_INT32
    decreases |ps|
  {
    assert ps[0] in ps;
    if ps[0].id != id {
      FirstRowOk(ps[1..], id);
    }
  }

  lemma CreateDuelKeeps(g: Curve, s: State, id: int, a: int, b: int)
    requires Inv(g, s) && Enabled(s, CreateDuel(id, a, b))
    ensures Inv(g, Step(g, s, CreateDuel(id, a, b)))
  {
    var after := Step(g, s, CreateDuel(id, a, b));
    forall t | 0 <= t < |after.txs| ensures TxOk(g, after.db, after.nextSeq, after.txs[t]) {
      TxFrame(g, s.db, s.nextSeq, after.db, after.nextSeq, s.txs[t]);
    }
  }

  lemma BeginKeepsTxs(g: Curve, s: State, duel: int, winner: int)
    requires TxsOk(g, s)
    ensures TxsOk(g, Step(g, s, Begin(duel, winner)))
  {
    var after := Step(g, s, Begin(duel, winner));
    forall t | 0 <= t < |after.txs| ensures TxOk(g, after.db, after.nextSeq, after.txs[t]) {
      if t < |s.txs| { assert TxOk(g, s.db, s.nextSeq, s.txs[t]); }
    }
  }

  lemma BeginKeepsLocks(g: Curve, s: State, duel: int, winner: int)
    requires LocksOk(s)
    ensures LocksOk(Step(g, s, Begin(duel, winner)))
  {
    var after := Step(g, s, Begin(duel, winner));
    assert forall t :: 0 <= t < |s.txs| ==> after.txs[t] == s.txs[t];
    assert Held(after.txs[|s.txs|]) == {};
  }

  lemma BeginKeepsNumbers(g: Curve, s: State, duel: int, winner: int)
    requires NumbersFresh(s)
    ensures NumbersFresh(Step(g, s, Begin(duel, winner)))
  {
    var after := Step(g, s, Begin(duel, winner));
    forall t | 0 <= t < |after.txs| && Pending(after.txs[t]).Some? ensures t < |s.txs| && after.txs[t] == s.txs[t] {
    }
  }

  lemma BeginKeeps(g: Curve, s: State, duel: int, winner: int)
    requires Inv(g, s)
    ensures Inv(g, Step(g, s, Begin(duel, winner)))
  {
    BeginKeepsTxs(g, s, duel, winner);
    BeginKeepsLocks(g, s, duel, winner);
    BeginKeepsNumbers(g, s, duel, winner);
  }

  lemma BurnKeeps(g: Curve, s: State)
    requires Inv(g, s)
    ensures Inv(g, Step(g, s, BurnSeq))
  {
    var after := Step(g, s, BurnSeq);
    forall t | 0 <= t < |after.txs| ensures TxOk(g, after.db, after.nextSeq, after.txs[t]) {
      TxFrame(g, s.db, s.nextSeq, after.db, after.nextSeq, s.txs[t]);
    }
  }

  // ---------- all steps, all runs ----------

  lemma AdvanceKeeps(g: Curve, s: State, t: nat)
    requires Inv(g, s) && Enabled(s, Advance(t))
    ensures Inv(g, AdvanceTx(g, s, t))
  {
    match s.txs[t].phase
    case Begun => LockLowKeeps(g, s, t);
    case LowLocked(_) => LockHighKeeps(g, s, t);
    case BothLocked(_, _) => RateKeeps(g, s, t);
    case Rated(_) => InsertVoteKeeps(g, s, t);
    case Voted(_) => WriteWinnerKeeps(g, s, t);
    case WinnerWritten(_) => WriteLoserKeeps(g, s, t);
    case LoserWritten(_) => CommitKeeps(g, s, t);
  }

  lemma StepKeeps(g: Curve, s: State, e: Event)
    requires Inv(g, s)
    ensures Inv(g, Step(g, s, e))
  {
    if Enabled(s, e) {
      match e
      case Begin(d, w) => BeginKeeps(g, s, d, w);
      case Advance(t) => AdvanceKeeps(g, s, t);
      case Abort(t) => RollbackKeeps(g, s, t, DatabaseFailure);
      case CreateDuel(id, a, b) => CreateDuelKeeps(g, s, id, a, b);
      case InsertFilms(ps) => InsertFilmsKeeps(g, s, ps);
      case BurnSeq => BurnKeeps(g, s);
    }
  }

  lemma {:induction false} RunKeeps(g: Curve, s: State, es: seq<Event>)
    requires Inv(g, s)
    ensures Inv(g, Run(g, s, es))
    decreases |es|
  {
    if es != [] {
      RunKeeps(g, s, es[..|es| - 1]);
      StepKeeps(g, Run(g, s, es[..|es| - 1]), es[|es| - 1]);
    }
  }

  /** The invariant holds in every state that any schedule reaches from the empty database. */
  lemma ReachableInv(g: Curve, es: seq<Event>)
    ensures Inv(g, Run(g, EMPTY, es))
  {
    EmptyInv(g);
    RunKeeps(g, EMPTY, es);
  }
}
