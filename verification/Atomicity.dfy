/** A transaction that does not commit leaves no trace, and one that commits publishes
    everything it did in one step. */
module Atomicity {
  import opened Elo
  import opened History
  import opened Catalogue
  import opened Engine
  import opened Invariant
  import opened Preservation

  /** The state as it would be had transaction t executed nothing after its BEGIN. */
  function Erased(s: State, t: nat): State
    requires t < |s.txs|
  {
    s.(txs := s.txs[t := s.txs[t].(phase := Begun, writes := map[])], locks := Release(s.locks, t))
  }

  /** What is left of an event when t's statements are taken out: only the sequence number
      its INSERT drew. */
  function EraseEvent(s: State, t: nat, e: Event): seq<Event>
    requires t < |s.txs|
  {
    if e == Abort(t) then []
    else if e == Advance(t) then if s.txs[t].phase.Rated? then [BurnSeq] else []
    else [e]
  }

  /** The run with every statement of t taken out. */
  function Erase(g: Curve, s: State, t: nat, es: seq<Event>): seq<Event>
    requires t < |s.txs|
    decreases |es|
  {
    if es == [] then []
    else
      TxsGrow(g, s, es[..|es| - 1]);
      Erase(g, s, t, es[..|es| - 1]) + EraseEvent(Run(g, s, es[..|es| - 1]), t, es[|es| - 1])
  }

  lemma {:induction false} TxsGrow(g: Curve, s: State, es: seq<Event>)
    ensures |s.txs| <= |Run(g, s, es).txs|
    decreases |es|
  {
    if es != [] {
      TxsGrow(g, s, es[..|es| - 1]);
    }
  }

  lemma FinishedStays(g: Curve, s: State, t: nat, e: Event)
    requires t < |s.txs| && s.txs[t].Finished()
    ensures t < |Step(g, s, e).txs| && Step(g, s, e).txs[t] == s.txs[t]
  {
  }

  lemma ReleaseCommutes(locks: map<int, nat>, t: nat, u: nat)
    ensures Release(Release(locks, t), u) == Release(Release(locks, u), t)
  {
  }

  // ---------- t's own statements ----------

  lemma ErasedOwnTx(s: State, t: nat, tx: Tx)
    requires t < |s.txs| && tx.duel == s.txs[t].duel && tx.winner == s.txs[t].winner
    ensures Erased(SetTx(s, t, tx), t) == Erased(s, t)
  {
    assert Erased(SetTx(s, t, tx), t).txs == Erased(s, t).txs;
  }

  lemma ErasedOwnLock(locks: map<int, nat>, t: nat, f: int)
    requires f in locks ==> locks[f] == t
    ensures Release(locks[f := t], t) == Release(locks, t)
  {
  }

  lemma ErasedOwnRollback(s: State, t: nat, e: Error)
    requires t < |s.txs|
    ensures Erased(Rollback(s, t, e), t) == Erased(s, t)
  {
    assert Release(Release(s.locks, t), t) == Release(s.locks, t);
    assert Erased(Rollback(s, t, e), t).txs == Erased(s, t).txs;
  }

  lemma OwnLockLow(s: State, t: nat)
    requires t < |s.txs| && !Blocked(s, t) && s.txs[t].phase.Begun?
    ensures Erased(LockLow(s, t), t) == Erased(s, t)
  {
    var after := LockLow(s, t);
    if after.txs[t].phase.RolledBack? {
      ErasedOwnRollback(s, t, NotEnoughFilms);
    } else {
      ErasedOwnTx(s, t, after.txs[t]);
      ErasedOwnLock(s.locks, t, Low(s.db.duels[s.txs[t].duel]));
    }
  }

  lemma OwnLockHigh(s: State, t: nat)
    requires t < |s.txs| && !Blocked(s, t) && s.txs[t].phase.LowLocked?
    ensures Erased(LockHigh(s, t), t) == Erased(s, t)
  {
    var after := LockHigh(s, t);
    if after.txs[t].phase.RolledBack? {
      ErasedOwnRollback(s, t, NotEnoughFilms);
    } else {
      ErasedOwnTx(s, t, after.txs[t]);
      ErasedOwnLock(s.locks, t, High(s.db.duels[s.txs[t].duel]));
    }
  }

  lemma OwnRate(g: Curve, s: State, t: nat)
    requires t < |s.txs| && s.txs[t].phase.BothLocked?
    ensures Erased(Rate(g, s, t), t) == Erased(s, t)
  {
    var after := Rate(g, s, t);
    if after.txs[t].phase.RolledBack? {
      ErasedOwnRollback(s, t, FilmNotInDuel);
    } else {
      ErasedOwnTx(s, t, after.txs[t]);
    }
  }

  lemma OwnInsertVote(s: State, t: nat)
    requires t < |s.txs| && s.txs[t].phase.Rated?
    ensures Erased(InsertVote(s, t), t) == Erased(s, t).(nextSeq := s.nextSeq + 1)
  {
    var drawn := s.(nextSeq := s.nextSeq + 1);
    var err := InsertError(s, s.txs[t], s.txs[t].phase.draft);
    if err.Some? {
      ErasedOwnRollback(drawn, t, err.value);
    } else {
      ErasedOwnTx(drawn, t, InsertVote(s, t).txs[t]);
    }
  }

  lemma OwnWriteRating(s: State, t: nat, id: int, rating: real, next: Phase)
    requires t < |s.txs|
    ensures Erased(WriteRating(s, t, id, rating, next), t) == Erased(s, t)
  {
    if Visible(s, s.txs[t], id) {
      ErasedOwnTx(s, t, WriteRating(s, t, id, rating, next).txs[t]);
    } else {
      ErasedOwnRollback(s, t, FilmNotFound);
    }
  }

  /** t's own statements, short of COMMIT, touch nothing that survives erasing t but the
      sequence. */
  lemma OwnStepErased(g: Curve, s: State, t: nat, e: Event)
    requires t < |s.txs| && Enabled(s, e) && (e == Advance(t) || e == Abort(t))
    requires !Step(g, s, e).txs[t].phase.Committed?
    ensures var s' := Step(g, s, e);
            Erased(s', t) == if EraseEvent(s, t, e) == [] then Erased(s, t) else Step(g, Erased(s, t), BurnSeq)
  {
    if e == Abort(t) {
      ErasedOwnRollback(s, t, DatabaseFailure);
    } else {
      match s.txs[t].phase
      case Begun => OwnLockLow(s, t);
      case LowLocked(_) => OwnLockHigh(s, t);
      case BothLocked(_, _) => OwnRate(g, s, t);
      case Rated(_) => OwnInsertVote(s, t);
      case Voted(v) => OwnWriteRating(s, t, v.winner, v.winnerAfter, WinnerWritten(v));
      case WinnerWritten(v) => OwnWriteRating(s, t, v.loser, v.loserAfter, LoserWritten(v));
      case LoserWritten(_) =>
    }
  }

  // ---------- the statements of others ----------

  lemma ErasedOtherTx(s: State, t: nat, u: nat, tx: Tx)
    requires t < |s.txs| && u < |s.txs| && u != t
    ensures Erased(SetTx(s, u, tx), t) == SetTx(Erased(s, t), u, tx)
  {
    assert Erased(SetTx(s, u, tx), t).txs == SetTx(Erased(s, t), u, tx).txs;
  }

  lemma ErasedOtherLock(locks: map<int, nat>, t: nat, u: nat, f: int)
    requires u != t
    requires f in locks ==> locks[f] == u || locks[f] == t
    ensures Release(locks[f := u], t) == Release(locks, t)[f := u]
  {
  }

  lemma ErasedOtherRollback(s: State, t: nat, u: nat, e: Error)
    requires t < |s.txs| && u < |s.txs| && u != t
    ensures Erased(Rollback(s, u, e), t) == Rollback(Erased(s, t), u, e)
  {
    ErasedOtherTx(s, t, u, s.txs[u].(phase := RolledBack(e), writes := map[]));
    ReleaseCommutes(s.locks, t, u);
  }

  lemma OtherLockLow(s: State, t: nat, u: nat)
    requires t < |s.txs| && u < |s.txs| && u != t && !Blocked(s, u) && s.txs[u].phase.Begun?
    ensures Erased(LockLow(s, u), t) == LockLow(Erased(s, t), u)
  {
    var after := LockLow(s, u);
    if after.txs[u].phase.RolledBack? {
      ErasedOtherRollback(s, t, u, NotEnoughFilms);
    } else {
      ErasedOtherTx(s, t, u, after.txs[u]);
      ErasedOtherLock(s.locks, t, u, Low(s.db.duels[s.txs[u].duel]));
    }
  }

  lemma OtherLockHigh(s: State, t: nat, u: nat)
    requires t < |s.txs| && u < |s.txs| && u != t && !Blocked(s, u) && s.txs[u].phase.LowLocked?
    ensures Erased(LockHigh(s, u), t) == LockHigh(Erased(s, t), u)
  {
    var after := LockHigh(s, u);
    if after.txs[u].phase.RolledBack? {
      ErasedOtherRollback(s, t, u, NotEnoughFilms);
    } else {
      ErasedOtherTx(s, t, u, after.txs[u]);
      ErasedOtherLock(s.locks, t, u, High(s.db.duels[s.txs[u].duel]));
    }
  }

  lemma OtherRate(g: Curve, s: State, t: nat, u: nat)
    requires t < |s.txs| && u < |s.txs| && u != t && s.txs[u].phase.BothLocked?
    ensures Erased(Rate(g, s, u), t) == Rate(g, Erased(s, t), u)
  {
    ErasedOtherTx(s, t, u, Rate(g, s, u).txs[u]);
    ErasedOtherRollback(s, t, u, FilmNotInDuel);
  }

  lemma OtherInsertVote(s: State, t: nat, u: nat)
    requires t < |s.txs| && u < |s.txs| && u != t && s.txs[u].phase.Rated?
    ensures Erased(InsertVote(s, u), t) == InsertVote(Erased(s, t), u)
  {
    var drawn := s.(nextSeq := s.nextSeq + 1);
    var err := InsertError(s, s.txs[u], s.txs[u].phase.draft);
    if err.Some? {
      ErasedOtherRollback(drawn, t, u, err.value);
    } else {
      ErasedOtherTx(drawn, t, u, InsertVote(s, u).txs[u]);
    }
  }

  lemma OtherWriteRating(s: State, t: nat, u: nat, id: int, rating: real, next: Phase)
    requires t < |s.txs| && u < |s.txs| && u != t
    ensures Erased(WriteRating(s, u, id, rating, next), t) == WriteRating(Erased(s, t), u, id, rating, next)
  {
    ErasedOtherTx(s, t, u, WriteRating(s, u, id, rating, next).txs[u]);
    ErasedOtherRollback(s, t, u, FilmNotFound);
  }

  lemma OtherCommit(s: State, t: nat, u: nat)
    requires t < |s.txs| && u < |s.txs| && u != t && s.txs[u].phase.LoserWritten?
    ensures Erased(Commit(s, u), t) == Commit(Erased(s, t), u)
  {
    ErasedOtherTx(s, t, u, Commit(s, u).txs[u]);
    ReleaseCommutes(s.locks, t, u);
  }

  /** A statement of another transaction is enabled without t, and does the same. */
  lemma OtherTxStepErased(g: Curve, s: State, t: nat, u: nat)
    requires t < |s.txs| && u != t && Enabled(s, Advance(u))
    ensures Enabled(Erased(s, t), Advance(u))
    ensures Erased(Step(g, s, Advance(u)), t) == Step(g, Erased(s, t), Advance(u))
  {
    match s.txs[u].phase
    case Begun => OtherLockLow(s, t, u);
    case LowLocked(_) => OtherLockHigh(s, t, u);
    case BothLocked(_, _) => OtherRate(g, s, t, u);
    case Rated(_) => OtherInsertVote(s, t, u);
    case Voted(v) => OtherWriteRating(s, t, u, v.winner, v.winnerAfter, WinnerWritten(v));
    case WinnerWritten(v) => OtherWriteRating(s, t, u, v.loser, v.loserAfter, LoserWritten(v));
    case LoserWritten(_) => OtherCommit(s, t, u);
  }

  lemma OtherStepErased(g: Curve, s: State, t: nat, e: Event)
    requires t < |s.txs| && Enabled(s, e) && e != Advance(t) && e != Abort(t)
    ensures Enabled(Erased(s, t), e)
    ensures Erased(Step(g, s, e), t) == Step(g, Erased(s, t), e)
  {
    match e
    case Advance(u) => OtherTxStepErased(g, s, t, u);
    case Abort(u) => ErasedOtherRollback(s, t, u, DatabaseFailure);
    case Begin(_, _) =>
      assert Erased(Step(g, s, e), t).txs == Step(g, Erased(s, t), e).txs;
    case _ =>
  }

  lemma RunOne(g: Curve, s: State, e: Event)
    ensures Run(g, s, [e]) == Step(g, s, e)
    ensures Effective(g, s, [e]) <==> Enabled(s, e)
  {
    RunSnoc(g, s, [], e);
    assert [] + [e] == [e];
  }

  lemma StepErased(g: Curve, s: State, t: nat, e: Event)
    requires t < |s.txs| && Enabled(s, e) && t < |Step(g, s, e).txs|
    requires !Step(g, s, e).txs[t].phase.Committed?
    ensures Effective(g, Erased(s, t), EraseEvent(s, t, e))
    ensures Run(g, Erased(s, t), EraseEvent(s, t, e)) == Erased(Step(g, s, e), t)
  {
    if e == Advance(t) || e == Abort(t) {
      OwnStepErased(g, s, t, e);
      RunOne(g, Erased(s, t), BurnSeq);
    } else {
      OtherStepErased(g, s, t, e);
      RunOne(g, Erased(s, t), e);
    }
  }

  /** All or nothing.  Take any effective run, with any number of other transactions, in
      which t does not commit: whether it failed, was aborted or is still under way.  The
      run with t's statements taken out is effective too, and ends in the same tables, the
      same sequence value and the same state of every other transaction. */
  lemma {:induction false} UncommittedLeavesNoTrace(g: Curve, s: State, t: nat, es: seq<Event>)
    requires t < |s.txs| && Effective(g, s, es)
    requires t < |Run(g, s, es).txs| && !Run(g, s, es).txs[t].phase.Committed?
    ensures Effective(g, Erased(s, t), Erase(g, s, t, es))
    ensures Run(g, Erased(s, t), Erase(g, s, t, es)) == Erased(Run(g, s, es), t)
    decreases |es|
  {
    if es != [] {
      var before, e := es[..|es| - 1], es[|es| - 1];
      TxsGrow(g, s, before);
      var mid := Run(g, s, before);
      if mid.txs[t].phase.Committed? {
        FinishedStays(g, mid, t, e);
      }
      UncommittedLeavesNoTrace(g, s, t, before);
      StepErased(g, mid, t, e);
      RunConcat(g, Erased(s, t), Erase(g, s, t, before), EraseEvent(mid, t, e));
    }
  }

  predicate NoneOf(es: seq<Event>, t: nat) {
    forall e :: e in es ==> e != Advance(t) && e != Abort(t)
  }

  /** What everybody but t does in a run, sequence draws apart. */
  function OthersOf(es: seq<Event>, t: nat): seq<Event>
    decreases |es|
  {
    if es == [] then []
    else
      var (before, e) := (es[..|es| - 1], es[|es| - 1]);
      OthersOf(before, t) + if e == Advance(t) || e == Abort(t) || e == BurnSeq then [] else [e]
  }

  lemma OthersOfSnoc(es: seq<Event>, e: Event, t: nat)
    ensures OthersOf(es + [e], t)
            == OthersOf(es, t) + if e == Advance(t) || e == Abort(t) || e == BurnSeq then [] else [e]
  {
    assert (es + [e])[..|es|] == es;
  }

  /** `erased` holds nothing of t, and of everyone else what es holds, in the same order. */
  ghost predicate KeepsOthers(erased: seq<Event>, es: seq<Event>, t: nat) {
    NoneOf(erased, t) && OthersOf(erased, t) == OthersOf(es, t)
  }

  lemma AppendKeepsOthers(erased: seq<Event>, es: seq<Event>, s: State, t: nat, e: Event)
    requires t < |s.txs| && KeepsOthers(erased, es, t)
    ensures KeepsOthers(erased + EraseEvent(s, t, e), es + [e], t)
  {
    OthersOfSnoc(es, e, t);
    var left := EraseEvent(s, t, e);
    if left == [] {
      assert erased + left == erased;
    } else {
      OthersOfSnoc(erased, left[0], t);
    }
  }

  /** Erasing t takes out its statements and nothing that anyone else does. */
  lemma {:induction false} EraseKeepsOthers(g: Curve, s: State, t: nat, es: seq<Event>)
    requires t < |s.txs|
    ensures KeepsOthers(Erase(g, s, t, es), es, t)
    decreases |es|
  {
    if es != [] {
      var before, e := es[..|es| - 1], es[|es| - 1];
      TxsGrow(g, s, before);
      EraseKeepsOthers(g, s, t, before);
      AppendKeepsOthers(Erase(g, s, t, before), before, Run(g, s, before), t, e);
      assert es == before + [e];
    }
  }

  lemma FreshTxErased(g: Curve, s: State, duel: int, winner: int)
    requires LocksOk(s)
    ensures Erased(Step(g, s, Begin(duel, winner)), |s.txs|) == Step(g, s, Begin(duel, winner))
  {
    var begun := Step(g, s, Begin(duel, winner));
    var t := |s.txs|;
    assert begun.txs[t := begun.txs[t].(phase := Begun, writes := map[])] == begun.txs;
    assert forall f :: f in s.locks ==> s.locks[f] != t;
    assert Release(begun.locks, t) == begun.locks;
  }

  /** The run es from `begun` to `after`, less every statement of t: the others do the same
      in the same order, and end in exactly the state they ended in, but for t itself, which
      is where its BEGIN left it. */
  ghost predicate Traceless(g: Curve, begun: State, t: nat, es: seq<Event>, after: State)
    requires t < |begun.txs| && t < |after.txs|
  {
    var others := Erase(g, begun, t, es);
    && KeepsOthers(others, es, t)
    && Effective(g, begun, others)
    && Run(g, begun, others) == Erased(after, t)
  }

  /** The same for a call as a whole: a RegisterVote call begun in s that has not committed
      after the run leaves the others in the state of the run without its statements, and
      the tables with them. */
  lemma FailedCallLeavesNoTrace(g: Curve, s: State, duel: int, winner: int, es: seq<Event>)
    requires LocksOk(s) && Effective(g, Step(g, s, Begin(duel, winner)), es)
    requires |s.txs| < |Run(g, Step(g, s, Begin(duel, winner)), es).txs|
    requires !Run(g, Step(g, s, Begin(duel, winner)), es).txs[|s.txs|].phase.Committed?
    ensures var begun := Step(g, s, Begin(duel, winner));
            Traceless(g, begun, |s.txs|, es, Run(g, begun, es))
  {
    var begun := Step(g, s, Begin(duel, winner));
    FreshTxErased(g, s, duel, winner);
    UncommittedLeavesNoTrace(g, begun, |s.txs|, es);
    EraseKeepsOthers(g, begun, |s.txs|, es);
  }

  /** Nothing that a transaction writes is visible before its COMMIT: every other step
      leaves the votes and the rows of all existing films as they were. */
  lemma OnlyCommitPublishes(g: Curve, s: State, e: Event)
    requires Enabled(s, e)
    requires e.Advance? ==> !s.txs[e.t].phase.LoserWritten?
    ensures var s' := Step(g, s, e);
            && s'.db.votes == s.db.votes
            && s'.nextSeq >= s.nextSeq
            && forall f :: f in s.db.films ==> f in s'.db.films && s'.db.films[f] == s.db.films[f]
  {
    if e.InsertFilms? {
      BatchInsertsAbsent(s.db, e.params);
    }
  }

  /** COMMIT publishes the vote, both duel counts and both ratings in one step, and they are
      the effects of one serial vote on the committed tables. */
  lemma CommitPublishesAll(g: Curve, es: seq<Event>, t: nat)
    requires t < |Run(g, EMPTY, es).txs| && Run(g, EMPTY, es).txs[t].phase.LoserWritten?
    ensures var s := Run(g, EMPTY, es);
            var s' := Step(g, s, Advance(t));
            var v := s.txs[t].phase.vote;
            && s'.txs[t].phase == Committed(v)
            && v.duel == s.txs[t].duel && v.winner == s.txs[t].winner
            && !DuelVoted(s.db.votes, v.duel)
            && Explained(g, s.db.films, v)
            && s'.db == s.db.(films := Settle(g, s.db.films, v.winner, v.loser), votes := s.db.votes + [v])
  {
    ReachableInv(g, es);
    var s := Run(g, EMPTY, es);
    CommitSettles(g, s, t);
    assert TxOk(g, s.db, s.nextSeq, s.txs[t]);
  }
}
