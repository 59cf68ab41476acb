/** Locks are taken in ascending film id, so transactions never deadlock, and each has a
    bounded number of statements, so all of them finish. */
module Progress {
  import opened Elo
  import opened Tables
  import opened Catalogue
  import opened Engine
  import opened Invariant
  import opened Preservation

  predicate CanStep(s: State, t: nat) { Enabled(s, Advance(t)) }

  /** A blocked transaction waits for an unfinished one, and if that one waits too, it
      waits for a film with a greater id. */
  lemma WaitsUpwards(g: Curve, s: State, t: nat)
    requires Inv(g, s) && t < |s.txs| && !s.txs[t].Finished() && Blocked(s, t)
    ensures var film := Wanted(s, s.txs[t]).value;
            && film in s.db.films
            && film in s.locks
            && var u := s.locks[film];
               && u < |s.txs| && u != t && !s.txs[u].Finished()
               && (Blocked(s, u) ==> film < Wanted(s, s.txs[u]).value)
  {
    var film := Wanted(s, s.txs[t]).value;
    var u := s.locks[film];
    assert film in Held(s.txs[u]);
    assert TxOk(g, s.db, s.nextSeq, s.txs[u]);
  }

  function Above(films: Films, film: int): set<int> {
    set f | f in films && f > film
  }

  /** Deadlock freedom: whenever a transaction is unfinished, some transaction can step. */
  lemma {:induction false} SomeoneCanStep(g: Curve, s: State, t: nat) returns (u: nat)
    requires Inv(g, s) && t < |s.txs| && !s.txs[t].Finished()
    ensures u < |s.txs| && CanStep(s, u)
    decreases if Blocked(s, t) then 1 + |Above(s.db.films, Wanted(s, s.txs[t]).value)| else 0
  {
    if !Blocked(s, t) {
      u := t;
    } else {
      WaitsUpwards(g, s, t);
      var film := Wanted(s, s.txs[t]).value;
      var holder := s.locks[film];
      if Blocked(s, holder) {
        var next := Wanted(s, s.txs[holder]).value;
        WaitsUpwards(g, s, holder);
        AboveShrinks(s.db.films, film, next);
      }
      u := SomeoneCanStep(g, s, holder);
    }
  }

  lemma AboveShrinks(films: Films, film: int, next: int)
    requires film < next && next in films
    ensures |Above(films, next)| < |Above(films, film)|
  {
    var smaller, larger := Above(films, next), Above(films, film);
    assert next in larger && next !in smaller;
    assert smaller <= larger - {next};
    SubsetSize(smaller, larger - {next});
  }

  // ---------- termination ----------

  /** The statements a transaction still has before it. */
  function Left(tx: Tx): nat {
    match tx.phase
    case Begun => 7
    case LowLocked(_) => 6
    case BothLocked(_, _) => 5
    case Rated(_) => 4
    case Voted(_) => 3
    case WinnerWritten(_) => 2
    case LoserWritten(_) => 1
    case Committed(_) => 0
    case RolledBack(_) => 0
  }

  function Work(txs: seq<Tx>): nat {
    if txs == [] then 0 else Work(txs[..|txs| - 1]) + Left(txs[|txs| - 1])
  }

  lemma {:induction false} WorkUpdate(txs: seq<Tx>, t: nat, tx: Tx)
    requires t < |txs|
    ensures Work(txs[t := tx]) == Work(txs) - Left(txs[t]) + Left(tx)
    decreases |txs|
  {
    var n := |txs| - 1;
    if t == n {
      assert txs[t := tx][..n] == txs[..n];
    } else {
      WorkUpdate(txs[..n], t, tx);
      assert txs[t := tx][..n] == txs[..n][t := tx];
    }
  }

  predicate IsTxEvent(e: Event) { e.Advance? || e.Abort? }

  /** A statement moves its own transaction forward, and no other transaction. */
  lemma AdvanceMoves(g: Curve, s: State, t: nat)
    requires t < |s.txs| && !s.txs[t].Finished()
    ensures |AdvanceTx(g, s, t).txs| == |s.txs|
    ensures AdvanceTx(g, s, t).txs == s.txs[t := AdvanceTx(g, s, t).txs[t]]
    ensures Left(AdvanceTx(g, s, t).txs[t]) < Left(s.txs[t])
  {
    match s.txs[t].phase
    case Begun =>
    case LowLocked(_) =>
    case BothLocked(_, _) =>
    case Rated(_) =>
    case Voted(_) =>
    case WinnerWritten(_) =>
    case LoserWritten(_) =>
  }

  /** Begin adds seven statements of work, a transaction's step removes at least one, and
      nothing else changes it. */
  lemma StepWork(g: Curve, s: State, e: Event)
    requires Enabled(s, e)
    ensures IsTxEvent(e) ==> Work(Step(g, s, e).txs) < Work(s.txs)
    ensures e.Begin? ==> Work(Step(g, s, e).txs) == Work(s.txs) + 7
    ensures !IsTxEvent(e) && !e.Begin? ==> Step(g, s, e).txs == s.txs
  {
    match e
    case Advance(t) =>
      AdvanceMoves(g, s, t);
      WorkUpdate(s.txs, t, AdvanceTx(g, s, t).txs[t]);
    case Abort(t) =>
      WorkUpdate(s.txs, t, Rollback(s, t, DatabaseFailure).txs[t]);
    case Begin(_, _) =>
      assert Step(g, s, e).txs[..|s.txs|] == s.txs;
    case _ =>
  }

  function CountBegins(es: seq<Event>): nat {
    if es == [] then 0 else CountBegins(es[..|es| - 1]) + if es[|es| - 1].Begin? then 1 else 0
  }

  function CountTxEvents(es: seq<Event>): nat {
    if es == [] then 0 else CountTxEvents(es[..|es| - 1]) + if IsTxEvent(es[|es| - 1]) then 1 else 0
  }

  /** Termination: over any effective run, the statements and aborts taken and the work left
      over are at most the work at its start and seven for each transaction begun. */
  lemma {:induction false} StatementsBounded(g: Curve, s: State, es: seq<Event>)
    requires Effective(g, s, es)
    ensures CountTxEvents(es) + Work(Run(g, s, es).txs) <= Work(s.txs) + 7 * CountBegins(es)
    decreases |es|
  {
    if es != [] {
      StatementsBounded(g, s, es[..|es| - 1]);
      StepWork(g, Run(g, s, es[..|es| - 1]), es[|es| - 1]);
    }
  }

  predicate AllFinished(s: State) {
    forall t :: 0 <= t < |s.txs| ==> s.txs[t].Finished()
  }

  /** A state in which no transaction can step is one in which all have finished. */
  lemma StuckMeansFinished(g: Curve, s: State)
    requires Inv(g, s)
    ensures AllFinished(s) <==> forall t :: 0 <= t < |s.txs| ==> !CanStep(s, t)
  {
    if t :| 0 <= t < |s.txs| && !s.txs[t].Finished() {
      var u := SomeoneCanStep(g, s, t);
    }
  }

  /** From every state that a run reaches, letting any transaction that can step do so, in
      any order, finishes them all, without an abort, in at most `Work` steps. */
  lemma {:induction false} Drain(g: Curve, s: State) returns (es: seq<Event>)
    requires Inv(g, s)
    ensures Effective(g, s, es) && AllFinished(Run(g, s, es)) && |es| <= Work(s.txs)
    ensures forall e :: e in es ==> e.Advance?
    decreases Work(s.txs)
  {
    if AllFinished(s) {
      es := [];
    } else {
      StuckMeansFinished(g, s);
      var t :| 0 <= t < |s.txs| && CanStep(s, t);
      var e := Advance(t);
      StepKeeps(g, s, e);
      StepWork(g, s, e);
      var rest := Drain(g, Step(g, s, e));
      es := [e] + rest;
      RunConcat(g, s, [e], rest);
      RunSnoc(g, s, [], e);
      assert [] + [e] == [e];
    }
  }

  /** Whatever has happened so far, every call that was begun can still be brought to its end
      by nothing but its own and the others' statements. */
  lemma EveryCallCanFinish(g: Curve, es: seq<Event>) returns (more: seq<Event>)
    ensures AllFinished(Run(g, EMPTY, es + more)) && (forall e :: e in more ==> e.Advance?)
    ensures |more| <= Work(Run(g, EMPTY, es).txs)
  {
    ReachableInv(g, es);
    more := Drain(g, Run(g, EMPTY, es));
    RunConcat(g, EMPTY, es, more);
  }
}
