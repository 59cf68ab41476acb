/** RegisterVote as it is written: the transaction closure, run inside ExecTx, while any
    number of other clients work on the same database between its statements. */
module RegisterVote {
  import opened Elo
  import opened Tables
  import opened History
  import opened Catalogue
  import opened Engine
  import opened Invariant
  import opened Preservation
  import opened Atomicity
  import opened SerialCall
  import opened Server
  import opened Runs

  datatype Fault = Cancelled | Panic

  /** What happens around a call: `others(k)` is what the other clients attempt before its
      k-th step (and while it waits for a lock there), and `faults(k)` whether the context is
      cancelled, the connection lost, or a panic raised at that point, as far as the call gets.  The steps are: 0 and
      1 lock the rows, 2 rates the vote, 3 inserts it, 4 and 5 write the ratings, 6 commits. */
  datatype World = World(others: nat -> seq<Event>, faults: nat -> Option<Fault>)

  const STEPS: nat := 7

  /** Nobody else does anything, and nothing goes wrong. */
  ghost predicate Quiet(world: World) {
    forall k: nat :: world.others(k) == [] && world.faults(k) == None
  }

  /** How the closure ends. */
  datatype Outcome = Nil | Err(error: Error) | Panicking

  /** What the caller of RegisterVote gets. */
  datatype Reply = VoteStored(vote: VoteRow) | Refused(error: Error) | Panicked

  /** Rows of duels and votes are never changed or removed. */
  predicate Grows(before: Db, after: Db) {
    && before.votes <= after.votes
    && forall d :: d in before.duels ==> d in after.duels && after.duels[d] == before.duels[d]
  }

  lemma StepGrows(g: Curve, s: State, e: Event)
    ensures Grows(s.db, Step(g, s, e).db)
  {
    StepExtendsHistory(g, s, e);
    if Enabled(s, e) && e.InsertFilms? {
      BatchInsertsAbsent(s.db, e.params);
    }
  }

  lemma {:induction false} RunGrows(g: Curve, s: State, es: seq<Event>)
    ensures Grows(s.db, Run(g, s, es).db)
    decreases |es|
  {
    if es != [] {
      RunGrows(g, s, es[..|es| - 1]);
      StepGrows(g, Run(g, s, es[..|es| - 1]), es[|es| - 1]);
    }
  }

  lemma TraceGrows(g: Curve, es: seq<Event>, fs: seq<Event>)
    requires es <= fs
    ensures Grows(Run(g, EMPTY, es).db, Run(g, EMPTY, fs).db)
  {
    assert fs == es + fs[|es|..];
    RunConcat(g, EMPTY, es, fs[|es|..]);
    RunGrows(g, Run(g, EMPTY, es), fs[|es|..]);
  }

  lemma OtherKeepsTx(g: Curve, s: State, t: nat, e: Event)
    requires t < |s.txs| && e != Advance(t) && e != Abort(t)
    ensures t < |Step(g, s, e).txs| && Step(g, s, e).txs[t] == s.txs[t]
  {
  }

  // ---------- what is tracked from step to step ----------

  /** The run goes on, and in a quiet world by steps of t only. */
  ghost predicate Continues(before: seq<Event>, after: seq<Event>, t: nat, world: World) {
    && before <= after
    && (Quiet(world) ==> forall i :: |before| <= i < |after| ==> after[i] == Advance(t))
  }

  /** What may stop a call whatever the tables say: a fault, or a lock that another call was
      still holding when this one gave up. */
  ghost predicate Hindered(found: State, t: nat, world: World) {
    || (exists k: nat :: k < STEPS && world.faults(k).Some?)
    || (t < |found.txs| && Blocked(found, t))
  }

  /** No fault strikes from step `lo` to just before step `hi`. */
  ghost predicate Unharmed(world: World, lo: nat, hi: nat) {
    forall k: nat :: lo <= k < hi ==> world.faults(k).None?
  }

  ghost predicate PanicRaised(world: World) {
    exists k: nat :: k < STEPS && world.faults(k) == Some(Panic)
  }

  function StateAfter(g: Curve, es: seq<Event>): State {
    Run(g, EMPTY, es)
  }

  ghost predicate Reaches(g: Curve, es: seq<Event>, s: State) {
    s == Run(g, EMPTY, es)
  }

  /** If the closure has ended otherwise than with nil: a ROLLBACK is what is missing from the
      step `ev`, and the error is the one the tables call for, unless the call was hindered. */
  ghost predicate Explains(db: Database, t: nat, out: Outcome, ev: Event, world: World)
    requires t < |db.txs|
    reads db
  {
    match out
    case Nil => true
    case Err(e) =>
      && db.Failing(t, e, ev)
      && (if ev == Advance(t) then Refusal(db.Tables(), db.txs[t].duel, db.txs[t].winner) == Some(e)
          else e == DatabaseFailure && Hindered(StateAfter(db.g, db.trace), t, world))
    case Panicking => db.Failing(t, DatabaseFailure, ev) && ev == Abort(t) && PanicRaised(world)
  }

  /** The other clients' turn: their enabled events happen, in order. */
  method Interleave(db: Database, t: nat, attempts: seq<Event>)
    requires db.Valid() && t < |db.txs|
    modifies db
    ensures db.Valid() && old(db.trace) <= db.trace && (attempts == [] ==> db.trace == old(db.trace))
    ensures t < |db.txs| && db.txs[t] == old(db.txs[t])
  {
    for i := 0 to |attempts|
      invariant db.Valid() && old(db.trace) <= db.trace && (i == 0 ==> db.trace == old(db.trace))
      invariant t < |db.txs| && db.txs[t] == old(db.txs[t])
    {
      var e := attempts[i];
      if e != Advance(t) && e != Abort(t) && Enabled(db.View(), e) {
        OtherKeepsTx(db.g, db.View(), t, e);
        db.Perform(e);
      }
    }
  }

  /** The gap before the k-th step.  Nil: the statement can run.  Otherwise the call fails
      here: by a fault, or because it was still waiting for a lock when cancelled. */
  method Pause(db: Database, t: nat, k: nat, world: World) returns (stop: Outcome)
    requires db.Valid() && t < |db.txs| && !db.txs[t].Finished() && k < STEPS
    modifies db
    ensures Continues(old(db.trace), db.trace, t, world)
    ensures t < |db.txs| && db.txs[t] == old(db.txs[t])
    ensures db.Valid() && Enabled(db.View(), Abort(t))
    ensures stop.Nil? ==> Enabled(db.View(), Advance(t))
    ensures stop.Err? ==> stop.error == DatabaseFailure
    ensures Explains(db, t, stop, Abort(t), world)
    ensures stop.Nil? ==> world.faults(k).None?
  {
    Interleave(db, t, world.others(k));
    match world.faults(k)
    case Some(Panic) => stop := Panicking;
    case Some(Cancelled) => stop := Err(DatabaseFailure);
    case None => stop := if Blocked(db.View(), t) then Err(DatabaseFailure) else Nil;
  }

  // ---------- the closure ----------

  /** GetDuelRatingsForUpdate: the duel's rows are locked and read in ascending id. */
  method GetDuelRatings(db: Database, t: nat, world: World) returns (out: Outcome, ghost ev: Event)
    requires db.Valid() && t < |db.txs| && db.txs[t].phase.Begun?
    modifies db
    ensures Continues(old(db.trace), db.trace, t, world)
    ensures t < |db.txs| && db.txs[t].duel == old(db.txs[t].duel) && db.txs[t].winner == old(db.txs[t].winner)
    ensures out.Nil? ==> db.Valid() && db.txs[t].phase.BothLocked?
    ensures Explains(db, t, out, ev, world)
    ensures out.Err? ==> out.error == DatabaseFailure || out.error == NotEnoughFilms
    ensures out.Nil? ==> Unharmed(world, 0, 2)
  {
    out, ev := GetFirstRow(db, t, world);
    if out.Nil? {
      ev := Abort(t);
      out := Pause(db, t, 1, world);
      if out.Nil? {
        db.LockHighRow(t);
      }
    }
  }

  method GetFirstRow(db: Database, t: nat, world: World) returns (out: Outcome, ghost ev: Event)
    requires db.Valid() && t < |db.txs| && db.txs[t].phase.Begun?
    modifies db
    ensures Continues(old(db.trace), db.trace, t, world)
    ensures t < |db.txs| && db.txs[t].duel == old(db.txs[t].duel) && db.txs[t].winner == old(db.txs[t].winner)
    ensures out.Nil? ==> db.Valid() && db.txs[t].phase.LowLocked?
    ensures Explains(db, t, out, ev, world)
    ensures out.Err? ==> out.error == DatabaseFailure || out.error == NotEnoughFilms
    ensures out.Nil? ==> Unharmed(world, 0, 1)
  {
    ev := Abort(t);
    out := Pause(db, t, 0, world);
    if out.Nil? {
      var err := db.LockLowRow(t);
      if err.Some? { return Err(err.value), Advance(t); }
    }
  }

  /** The closure of RegisterVote: lock and read both films, decide winner and loser,
      compute, insert the vote, write both ratings. */
  method Closure(db: Database, t: nat, world: World) returns (out: Outcome, ghost ev: Event)
    requires db.Valid() && t < |db.txs| && db.txs[t].phase.Begun?
    modifies db
    ensures Continues(old(db.trace), db.trace, t, world)
    ensures t < |db.txs| && db.txs[t].duel == old(db.txs[t].duel) && db.txs[t].winner == old(db.txs[t].winner)
    ensures out.Nil? ==> db.Valid() && db.txs[t].phase.LoserWritten?
    ensures Explains(db, t, out, ev, world)
    ensures out.Nil? ==> Unharmed(world, 0, 6)
  {
    out, ev := GetDuelRatings(db, t, world);
    if out.Nil? {
      out, ev := RateAndRecord(db, t, world);
    }
  }

  method RateAndRecord(db: Database, t: nat, world: World) returns (out: Outcome, ghost ev: Event)
    requires db.Valid() && t < |db.txs| && db.txs[t].phase.BothLocked?
    modifies db
    ensures Continues(old(db.trace), db.trace, t, world)
    ensures t < |db.txs| && db.txs[t].duel == old(db.txs[t].duel) && db.txs[t].winner == old(db.txs[t].winner)
    ensures out.Nil? ==> db.Valid() && db.txs[t].phase.LoserWritten?
    ensures Explains(db, t, out, ev, world)
    ensures out.Nil? ==> Unharmed(world, 2, 6)
  {
    out, ev := RateUnlessHarmed(db, t, world);
    if out.Nil? {
      out, ev := RecordVote(db, t, world);
    }
  }

  /** A panic strikes at once.  A context cancelled during the computation is noticed after it,
      by the statement that comes next. */
  method RateUnlessHarmed(db: Database, t: nat, world: World) returns (out: Outcome, ghost ev: Event)
    requires db.Valid() && t < |db.txs| && db.txs[t].phase.BothLocked?
    modifies db
    ensures Continues(old(db.trace), db.trace, t, world)
    ensures t < |db.txs| && db.txs[t].duel == old(db.txs[t].duel) && db.txs[t].winner == old(db.txs[t].winner)
    ensures out.Nil? ==> db.Valid() && db.txs[t].phase.Rated?
    ensures Explains(db, t, out, ev, world)
    ensures out.Nil? ==> Unharmed(world, 2, 3)
  {
    ev := Abort(t);
    if world.faults(2) == Some(Panic) {
      Interleave(db, t, world.others(2));
      return Panicking, ev;
    }
    out := Decide(db, t, world);
    if out.Err? {
      ev := Advance(t);
    } else if world.faults(2).Some? {
      out := Err(DatabaseFailure);
    }
  }

  /** The switch on the winner touches no table; a winner outside the duel is found out with
      both rows locked, while others go on. */
  method Decide(db: Database, t: nat, world: World) returns (out: Outcome)
    requires db.Valid() && t < |db.txs| && db.txs[t].phase.BothLocked?
    modifies db
    ensures Continues(old(db.trace), db.trace, t, world)
    ensures t < |db.txs| && db.txs[t].duel == old(db.txs[t].duel) && db.txs[t].winner == old(db.txs[t].winner)
    ensures out.Nil? ==> db.Valid() && db.txs[t].phase.Rated?
    ensures out.Err? ==> out.error == FilmNotInDuel
    ensures Explains(db, t, out, Advance(t), world) && !out.Panicking?
  {
    Interleave(db, t, world.others(2));
    var err := db.RateVote(t);
    out := if err.Some? then Err(err.value) else Nil;
  }

  /** The writes of the closure: the vote row with both counts, then both ratings. */
  method RecordVote(db: Database, t: nat, world: World) returns (out: Outcome, ghost ev: Event)
    requires db.Valid() && t < |db.txs| && db.txs[t].phase.Rated?
    modifies db
    ensures Continues(old(db.trace), db.trace, t, world)
    ensures t < |db.txs| && db.txs[t].duel == old(db.txs[t].duel) && db.txs[t].winner == old(db.txs[t].winner)
    ensures out.Nil? ==> db.Valid() && db.txs[t].phase.LoserWritten?
    ensures Explains(db, t, out, ev, world)
    ensures out.Nil? ==> Unharmed(world, 3, 6)
  {
    out, ev := AddVoteInTurn(db, t, world);
    if out.Nil? {
      ev := Abort(t);
      out := UpdateRatings(db, t, world);
    }
  }

  method AddVoteInTurn(db: Database, t: nat, world: World) returns (out: Outcome, ghost ev: Event)
    requires db.Valid() && t < |db.txs| && db.txs[t].phase.Rated?
    modifies db
    ensures Continues(old(db.trace), db.trace, t, world)
    ensures t < |db.txs| && db.txs[t].duel == old(db.txs[t].duel) && db.txs[t].winner == old(db.txs[t].winner)
    ensures out.Nil? ==> db.Valid() && db.txs[t].phase.Voted?
    ensures Explains(db, t, out, ev, world)
    ensures out.Nil? ==> Unharmed(world, 3, 4)
  {
    ev := Abort(t);
    out := Pause(db, t, 3, world);
    if out.Nil? {
      out := AddVote(db, t, world);
      ev := Advance(t);
    }
  }

  /** InsertVote of the vote repository. */
  method AddVote(db: Database, t: nat, world: World) returns (out: Outcome)
    requires db.Valid() && t < |db.txs| && db.txs[t].phase.Rated?
    modifies db
    ensures Continues(old(db.trace), db.trace, t, world)
    ensures t < |db.txs| && db.txs[t].duel == old(db.txs[t].duel) && db.txs[t].winner == old(db.txs[t].winner)
    ensures out.Nil? ==> db.Valid() && db.txs[t].phase.Voted?
    ensures Explains(db, t, out, Advance(t), world) && !out.Panicking?
  {
    ReachableInv(db.g, db.trace);
    DraftIsSerial(db.g, db.View(), t);
    RatedFacts(db.g, db.trace, t);
    var err := db.InsertVoteRow(t);
    out := if err.Some? then Err(err.value) else Nil;
  }

  /** UpdateRatings: one statement for each film, winner first. */
  method UpdateRatings(db: Database, t: nat, world: World) returns (out: Outcome)
    requires db.Valid() && t < |db.txs| && db.txs[t].phase.Voted?
    modifies db
    ensures Continues(old(db.trace), db.trace, t, world)
    ensures t < |db.txs| && db.txs[t].duel == old(db.txs[t].duel) && db.txs[t].winner == old(db.txs[t].winner)
    ensures out.Nil? ==> db.Valid() && db.txs[t].phase == LoserWritten(old(db.txs[t].phase.vote))
    ensures Explains(db, t, out, Abort(t), world)
    ensures out.Nil? ==> Unharmed(world, 4, 6)
  {
    var vote := db.txs[t].phase.vote;
    var filmRatings := [(vote.winner, vote.winnerAfter), (vote.loser, vote.loserAfter)];
    VotedFacts(db.g, db.trace, t);
    out := Nil;
    for i := 0 to |filmRatings|
      invariant Continues(old(db.trace), db.trace, t, world)
      invariant t < |db.txs| && db.txs[t].duel == old(db.txs[t].duel) && db.txs[t].winner == old(db.txs[t].winner)
      invariant out.Nil? ==> db.Valid() && db.txs[t].phase == AfterUpdates(vote, i) && Unharmed(world, 4, 4 + i)
      invariant Explains(db, t, out, Abort(t), world)
    {
      if out.Nil? {
        out := UpdateRating(db, t, 4 + i, ToInt32(filmRatings[i].0), filmRatings[i].1, world);
      }
    }
  }

  function AfterUpdates(vote: VoteRow, i: nat): Phase {
    if i == 0 then Voted(vote) else if i == 1 then WinnerWritten(vote) else LoserWritten(vote)
  }

  method UpdateRating(db: Database, t: nat, k: nat, id: int, rating: real, world: World) returns (out: Outcome)
    requires db.Valid() && t < |db.txs| && k < STEPS
    requires IsUpdating(db.txs[t].phase) && (id, rating) == NextRating(db.txs[t].phase)
    modifies db
    ensures Continues(old(db.trace), db.trace, t, world)
    ensures t < |db.txs| && db.txs[t].duel == old(db.txs[t].duel) && db.txs[t].winner == old(db.txs[t].winner)
    ensures out.Nil? ==> db.Valid() && db.txs[t].phase == AfterUpdate(old(db.txs[t].phase))
    ensures Explains(db, t, out, Abort(t), world)
    ensures out.Nil? ==> Unharmed(world, k, k + 1)
  {
    out := Pause(db, t, k, world);
    if out.Nil? {
      db.UpdateRatingRow(t, id, rating);
    }
  }

  // ---------- the transaction around it ----------

  /** What a committed call has done to the tables: the vote is the one its films' rows called
      for at that moment, and it, both counts and both ratings are all that changed. */
  ghost predicate VoteApplied(g: Curve, before: Db, after: Db, duel: int, winner: int, vote: VoteRow) {
    && DuelsOk(before) && Refusal(before, duel, winner).None?
    && vote == SerialVote(g, before, vote.appliedSeq, duel, winner)
    && after == before.(films := Settle(g, before.films, vote.winner, vote.loser), votes := before.votes + [vote])
  }

  /** The same row by row: the vote is there, both films have one more duel and the vote's
      rating, and no other film has changed. */
  predicate StoredInFull(before: Db, after: Db, vote: VoteRow) {
    && vote in after.votes && vote.winner != vote.loser
    && vote.winner in before.films && vote.loser in before.films
    && after.films
       == before.films[vote.winner := Incremented(before.films[vote.winner]).(rating := vote.winnerAfter)]
                      [vote.loser := Incremented(before.films[vote.loser]).(rating := vote.loserAfter)]
  }

  lemma AppliedInFull(g: Curve, before: Db, after: Db, duel: int, winner: int, vote: VoteRow)
    requires VoteApplied(g, before, after, duel, winner, vote)
    ensures vote.duel == duel && vote.winner == winner
    ensures !DuelVoted(before.votes, duel)
    ensures StoredInFull(before, after, vote)
  {
    assert after.votes[|before.votes|] == vote;
  }

  /** And in figures. */
  lemma AppliedIsPaid(g: Curve, before: Db, after: Db, duel: int, winner: int, vote: VoteRow)
    requires FilmsOk(before) && VoteApplied(g, before, after, duel, winner, vote)
    ensures PaidAtOdds(g, before.films, vote)
  {
    ExplainedIsPaid(g, before.films, vote);
  }

  lemma CommitApplies(g: Curve, es: seq<Event>, t: nat)
    requires t < |Run(g, EMPTY, es).txs| && Run(g, EMPTY, es).txs[t].phase.LoserWritten?
    ensures var s := Run(g, EMPTY, es);
            VoteApplied(g, s.db, Commit(s, t).db, s.txs[t].duel, s.txs[t].winner, s.txs[t].phase.vote)
  {
    ReachableInv(g, es);
    PendingIsSerial(g, Run(g, EMPTY, es), t);
    CommitSettles(g, Run(g, EMPTY, es), t);
  }

  /** The last statement of a transaction: its COMMIT, or what it was rolled back at. */
  function Last(es: seq<Event>): Event
    requires es != []
  {
    es[|es| - 1]
  }

  /** The reply tells what is so.  `found` is the state in which the transaction's last
      statement ran and `now` the one after it.  A vote was applied whole; a refusal is the
      one the tables call for, or the call was hindered; a panic was raised. */
  ghost predicate ReplyHolds(g: Curve, found: State, now: State, last: Event, t: nat, duel: int, winner: int,
                             world: World, reply: Reply)
    requires t < |now.txs|
  {
    match reply
    case VoteStored(vote) =>
      && now.txs[t].phase == Committed(vote) && last == Advance(t) && Unharmed(world, 0, STEPS)
      && VoteApplied(g, found.db, now.db, duel, winner, vote)
    case Refused(e) =>
      && now.txs[t].phase == RolledBack(e)
      && (if last == Advance(t) then Refusal(now.db, duel, winner) == Some(e)
          else last == Abort(t) && e == DatabaseFailure && Hindered(found, t, world))
    case Panicked => now.txs[t].phase.RolledBack? && PanicRaised(world)
  }

  /** The deferred block of ExecTx: ROLLBACK after a panic, which then goes on, or after an
      error; otherwise COMMIT. */
  method Deferred(db: Database, t: nat, out: Outcome, world: World, ghost ev: Event) returns (reply: Reply)
    requires t < |db.txs|
    requires out.Nil? ==> db.Valid() && db.txs[t].phase.LoserWritten? && Unharmed(world, 0, STEPS)
    requires Explains(db, t, out, ev, world)
    modifies db
    ensures db.Valid() && t < |db.txs|
    ensures db.trace == old(db.trace) + [if out.Nil? then Advance(t) else ev]
    ensures ReplyHolds(db.g, StateAfter(db.g, old(db.trace)), db.View(), if out.Nil? then Advance(t) else ev,
                       t, old(db.txs[t].duel), old(db.txs[t].winner), world, reply)
    ensures db.txs[t].duel == old(db.txs[t].duel) && db.txs[t].winner == old(db.txs[t].winner)
    ensures reply.VoteStored? <==> out.Nil?
    ensures out.Err? ==> reply == Refused(out.error)
    ensures !out.Nil? ==> db.Tables() == old(db.Tables())
    ensures out.Panicking? ==> reply == Panicked
  {
    match out
    case Panicking =>
      db.RollbackTx(t, DatabaseFailure, ev);
      reply := Panicked;
    case Err(e) =>
      db.RollbackTx(t, e, ev);
      reply := Refused(e);
    case Nil =>
      reply := VoteStored(db.txs[t].phase.vote);
      CommitApplies(db.g, db.trace, t);
      db.CommitTx(t);
  }

  /** BEGIN, the closure, and the last moment before the deferred block, at which a COMMIT
      can still fail. */
  method Attempt(db: Database, duelId: int, winnerId: int, world: World)
    returns (out: Outcome, t: nat, ghost ev: Event)
    requires db.Valid()
    modifies db
    ensures t == |old(db.txs)| && t < |db.txs|
    ensures Continues(old(db.trace) + [Begin(duelId, winnerId)], db.trace, t, world)
    ensures db.txs[t].duel == duelId && db.txs[t].winner == winnerId
    ensures out.Nil? ==> db.Valid() && db.txs[t].phase.LoserWritten?
    ensures Explains(db, t, out, ev, world)
    ensures out.Nil? ==> Unharmed(world, 0, STEPS)
  {
    t := db.BeginTx(duelId, winnerId);
    out, ev := Closure(db, t, world);
    if out.Nil? {
      out, ev := ReachCommit(db, t, world);
    }
  }

  /** A COMMIT that fails is an error of the driver; it cannot panic. */
  method ReachCommit(db: Database, t: nat, world: World) returns (out: Outcome, ghost ev: Event)
    requires db.Valid() && t < |db.txs| && db.txs[t].phase.LoserWritten?
    modifies db
    ensures Continues(old(db.trace), db.trace, t, world)
    ensures t < |db.txs| && db.txs[t] == old(db.txs[t])
    ensures out.Nil? ==> db.Valid()
    ensures Explains(db, t, out, ev, world)
    ensures out.Nil? ==> Unharmed(world, 6, 7)
  {
    ev := Abort(t);
    out := Pause(db, t, 6, world);
    if out.Panicking? {
      out := Err(DatabaseFailure);
    }
  }

  /** ExecTx: the attempt and the deferred block. */
  method ExecTx(db: Database, duelId: int, winnerId: int, world: World)
    returns (reply: Reply, t: nat, ghost found: State)
    requires db.Valid()
    modifies db
    ensures db.Valid() && t == |old(db.txs)| && t < |db.txs|
    ensures |old(db.trace)| + 1 < |db.trace|
    ensures Reaches(db.g, db.trace[..|db.trace| - 1], found)
    ensures Continues(old(db.trace) + [Begin(duelId, winnerId)], db.trace[..|db.trace| - 1], t, world)
    ensures db.txs[t].duel == duelId && db.txs[t].winner == winnerId
    ensures ReplyHolds(db.g, found, db.View(), Last(db.trace), t, duelId, winnerId, world, reply)
  {
    var out; ghost var ev;
    out, t, ev := Attempt(db, duelId, winnerId, world);
    ghost var mid := db.trace;
    found := StateAfter(db.g, mid);
    reply := Deferred(db, t, out, world, ev);
    assert db.trace[..|db.trace| - 1] == mid;
  }

  // ---------- a call alone ----------

  /** What a call that meets nobody answers. */
  function SerialReply(g: Curve, db: Db, nextSeq: nat, duel: int, winner: int): Reply
    requires DuelsOk(db)
  {
    match Refusal(db, duel, winner)
    case Some(e) => Refused(e)
    case None => VoteStored(SerialVote(g, db, nextSeq, duel, winner))
  }

  /** Nobody holds a lock on the duel's films, if there is such a duel. */
  predicate Unlocked(s: State, duel: int) {
    duel in s.db.duels ==> s.db.duels[duel].filmA !in s.locks && s.db.duels[duel].filmB !in s.locks
  }

  /** The events of a call in a quiet world: nothing but its own statements, and, if it was
      cut short, then only while waiting for a lock. */
  ghost predicate OwnRun(fs: seq<Event>, t: nat, found: State) {
    && fs != [] && (forall i :: 0 <= i < |fs| - 1 ==> fs[i] == Advance(t))
    && (Last(fs) == Advance(t) || (Last(fs) == Abort(t) && t < |found.txs| && Blocked(found, t)))
  }

  lemma NotCutShort(g: Curve, s: State, t: nat, n: nat)
    requires Effective(g, s, Alone(t, n) + [Abort(t)])
    requires var done := Solo(g, s, t, 7); t < |done.txs| && done.txs[t].Finished()
    ensures t < |Solo(g, s, t, n).txs| && !Blocked(Solo(g, s, t, n), t)
  {
    RunSnoc(g, s, Alone(t, n), Abort(t));
    if Blocked(Solo(g, s, t, n), t) {
      NeverWaits(g, s, t, n);
    }
  }

  lemma OwnRunSplits(fs: seq<Event>, t: nat, found: State)
    requires OwnRun(fs, t, found)
    ensures fs[..|fs| - 1] == Alone(t, |fs| - 1)
    ensures fs == Alone(t, |fs| - 1) + [Last(fs)]
    ensures Last(fs) == Advance(t) ==> fs == Alone(t, |fs|)
  {
  }

  lemma OwnRunIsAlone(g: Curve, s: State, fs: seq<Event>, t: nat, found: State)
    requires OwnRun(fs, t, found) && found == Run(g, s, fs[..|fs| - 1]) && Effective(g, s, fs)
    requires var done := Solo(g, s, t, 7); t < |done.txs| && done.txs[t].Finished()
    ensures fs == Alone(t, |fs|)
  {
    OwnRunSplits(fs, t, found);
    if Last(fs) == Abort(t) {
      NotCutShort(g, s, t, |fs| - 1);
    }
  }

  /** Such a call answers as `SerialCall` says, however many statements it was given. */
  lemma OwnRunAnswers(g: Curve, s: State, duel: int, winner: int, fs: seq<Event>)
    requires Inv(g, s) && Unlocked(s, duel) && fs != []
    requires var begun := Step(g, s, Begin(duel, winner));
             && Effective(g, begun, fs) && OwnRun(fs, |s.txs|, Run(g, begun, fs[..|fs| - 1]))
             && |s.txs| < |Run(g, begun, fs).txs| && Run(g, begun, fs).txs[|s.txs|].Finished()
    ensures DuelsOk(s.db)
    ensures Answered(g, s.db, s.nextSeq, duel, winner, Run(g, Step(g, s, Begin(duel, winner)), fs), |s.txs|)
  {
    var begun := Step(g, s, Begin(duel, winner));
    UncontendedCall(g, s, duel, winner);
    AnsweredIsFinished(g, s.db, s.nextSeq, duel, winner, Solo(g, begun, |s.txs|, 7), |s.txs|);
    OwnRunIsAlone(g, begun, fs, |s.txs|, Run(g, begun, fs[..|fs| - 1]));
    FinishedAsAfterSeven(g, begun, |s.txs|, |fs|);
  }

  lemma AnsweredIsFinished(g: Curve, db: Db, nextSeq: nat, duel: int, winner: int, done: State, t: nat)
    requires DuelsOk(db) && Answered(g, db, nextSeq, duel, winner, done, t)
    ensures t < |done.txs| && done.txs[t].Finished()
  {
  }

  /** In a quiet world the trace of a call is its own run. */
  lemma QuietTraceIsOwn(started: seq<Event>, fs: seq<Event>, t: nat, world: World, found: State)
    requires fs != [] && Quiet(world)
    requires Continues(started, (started + fs)[..|started + fs| - 1], t, world)
    requires Last(fs) == Advance(t) || (Last(fs) == Abort(t) && Hindered(found, t, world))
    ensures OwnRun(fs, t, found)
  {
    assert (started + fs)[..|started + fs| - 1] == started + fs[..|fs| - 1];
    forall i | 0 <= i < |fs| - 1 ensures fs[i] == Advance(t) {
      assert (started + fs[..|fs| - 1])[|started| + i] == fs[i];
    }
  }

  lemma QuietReply(g: Curve, found: State, now: State, last: Event, t: nat, duel: int, winner: int, world: World,
                   reply: Reply)
    requires t < |now.txs| && Quiet(world) && ReplyHolds(g, found, now, last, t, duel, winner, world, reply)
    ensures last == Advance(t) || (last == Abort(t) && Hindered(found, t, world))
    ensures now.txs[t].Finished()
    ensures now.txs[t].phase == match reply
                                case VoteStored(v) => Committed(v)
                                case Refused(e) => RolledBack(e)
                                case Panicked => Begun
  {
  }

  lemma AnsweredReply(g: Curve, db: Db, nextSeq: nat, duel: int, winner: int, now: State, t: nat, reply: Reply)
    requires DuelsOk(db) && Answered(g, db, nextSeq, duel, winner, now, t) && t < |now.txs|
    requires now.txs[t].phase == match reply
                                 case VoteStored(v) => Committed(v)
                                 case Refused(e) => RolledBack(e)
                                 case Panicked => Begun
    ensures reply == SerialReply(g, db, nextSeq, duel, winner)
  {
  }

  /** The trace of a call from the state its BEGIN left. */
  lemma FromBegin(g: Curve, es: seq<Event>, duel: int, winner: int, fs: seq<Event>)
    requires Effective(g, EMPTY, es + [Begin(duel, winner)] + fs)
    ensures var begun := Step(g, Run(g, EMPTY, es), Begin(duel, winner));
            Effective(g, begun, fs) && Run(g, EMPTY, es + [Begin(duel, winner)] + fs) == Run(g, begun, fs)
  {
    RunSnoc(g, EMPTY, es, Begin(duel, winner));
    RunConcat(g, EMPTY, es + [Begin(duel, winner)], fs);
  }

  lemma FoundFromBegin(g: Curve, es: seq<Event>, duel: int, winner: int, fs: seq<Event>, trace: seq<Event>)
    requires trace == es + [Begin(duel, winner)] + fs && fs != [] && Effective(g, EMPTY, trace)
    ensures Run(g, EMPTY, trace[..|trace| - 1])
            == Run(g, Step(g, Run(g, EMPTY, es), Begin(duel, winner)), fs[..|fs| - 1])
  {
    assert trace[..|trace| - 1] == es + [Begin(duel, winner)] + fs[..|fs| - 1];
    FromBegin(g, es, duel, winner, fs[..|fs| - 1]);
  }

  /** In a quiet world, with the duel's films unlocked, a call is the serial call. */
  lemma AloneIsSerial(g: Curve, s: State, fs: seq<Event>, found: State, now: State, duel: int, winner: int,
                      world: World, reply: Reply)
    requires Inv(g, s) && Unlocked(s, duel) && fs != [] && Quiet(world)
    requires |s.txs| < |now.txs| && OwnRun(fs, |s.txs|, found)
    requires var begun := Step(g, s, Begin(duel, winner));
             Effective(g, begun, fs) && found == Run(g, begun, fs[..|fs| - 1]) && now == Run(g, begun, fs)
    requires ReplyHolds(g, found, now, Last(fs), |s.txs|, duel, winner, world, reply)
    ensures DuelsOk(s.db) && reply == SerialReply(g, s.db, s.nextSeq, duel, winner)
    ensures Answered(g, s.db, s.nextSeq, duel, winner, now, |s.txs|)
  {
    QuietReply(g, found, now, Last(fs), |s.txs|, duel, winner, world, reply);
    OwnRunAnswers(g, s, duel, winner, fs);
    AnsweredReply(g, s.db, s.nextSeq, duel, winner, now, |s.txs|, reply);
  }

  // ---------- the use case ----------

  /** The run `trace` of a call: `es` had led to the state `s` when it began, fs is what came
      after its BEGIN, `found` is where its last statement ran and `now` where that led. */
  ghost predicate CallTrace(g: Curve, es: seq<Event>, duel: int, winner: int, fs: seq<Event>, trace: seq<Event>,
                            s: State, found: State, now: State)
  {
    && trace == es + [Begin(duel, winner)] + fs && fs != [] && Effective(g, EMPTY, trace)
    && Reaches(g, es, s) && Reaches(g, trace[..|trace| - 1], found) && Reaches(g, trace, now)
  }

  lemma QuietOwn(started: seq<Event>, fs: seq<Event>, trace: seq<Event>, g: Curve, found: State, now: State,
                 t: nat, duel: int, winner: int, world: World, reply: Reply)
    requires trace == started + fs && fs != [] && t < |now.txs| && Quiet(world)
    requires Continues(started, trace[..|trace| - 1], t, world)
    requires ReplyHolds(g, found, now, Last(trace), t, duel, winner, world, reply)
    ensures OwnRun(fs, t, found) && Last(trace) == Last(fs)
  {
    QuietReply(g, found, now, Last(trace), t, duel, winner, world, reply);
    QuietTraceIsOwn(started, fs, t, world, found);
  }

  lemma CallFromBegin(g: Curve, es: seq<Event>, duel: int, winner: int, fs: seq<Event>, trace: seq<Event>,
                      s: State, found: State, now: State)
    requires CallTrace(g, es, duel, winner, fs, trace, s, found, now)
    ensures var begun := Step(g, s, Begin(duel, winner));
            Effective(g, begun, fs) && found == Run(g, begun, fs[..|fs| - 1]) && now == Run(g, begun, fs)
    ensures Inv(g, s)
  {
    ReachableInv(g, es);
    FromBegin(g, es, duel, winner, fs);
    FoundFromBegin(g, es, duel, winner, fs, trace);
  }

  lemma QuietCall(g: Curve, es: seq<Event>, duel: int, winner: int, fs: seq<Event>, trace: seq<Event>,
                  s: State, found: State, now: State, world: World, reply: Reply)
    requires CallTrace(g, es, duel, winner, fs, trace, s, found, now) && |s.txs| < |now.txs|
    requires Continues(es + [Begin(duel, winner)], trace[..|trace| - 1], |s.txs|, world)
    requires ReplyHolds(g, found, now, Last(trace), |s.txs|, duel, winner, world, reply)
    requires Quiet(world) && Unlocked(s, duel)
    ensures DuelsOk(s.db) && reply == SerialReply(g, s.db, s.nextSeq, duel, winner)
    ensures Answered(g, s.db, s.nextSeq, duel, winner, now, |s.txs|)
  {
    QuietOwn(es + [Begin(duel, winner)], fs, trace, g, found, now, |s.txs|, duel, winner, world, reply);
    CallFromBegin(g, es, duel, winner, fs, trace, s, found, now);
    AloneIsSerial(g, s, fs, found, now, duel, winner, world, reply);
  }

  lemma FailedCall(g: Curve, es: seq<Event>, duel: int, winner: int, fs: seq<Event>, trace: seq<Event>,
                   s: State, found: State, now: State)
    requires CallTrace(g, es, duel, winner, fs, trace, s, found, now)
    requires |s.txs| < |now.txs| && !now.txs[|s.txs|].phase.Committed?
    ensures |s.txs| < |Step(g, s, Begin(duel, winner)).txs|
    ensures Traceless(g, Step(g, s, Begin(duel, winner)), |s.txs|, fs, now)
  {
    CallFromBegin(g, es, duel, winner, fs, trace, s, found, now);
    FailedCallLeavesNoTrace(g, s, duel, winner, fs);
  }

  lemma CallGrows(g: Curve, es: seq<Event>, duel: int, winner: int, fs: seq<Event>, trace: seq<Event>,
                  s: State, found: State, now: State)
    requires CallTrace(g, es, duel, winner, fs, trace, s, found, now)
    ensures Grows(s.db, found.db) && Grows(s.db, now.db)
    ensures FilmsOk(found.db)
  {
    ReachableInv(g, trace[..|trace| - 1]);
    TraceGrows(g, es, trace);
    TraceGrows(g, es, trace[..|trace| - 1]);
  }

  lemma StoredNewly(g: Curve, s: State, found: State, now: State, last: Event, t: nat, duel: int, winner: int,
                    world: World, reply: Reply)
    requires t < |now.txs| && ReplyHolds(g, found, now, last, t, duel, winner, world, reply) && reply.VoteStored?
    requires Grows(s.db, found.db) && FilmsOk(found.db)
    ensures StoredInFull(found.db, now.db, reply.vote)
    ensures PaidAtOdds(g, found.db.films, reply.vote)
    ensures reply.vote.duel == duel && reply.vote.winner == winner && !DuelVoted(s.db.votes, duel)
  {
    AppliedInFull(g, found.db, now.db, duel, winner, reply.vote);
    AppliedIsPaid(g, found.db, now.db, duel, winner, reply.vote);
  }

  /** What a call means.  It was begun in `s` as transaction |s.txs|, `events` is what
      happened from there on, its own steps among those of others, its last statement ran in
      the state `found` and left `now`. */
  ghost predicate CallMeans(g: Curve, s: State, events: seq<Event>, found: State, now: State,
                            duel: int, winner: int, world: World, reply: Reply)
  {
    var begun := Step(g, s, Begin(duel, winner));
    var t := |s.txs|;
    && t < |begun.txs| && t < |now.txs| && now.txs[t].Finished()
    && Grows(s.db, now.db)
    // success: the vote the films' rows call for is stored, with both counts and ratings
    && (reply.VoteStored? ==>
          && now.txs[t].phase == Committed(reply.vote)
          && VoteApplied(g, found.db, now.db, duel, winner, reply.vote)
          && StoredInFull(found.db, now.db, reply.vote)
          && PaidAtOdds(g, found.db.films, reply.vote)
          && Unharmed(world, 0, STEPS)
          && reply.vote.duel == duel && reply.vote.winner == winner
          && !DuelVoted(s.db.votes, duel))
    // refusal: by the tables, or because the call was hindered
    && (reply.Refused? ==>
          && now.txs[t].phase == RolledBack(reply.error)
          && (Refusal(now.db, duel, winner) == Some(reply.error)
              || (reply.error == DatabaseFailure && Hindered(found, t, world))))
    && (reply.Panicked? ==> PanicRaised(world))
    // failure: the others are where they would be had the call done nothing after its BEGIN
    && (!reply.VoteStored? ==> Traceless(g, begun, t, events, now))
    // alone, it is the serial call
    && (Quiet(world) && Unlocked(s, duel) ==>
          && DuelsOk(s.db)
          && reply == SerialReply(g, s.db, s.nextSeq, duel, winner)
          && Answered(g, s.db, s.nextSeq, duel, winner, now, t))
  }

  lemma CallLaws(g: Curve, es: seq<Event>, duel: int, winner: int, trace: seq<Event>,
                 s: State, found: State, now: State, world: World, reply: Reply)
    requires |es| + 1 < |trace| && CallTrace(g, es, duel, winner, trace[|es| + 1..], trace, s, found, now)
    requires |s.txs| < |now.txs|
    requires Continues(es + [Begin(duel, winner)], trace[..|trace| - 1], |s.txs|, world)
    requires ReplyHolds(g, found, now, Last(trace), |s.txs|, duel, winner, world, reply)
    ensures CallMeans(g, s, trace[|es| + 1..], found, now, duel, winner, world, reply)
  {
    var fs := trace[|es| + 1..];
    CallGrows(g, es, duel, winner, fs, trace, s, found, now);
    if reply.VoteStored? {
      StoredNewly(g, s, found, now, Last(trace), |s.txs|, duel, winner, world, reply);
    } else {
      FailedCall(g, es, duel, winner, fs, trace, s, found, now);
    }
    if Quiet(world) && Unlocked(s, duel) {
      QuietCall(g, es, duel, winner, fs, trace, s, found, now, world, reply);
    }
  }

  lemma TraceShape(es: seq<Event>, b: Event, trace: seq<Event>)
    requires |es| + 1 < |trace| && es + [b] <= trace[..|trace| - 1]
    ensures es + [b] < trace && trace == es + [b] + trace[|es| + 1..]
  {
  }

  lemma TraceOfCall(db: Database, es: seq<Event>, duel: int, winner: int, s: State, found: State, t: nat, world: World)
    requires db.Valid() && Reaches(db.g, es, s) && |es| + 1 < |db.trace|
    requires Reaches(db.g, db.trace[..|db.trace| - 1], found)
    requires Continues(es + [Begin(duel, winner)], db.trace[..|db.trace| - 1], t, world)
    ensures CallTrace(db.g, es, duel, winner, db.trace[|es| + 1..], db.trace, s, found, db.View())
    ensures es + [Begin(duel, winner)] < db.trace
  {
    TraceShape(es, Begin(duel, winner), db.trace);
  }

  method Call(db: Database, duelId: int, winnerId: int, world: World)
    returns (reply: Reply, t: nat, ghost found: State)
    requires db.Valid()
    modifies db
    ensures db.Valid() && t == |old(db.txs)| && t < |db.txs|
    ensures |old(db.trace)| + 1 < |db.trace| && old(db.trace) + [Begin(duelId, winnerId)] < db.trace
    ensures CallTrace(db.g, old(db.trace), duelId, winnerId, db.trace[|old(db.trace)| + 1..], db.trace,
                      old(db.View()), found, db.View())
    ensures Continues(old(db.trace) + [Begin(duelId, winnerId)], db.trace[..|db.trace| - 1], t, world)
    ensures ReplyHolds(db.g, found, db.View(), Last(db.trace), t, duelId, winnerId, world, reply)
  {
    ghost var es, s := db.trace, db.View();
    reply, t, found := ExecTx(db, duelId, winnerId, world);
    TraceOfCall(db, es, duelId, winnerId, s, found, t, world);
  }

  /** The use case: all of its effects when it returns a vote, none when it does not, and one
      transaction of the engine either way. */
  method RegisterVote(db: Database, duelId: int, winnerId: int, world: World)
    returns (reply: Reply, t: nat, ghost found: State)
    requires db.Valid()
    modifies db
    ensures db.Valid() && t == |old(db.txs)| && t < |db.txs|
    ensures old(db.trace) + [Begin(duelId, winnerId)] < db.trace
    ensures CallTrace(db.g, old(db.trace), duelId, winnerId, db.trace[|old(db.trace)| + 1..], db.trace,
                      old(db.View()), found, db.View())
    ensures CallMeans(db.g, old(db.View()), db.trace[|old(db.trace)| + 1..], found, db.View(),
                      duelId, winnerId, world, reply)
  {
    ghost var es, s := db.trace, db.View();
    reply, t, found := Call(db, duelId, winnerId, world);
    CallLaws(db.g, es, duelId, winnerId, db.trace, s, found, db.View(), world, reply);
  }
}
