/** What every step of the engine keeps. */
module Invariant {
  import opened Elo
  import opened Tables
  import opened History
  import opened Engine

  // ---------- the invariant ----------

  /** The films a transaction holds locks on. */
  function Held(tx: Tx): set<int> {
    match tx.phase
    case LowLocked(low) => {low.id}
    case BothLocked(low, high) => {low.id, high.id}
    case Rated(d) => {d.winner, d.loser}
    case Voted(v) => {v.winner, v.loser}
    case WinnerWritten(v) => {v.winner, v.loser}
    case LoserWritten(v) => {v.winner, v.loser}
    case _ => {}
  }

  /** The vote row a transaction has inserted but not committed. */
  function Pending(tx: Tx): Option<VoteRow> {
    match tx.phase
    case Voted(v) => Some(v)
    case WinnerWritten(v) => Some(v)
    case LoserWritten(v) => Some(v)
    case _ => None
  }

  predicate IsPair(d: DuelRow, x: int, y: int) {
    (x == d.filmA && y == d.filmB) || (x == d.filmB && y == d.filmA)
  }

  /** Column ranges and the foreign key of the film table. */
  ghost predicate FilmsOk(db: Db) {
    forall id :: id in db.films ==>
      && -0x8000_0000 <= id <= MAX_INT32
      && 0 <= db.films[id].duelCount <= MAX_INT32
      && db.films[id].popularity >= 0.0
      && db.films[id].director in db.directors
  }

  ghost predicate DuelsOk(db: Db) {
    forall d :: d in db.duels ==>
      db.duels[d].filmA in db.films && db.duels[d].filmB in db.films && db.duels[d].filmA != db.duels[d].filmB
  }

  /** Every vote's films are its duel's two films. */
  ghost predicate VotesOk(db: Db) {
    forall v :: v in db.votes ==> v.duel in db.duels && IsPair(db.duels[v.duel], v.winner, v.loser)
  }

  /** A draft for the transaction's duel and winner, with the ratings that voting on the
      committed table would give. */
  ghost predicate DraftOk(g: Curve, db: Db, tx: Tx, d: Draft) {
    && d.duel == tx.duel && d.winner == tx.winner
    && d.duel in db.duels && IsPair(db.duels[d.duel], d.winner, d.loser)
    && Explained(g, db.films, d.Numbered(0))
  }

  function DraftOf(v: VoteRow): Draft { Draft(v.duel, v.winner, v.loser, v.winnerAfter, v.loserAfter) }

  /** A pending vote is for a duel without a vote, and its number is above that of every
      committed vote naming one of its films. */
  ghost predicate PendingOk(g: Curve, db: Db, nextSeq: nat, tx: Tx, v: VoteRow) {
    && DraftOk(g, db, tx, DraftOf(v))
    && v.appliedSeq < nextSeq
    && !DuelVoted(db.votes, v.duel)
    && db.films[v.winner].duelCount < MAX_INT32 && db.films[v.loser].duelCount < MAX_INT32
    && forall u :: u in db.votes && u.Shares(v) ==> u.appliedSeq < v.appliedSeq
  }

  /** The uncommitted rows after the counts are bumped, and after each rating is written. */
  function Counted(films: Films, v: VoteRow): Films
    requires v.winner in films && v.loser in films
  {
    map[v.winner := Incremented(films[v.winner]), v.loser := Incremented(films[v.loser])]
  }

  function WinnerRow(films: Films, v: VoteRow): FilmRow
    requires v.winner in films
  {
    Incremented(films[v.winner]).(rating := v.winnerAfter)
  }

  function LoserRow(films: Films, v: VoteRow): FilmRow
    requires v.loser in films
  {
    Incremented(films[v.loser]).(rating := v.loserAfter)
  }

  ghost predicate ReadOk(db: Db, r: FilmRating) {
    r.id in db.films && r == Read(db.films, r.id)
  }

  ghost predicate TxOk(g: Curve, db: Db, nextSeq: nat, tx: Tx) {
    match tx.phase
    case Begun => tx.writes == map[]
    case LowLocked(low) =>
      tx.writes == map[] && tx.duel in db.duels && low.id == Low(db.duels[tx.duel]) && ReadOk(db, low)
    case BothLocked(low, high) =>
      && tx.writes == map[] && tx.duel in db.duels
      && low.id == Low(db.duels[tx.duel]) && ReadOk(db, low)
      && high.id == High(db.duels[tx.duel]) && ReadOk(db, high)
    case Rated(d) => tx.writes == map[] && DraftOk(g, db, tx, d)
    case Voted(v) => PendingOk(g, db, nextSeq, tx, v) && tx.writes == Counted(db.films, v)
    case WinnerWritten(v) =>
      && PendingOk(g, db, nextSeq, tx, v)
      && tx.writes == Counted(db.films, v)[v.winner := WinnerRow(db.films, v)]
    case LoserWritten(v) =>
      && PendingOk(g, db, nextSeq, tx, v)
      && tx.writes == map[v.winner := WinnerRow(db.films, v), v.loser := LoserRow(db.films, v)]
    case Committed(v) => tx.writes == map[] && v in db.votes && v.duel == tx.duel && v.winner == tx.winner
    case RolledBack(_) => tx.writes == map[]
  }

  ghost predicate TxsOk(g: Curve, s: State) {
    forall t :: 0 <= t < |s.txs| ==> TxOk(g, s.db, s.nextSeq, s.txs[t])
  }

  /** A film is locked by exactly the transaction whose phase says so. */
  ghost predicate LocksOk(s: State) {
    && (forall f :: f in s.locks ==> s.locks[f] < |s.txs| && f in Held(s.txs[s.locks[f]]))
    && (forall t, f :: 0 <= t < |s.txs| && f in Held(s.txs[t]) ==> f in s.locks && s.locks[f] == t)
  }

  /** The committed table is the outcome of replaying the committed votes on the films as
      they were inserted, and conflicting votes are listed in sequence order. */
  ghost predicate HistoryOk(g: Curve, s: State) {
    && s.born.Keys == s.db.films.Keys
    && (forall f :: f in s.born ==> s.born[f].duelCount == 0)
    && Replay(g, s.born, s.db.votes) == Some(s.db.films)
    && ConflictsOrdered(s.db.votes)
    && (forall v :: v in s.db.votes ==> v.appliedSeq < s.nextSeq)
  }

  /** No two votes for a duel, and no sequence number used twice. */
  ghost predicate Distinct(votes: seq<VoteRow>) {
    forall i, j :: 0 <= i < j < |votes| ==>
      votes[i].duel != votes[j].duel && votes[i].appliedSeq != votes[j].appliedSeq
  }

  /** Numbers of pending votes differ from each other and from those of committed votes. */
  ghost predicate NumbersFresh(s: State) {
    && (forall t, v :: 0 <= t < |s.txs| && Pending(s.txs[t]).Some? && v in s.db.votes ==>
          v.appliedSeq != Pending(s.txs[t]).value.appliedSeq)
    && (forall t, u :: 0 <= t < u < |s.txs| && Pending(s.txs[t]).Some? && Pending(s.txs[u]).Some? ==>
          Pending(s.txs[t]).value.appliedSeq != Pending(s.txs[u]).value.appliedSeq)
  }

  ghost predicate Inv(g: Curve, s: State) {
    && FilmsOk(s.db) && DuelsOk(s.db) && VotesOk(s.db)
    && TxsOk(g, s) && LocksOk(s) && HistoryOk(g, s)
    && Distinct(s.db.votes) && NumbersFresh(s)
  }

  lemma EmptyInv(g: Curve)
    ensures Inv(g, EMPTY)
  {
  }

  // ---------- locks ----------

  lemma LocksAcquired(s: State, t: nat, tx: Tx, f: int)
    requires LocksOk(s) && t < |s.txs| && f !in s.locks
    requires Held(tx) == Held(s.txs[t]) + {f}
    ensures LocksOk(SetTx(s, t, tx).(locks := s.locks[f := t]))
  {
  }

  lemma LocksReleased(s: State, t: nat, tx: Tx)
    requires LocksOk(s) && t < |s.txs| && Held(tx) == {}
    ensures LocksOk(SetTx(s, t, tx).(locks := Release(s.locks, t)))
  {
  }

  lemma LocksUntouched(s: State, t: nat, tx: Tx, after: State)
    requires LocksOk(s) && t < |s.txs| && Held(tx) == Held(s.txs[t])
    requires after.txs == s.txs[t := tx] && after.locks == s.locks
    ensures LocksOk(after)
  {
  }

  /** Two transactions never hold the same film. */
  lemma HeldDisjoint(s: State, t: nat, u: nat)
    requires LocksOk(s) && t < |s.txs| && u < |s.txs| && t != u
    ensures Held(s.txs[t]) !! Held(s.txs[u])
  {
    forall f | f in Held(s.txs[t]) ensures f !in Held(s.txs[u]) {
      assert s.locks[f] == t;
    }
  }

  // ---------- steps that leave the tables alone ----------

  /** A transaction's obligations survive any change of the tables that leaves the films it
      has locked, and the duel it votes on, as they were. */
  lemma TxFrame(g: Curve, db: Db, nextSeq: nat, after: Db, nextSeq': nat, tx: Tx)
    requires TxOk(g, db, nextSeq, tx) && nextSeq <= nextSeq'
    requires forall d :: d in db.duels ==> d in after.duels && after.duels[d] == db.duels[d]
    requires forall f :: f in Held(tx) && f in db.films ==> f in after.films && after.films[f] == db.films[f]
    requires forall v :: v in db.votes ==> v in after.votes
    requires forall v :: v in after.votes && v !in db.votes ==>
               v.duel != tx.duel && v.winner !in Held(tx) && v.loser !in Held(tx)
    ensures TxOk(g, after, nextSeq', tx)
  {
  }

  /** The invariant after a step that changes one transaction and no table. */
  lemma LocalStep(g: Curve, s: State, t: nat, tx: Tx, after: State)
    requires Inv(g, s) && t < |s.txs|
    requires after.db == s.db && after.born == s.born && after.txs == s.txs[t := tx]
    requires s.nextSeq <= after.nextSeq && LocksOk(after)
    requires TxOk(g, s.db, after.nextSeq, tx)
    requires Pending(tx).None? || Pending(tx) == Pending(s.txs[t]) || Pending(tx).value.appliedSeq == s.nextSeq
    ensures Inv(g, after)
  {
    forall u | 0 <= u < |after.txs| ensures TxOk(g, after.db, after.nextSeq, after.txs[u]) {
      if u != t { TxFrame(g, s.db, s.nextSeq, s.db, after.nextSeq, s.txs[u]); }
    }
    forall u | 0 <= u < |s.txs| && Pending(s.txs[u]).Some?
      ensures Pending(s.txs[u]).value.appliedSeq < s.nextSeq
    {
      assert TxOk(g, s.db, s.nextSeq, s.txs[u]);
    }
  }
}
