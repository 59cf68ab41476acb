/** Any number of RegisterVote transactions over one database, interleaved statement by
    statement (internal/vote/register_vote.go, internal/database/database.go and the SQL
    they run).

    The database is read-committed with exclusive row locks held to the end of the
    transaction: uncommitted row versions stay in the transaction that wrote them, and a
    locking read waits for the lock and then returns the latest committed row. */
module Engine {
  import opened Elo
  import opened Tables
  import opened Catalogue

  datatype FilmRating = FilmRating(id: int, rating: real, duelCount: int)

  /** The vote as the closure builds it, before the database gives it a sequence number. */
  datatype Draft = Draft(duel: int, winner: int, loser: int, winnerAfter: real, loserAfter: real)
  {
    function Numbered(n: nat): VoteRow { VoteRow(duel, winner, loser, winnerAfter, loserAfter, n) }
  }

  /** How far a transaction has got, with the local variables it holds there. */
  datatype Phase =
    | Begun
    | LowLocked(low: FilmRating)
    | BothLocked(low: FilmRating, high: FilmRating)
    | Rated(draft: Draft)
    | Voted(vote: VoteRow)
    | WinnerWritten(vote: VoteRow)
    | LoserWritten(vote: VoteRow)
    | Committed(vote: VoteRow)
    | RolledBack(error: Error)

  /** One RegisterVote(duel, winner) call: `writes` are its uncommitted film rows. */
  datatype Tx = Tx(duel: int, winner: int, phase: Phase, writes: Films)
  {
    predicate Finished() { phase.Committed? || phase.RolledBack? }
  }

  /** `locks` maps a locked film to the transaction that holds it, and `born` remembers each
      film's row as it was first inserted (a history variable that no step reads). */
  datatype State = State(db: Db, nextSeq: nat, locks: map<int, nat>, txs: seq<Tx>, born: Films)

  const EMPTY: State := State(EMPTY_DB, 0, map[], [], map[])

  datatype Event =
    | Begin(duel: int, winner: int)
    | Advance(t: nat)
    | Abort(t: nat)
    | CreateDuel(id: int, filmA: int, filmB: int)
    | InsertFilms(params: seq<FilmParams>)
    | BurnSeq

  // ---------- locks ----------

  function Low(d: DuelRow): int { if d.filmA <= d.filmB then d.filmA else d.filmB }

  function High(d: DuelRow): int { if d.filmA <= d.filmB then d.filmB else d.filmA }

  /** The film row a transaction needs a lock on next. */
  function Wanted(s: State, tx: Tx): Option<int> {
    if tx.duel !in s.db.duels then None
    else match tx.phase
         case Begun => Some(Low(s.db.duels[tx.duel]))
         case LowLocked(_) => Some(High(s.db.duels[tx.duel]))
         case _ => None
  }

  predicate Blocked(s: State, t: nat)
    requires t < |s.txs|
  {
    var want := Wanted(s, s.txs[t]);
    want.Some? && want.value in s.locks && s.locks[want.value] != t
  }

  function Release(locks: map<int, nat>, t: nat): map<int, nat> {
    map f | f in locks && locks[f] != t :: locks[f]
  }

  // ---------- the statements of one transaction ----------

  function Read(films: Films, id: int): FilmRating
    requires id in films
  {
    FilmRating(id, films[id].rating, films[id].duelCount)
  }

  function SetTx(s: State, t: nat, tx: Tx): State
    requires t < |s.txs|
  {
    s.(txs := s.txs[t := tx])
  }

  /** ROLLBACK: the uncommitted rows are dropped and the locks released. */
  function Rollback(s: State, t: nat, e: Error): State
    requires t < |s.txs|
  {
    SetTx(s, t, s.txs[t].(phase := RolledBack(e), writes := map[])).(locks := Release(s.locks, t))
  }

  /** SELECT .. ORDER BY films.id FOR UPDATE, up to its first row; fewer than two rows is an
      error. */
  function LockLow(s: State, t: nat): State
    requires t < |s.txs|
  {
    var tx := s.txs[t];
    if tx.duel !in s.db.duels then Rollback(s, t, NotEnoughFilms)
    else
      var d := s.db.duels[tx.duel];
      if Low(d) !in s.db.films || High(d) !in s.db.films || Low(d) == High(d) then Rollback(s, t, NotEnoughFilms)
      else
        SetTx(s, t, tx.(phase := LowLocked(Read(s.db.films, Low(d))))).(locks := s.locks[Low(d) := t])
  }

  /** The second row of the same SELECT. */
  function LockHigh(s: State, t: nat): State
    requires t < |s.txs| && s.txs[t].phase.LowLocked?
  {
    var tx := s.txs[t];
    if tx.duel !in s.db.duels || High(s.db.duels[tx.duel]) !in s.db.films then Rollback(s, t, NotEnoughFilms)
    else
      var high := High(s.db.duels[tx.duel]);
      SetTx(s, t, tx.(phase := BothLocked(tx.phase.low, Read(s.db.films, high)))).(locks := s.locks[high := t])
  }

  /** The vote the closure builds for a winner and a loser. */
  function DraftVote(g: Curve, duel: int, winner: FilmRating, loser: FilmRating): Draft {
    var (w, l) := CalculateRatings(g, winner.rating, loser.rating,
                                   FilmK(winner.duelCount), FilmK(loser.duelCount));
    Draft(duel, winner.id, loser.id, w, l)
  }

  /** The switch on winnerId and the rating calculation. */
  function Rate(g: Curve, s: State, t: nat): State
    requires t < |s.txs| && s.txs[t].phase.BothLocked?
  {
    var tx := s.txs[t];
    var (low, high) := (tx.phase.low, tx.phase.high);
    if tx.winner == low.id then SetTx(s, t, tx.(phase := Rated(DraftVote(g, tx.duel, low, high))))
    else if tx.winner == high.id then SetTx(s, t, tx.(phase := Rated(DraftVote(g, tx.duel, high, low))))
    else Rollback(s, t, FilmNotInDuel)
  }

  predicate DuelVoted(votes: seq<VoteRow>, duel: int) {
    exists v :: v in votes && v.duel == duel
  }

  /** The row version a transaction sees: its own write, or the committed row. */
  predicate Visible(s: State, tx: Tx, id: int) { id in tx.writes || id in s.db.films }

  function Version(s: State, tx: Tx, id: int): FilmRow
    requires Visible(s, tx, id)
  {
    if id in tx.writes then tx.writes[id] else s.db.films[id]
  }

  function Incremented(row: FilmRow): FilmRow { row.(duelCount := row.duelCount + 1) }

  /** What makes the InsertVote statement fail, in the order of the schema's constraints. */
  function InsertError(s: State, tx: Tx, d: Draft): Option<Error> {
    if DuelVoted(s.db.votes, d.duel) then Some(DuplicateEntry)
    else if d.winner == d.loser || d.duel !in s.db.duels then Some(DatabaseFailure)
    else if !Visible(s, tx, d.winner) || !Visible(s, tx, d.loser) then Some(DatabaseFailure)
    else if Version(s, tx, d.winner).duelCount >= MAX_INT32 || Version(s, tx, d.loser).duelCount >= MAX_INT32
    then Some(DatabaseFailure)
    else None
  }

  /** InsertVote: both duel counts and the vote row in one statement.  The sequence is
      drawn, and stays drawn, whether or not a constraint then fails. */
  function InsertVote(s: State, t: nat): State
    requires t < |s.txs| && s.txs[t].phase.Rated?
  {
    var tx := s.txs[t];
    var d := tx.phase.draft;
    var drawn := s.(nextSeq := s.nextSeq + 1);
    var err := InsertError(s, tx, d);
    if err.Some? then Rollback(drawn, t, err.value)
    else
      SetTx(drawn, t, tx.(phase := Voted(d.Numbered(s.nextSeq)),
                          writes := tx.writes[d.winner := Incremented(Version(s, tx, d.winner))]
                                             [d.loser := Incremented(Version(s, tx, d.loser))]))
  }

  /** UPDATE films SET rating = $1 WHERE id = $2 RETURNING id, then on to `next`. */
  function WriteRating(s: State, t: nat, id: int, rating: real, next: Phase): State
    requires t < |s.txs|
  {
    var tx := s.txs[t];
    if !Visible(s, tx, id) then Rollback(s, t, FilmNotFound)
    else SetTx(s, t, tx.(phase := next, writes := tx.writes[id := Version(s, tx, id).(rating := rating)]))
  }

  /** COMMIT: everything the transaction wrote becomes visible at once. */
  function Commit(s: State, t: nat): State
    requires t < |s.txs| && s.txs[t].phase.LoserWritten?
  {
    var tx := s.txs[t];
    var v := tx.phase.vote;
    SetTx(s, t, tx.(phase := Committed(v), writes := map[]))
      .(db := s.db.(films := s.db.films + tx.writes, votes := s.db.votes + [v]), locks := Release(s.locks, t))
  }

  function AdvanceTx(g: Curve, s: State, t: nat): State
    requires t < |s.txs| && !s.txs[t].Finished()
  {
    match s.txs[t].phase
    case Begun => LockLow(s, t)
    case LowLocked(_) => LockHigh(s, t)
    case BothLocked(_, _) => Rate(g, s, t)
    case Rated(_) => InsertVote(s, t)
    case Voted(v) => WriteRating(s, t, v.winner, v.winnerAfter, WinnerWritten(v))
    case WinnerWritten(v) => WriteRating(s, t, v.loser, v.loserAfter, LoserWritten(v))
    case LoserWritten(_) => Commit(s, t)
  }

  // ---------- runs ----------

  predicate Enabled(s: State, e: Event) {
    match e
    case Begin(_, _) => true
    case Advance(t) => t < |s.txs| && !s.txs[t].Finished() && !Blocked(s, t)
    case Abort(t) => t < |s.txs| && !s.txs[t].Finished()
    case CreateDuel(id, a, b) => id !in s.db.duels && a in s.db.films && b in s.db.films && a != b
    case InsertFilms(ps) => RunBatch(s.db, ps).err.None?
    case BurnSeq => true
  }

  /** One step.  An event that is not enabled (a blocked or finished transaction, a duel or
      batch the constraints refuse) changes nothing. */
  function Step(g: Curve, s: State, e: Event): State {
    if !Enabled(s, e) then s
    else
      match e
      case Begin(duel, winner) => s.(txs := s.txs + [Tx(duel, winner, Begun, map[])])
      case Advance(t) => AdvanceTx(g, s, t)
      case Abort(t) => Rollback(s, t, DatabaseFailure)
      case CreateDuel(id, a, b) => s.(db := s.db.(duels := s.db.duels[id := DuelRow(a, b)]))
      case InsertFilms(ps) =>
        var after := RunBatch(s.db, ps).db;
        s.(db := after, born := after.films + s.born)
      case BurnSeq => s.(nextSeq := s.nextSeq + 1)
  }

  function Run(g: Curve, s: State, es: seq<Event>): State
    decreases |es|
  {
    if es == [] then s else Step(g, Run(g, s, es[..|es| - 1]), es[|es| - 1])
  }

  /** Every event of the run is enabled when its turn comes. */
  predicate Effective(g: Curve, s: State, es: seq<Event>)
    decreases |es|
  {
    es == [] || (Effective(g, s, es[..|es| - 1]) && Enabled(Run(g, s, es[..|es| - 1]), es[|es| - 1]))
  }

  lemma RunSnoc(g: Curve, s: State, es: seq<Event>, e: Event)
    ensures Run(g, s, es + [e]) == Step(g, Run(g, s, es), e)
    ensures Effective(g, s, es + [e]) <==> Effective(g, s, es) && Enabled(Run(g, s, es), e)
  {
    assert (es + [e])[..|es + [e]| - 1] == es;
  }

  lemma {:induction false} RunConcat(g: Curve, s: State, es: seq<Event>, fs: seq<Event>)
    ensures Run(g, s, es + fs) == Run(g, Run(g, s, es), fs)
    ensures Effective(g, s, es + fs) <==> Effective(g, s, es) && Effective(g, Run(g, s, es), fs)
    decreases |fs|
  {
    if fs == [] {
      assert es + fs == es;
    } else {
      var n := |fs| - 1;
      RunConcat(g, s, es, fs[..n]);
      RunSnoc(g, s, es + fs[..n], fs[n]);
      assert es + fs == (es + fs[..n]) + [fs[n]];
    }
  }
}
