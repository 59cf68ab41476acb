/** The database in the imperative form of the source: tables that statements update in
    place, and the batch insert of the catalogue.  `RegisterVote` drives it.

    `trace` records the events of the engine that the statements amount to, so that every
    law of `Runs`, `Progress` and `Atomicity` is a law of these tables. */
module Server {
  import opened Elo
  import opened Tables
  import opened Catalogue
  import opened Engine
  import opened Invariant
  import opened Preservation

  /** One film as the caller passes it, before the conversions of InsertFilmBatch. */
  datatype FilmInput = FilmInput(id: int, rating: real, popularity: real, director: int, checksPass: bool)

  /** The parameters InsertFilmBatch sends: ids cut to int32, and a zero rating replaced. */
  function ParamsOf(f: FilmInput): FilmParams {
    FilmParams(ToInt32(f.id), if f.rating == 0.0 then STD_RATING else f.rating,
               f.popularity, ToInt32(f.director), f.checksPass)
  }

  function AllParams(films: seq<FilmInput>): seq<FilmParams> {
    seq(|films|, i requires 0 <= i < |films| => ParamsOf(films[i]))
  }

  /** A film that arrives without a rating is stored with the standard one: no batch ever
      stores a rating of zero. */
  lemma NoFilmStoredUnrated(db: Db, input: seq<FilmInput>, id: int)
    requires RunBatch(db, AllParams(input)).err.None?
    requires id in RunBatch(db, AllParams(input)).db.films && id !in db.films
    ensures RunBatch(db, AllParams(input)).db.films[id].rating != 0.0
  {
    BatchInsertsAbsent(db, AllParams(input));
    FirstRowIsRated(AllParams(input), id);
  }

  lemma {:induction false} FirstRowIsRated(ps: seq<FilmParams>, id: int)
    requires FirstRow(ps, id).Some? && forall i :: 0 <= i < |ps| ==> ps[i].rating != 0.0
    ensures FirstRow(ps, id).value.rating != 0.0
    decreases |ps|
  {
    if ps[0].id != id {
      FirstRowIsRated(ps[1..], id);
    }
  }

  /** The ids that a list of films brings, as the column stores them. */
  function InputIds(input: seq<FilmInput>): set<int> {
    set i | 0 <= i < |input| :: ToInt32(input[i].id)
  }

  /** `row` is what film `f` is stored as: a film without a rating gets 1400, and none has
      had a duel. */
  predicate StoredAs(f: FilmInput, row: FilmRow) {
    && row.rating == (if f.rating == 0.0 then 1400.0 else f.rating)
    && row.popularity == f.popularity
    && row.director == ToInt32(f.director)
    && row.duelCount == 0
  }

  /** Film i is the first of the list with this id, and the row is its own. */
  predicate IsFirstOf(input: seq<FilmInput>, i: nat, id: int, row: FilmRow) {
    && i < |input| && ToInt32(input[i].id) == id && StoredAs(input[i], row)
    && forall j :: 0 <= j < i ==> ToInt32(input[j].id) != id
  }

  /** What a batch leaves, in terms of the films the caller passed: existing films are as they
      were, and every other id of the list has the row of the first film that brought it. */
  ghost predicate StoresInput(before: Db, input: seq<FilmInput>, after: Db) {
    && after.films.Keys == before.films.Keys + InputIds(input)
    && (forall id :: id in before.films ==> after.films[id] == before.films[id])
    && (forall id :: id in after.films && id !in before.films ==>
          exists i: nat :: IsFirstOf(input, i, id, after.films[id]))
    && after.duels == before.duels && after.votes == before.votes
  }

  lemma ParamsIds(input: seq<FilmInput>)
    ensures Ids(AllParams(input)) == InputIds(input)
  {
    var ps := AllParams(input);
    forall id ensures id in Ids(ps) <==> id in InputIds(input) {
      IdsAreAll(ps, id);
      if i :| 0 <= i < |ps| && ps[i].id == id {
        assert ToInt32(input[i].id) in InputIds(input);
      }
      if id in InputIds(input) {
        var i :| 0 <= i < |input| && ToInt32(input[i].id) == id;
        assert ps[i].id == id;
      }
    }
  }

  lemma NewRowIsFirst(input: seq<FilmInput>, id: int, row: FilmRow)
    requires FirstRow(AllParams(input), id) == Some(row)
    ensures exists i: nat :: IsFirstOf(input, i, id, row)
  {
    var i := FirstRowIsFirst(AllParams(input), id);
    forall j | 0 <= j < i ensures ToInt32(input[j].id) != id {
      assert AllParams(input)[j].id != id;
    }
    assert IsFirstOf(input, i, id, row);
  }

  /** A batch without error stores the caller's films. */
  lemma BatchStoresInput(db: Db, input: seq<FilmInput>)
    requires RunBatch(db, AllParams(input)).err.None?
    ensures StoresInput(db, input, RunBatch(db, AllParams(input)).db)
    ensures RunBatch(db, AllParams(input)).inserted == |InputIds(input) - db.films.Keys|
  {
    var after := RunBatch(db, AllParams(input)).db;
    BatchInsertsAbsent(db, AllParams(input));
    ParamsIds(input);
    forall id | id in after.films && id !in db.films ensures exists i: nat :: IsFirstOf(input, i, id, after.films[id]) {
      NewRowIsFirst(input, id, after.films[id]);
    }
  }

  /** It errs exactly when one of them fails a check of the schema. */
  lemma BatchErrsOnInput(db: Db, input: seq<FilmInput>)
    ensures RunBatch(db, AllParams(input)).err.None?
            <==> forall i :: 0 <= i < |input| ==> input[i].checksPass && input[i].popularity >= 0.0
  {
    var ps := AllParams(input);
    BatchFailsIffInvalid(db, ps);
    assert AllValid(ps) <==> forall i :: 0 <= i < |ps| ==> ps[i].Valid();
    assert forall i :: 0 <= i < |ps| ==> ps[i] == ParamsOf(input[i]);
    if forall i :: 0 <= i < |ps| ==> ps[i].Valid() {
      forall i | 0 <= i < |input| ensures input[i].checksPass && input[i].popularity >= 0.0 {
        assert ps[i].Valid();
      }
    }
  }

  // ---------- what a transaction may rely on at each statement ----------

  lemma BegunFacts(g: Curve, es: seq<Event>, t: nat)
    requires t < |Run(g, EMPTY, es).txs| && Run(g, EMPTY, es).txs[t].phase.Begun?
    requires Run(g, EMPTY, es).txs[t].duel in Run(g, EMPTY, es).db.duels
    ensures var db := Run(g, EMPTY, es).db;
            var d := db.duels[Run(g, EMPTY, es).txs[t].duel];
            Low(d) in db.films && High(d) in db.films && Low(d) != High(d)
  {
    ReachableInv(g, es);
  }

  lemma LowLockedFacts(g: Curve, es: seq<Event>, t: nat)
    requires t < |Run(g, EMPTY, es).txs| && Run(g, EMPTY, es).txs[t].phase.LowLocked?
    ensures var db := Run(g, EMPTY, es).db;
            var tx := Run(g, EMPTY, es).txs[t];
            tx.duel in db.duels && High(db.duels[tx.duel]) in db.films
  {
    ReachableInv(g, es);
    var s := Run(g, EMPTY, es);
    assert TxOk(g, s.db, s.nextSeq, s.txs[t]);
  }

  lemma BothLockedFacts(g: Curve, es: seq<Event>, t: nat)
    requires t < |Run(g, EMPTY, es).txs| && Run(g, EMPTY, es).txs[t].phase.BothLocked?
    ensures var db := Run(g, EMPTY, es).db;
            var tx := Run(g, EMPTY, es).txs[t];
            tx.duel in db.duels && IsPair(db.duels[tx.duel], tx.phase.low.id, tx.phase.high.id)
  {
    ReachableInv(g, es);
    var s := Run(g, EMPTY, es);
    assert TxOk(g, s.db, s.nextSeq, s.txs[t]);
  }

  lemma RatedFacts(g: Curve, es: seq<Event>, t: nat)
    requires t < |Run(g, EMPTY, es).txs| && Run(g, EMPTY, es).txs[t].phase.Rated?
    ensures var s := Run(g, EMPTY, es);
            var tx := s.txs[t];
            var d := tx.phase.draft;
            && d.duel == tx.duel && d.winner == tx.winner && tx.writes == map[]
            && d.winner in s.db.films && d.loser in s.db.films
            && ToInt32(d.winner) == d.winner && ToInt32(d.loser) == d.loser
            && InsertError(s, tx, d)
               == if DuelVoted(s.db.votes, d.duel) then Some(DuplicateEntry)
                  else if s.db.films[d.winner].duelCount >= MAX_INT32 || s.db.films[d.loser].duelCount >= MAX_INT32
                  then Some(DatabaseFailure)
                  else None
  {
    ReachableInv(g, es);
    var s := Run(g, EMPTY, es);
    assert TxOk(g, s.db, s.nextSeq, s.txs[t]);
  }

  /** The rows that the rating updates address are the transaction's own. */
  lemma VotedFacts(g: Curve, es: seq<Event>, t: nat)
    requires t < |Run(g, EMPTY, es).txs| && Pending(Run(g, EMPTY, es).txs[t]).Some?
    ensures var s := Run(g, EMPTY, es);
            var v := Pending(s.txs[t]).value;
            && v.duel == s.txs[t].duel && v.winner == s.txs[t].winner
            && v.winner in s.txs[t].writes && v.loser in s.txs[t].writes
            && ToInt32(v.winner) == v.winner && ToInt32(v.loser) == v.loser
  {
    ReachableInv(g, es);
    var s := Run(g, EMPTY, es);
    assert TxOk(g, s.db, s.nextSeq, s.txs[t]);
  }

  lemma BornKeepsRows(g: Curve, es: seq<Event>)
    ensures Run(g, EMPTY, es).db.films + Run(g, EMPTY, es).born == Run(g, EMPTY, es).born
  {
    ReachableInv(g, es);
  }

  predicate IsUpdating(p: Phase) { p.Voted? || p.WinnerWritten? }

  /** The rating update that comes next, and the phase it leads to. */
  function NextRating(p: Phase): (int, real)
    requires IsUpdating(p)
  {
    if p.Voted? then (p.vote.winner, p.vote.winnerAfter) else (p.vote.loser, p.vote.loserAfter)
  }

  function AfterUpdate(p: Phase): Phase
    requires IsUpdating(p)
  {
    if p.Voted? then WinnerWritten(p.vote) else LoserWritten(p.vote)
  }

  class Database {
    const g: Curve
    var directors: set<int>
    var films: Films
    var duels: map<int, DuelRow>
    var votes: seq<VoteRow>
    var nextSeq: nat
    var locks: map<int, nat>
    var txs: seq<Tx>
    var born: Films
    ghost var trace: seq<Event>

    function Tables(): Db
      reads this
    {
      Db(directors, films, duels, votes)
    }

    function View(): State
      reads this
    {
      State(Tables(), nextSeq, locks, txs, born)
    }

    /** The tables are what the recorded events produce from an empty database. */
    ghost predicate Valid()
      reads this
    {
      Effective(g, EMPTY, trace) && View() == Run(g, EMPTY, trace)
    }

    /** Rolling back t with error e is all that is missing from the step `ev`. */
    ghost predicate Failing(t: nat, e: Error, ev: Event)
      reads this
    {
      && (ev == Advance(t) || ev == Abort(t))
      && t < |txs|
      && Effective(g, EMPTY, trace) && Enabled(Run(g, EMPTY, trace), ev)
      && Step(g, Run(g, EMPTY, trace), ev) == Rollback(View(), t, e)
    }

    constructor (g: Curve)
      ensures Valid() && View() == EMPTY && trace == [] && this.g == g
    {
      this.g := g;
      directors, films, duels, votes := {}, map[], map[], [];
      nextSeq, locks, txs, born := 0, map[], [], map[];
      trace := [];
    }

    // ---------- transactions ----------

    method BeginTx(duel: int, winner: int) returns (t: nat)
      requires Valid()
      modifies this
      ensures Valid() && t == |old(txs)| && trace == old(trace) + [Begin(duel, winner)]
      ensures View() == Step(g, old(View()), Begin(duel, winner))
    {
      RunSnoc(g, EMPTY, trace, Begin(duel, winner));
      t := |txs|;
      txs := txs + [Tx(duel, winner, Begun, map[])];
      trace := trace + [Begin(duel, winner)];
    }

    method RollbackTx(t: nat, e: Error, ghost ev: Event)
      requires Failing(t, e, ev)
      modifies this
      ensures Valid() && trace == old(trace) + [ev]
      ensures View() == Rollback(old(View()), t, e)
    {
      RunSnoc(g, EMPTY, trace, ev);
      txs := txs[t := txs[t].(phase := RolledBack(e), writes := map[])];
      locks := Release(locks, t);
      trace := trace + [ev];
    }

    method CommitTx(t: nat)
      requires Valid() && t < |txs| && txs[t].phase.LoserWritten?
      modifies this
      ensures Valid() && trace == old(trace) + [Advance(t)]
      ensures View() == Commit(old(View()), t)
    {
      RunSnoc(g, EMPTY, trace, Advance(t));
      var tx := txs[t];
      films := films + tx.writes;
      votes := votes + [tx.phase.vote];
      txs := txs[t := tx.(phase := Committed(tx.phase.vote), writes := map[])];
      locks := Release(locks, t);
      trace := trace + [Advance(t)];
    }

    // ---------- statements of a vote ----------

    method LockLowRow(t: nat) returns (err: Option<Error>)
      requires Valid() && Enabled(View(), Advance(t)) && txs[t].phase.Begun?
      modifies this
      ensures err.None? ==> Valid() && trace == old(trace) + [Advance(t)] && View() == LockLow(old(View()), t)
      ensures err.None? ==> txs[t].phase.LowLocked?
      ensures err.Some? ==> Failing(t, err.value, Advance(t)) && trace == old(trace) && View() == old(View())
      ensures err.Some? ==> err.value == NotEnoughFilms && txs[t].duel !in duels
    {
      RunSnoc(g, EMPTY, trace, Advance(t));
      var tx := txs[t];
      if tx.duel !in duels {
        return Some(NotEnoughFilms);
      }
      BegunFacts(g, trace, t);
      var low := Low(duels[tx.duel]);
      locks := locks[low := t];
      txs := txs[t := tx.(phase := LowLocked(Read(films, low)))];
      trace := trace + [Advance(t)];
      return None;
    }

    method LockHighRow(t: nat)
      requires Valid() && Enabled(View(), Advance(t)) && txs[t].phase.LowLocked?
      modifies this
      ensures Valid() && trace == old(trace) + [Advance(t)] && View() == LockHigh(old(View()), t)
      ensures txs[t].phase.BothLocked?
    {
      LowLockedFacts(g, trace, t);
      RunSnoc(g, EMPTY, trace, Advance(t));
      var tx := txs[t];
      var high := High(duels[tx.duel]);
      locks := locks[high := t];
      txs := txs[t := tx.(phase := BothLocked(tx.phase.low, Read(films, high)))];
      trace := trace + [Advance(t)];
    }

    /** The closure's own computation; it touches no table. */
    method RateVote(t: nat) returns (err: Option<Error>)
      requires Valid() && t < |txs| && txs[t].phase.BothLocked?
      modifies this
      ensures err.None? ==> Valid() && trace == old(trace) + [Advance(t)] && View() == Rate(g, old(View()), t)
      ensures err.None? ==> txs[t].phase.Rated?
      ensures err.Some? ==> Failing(t, err.value, Advance(t)) && trace == old(trace) && View() == old(View())
      ensures err.Some? ==> && err.value == FilmNotInDuel && txs[t].duel in duels
                            && txs[t].winner != duels[txs[t].duel].filmA && txs[t].winner != duels[txs[t].duel].filmB
    {
      BothLockedFacts(g, trace, t);
      RunSnoc(g, EMPTY, trace, Advance(t));
      var tx := txs[t];
      var ratings := [tx.phase.low, tx.phase.high];
      var winner, loser;
      if tx.winner == ratings[0].id {
        winner, loser := ratings[0], ratings[1];
      } else if tx.winner == ratings[1].id {
        winner, loser := ratings[1], ratings[0];
      } else {
        return Some(FilmNotInDuel);
      }
      var (newWinnerRating, newLoserRating) :=
        CalculateRatings(g, winner.rating, loser.rating, FilmK(winner.duelCount), FilmK(loser.duelCount));
      var vote := Draft(tx.duel, tx.winner, loser.id, newWinnerRating, newLoserRating);
      txs := txs[t := tx.(phase := Rated(vote))];
      trace := trace + [Advance(t)];
      return None;
    }

    method InsertVoteRow(t: nat) returns (err: Option<Error>)
      requires Valid() && t < |txs| && txs[t].phase.Rated?
      modifies this
      ensures err.None? ==> Valid() && trace == old(trace) + [Advance(t)] && View() == InsertVote(old(View()), t)
      ensures err.None? ==> txs[t].phase.Voted?
      ensures err.Some? ==> Failing(t, err.value, Advance(t)) && trace == old(trace)
      ensures err.Some? ==> View() == old(View()).(nextSeq := old(nextSeq) + 1)
      ensures err == InsertError(old(View()), old(txs[t]), old(txs[t].phase.draft))
      ensures err == Some(DuplicateEntry) <==> DuelVoted(old(votes), old(txs[t].duel))
      ensures err.Some? ==> err.value == DuplicateEntry || err.value == DatabaseFailure
    {
      RatedFacts(g, trace, t);
      RunSnoc(g, EMPTY, trace, Advance(t));
      var tx := txs[t];
      var vote := tx.phase.draft;
      var (winnerId, loserId) := (ToInt32(vote.winner), ToInt32(vote.loser));
      var number := nextSeq;
      nextSeq := nextSeq + 1;
      if DuelVoted(votes, vote.duel) {
        return Some(DuplicateEntry);
      }
      if films[winnerId].duelCount >= MAX_INT32 || films[loserId].duelCount >= MAX_INT32 {
        return Some(DatabaseFailure);
      }
      txs := txs[t := tx.(phase := Voted(vote.Numbered(number)),
                          writes := map[winnerId := Incremented(films[winnerId]),
                                        loserId := Incremented(films[loserId])])];
      trace := trace + [Advance(t)];
      return None;
    }

    /** One statement of the UpdateFilmRatings batch; by the invariant its row exists. */
    method UpdateRatingRow(t: nat, id: int, rating: real)
      requires Valid() && t < |txs| && IsUpdating(txs[t].phase) && (id, rating) == NextRating(txs[t].phase)
      modifies this
      ensures Valid() && trace == old(trace) + [Advance(t)] && View() == AdvanceTx(g, old(View()), t)
      ensures txs[t].phase == AfterUpdate(old(txs[t].phase))
      ensures txs[t].duel == old(txs[t].duel) && txs[t].winner == old(txs[t].winner)
    {
      VotedFacts(g, trace, t);
      RunSnoc(g, EMPTY, trace, Advance(t));
      var tx := txs[t];
      txs := txs[t := tx.(phase := AfterUpdate(tx.phase), writes := tx.writes[id := tx.writes[id].(rating := rating)])];
      trace := trace + [Advance(t)];
    }

    // ---------- the other writers ----------

    method CreateDuelRow(id: int, filmA: int, filmB: int) returns (ok: bool)
      requires Valid()
      modifies this
      ensures ok == Enabled(old(View()), CreateDuel(id, filmA, filmB))
      ensures Valid() && View() == Step(g, old(View()), CreateDuel(id, filmA, filmB))
      ensures trace == if ok then old(trace) + [CreateDuel(id, filmA, filmB)] else old(trace)
    {
      RunSnoc(g, EMPTY, trace, CreateDuel(id, filmA, filmB));
      ok := id !in duels && filmA in films && filmB in films && filmA != filmB;
      if ok {
        duels := duels[id := DuelRow(filmA, filmB)];
        trace := trace + [CreateDuel(id, filmA, filmB)];
      }
    }

    /** A sequence value drawn by someone whose row is never committed. */
    method DrawSeq()
      requires Valid()
      modifies this
      ensures Valid() && View() == Step(g, old(View()), BurnSeq) && trace == old(trace) + [BurnSeq]
    {
      RunSnoc(g, EMPTY, trace, BurnSeq);
      ghost var before := View();
      assert Step(g, before, BurnSeq) == before.(nextSeq := before.nextSeq + 1);
      nextSeq := nextSeq + 1;
      trace := trace + [BurnSeq];
      assert View() == before.(nextSeq := before.nextSeq + 1);
    }

    /** The batch and the commit of its implicit transaction, which keeps its rows only if
        no statement failed. */
    method InsertParams(args: seq<FilmParams>) returns (inserted: nat, err: Option<Error>)
      requires Valid()
      modifies this
      ensures var out := RunBatch(old(Tables()), args);
              inserted == out.inserted && err == out.err && Tables() == out.db
      ensures Valid() && View() == Step(g, old(View()), InsertFilms(args))
      ensures trace == if err.None? then old(trace) + [InsertFilms(args)] else old(trace)
    {
      RunSnoc(g, EMPTY, trace, InsertFilms(args));
      BatchFailsIffInvalid(Tables(), args);
      var after: Db;
      after, inserted, err := QueryRows(Tables(), args);
      if err.None? {
        BatchInsertsAbsent(Tables(), args);
        directors, films, born := after.directors, after.films, after.films + born;
        trace := trace + [InsertFilms(args)];
      }
    }

    /** InsertFilmBatch of the film repository. */
    method InsertFilmBatch(input: seq<FilmInput>) returns (inserted: nat, err: Option<Error>)
      requires Valid()
      modifies this
      ensures var out := RunBatch(old(Tables()), AllParams(input));
              inserted == out.inserted && err == out.err && Tables() == out.db
      ensures err.None? <==> forall i :: 0 <= i < |input| ==> input[i].checksPass && input[i].popularity >= 0.0
      ensures err.Some? ==> View() == old(View())
      ensures err.None? ==> StoresInput(old(Tables()), input, Tables())
                            && inserted == |InputIds(input) - old(films).Keys|
      ensures Valid() && View() == Step(g, old(View()), InsertFilms(AllParams(input)))
      ensures trace == if err.None? then old(trace) + [InsertFilms(AllParams(input))] else old(trace)
    {
      ghost var before := Tables();
      BatchErrsOnInput(before, input);
      if |input| == 0 {
        InsertNothing(input);
        inserted, err := 0, None;
      } else {
        var args := BuildParams(input);
        inserted, err := InsertParams(args);
      }
      if err.None? {
        BatchStoresInput(before, input);
      }
    }

    ghost method InsertNothing(input: seq<FilmInput>)
      requires Valid() && input == []
      modifies this`trace
      ensures Valid() && View() == old(View()) && trace == old(trace) + [InsertFilms(AllParams(input))]
      ensures View() == Step(g, old(View()), InsertFilms(AllParams(input)))
      ensures RunBatch(Tables(), AllParams(input)) == BatchOutcome(Tables(), 0, None)
    {
      assert AllParams(input) == [];
      RunSnoc(g, EMPTY, trace, InsertFilms([]));
      trace := trace + [InsertFilms([])];
      BornKeepsRows(g, trace[..|trace| - 1]);
    }

    // ---------- any event ----------

    method AdvanceAny(t: nat)
      requires Valid() && Enabled(View(), Advance(t))
      modifies this
      ensures Valid() && View() == Step(g, old(View()), Advance(t)) && trace == old(trace) + [Advance(t)]
    {
      var err := None;
      match txs[t].phase {
        case Begun => err := LockLowRow(t);
        case LowLocked(_) => LockHighRow(t);
        case BothLocked(_, _) => err := RateVote(t);
        case Rated(_) => err := InsertVoteRow(t);
        case Voted(v) => UpdateRatingRow(t, v.winner, v.winnerAfter);
        case WinnerWritten(v) => UpdateRatingRow(t, v.loser, v.loserAfter);
        case LoserWritten(_) => CommitTx(t);
      }
      if err.Some? {
        RollbackTx(t, err.value, Advance(t));
      }
    }

    /** What some other client does: any event that is enabled. */
    method Perform(e: Event)
      requires Valid() && Enabled(View(), e)
      modifies this
      ensures Valid() && View() == Step(g, old(View()), e) && trace == old(trace) + [e]
    {
      match e
      case Begin(duel, winner) => var _ := BeginTx(duel, winner);
      case Advance(t) => AdvanceAny(t);
      case Abort(t) => RollbackTx(t, DatabaseFailure, e);
      case CreateDuel(id, a, b) => var _ := CreateDuelRow(id, a, b);
      case InsertFilms(ps) => var _, _ := InsertParams(ps);
      case BurnSeq => DrawSeq();
    }
  }

  method BuildParams(input: seq<FilmInput>) returns (args: seq<FilmParams>)
    ensures args == AllParams(input)
  {
    args := [];
    for i := 0 to |input|
      invariant args == AllParams(input)[..i]
    {
      args := args + [ParamsOf(input[i])];
    }
  }

  /** The batch's result loop with the callback that counts the rows returned and keeps the
      first error; after a failed statement every later one reports an error too. */
  method QueryRows(db: Db, args: seq<FilmParams>) returns (after: Db, inserted: nat, err: Option<Error>)
    ensures RunBatch(db, args) == BatchOutcome(if err.Some? then db else after, inserted, err)
  {
    inserted, err, after := 0, None, db;
    for i := 0 to |args|
      invariant err.None? ==>
                  var rest := RunBatch(after, args[i..]);
                  RunBatch(db, args)
                  == BatchOutcome(if rest.err.Some? then db else rest.db, inserted + rest.inserted, rest.err)
      invariant err.Some? ==> RunBatch(db, args) == BatchOutcome(db, inserted, err)
    {
      if err.None? {
        assert args[i..][1..] == args[i + 1..];
        match InsertStatement(after, args[i])
        case Failure(e) => err := Some(e);
        case Success((next, counted)) =>
          after := next;
          if counted {
            inserted := inserted + 1;
          }
      }
    }
  }
}
