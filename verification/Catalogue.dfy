/** The batch insert into the catalogue (internal/database/queries/films.sql), the other
    writer of the film table. */
module Catalogue {
  import opened Elo
  import opened Tables

  datatype Error =
    | NotEnoughFilms
    | FilmNotInDuel
    | DuplicateEntry
    | FilmNotFound
    | InvalidInput
    | NoCandidates
    | DatabaseFailure

  /** One parameter row.  `checksPass` is the outcome of the CHECKs on columns that are not
      modelled: title, release year, vote average and the director's name. */
  datatype FilmParams = FilmParams(id: Int32, rating: real, popularity: real, director: Int32, checksPass: bool)
  {
    predicate Valid() { checksPass && popularity >= 0.0 }

    function Row(): FilmRow { FilmRow(rating, 0, popularity, director) }
  }

  /** The rows of the `new_director` CTE: the id is returned only if it was not there. */
  function NewDirector(directors: set<int>, id: int): seq<int> {
    if id in directors then [] else [id]
  }

  /** The rows of the `director` CTE.  Its second branch reads the statement's snapshot and
      so does not see what `new_director` inserted. */
  function DirectorRows(directors: set<int>, id: int): seq<int> {
    NewDirector(directors, id) + if id in directors then [id] else []
  }

  /** INSERT INTO films SELECT .. FROM director ON CONFLICT DO NOTHING RETURNING id: the film
      table and the number of rows returned, for one attempt per director row. */
  function InsertFilmRows(films: Films, p: FilmParams, directorRows: seq<int>): (Films, nat)
    decreases |directorRows|
  {
    if directorRows == [] then (films, 0)
    else if p.id in films then InsertFilmRows(films, p, directorRows[1..])
    else
      var (rest, n) := InsertFilmRows(films[p.id := p.Row().(director := directorRows[0])], p, directorRows[1..]);
      (rest, n + 1)
  }

  /** One statement of the batch: the tables after it and whether it returned a row. */
  function InsertStatement(db: Db, p: FilmParams): Result<(Db, bool), Error> {
    if !p.Valid() then Failure(InvalidInput)
    else
      var newRows := NewDirector(db.directors, p.director);
      var (films, returned) := InsertFilmRows(db.films, p, DirectorRows(db.directors, p.director));
      Success((db.(directors := db.directors + (set d | d in newRows), films := films), returned > 0))
  }

  /** The whole batch as the caller sees it: the tables, the number of rows counted, and the
      first error.  A failed statement aborts the batch, so nothing of it is kept, but the
      rows counted before it stay counted. */
  datatype BatchOutcome = BatchOutcome(db: Db, inserted: nat, err: Option<Error>)

  function RunBatch(db: Db, ps: seq<FilmParams>): BatchOutcome
    decreases |ps|
  {
    if ps == [] then BatchOutcome(db, 0, None)
    else
      match InsertStatement(db, ps[0])
      case Failure(e) => BatchOutcome(db, 0, Some(e))
      case Success((next, counted)) =>
        var rest := RunBatch(next, ps[1..]);
        BatchOutcome(if rest.err.Some? then db else rest.db, rest.inserted + (if counted then 1 else 0), rest.err)
  }

  // ---------- the meaning of a batch ----------

  /** Whether or not the director existed, the CTE yields exactly one row, so a film that
      passes the checks is inserted precisely when its id is new. */
  lemma OneDirectorRow(db: Db, p: FilmParams)
    requires p.Valid()
    ensures DirectorRows(db.directors, p.director) == [p.director]
    ensures InsertStatement(db, p)
            == Success((AddOne(db, p), p.id !in db.films))
  {
    var rows := DirectorRows(db.directors, p.director);
    assert rows == [p.director];
    assert rows[1..] == [];
    var newRows := NewDirector(db.directors, p.director);
    assert db.directors + (set d | d in newRows) == db.directors + {p.director};
    assert p.Row().(director := p.director) == p.Row();
    var films := if p.id in db.films then db.films else db.films[p.id := p.Row()];
    assert InsertFilmRows(films, p, []) == (films, 0);
    assert InsertFilmRows(db.films, p, rows) == (films, if p.id in db.films then 0 else 1);
  }

  function Ids(ps: seq<FilmParams>): set<int>
    decreases |ps|
  {
    if ps == [] then {} else {ps[0].id} + Ids(ps[1..])
  }

  function DirectorIds(ps: seq<FilmParams>): set<int>
    decreases |ps|
  {
    if ps == [] then {} else {ps[0].director} + DirectorIds(ps[1..])
  }

  /** The row the batch would store for an id: that of its first parameter row. */
  function FirstRow(ps: seq<FilmParams>, id: int): Option<FilmRow>
    decreases |ps|
  {
    if ps == [] then None
    else if ps[0].id == id then Some(ps[0].Row())
    else FirstRow(ps[1..], id)
  }

  ghost predicate DirectorsExist(db: Db) {
    forall id :: id in db.films ==> db.films[id].director in db.directors
  }

  ghost predicate AllValid(ps: seq<FilmParams>) {
    forall p :: p in ps ==> p.Valid()
  }

  /** A batch fails exactly when some row fails a check, and then keeps nothing. */
  lemma {:induction false} BatchFailsIffInvalid(db: Db, ps: seq<FilmParams>)
    ensures var out := RunBatch(db, ps);
            && (out.err.None? <==> AllValid(ps))
            && (out.err.Some? ==> out.db == db && out.err == Some(InvalidInput))
    decreases |ps|
  {
    if ps != [] {
      assert forall q :: q in ps <==> q == ps[0] || q in ps[1..];
      if ps[0].Valid() {
        OneDirectorRow(db, ps[0]);
        BatchFailsIffInvalid(InsertStatement(db, ps[0]).value.0, ps[1..]);
      }
    }
  }

  /** The film table with every absent id of the batch added, with the row of its first
      parameters, and every existing row untouched. */
  ghost predicate AddsAbsent(films: Films, ps: seq<FilmParams>, after: Films) {
    && after.Keys == films.Keys + Ids(ps)
    && forall id :: id in after ==>
         if id in films then after[id] == films[id] else FirstRow(ps, id) == Some(after[id])
  }

  /** What a batch of valid rows leaves; its count is the number of distinct new ids. */
  ghost predicate InsertsAbsent(db: Db, ps: seq<FilmParams>, out: BatchOutcome) {
    && out.db.duels == db.duels && out.db.votes == db.votes
    && out.db.directors == db.directors + DirectorIds(ps)
    && AddsAbsent(db.films, ps, out.db.films)
    && out.inserted == |Ids(ps) - db.films.Keys|
  }

  /** The tables after one valid parameter row. */
  function AddOne(db: Db, p: FilmParams): Db {
    db.(directors := db.directors + {p.director},
        films := if p.id in db.films then db.films else db.films[p.id := p.Row()])
  }

  lemma BatchStep(db: Db, ps: seq<FilmParams>)
    requires ps != [] && RunBatch(db, ps).err.None?
    ensures var rest := RunBatch(AddOne(db, ps[0]), ps[1..]);
            && rest.err.None?
            && AddOne(db, ps[0]).films.Keys == db.films.Keys + {ps[0].id}
            && RunBatch(db, ps) == rest.(inserted := rest.inserted + if ps[0].id in db.films then 0 else 1)
  {
    BatchFailsIffInvalid(db, ps);
    assert ps[0] in ps;
    OneDirectorRow(db, ps[0]);
  }

  lemma AddsCompose(films: Films, ps: seq<FilmParams>, next: Films, after: Films)
    requires ps != []
    requires next == if ps[0].id in films then films else films[ps[0].id := ps[0].Row()]
    requires AddsAbsent(next, ps[1..], after)
    ensures AddsAbsent(films, ps, after)
  {
  }

  lemma CountsCompose(films: set<int>, next: set<int>, ps: seq<FilmParams>)
    requires ps != [] && next == films + {ps[0].id}
    ensures |Ids(ps) - films| == |Ids(ps[1..]) - next| + if ps[0].id in films then 0 else 1
  {
    var id, rest := ps[0].id, Ids(ps[1..]);
    if id in films {
      assert Ids(ps) - films == rest - next;
    } else {
      assert Ids(ps) - films == {id} + (rest - next);
    }
  }

  lemma {:induction false} BatchRows(db: Db, ps: seq<FilmParams>)
    requires RunBatch(db, ps).err.None?
    ensures AddsAbsent(db.films, ps, RunBatch(db, ps).db.films)
    decreases |ps|
  {
    if ps != [] {
      var next := AddOne(db, ps[0]);
      BatchStep(db, ps);
      BatchRows(next, ps[1..]);
      AddsCompose(db.films, ps, next.films, RunBatch(db, ps).db.films);
    }
  }

  lemma {:induction false} BatchCount(db: Db, ps: seq<FilmParams>)
    requires RunBatch(db, ps).err.None?
    ensures RunBatch(db, ps).inserted == |Ids(ps) - db.films.Keys|
    decreases |ps|
  {
    if ps != [] {
      var next := AddOne(db, ps[0]);
      BatchStep(db, ps);
      BatchCount(next, ps[1..]);
      CountsCompose(db.films.Keys, next.films.Keys, ps);
    }
  }

  lemma {:induction false} BatchOthers(db: Db, ps: seq<FilmParams>)
    requires RunBatch(db, ps).err.None?
    ensures var after := RunBatch(db, ps).db;
            && after.duels == db.duels && after.votes == db.votes
            && after.directors == db.directors + DirectorIds(ps)
    decreases |ps|
  {
    if ps != [] {
      BatchStep(db, ps);
      BatchOthers(AddOne(db, ps[0]), ps[1..]);
    }
  }

  /** A batch without error is insert-if-absent for every id. */
  lemma BatchInsertsAbsent(db: Db, ps: seq<FilmParams>)
    requires RunBatch(db, ps).err.None?
    ensures InsertsAbsent(db, ps, RunBatch(db, ps))
  {
    BatchRows(db, ps);
    BatchCount(db, ps);
    BatchOthers(db, ps);
  }

  lemma BatchKeepsDirectors(db: Db, ps: seq<FilmParams>)
    requires DirectorsExist(db)
    ensures DirectorsExist(RunBatch(db, ps).db)
  {
    BatchFailsIffInvalid(db, ps);
    var out := RunBatch(db, ps);
    if out.err.None? {
      BatchInsertsAbsent(db, ps);
      forall id | id in out.db.films ensures out.db.films[id].director in out.db.directors {
        if id !in db.films {
          FirstRowIsFromBatch(ps, id);
        }
      }
    }
  }

  lemma {:induction false} FirstRowIsFromBatch(ps: seq<FilmParams>, id: int)
    requires FirstRow(ps, id).Some?
    ensures FirstRow(ps, id).value.director in DirectorIds(ps)
    decreases |ps|
  {
    if ps[0].id != id {
      FirstRowIsFromBatch(ps[1..], id);
    }
  }

  /** The row stored for an id is that of the first parameters that have it. */
  lemma {:induction false} FirstRowIsFirst(ps: seq<FilmParams>, id: int) returns (i: nat)
    requires FirstRow(ps, id).Some?
    ensures i < |ps| && ps[i].id == id && FirstRow(ps, id).value == ps[i].Row()
    ensures forall j :: 0 <= j < i ==> ps[j].id != id
    decreases |ps|
  {
    if ps[0].id == id {
      i := 0;
    } else {
      var k := FirstRowIsFirst(ps[1..], id);
      i := k + 1;
      assert forall j :: 1 <= j < i ==> ps[j] == ps[1..][j - 1];
    }
  }

  lemma {:induction false} IdsAreAll(ps: seq<FilmParams>, id: int)
    ensures id in Ids(ps) <==> exists i :: 0 <= i < |ps| && ps[i].id == id
    decreases |ps|
  {
    if ps != [] {
      IdsAreAll(ps[1..], id);
      if i :| 0 <= i < |ps| && ps[i].id == id && i > 0 {
        assert ps[1..][i - 1].id == id;
      }
      if i :| 0 <= i < |ps[1..]| && ps[1..][i].id == id {
        assert ps[i + 1].id == id;
      }
    }
  }

  /** Repeating a batch that succeeded inserts nothing and changes nothing. */
  lemma BatchIsIdempotent(db: Db, ps: seq<FilmParams>)
    requires RunBatch(db, ps).err.None?
    ensures RunBatch(RunBatch(db, ps).db, ps) == BatchOutcome(RunBatch(db, ps).db, 0, None)
  {
    BatchInsertsAbsent(db, ps);
    BatchFailsIffInvalid(db, ps);
    RepeatingAddsNothing(RunBatch(db, ps).db, ps);
  }

  lemma RepeatingAddsNothing(db: Db, ps: seq<FilmParams>)
    requires AllValid(ps)
    requires Ids(ps) <= db.films.Keys && DirectorIds(ps) <= db.directors
    ensures RunBatch(db, ps) == BatchOutcome(db, 0, None)
  {
    BatchFailsIffInvalid(db, ps);
    BatchInsertsAbsent(db, ps);
    var out := RunBatch(db, ps).db;
    assert Ids(ps) - db.films.Keys == {};
    assert out.films.Keys == db.films.Keys;
    assert forall id :: id in out.films ==> id in db.films.Keys && out.films[id] == db.films[id];
    assert out.films == db.films;
    assert out.directors == db.directors;
  }

  /** The count is only meaningful without an error: a batch of a new film followed by an
      invalid one reports one inserted row, and keeps none. */
  lemma CountedButNotKept(id: Int32, director: Int32, bad: FilmParams)
    requires !bad.Valid()
    ensures var out := RunBatch(EMPTY_DB, [FilmParams(id, STD_RATING, 0.0, director, true), bad]);
            out.inserted == 1 && out.err == Some(InvalidInput) && out.db.films == map[]
  {
    var p := FilmParams(id, STD_RATING, 0.0, director, true);
    OneDirectorRow(EMPTY_DB, p);
    assert [p, bad][1..] == [bad];
  }

  /** How many parameter rows pass the checks before the first that does not. */
  function ValidPrefix(ps: seq<FilmParams>): (n: nat)
    ensures n <= |ps|
    decreases |ps|
  {
    if ps == [] || !ps[0].Valid() then 0 else 1 + ValidPrefix(ps[1..])
  }

  lemma {:induction false} ValidPrefixIsAll(ps: seq<FilmParams>)
    ensures ValidPrefix(ps) == |ps| <==> AllValid(ps)
    decreases |ps|
  {
    if ps != [] {
      assert forall q :: q in ps <==> q == ps[0] || q in ps[1..];
      ValidPrefixIsAll(ps[1..]);
    }
  }

  /** The number of distinct new ids among the rows before the first invalid one. */
  function NewIdsCounted(ps: seq<FilmParams>, films: set<int>): nat {
    |Ids(ps[..ValidPrefix(ps)]) - films|
  }

  lemma NewIdsStep(ps: seq<FilmParams>, films: set<int>, next: set<int>)
    requires ps != [] && ps[0].Valid() && next == films + {ps[0].id}
    ensures NewIdsCounted(ps, films) == NewIdsCounted(ps[1..], next) + if ps[0].id in films then 0 else 1
  {
    PrefixStep(ps);
    CountsCompose(films, next, ps[..ValidPrefix(ps)]);
  }

  lemma PrefixStep(ps: seq<FilmParams>)
    requires ps != [] && ps[0].Valid()
    ensures var kept := ps[..ValidPrefix(ps)];
            kept != [] && kept[0] == ps[0] && kept[1..] == ps[1..][..ValidPrefix(ps[1..])]
  {
  }

  /** The number the caller is told. */
  function ReportedCount(db: Db, ps: seq<FilmParams>): nat {
    RunBatch(db, ps).inserted
  }

  lemma NothingCounted(db: Db, ps: seq<FilmParams>)
    requires ps == [] || !ps[0].Valid()
    ensures ReportedCount(db, ps) == 0 && NewIdsCounted(ps, db.films.Keys) == 0
  {
    assert ps[..ValidPrefix(ps)] == [];
  }

  lemma CountStep(db: Db, ps: seq<FilmParams>)
    requires ps != [] && ps[0].Valid()
    ensures AddOne(db, ps[0]).films.Keys == db.films.Keys + {ps[0].id}
    ensures ReportedCount(db, ps) == ReportedCount(AddOne(db, ps[0]), ps[1..]) + if ps[0].id in db.films then 0 else 1
  {
    OneDirectorRow(db, ps[0]);
  }

  /** With or without an error, the count is the number of distinct new ids among the rows
      before the first invalid one. */
  lemma {:induction false} CountIsOfValidPrefix(db: Db, ps: seq<FilmParams>)
    ensures ReportedCount(db, ps) == NewIdsCounted(ps, db.films.Keys)
    decreases |ps|
  {
    if ps == [] || !ps[0].Valid() {
      NothingCounted(db, ps);
    } else {
      CountIsOfValidPrefix(AddOne(db, ps[0]), ps[1..]);
      CountStep(db, ps);
      NewIdsStep(ps, db.films.Keys, AddOne(db, ps[0]).films.Keys);
    }
  }

  lemma NoneIsNew(ids: set<int>, films: set<int>)
    ensures |ids - films| == 0 <==> ids <= films
  {
    if |ids - films| == 0 {
      forall id | id in ids ensures id in films {
        assert id !in ids - films;
      }
    } else {
      HasElement(ids - films);
    }
  }

  lemma AddedAreCounted(db: Db, ps: seq<FilmParams>)
    requires AllValid(ps)
    ensures |RunBatch(db, ps).db.films| == |db.films| + ReportedCount(db, ps)
  {
    BatchFailsIffInvalid(db, ps);
    BatchInsertsAbsent(db, ps);
    var films := RunBatch(db, ps).db.films;
    assert films.Keys == db.films.Keys + (Ids(ps) - db.films.Keys);
    assert |films.Keys| == |db.films.Keys| + |Ids(ps) - db.films.Keys|;
    assert |films| == |films.Keys| && |db.films| == |db.films.Keys|;
  }

  /** Exactly when the reported count is the number of films the batch added: every row is
      valid, or no row before the first invalid one is new. */
  lemma CountIsKeptIff(db: Db, ps: seq<FilmParams>)
    ensures |RunBatch(db, ps).db.films| == |db.films| + ReportedCount(db, ps)
            <==> AllValid(ps) || Ids(ps[..ValidPrefix(ps)]) <= db.films.Keys
  {
    if AllValid(ps) {
      AddedAreCounted(db, ps);
    } else {
      BatchFailsIffInvalid(db, ps);
      CountIsOfValidPrefix(db, ps);
      NoneIsNew(Ids(ps[..ValidPrefix(ps)]), db.films.Keys);
    }
  }
}
