/** The rows of the schema that votes, duels and the catalogue read and write
    (migrations/20260530214103_init_schema.sql). */
module Tables {

  datatype Option<+T> = None | Some(value: T)

  datatype Result<+T, +E> = Success(value: T) | Failure(error: E)

  datatype FilmRow = FilmRow(rating: real, duelCount: int, popularity: real, director: int)

  type Films = map<int, FilmRow>

  datatype DuelRow = DuelRow(filmA: int, filmB: int)

  datatype VoteRow = VoteRow(duel: int, winner: int, loser: int, winnerAfter: real, loserAfter: real, appliedSeq: nat)
  {
    predicate Names(film: int) {
      film == winner || film == loser
    }

    predicate Shares(other: VoteRow) {
      Names(other.winner) || Names(other.loser)
    }
  }

  /** The committed tables.  `votes` lists the rows in the order they were committed. */
  datatype Db = Db(directors: set<int>, films: Films, duels: map<int, DuelRow>, votes: seq<VoteRow>)

  const EMPTY_DB: Db := Db({}, map[], map[], [])

  const MAX_INT32: int := 0x7fff_ffff

  type Int32 = x: int | -0x8000_0000 <= x <= MAX_INT32

  /** Go's conversion to int32, the width of every film id and of duel_count. */
  function ToInt32(x: int): (r: Int32)
    ensures -0x8000_0000 <= x <= MAX_INT32 ==> r == x
  {
    (x + 0x8000_0000) % 0x1_0000_0000 - 0x8000_0000
  }

  /** What is cut off is a multiple of 2^32. */
  lemma Int32IsCut(x: int)
    ensures (x - ToInt32(x)) % 0x1_0000_0000 == 0
  {
  }

  function Min(a: int, b: int): int { if a <= b then a else b }

  ghost predicate NoRepeats<T>(xs: seq<T>) {
    forall i, j :: 0 <= i < j < |xs| ==> xs[i] != xs[j]
  }

  lemma SubsetSize(a: set<int>, b: set<int>)
    requires a <= b
    ensures |a| <= |b|
    ensures |a| == |b| ==> a == b
  {
    assert b == a + (b - a);
    assert |b| == |a| + |b - a|;
    if |a| == |b| {
      assert b - a == {};
    }
  }

  lemma HasElement(s: set<int>)
    requires s != {}
    ensures exists x :: x in s
  {
    if forall x :: x !in s {
      assert false;
    }
  }
}
