/** The next duel for a film: the weighted draw among its candidates and the duel row
    (internal/duel/service.go). */
module Matchmaking {
  import opened Elo
  import opened Tables
  import opened Catalogue
  import opened Engine
  import opened Preservation
  import opened Runs
  import opened Server
  import C = Candidates

  datatype Candidate = Candidate(id: int, popularity: real, duelCount: int)

  datatype ServiceConfig = ServiceConfig(minCandidates: nat, maxCandidates: nat, ratingWindow: int,
                                         popularityWeight: real, newFilmBoost: real, newFilmDuelThreshold: int)
  {
    /** What the configuration loader accepts. */
    predicate Accepted() {
      0 < minCandidates <= maxCandidates && popularityWeight >= 0.0
    }
  }

  function CandidateWeight(cfg: ServiceConfig, c: Candidate): real {
    var w := 1.0 + c.popularity * cfg.popularityWeight;
    if cfg.newFilmBoost > 1.0 && c.duelCount < cfg.newFilmDuelThreshold then w * cfg.newFilmBoost else w
  }

  lemma ProductNonNegative(x: real, y: real)
    requires x >= 0.0 && y >= 0.0
    ensures x * y >= 0.0
  {
  }

  lemma ProductGrows(x: real, y: real)
    requires x >= 1.0 && y >= 1.0
    ensures x * y >= 1.0
  {
    ProductNonNegative(x - 1.0, y - 1.0);
    assert (x - 1.0) * (y - 1.0) == x * y - x - y + 1.0;
  }

  /** Every candidate keeps a chance: its weight is at least the baseline of one. */
  lemma WeightAtLeastOne(cfg: ServiceConfig, c: Candidate)
    requires c.popularity >= 0.0 && cfg.popularityWeight >= 0.0
    ensures CandidateWeight(cfg, c) >= 1.0
  {
    ProductNonNegative(c.popularity, cfg.popularityWeight);
    var w := 1.0 + c.popularity * cfg.popularityWeight;
    if cfg.newFilmBoost > 1.0 && c.duelCount < cfg.newFilmDuelThreshold {
      ProductGrows(w, cfg.newFilmBoost);
    }
  }

  /** A film with fewer duels than the threshold weighs `newFilmBoost` times what an
      established film of the same popularity weighs, if that is a boost at all. */
  lemma NewFilmIsBoosted(cfg: ServiceConfig, fresher: Candidate, established: Candidate)
    requires fresher.popularity == established.popularity
    requires fresher.duelCount < cfg.newFilmDuelThreshold <= established.duelCount
    ensures CandidateWeight(cfg, fresher)
            == if cfg.newFilmBoost > 1.0 then CandidateWeight(cfg, established) * cfg.newFilmBoost
               else CandidateWeight(cfg, established)
  {
  }

  /** An established film nobody has heard of weighs one, and each unit of popularity adds
      `popularityWeight` to it. */
  lemma PopularityAdds(cfg: ServiceConfig, c: Candidate, d: Candidate)
    requires cfg.newFilmDuelThreshold <= c.duelCount && cfg.newFilmDuelThreshold <= d.duelCount
    ensures c.popularity == 0.0 ==> CandidateWeight(cfg, c) == 1.0
    ensures CandidateWeight(cfg, d) - CandidateWeight(cfg, c) == (d.popularity - c.popularity) * cfg.popularityWeight
  {
    assert (d.popularity - c.popularity) * cfg.popularityWeight
        == d.popularity * cfg.popularityWeight - c.popularity * cfg.popularityWeight;
  }

  // ---------- the draw ----------

  /** The weight of the first i candidates. */
  function Prefix(ws: seq<real>, i: nat): real
    requires i <= |ws|
  {
    if i == 0 then 0.0 else Prefix(ws, i - 1) + ws[i - 1]
  }

  function Total(ws: seq<real>): real {
    Prefix(ws, |ws|)
  }

  function Weights(candidates: seq<Candidate>, weight: Candidate -> real): (ws: seq<real>)
    ensures |ws| == |candidates|
  {
    seq(|candidates|, i requires 0 <= i < |candidates| => weight(candidates[i]))
  }

  /** Index i is the first whose prefix passes r, or the last one if none does. */
  ghost predicate FirstPast(ws: seq<real>, r: real, i: nat) {
    && i < |ws|
    && (forall k :: 1 <= k <= i ==> Prefix(ws, k) <= r)
    && (r < Prefix(ws, i + 1) || i == |ws| - 1)
  }

  /** DrawFromCandidates, with the random number in [0, 1) as an input. */
  method DrawFromCandidates(candidates: seq<Candidate>, weight: Candidate -> real, unit: real)
    returns (id: int, ok: bool, index: nat)
    ensures ok <==> candidates != []
    ensures !ok ==> id == 0
    ensures ok ==> var ws := Weights(candidates, weight);
                   FirstPast(ws, unit * Total(ws), index) && id == candidates[index].id
  {
    if |candidates| == 0 {
      return 0, false, 0;
    }
    var total := TotalWeight(candidates, weight);
    var r := unit * total;
    index := PickPast(candidates, weight, r);
    return candidates[index].id, true, index;
  }

  /** The first loop of the draw. */
  method TotalWeight(candidates: seq<Candidate>, weight: Candidate -> real) returns (total: real)
    ensures total == Total(Weights(candidates, weight))
  {
    ghost var ws := Weights(candidates, weight);
    total := 0.0;
    for i := 0 to |candidates|
      invariant total == Prefix(ws, i)
    {
      total := total + weight(candidates[i]);
    }
  }

  /** The second loop, and the fall-through behind it. */
  method PickPast(candidates: seq<Candidate>, weight: Candidate -> real, start: real) returns (index: nat)
    requires candidates != []
    ensures FirstPast(Weights(candidates, weight), start, index)
  {
    ghost var ws := Weights(candidates, weight);
    var r := start;
    for i := 0 to |candidates|
      invariant r == start - Prefix(ws, i)
      invariant forall k :: 1 <= k <= i ==> Prefix(ws, k) <= start
    {
      r := r - weight(candidates[i]);
      if r < 0.0 {
        return i;
      }
    }
    return |candidates| - 1;
  }

  ghost predicate NonNegative(ws: seq<real>) {
    forall i :: 0 <= i < |ws| ==> ws[i] >= 0.0
  }

  /** r falls in the i-th interval, which is ws[i] long. */
  ghost predicate InInterval(ws: seq<real>, r: real, i: nat) {
    i < |ws| && Prefix(ws, i) <= r < Prefix(ws, i + 1)
  }

  lemma {:induction false} PrefixMonotone(ws: seq<real>, i: nat, j: nat)
    requires NonNegative(ws) && i <= j <= |ws|
    ensures Prefix(ws, i) <= Prefix(ws, j)
    decreases j - i
  {
    if i < j {
      PrefixMonotone(ws, i, j - 1);
    }
  }

  /** The intervals cover [0, total). */
  lemma {:induction false} IntervalsCover(ws: seq<real>, r: real, n: nat) returns (i: nat)
    requires NonNegative(ws) && n <= |ws| && 0.0 <= r < Prefix(ws, n)
    ensures i < n && InInterval(ws, r, i)
    decreases n
  {
    if r < Prefix(ws, n - 1) {
      i := IntervalsCover(ws, r, n - 1);
    } else {
      i := n - 1;
    }
  }

  /** The intervals do not overlap. */
  lemma IntervalsDisjoint(ws: seq<real>, r: real, i: nat, j: nat)
    requires NonNegative(ws) && InInterval(ws, r, i) && InInterval(ws, r, j)
    ensures i == j
  {
    if i < j {
      PrefixMonotone(ws, i + 1, j);
    } else if j < i {
      PrefixMonotone(ws, j + 1, i);
    }
  }

  /** Inverse-CDF sampling: for weights with a positive total and r below it, the drawn index
      is exactly the one whose interval holds r; so the loop's fall-through is never taken,
      and a candidate of weight zero is never drawn. */
  lemma DrawIsInverseCdf(ws: seq<real>, r: real, i: nat)
    requires NonNegative(ws) && 0.0 <= r < Total(ws)
    ensures FirstPast(ws, r, i) <==> InInterval(ws, r, i)
    ensures FirstPast(ws, r, i) ==> r < Prefix(ws, i + 1) && ws[i] > 0.0
    ensures exists k: nat :: FirstPast(ws, r, k)
  {
    if FirstPast(ws, r, i) {
      assert i > 0 ==> Prefix(ws, i) <= r;
    }
    if InInterval(ws, r, i) {
      IntervalIsFirst(ws, r, i);
    }
    var k := IntervalsCover(ws, r, |ws|);
    IntervalIsFirst(ws, r, k);
  }

  lemma IntervalIsFirst(ws: seq<real>, r: real, i: nat)
    requires NonNegative(ws) && InInterval(ws, r, i)
    ensures FirstPast(ws, r, i)
  {
    forall k | 1 <= k <= i ensures Prefix(ws, k) <= r {
      PrefixMonotone(ws, k, i);
    }
  }

  /** If every weight is zero the fall-through is taken: the last candidate is drawn. */
  lemma AllZeroDrawsLast(ws: seq<real>, unit: real, i: nat)
    requires forall j :: 0 <= j < |ws| ==> ws[j] == 0.0
    requires FirstPast(ws, unit * Total(ws), i)
    ensures i == |ws| - 1
  {
    ZeroPrefix(ws, |ws|);
    ZeroPrefix(ws, i + 1);
  }

  lemma {:induction false} ZeroPrefix(ws: seq<real>, n: nat)
    requires (forall j :: 0 <= j < |ws| ==> ws[j] == 0.0) && n <= |ws|
    ensures Prefix(ws, n) == 0.0
  {
    if n > 0 { ZeroPrefix(ws, n - 1); }
  }

  /** The random number `unit` makes the loop draw candidate i. */
  ghost predicate DrawnAt(ws: seq<real>, unit: real, i: nat) {
    0.0 <= unit < 1.0 && FirstPast(ws, unit * Total(ws), i)
  }

  /** Every candidate of positive weight is drawn for some random number in [0, 1). */
  lemma EveryWeightIsDrawn(ws: seq<real>, i: nat) returns (unit: real)
    requires NonNegative(ws) && i < |ws| && ws[i] > 0.0
    ensures DrawnAt(ws, unit, i)
  {
    var total := Total(ws);
    PrefixMonotone(ws, 0, i);
    PrefixMonotone(ws, i + 1, |ws|);
    unit := Prefix(ws, i) / total;
    assert unit * total == Prefix(ws, i);
    FractionInUnit(Prefix(ws, i), total);
    IntervalIsFirst(ws, Prefix(ws, i), i);
  }

  lemma FractionInUnit(a: real, b: real)
    requires 0.0 <= a < b
    ensures 0.0 <= a / b < 1.0
  {
    var q := a / b;
    assert q * b == a;
    if q < 0.0 || q >= 1.0 {
      assert (q - 1.0) * b == a - b;
    }
  }

  // ---------- the service ----------

  function Ids(candidates: seq<Candidate>): seq<int> {
    seq(|candidates|, i requires 0 <= i < |candidates| => candidates[i].id)
  }

  /** The rows FindCandidates returned on some table of films, with the columns it carries. */
  ghost predicate IsCandidateList(films: Films, cfg: ServiceConfig, winner: int, rows: seq<Candidate>) {
    && C.FindCandidates(films, winner, cfg.minCandidates, cfg.maxCandidates, cfg.ratingWindow as real, Ids(rows))
    && forall i :: 0 <= i < |rows| && rows[i].id in films ==>
         rows[i].popularity == films[rows[i].id].popularity && rows[i].duelCount == films[rows[i].id].duelCount
  }

  /** Films are never removed. */
  lemma {:induction false} FilmsStay(g: Curve, es: seq<Event>, fs: seq<Event>, film: int)
    requires es <= fs && film in Run(g, EMPTY, es).db.films
    ensures film in Run(g, EMPTY, fs).db.films
  {
    assert fs == es + fs[|es|..];
    RatingMovesOnlyWithCount(g, es, fs[|es|..], film);
  }

  /** The candidates are existing films other than the winner, each with weight one or more,
      and there are none exactly when the winner is unknown or alone. */
  lemma CandidatesAreOpponents(g: Curve, es: seq<Event>, cfg: ServiceConfig, winner: int, rows: seq<Candidate>)
    requires cfg.Accepted() && IsCandidateList(Run(g, EMPTY, es).db.films, cfg, winner, rows)
    ensures var films := Run(g, EMPTY, es).db.films;
            && (rows == [] <==> winner !in films || films.Keys == {winner})
            && (forall i :: 0 <= i < |rows| ==> rows[i].id in films && rows[i].id != winner)
            && (forall i :: 0 <= i < |rows| ==> CandidateWeight(cfg, rows[i]) >= 1.0)
  {
    ReachableInv(g, es);
    var films := Run(g, EMPTY, es).db.films;
    C.NoCandidatesIff(films, winner, cfg.minCandidates, cfg.maxCandidates, cfg.ratingWindow as real, Ids(rows));
    assert rows == [] <==> Ids(rows) == [];
    forall i | 0 <= i < |rows|
      ensures rows[i].id in films && rows[i].id != winner && CandidateWeight(cfg, rows[i]) >= 1.0
    {
      assert Ids(rows)[i] in Ids(rows);
      WeightAtLeastOne(cfg, rows[i]);
    }
  }

  function ServiceWeights(cfg: ServiceConfig, rows: seq<Candidate>): seq<real> {
    Weights(rows, c => CandidateWeight(cfg, c))
  }

  lemma ServiceWeightsPositive(cfg: ServiceConfig, rows: seq<Candidate>)
    requires forall i :: 0 <= i < |rows| ==> CandidateWeight(cfg, rows[i]) >= 1.0
    ensures |ServiceWeights(cfg, rows)| == |rows|
    ensures NonNegative(ServiceWeights(cfg, rows))
    ensures forall i :: 0 <= i < |rows| ==> ServiceWeights(cfg, rows)[i] > 0.0
  {
    forall i | 0 <= i < |rows| ensures ServiceWeights(cfg, rows)[i] >= 1.0 {
      assert ServiceWeights(cfg, rows)[i] == CandidateWeight(cfg, rows[i]);
    }
  }

  lemma PositiveIsDrawn(cfg: ServiceConfig, rows: seq<Candidate>, i: nat) returns (unit: real)
    requires i < |rows| && forall j :: 0 <= j < |rows| ==> CandidateWeight(cfg, rows[j]) >= 1.0
    ensures DrawnAt(ServiceWeights(cfg, rows), unit, i)
  {
    ServiceWeightsPositive(cfg, rows);
    unit := EveryWeightIsDrawn(ServiceWeights(cfg, rows), i);
  }

  /** Each of them is drawn for some random number. */
  lemma EveryCandidateIsDrawn(g: Curve, es: seq<Event>, cfg: ServiceConfig, winner: int, rows: seq<Candidate>, i: nat)
    requires cfg.Accepted() && IsCandidateList(Run(g, EMPTY, es).db.films, cfg, winner, rows) && i < |rows|
    ensures exists unit :: DrawnAt(ServiceWeights(cfg, rows), unit, i)
  {
    CandidatesAreOpponents(g, es, cfg, winner, rows);
    var unit := PositiveIsDrawn(cfg, rows, i);
    assert DrawnAt(ServiceWeights(cfg, rows), unit, i);
  }

  lemma DividedBound(x: real, unit: real, total: real)
    requires total > 0.0
    ensures x <= unit * total <==> x / total <= unit
  {
    var q := x / total;
    assert q * total == x;
    if q <= unit {
      ProductNonNegative(unit - q, total);
      assert (unit - q) * total == unit * total - x;
    } else {
      ProductPositive(q - unit, total);
      assert (q - unit) * total == x - unit * total;
    }
  }

  lemma ProductPositive(x: real, y: real)
    requires x > 0.0 && y > 0.0
    ensures x * y > 0.0
  {
  }

  lemma QuotientDifference(x: real, y: real, total: real)
    requires total > 0.0
    ensures y / total - x / total == (y - x) / total
  {
    var p, q, r := x / total, y / total, (y - x) / total;
    assert p * total == x && q * total == y && r * total == y - x;
    assert (q - p - r) * total == 0.0;
  }

  /** Each candidate's chance is its share of the total weight: the random numbers in [0, 1)
      that draw it are an interval of that length. */
  lemma ChanceIsShareOfWeight(cfg: ServiceConfig, rows: seq<Candidate>, i: nat) returns (lo: real, hi: real)
    requires i < |rows| && forall j :: 0 <= j < |rows| ==> CandidateWeight(cfg, rows[j]) >= 1.0
    ensures Total(ServiceWeights(cfg, rows)) > 0.0
    ensures hi - lo == CandidateWeight(cfg, rows[i]) / Total(ServiceWeights(cfg, rows))
    ensures forall unit: real :: 0.0 <= unit < 1.0 ==>
              (DrawnAt(ServiceWeights(cfg, rows), unit, i) <==> lo <= unit < hi)
  {
    var ws := ServiceWeights(cfg, rows);
    ServiceWeightsPositive(cfg, rows);
    TotalPositive(ws, i);
    lo, hi := Prefix(ws, i) / Total(ws), Prefix(ws, i + 1) / Total(ws);
    QuotientDifference(Prefix(ws, i), Prefix(ws, i + 1), Total(ws));
    forall unit: real | 0.0 <= unit < 1.0 ensures DrawnAt(ws, unit, i) <==> lo <= unit < hi {
      DrawnInUnit(ws, unit, i);
    }
  }

  lemma DrawnInUnit(ws: seq<real>, unit: real, i: nat)
    requires NonNegative(ws) && i < |ws| && Total(ws) > 0.0 && 0.0 <= unit < 1.0
    ensures DrawnAt(ws, unit, i) <==> Prefix(ws, i) / Total(ws) <= unit < Prefix(ws, i + 1) / Total(ws)
  {
    DrawnInInterval(ws, unit, i);
    DividedBound(Prefix(ws, i), unit, Total(ws));
    DividedBound(Prefix(ws, i + 1), unit, Total(ws));
  }

  lemma TotalPositive(ws: seq<real>, i: nat)
    requires NonNegative(ws) && i < |ws| && ws[i] > 0.0
    ensures Total(ws) > 0.0
  {
    PrefixMonotone(ws, 0, i);
    PrefixMonotone(ws, i + 1, |ws|);
  }

  lemma BelowTotal(unit: real, total: real)
    requires 0.0 <= unit < 1.0 && total > 0.0
    ensures 0.0 <= unit * total < total
  {
    ProductNonNegative(unit, total);
    ProductPositive(1.0 - unit, total);
    assert (1.0 - unit) * total == total - unit * total;
  }

  /** Film `id` is the candidate in whose interval the random number falls, the intervals
      being as long as the weights. */
  ghost predicate DrawnByWeight(cfg: ServiceConfig, rows: seq<Candidate>, unit: real, i: nat, id: int) {
    var ws := ServiceWeights(cfg, rows);
    i < |rows| && rows[i].id == id && InInterval(ws, unit * Total(ws), i)
  }

  lemma DrawnInInterval(ws: seq<real>, unit: real, i: nat)
    requires NonNegative(ws) && Total(ws) > 0.0 && 0.0 <= unit < 1.0
    ensures FirstPast(ws, unit * Total(ws), i) <==> InInterval(ws, unit * Total(ws), i)
  {
    BelowTotal(unit, Total(ws));
    DrawIsInverseCdf(ws, unit * Total(ws), i);
  }

  lemma DrawnIsByWeight(cfg: ServiceConfig, rows: seq<Candidate>, unit: real, i: nat)
    requires forall j :: 0 <= j < |rows| ==> CandidateWeight(cfg, rows[j]) >= 1.0
    requires 0.0 <= unit < 1.0 && i < |rows|
    requires FirstPast(ServiceWeights(cfg, rows), unit * Total(ServiceWeights(cfg, rows)), i)
    ensures DrawnByWeight(cfg, rows, unit, i, rows[i].id)
  {
    ServiceWeightsPositive(cfg, rows);
    TotalPositive(ServiceWeights(cfg, rows), i);
    DrawnInInterval(ServiceWeights(cfg, rows), unit, i);
  }

  lemma OpponentStays(g: Curve, es: seq<Event>, fs: seq<Event>, cfg: ServiceConfig, winner: int, rows: seq<Candidate>,
                      i: nat)
    requires cfg.Accepted() && IsCandidateList(Run(g, EMPTY, es).db.films, cfg, winner, rows)
    requires es <= fs && i < |rows|
    ensures winner in Run(g, EMPTY, fs).db.films && rows[i].id in Run(g, EMPTY, fs).db.films
    ensures rows[i].id != winner && rows[i].id in Ids(rows)
  {
    CandidatesAreOpponents(g, es, cfg, winner, rows);
    FilmsStay(g, es, fs, winner);
    FilmsStay(g, es, fs, rows[i].id);
    assert Ids(rows)[i] == rows[i].id;
  }

  /** The draw with the service's weights. */
  method DrawOpponent(cfg: ServiceConfig, rows: seq<Candidate>, unit: real) returns (id: int, ok: bool, index: nat)
    requires forall j :: 0 <= j < |rows| ==> CandidateWeight(cfg, rows[j]) >= 1.0
    requires 0.0 <= unit < 1.0
    ensures ok <==> rows != []
    ensures ok ==> index < |rows| && rows[index].id == id && DrawnByWeight(cfg, rows, unit, index, id)
  {
    id, ok, index := DrawFromCandidates(rows, c => CandidateWeight(cfg, c), unit);
    if ok {
      DrawnIsByWeight(cfg, rows, unit, index);
    }
  }

  /** DuelFromFilm.  `rows` are the candidates the database returned at some earlier moment
      (`asOf`) of the same history; `newId` is the generated duel id.  The call fails with
      NoCandidates exactly when there were none, and otherwise stores a duel between the
      film and one of them, which is another existing film: the one the random number draws. */
  method DuelFromFilm(db: Database, cfg: ServiceConfig, filmId: int, rows: seq<Candidate>, ghost asOf: seq<Event>,
                      unit: real, newId: int)
    returns (r: Result<int, Error>)
    requires db.Valid() && cfg.Accepted() && asOf <= db.trace && newId !in db.duels && 0.0 <= unit < 1.0
    requires IsCandidateList(Run(db.g, EMPTY, asOf).db.films, cfg, filmId, rows)
    modifies db
    ensures db.Valid() && db.films == old(db.films) && db.votes == old(db.votes)
    ensures r == Failure(NoCandidates) <==> rows == []
    ensures r.Failure? <==> filmId !in Run(db.g, EMPTY, asOf).db.films || Run(db.g, EMPTY, asOf).db.films.Keys == {filmId}
    ensures r.Failure? ==> db.View() == old(db.View())
    ensures r.Success? ==> r.value == newId && newId in db.duels
                           && db.duels == old(db.duels)[newId := db.duels[newId]]
                           && db.duels[newId].filmA == filmId && db.duels[newId].filmA != db.duels[newId].filmB
                           && db.duels[newId].filmA in db.films && db.duels[newId].filmB in db.films
                           && db.duels[newId].filmB in Ids(rows)
    ensures r.Success? ==> newId in db.duels && exists i: nat :: DrawnByWeight(cfg, rows, unit, i, db.duels[newId].filmB)
  {
    CandidatesAreOpponents(db.g, asOf, cfg, filmId, rows);
    var fid, ok, index := DrawOpponent(cfg, rows, unit);
    if !ok {
      return Failure(NoCandidates);
    }
    OpponentStays(db.g, asOf, db.trace, cfg, filmId, rows, index);
    var created := db.CreateDuelRow(newId, filmId, fid);
    return Success(newId);
  }
}
